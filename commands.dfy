/** The three operations behind the menu (commands/docker.go, and their copies
    in main.go). The `docker` process is not run: its output, or its failure,
    arrives as a parameter. */
module Commands {
  import opened Wrappers
  import opened Images
  import Lines

  /** Why an operation produced no text. */
  datatype CommandError =
    | UnknownCommand(index: int)   // no operation is registered at the menu index
    | CommandFailed(cause: string) // the docker call failed and the error was returned
    | ProcessExit(code: int)       // the docker call failed and the process exited with `code`

  /** The table view (the bubbles table), left abstract: columns and rows in, text out. */
  type TableRenderer = (seq<Column>, seq<Row>) -> string

  /** The running-containers listing: the docker output verbatim, or its error. */
  function DockerPs(run: Result<string, string>): (r: Result<string, CommandError>)
    ensures r.Ok? <==> run.Ok?
    ensures r.Ok? ==> r.value == run.value
    ensures r.Err? ==> r.error == CommandFailed(run.error)
  {
    match run
    case Ok(out) => Ok(out)
    case Err(cause) => Err(CommandFailed(cause))
  }

  /** What the image listing yields for a given docker outcome: a failed call
      ends the process with exit code 1; otherwise the table, with the given
      column headings, of the decodable lines, one row per image, in input order. */
  function ImagesOutcome(run: Result<string, string>, decode: Decoder, render: TableRenderer, columns: seq<Column>)
    : (r: Result<string, CommandError>)
    ensures r.Err? <==> run.Err?
    ensures r.Err? ==> r.error == ProcessExit(1)
  {
    match run
    case Err(_) => Err(ProcessExit(1))
    case Ok(out) => Ok(render(columns, ImageRows(ParseImages(Lines.SplitLines(out), decode))))
  }

  /** The image listing of commands/docker.go, built step by step as the
      source does, with that file's column headings. */
  method DockerImages(run: Result<string, string>, decode: Decoder, render: TableRenderer)
    returns (r: Result<string, CommandError>)
    ensures r == ImagesOutcome(run, decode, render, CommandsColumns())
  {
    if run.Err? {
      return Err(ProcessExit(1));
    }
    var rows := BuildImageRows(run.value, decode);
    var columns := CommandsColumns();
    var table := render(columns, rows);
    return Ok(table);
  }

  /** The placeholder pull: a fixed acknowledgement, no docker call. */
  function DockerPull(): (r: Result<string, CommandError>)
    ensures r.Ok? && r.value == "docker pull"
  {
    Ok("docker pull")
  }
}
