# go-docker dashboard, modelled in Dafny

A terminal dashboard over the `docker` CLI. It shows a menu of three entries:
"Docker PS", "Docker Images" and "Docker Pull". Keys move a cursor over the menu
or run the selected entry. The entry's output goes into a right-hand pane.

This project models the logic of that dashboard. The terminal, the `docker`
process and the rendering libraries are left out.

- `lines.dfy` (module `Lines`): `strings.Split(s, "\n")` as `SplitLines`. Its inverse is
  `JoinLines`. `Terminated` writes each line followed by a newline. Lemmas prove the
  round trips in both directions.
- `images.dfy` (module `Images`): the image listing.
  - The `DockerImage` record has all eleven string fields.
  - `ParseImages` is the filter-map over lines: empty lines and lines that do not
    decode are skipped.
  - `ImageRows` gives one `[Repository, Tag, ID]` row per image.
  - `ImageColumns` is the corrected column set: Repository, Tag, ID.
  - `MainGoColumns` and `CommandsColumns` are the titles that main.go:203-207 and
    commands/docker.go:65-69 declare. The operations render with these.
  - `BuildImageRows` runs the two loops of the source over a sequence.
  - JSON decoding is a parameter `decode: string -> Option<DockerImage>`.
- `commands.dfy` (module `Commands`): the three operations.
  - `DockerPs` passes the output through verbatim.
  - `DockerImages` is a method, specified by the function `ImagesOutcome`.
  - `DockerPull` returns the constant "docker pull".
  - The outcome of each `docker` call is a `Result<string, string>` parameter.
  - The table view is a parameter `render`.
- `dashboard.dfy` (module `Dashboard`), modelling main.go:
  - the `Model` value and `InitialModel`;
  - the registry `CommandFuncs` and `ExecuteCommand`;
  - the key handling, as the function `Transition` and the method `Update` that
    performs it step by step on a copy of the model;
  - `Replay`, the interaction loop over a sequence of events;
  - the menu pane, as the function `MenuLines` and the method `View`.
  - The lipgloss side-by-side layout is a parameter `layout`.
  - `View` is specified by a function of the model, so identical models give
    identical screens.

Go's `model` is a value type and `Update` has a value receiver. So the model is a
datatype, and `Update` returns the changed copy together with the runtime command.
The command is `NoCmd` for nil, `QuitCmd` for `tea.Quit`, or `ExitProcess(code)`.

The model keeps these behaviours of the code as they are:
- When `docker images` fails, `dockerImages` calls `os.Exit(1)` (main.go:180-183,
  commands/docker.go:42-45). `dockerPs` returns the error instead. The model keeps
  this inconsistency: `ProcessExit(1)` versus `CommandFailed(cause)`. A failed
  invoke quits the loop; an exit ends the process.
- Each file passes its own column titles to the table. main.go uses ID, Repository,
  Tag (`MainGoColumns`), and commands/docker.go uses Repositoy, Tag, ID
  (`CommandsColumns`). Neither matches the row order Repository, Tag, ID; see
  "## Findings".
- Fields missing from a record decode to empty strings rather than "absent". This
  lives inside the abstract `decode`.

## Model

| member | source | states |
|---|---|---|
| `Lines.SplitLines` | commands/docker.go:48 | Splitting on "\n" yields at least one piece, and no piece contains a newline |
| `Lines.JoinSplit` | commands/docker.go:48 | Joining the split pieces with "\n" gives back the original output |
| `Lines.SplitJoin` | main.go:186 | Splitting pieces that were joined gives the pieces back, when none contains a newline |
| `Images.ParseImages` | commands/docker.go:51-64 | The decoded images, skipping empty and undecodable lines; never more images than lines |
| `Images.ParseImagesAppend` | commands/docker.go:63 | Images are appended in input order: decoding a concatenation gives the images of the first part, then those of the second |
| `Images.ParseImagesMembership` | commands/docker.go:52-63 | An image is in the result if and only if some non-empty line decodes to it; other lines produce nothing and raise no error |
| `Images.ParseImagesCount` | commands/docker.go:52-64 | There are exactly as many images as non-empty lines that decode |
| `Images.NothingDecodableNoImages` | commands/docker.go:47-64 | The result is empty if and only if every line is empty or fails to decode |
| `Images.ImageRows` | commands/docker.go:70-78 | One row per image, in order; each row has one cell per column, and each cell holds the field its column title names |
| `Images.MainGoColumns` | main.go:203-207 | main.go declares three columns, each of width 30, each titled with an image field's name (ID, Repository, Tag) |
| `Images.CommandsColumns` | commands/docker.go:65-69 | commands/docker.go declares three columns, each of width 30 (Repositoy, Tag, ID); the last two titles name the fields their cells hold |
| `Images.RowArityMatchesColumns` | commands/docker.go:65-76 | Every row has exactly as many cells as each declared column set has columns |
| `Images.ImageColumns` | commands/docker.go:65-69 | Three columns of width 30. Column j's title names the image field that row cell j holds (corrected titles) |
| `Images.BuildImageRows` | main.go:185-216 | The two loops (filter-decode, then row building) give exactly the rows of the decoded images of the split output |
| `Images.MixedOutputScenario` | main.go:186-214 | Output with one decodable and one malformed line gives exactly one row, `["nginx","latest","abc123"]` |
| `Images.MainGoColumnsMislabelCells` | main.go:203-212 | As written in main.go, column 0 is titled "ID" but row cell 0 holds the repository |
| `Images.CommandsColumnsTitleNoField` | commands/docker.go:65-69 | As written in commands/docker.go, the first title "Repositoy" names no image field, while its cells hold the repository |
| `Commands.DockerPs` | commands/docker.go:29-38 | Succeeds exactly when the docker call does, returning its output verbatim; otherwise returns the call's error |
| `Commands.ImagesOutcome` | main.go:178-224 | Fails exactly when the docker call fails, and then with process exit code 1; otherwise it is the table rendered with the given column titles. main.go's registry entry passes main.go's own titles |
| `Commands.DockerImages` | commands/docker.go:40-86 | The method built from loops returns exactly `ImagesOutcome`, rendered with commands/docker.go's own titles ("Repositoy", Tag, ID) |
| `Commands.DockerPull` | commands/docker.go:88-92 | Always succeeds with "docker pull"; it takes no docker outcome, so it makes no external call |
| `Dashboard.InitialModel` | main.go:64-70 | Cursor 0, three choices, empty right pane, a valid model, and every menu index registered |
| `Dashboard.Call` | main.go:43-47 | A registered operation never reports UnknownCommand. ps is verbatim and fails with its call; images fails only with exit code 1 and otherwise renders with main.go's own titles; pull always succeeds |
| `Dashboard.ExecuteCommand` | main.go:153-165 | The result is `UnknownCommand(cursor)` if and only if the cursor has no registry entry |
| `Dashboard.PullIgnoresEngine` | main.go:226-230 | The pull entry returns "docker pull" whatever the docker engine would answer, so it makes no external call |
| `Dashboard.KeyOf` | main.go:84-105 | A key is "other" exactly when it is not one of ctrl+c, q, up, k, down, j, x |
| `Dashboard.Transition` | main.go:77-119 | Choices never change; a valid cursor stays valid; a stop leaves the model unchanged; only up/down move the cursor; only a successful invoke changes the pane, and it stores the command's output |
| `Dashboard.Update` | main.go:77-119 | The step-by-step update produces exactly the `Transition` step |
| `Dashboard.UpClamps` | main.go:91-94 | On a valid model, up/k sets cursor to max(0, cursor-1), so at 0 nothing changes |
| `Dashboard.DownClamps` | main.go:97-100 | On a valid model, down/j sets cursor to min(len-1, cursor+1), so at the last entry nothing changes |
| `Dashboard.UpThenDown` | main.go:91-100 | Away from the top, up then down returns the same model |
| `Dashboard.DownThenUp` | main.go:91-100 | Away from the bottom, down then up returns the same model |
| `Dashboard.IgnoredInputKeepsModel` | main.go:84-118 | Quit keys, unbound keys and non-key messages leave cursor, choices and pane unchanged; only quit keys stop the loop |
| `Dashboard.InvokeOutcome` | main.go:105-111 | On "x", success sets the pane to exactly the output with cursor and choices unchanged; failure leaves the model unchanged and stops |
| `Dashboard.ReplayKeepsValid` | main.go:91-100 | Any sequence of events from a valid model keeps the cursor inside the menu and the menu unchanged |
| `Dashboard.ReachableCursorIsRegistered` | main.go:154-157 | From the initial model, every reachable cursor has a registry entry, so invoke never reports UnknownCommand |
| `Dashboard.DownThreeTimes` | main.go:97-100 | From the start, two downs reach index 2 and a third down stays at 2 |
| `Dashboard.MenuLines` | main.go:127-142 | One line per choice: the mark, two spaces, then the choice; the mark is ">" at the cursor index and a space on every other line |
| `Dashboard.MarkedLines` | main.go:129-132 | The set of marked lines is {cursor} when the cursor is in range, and empty otherwise |
| `Dashboard.MenuPaneLines` | main.go:141 | The menu pane text, split on newlines, gives exactly the menu lines plus a final empty piece |
| `Dashboard.View` | main.go:121-151 | The screen is the layout of the menu pane and the right pane, followed by "\nPress q to quit.\n" |

## Findings

| source | as written | input that shows it | evidently intended | confidence | as-written member | corrected member |
|---|---|---|---|---|---|---|
| main.go:203-212 | Columns are titled ID, Repository, Tag, but rows are filled Repository, Tag, ID | An image with repository "nginx", tag "latest", id "abc123": the "ID" column shows "nginx" | Titles in row order: Repository, Tag, ID | high; not executed | `Images.MainGoColumnsMislabelCells` | `Images.ImageColumns` |
| commands/docker.go:65-69 | The first column is titled "Repositoy" | Any image: the title names no field of the record | The title "Repository" | high; not executed | `Images.CommandsColumnsTitleNoField` | `Images.ImageColumns` |

The operations render with the titles their own file declares: `Dashboard.Call`
passes `MainGoColumns`, and `Commands.DockerImages` passes `CommandsColumns`.
`ImageColumns` is the corrected title set. `ImageRows` states its cell contents
in terms of `ImageColumns`. Passing `ImageColumns` to `ImagesOutcome` gives a
table whose titles name the fields in its cells.

## Left out

- The `docker` process calls (`exec.Command` for ps and images). Their outcome is
  a `Result<string, string>` in `Engine`, or a parameter of the operation.
- `os.Exit(1)` itself. It is represented by the error `ProcessExit(1)` and the
  command `ExitProcess(1)`. The model does not terminate anything.
- `json.Unmarshal`, which is a foreign library. It is the abstract `decode` parameter.
- The bubbles table (`table.New`, `View`, the height-7 window) is the abstract
  `render` parameter. Its text is not modelled.
- The lipgloss styles and `JoinHorizontal`. These are the abstract `layout` parameter of `View`.
- The bubbletea runtime: `NewProgram`, `Run`, `Init`, and `tea.Quit` as a value.
  `Replay` stands in for the event loop.
- The `fmt.Println` diagnostics, which are logging only.
- The package-level `customTable` global. It only caches the library table, so
  the model passes the rows straight to `render`.
