/** The dashboard of main.go: a menu of three docker operations with a cursor,
    the command registry behind it, the key handling that moves the cursor or
    runs the selected operation, and the text of the menu pane. */
module Dashboard {
  import opened Wrappers
  import opened Images
  import opened Commands
  import Lines

  /** The dashboard state: the menu entries, the selected index and the text
      shown in the right-hand pane. */
  datatype Model = Model(choices: seq<string>, cursor: int, rightContainerContent: string)

  /** The cursor points at a menu entry. */
  predicate Valid(m: Model)
  {
    0 <= m.cursor < |m.choices|
  }

  /** The operations that can be registered at a menu index. */
  datatype CommandFunc = RunDockerPs | RunDockerImages | RunDockerPull

  /** The registry: menu index to operation. */
  const CommandFuncs: map<int, CommandFunc> := map[0 := RunDockerPs, 1 := RunDockerImages, 2 := RunDockerPull]

  /** The model the program starts from. */
  function InitialModel(): (m: Model)
    ensures Valid(m) && m.cursor == 0
    ensures |m.choices| == 3 && m.rightContainerContent == ""
    ensures forall i :: 0 <= i < |m.choices| ==> i in CommandFuncs
  {
    Model(["Docker PS", "Docker Images", "Docker Pull"], 0, "")
  }

  /** Everything outside the program that an operation consults: the outcome
      of `docker ps` and of `docker images`, JSON decoding, and the table view. */
  datatype Engine = Engine(
    ps: Result<string, string>,
    images: Result<string, string>,
    decode: Decoder,
    render: TableRenderer)

  /** Calling a registered operation. */
  function Call(f: CommandFunc, engine: Engine): (r: Result<string, CommandError>)
    ensures r.Err? ==> !r.error.UnknownCommand?
    ensures f == RunDockerPs ==> (r.Ok? <==> engine.ps.Ok?) && (r.Ok? ==> r.value == engine.ps.value)
    ensures f == RunDockerImages ==> (r.Err? <==> engine.images.Err?)
    ensures f == RunDockerImages && r.Err? ==> r.error == ProcessExit(1)
    ensures f == RunDockerPull ==> r.Ok?
  {
    match f
    case RunDockerPs => DockerPs(engine.ps)
    case RunDockerImages => ImagesOutcome(engine.images, engine.decode, engine.render, MainGoColumns())
    case RunDockerPull => DockerPull()
  }

  /** Runs the operation registered at the cursor; an index with no entry is
      an UnknownCommand error, and only such an index is. */
  function ExecuteCommand(m: Model, engine: Engine): (r: Result<string, CommandError>)
    ensures r == Err(UnknownCommand(m.cursor)) <==> m.cursor !in CommandFuncs
    ensures r.Err? && r.error.UnknownCommand? ==> r.error.index == m.cursor
  {
    if m.cursor !in CommandFuncs then Err(UnknownCommand(m.cursor))
    else Call(CommandFuncs[m.cursor], engine)
  }

  /** The pull entry answers the same for every engine: it consults nothing
      outside the program. */
  lemma PullIgnoresEngine(m: Model, e1: Engine, e2: Engine)
    requires m.cursor == 2
    ensures ExecuteCommand(m, e1) == ExecuteCommand(m, e2) == Ok("docker pull")
  {
  }

  /** An input event: a key press, named as the terminal reports it, or any
      other message. */
  datatype Msg = KeyPress(name: string) | NotKey

  /** What a key means to the dashboard. */
  datatype Key = Up | Down | Invoke | Quit | Other

  /** The keys bound by the key switch. */
  const BoundKeys: set<string> := {"ctrl+c", "q", "up", "k", "down", "j", "x"}

  function KeyOf(name: string): (k: Key)
    ensures k == Other <==> name !in BoundKeys
  {
    if name == "ctrl+c" || name == "q" then Quit
    else if name == "up" || name == "k" then Up
    else if name == "down" || name == "j" then Down
    else if name == "x" then Invoke
    else Other
  }

  /** What the runtime is told to do after an update. */
  datatype Cmd =
    | NoCmd               // keep running
    | QuitCmd             // stop the interaction loop
    | ExitProcess(code: int) // the process already terminated with `code`

  datatype Step = Step(model: Model, cmd: Cmd)

  /** One update of the dashboard. The menu never changes; a valid cursor
      stays valid; when the loop is told to stop, the model is unchanged; the
      cursor moves only on up and down keys, and the right pane changes only
      to the output of a successful invoke. */
  function Transition(m: Model, msg: Msg, engine: Engine): (s: Step)
    ensures s.model.choices == m.choices
    ensures Valid(m) ==> Valid(s.model)
    ensures s.cmd != NoCmd ==> s.model == m
    ensures s.model.cursor != m.cursor ==> msg.KeyPress? && KeyOf(msg.name) in {Up, Down}
    ensures s.model.rightContainerContent != m.rightContainerContent ==>
      msg.KeyPress? && KeyOf(msg.name) == Invoke &&
      ExecuteCommand(m, engine) == Ok(s.model.rightContainerContent)
  {
    match msg
    case NotKey => Step(m, NoCmd)
    case KeyPress(name) =>
      match KeyOf(name)
      case Quit => Step(m, QuitCmd)
      case Up => Step(if m.cursor > 0 then m.(cursor := m.cursor - 1) else m, NoCmd)
      case Down => Step(if m.cursor < |m.choices| - 1 then m.(cursor := m.cursor + 1) else m, NoCmd)
      case Invoke =>
        (match ExecuteCommand(m, engine)
         case Ok(out) => Step(m.(rightContainerContent := out), NoCmd)
         case Err(e) => Step(m, if e.ProcessExit? then ExitProcess(e.code) else QuitCmd))
      case Other => Step(m, NoCmd)
  }

  /** The update as the source performs it, on a copy of the model. */
  method Update(m: Model, msg: Msg, engine: Engine) returns (next: Model, cmd: Cmd)
    ensures Step(next, cmd) == Transition(m, msg, engine)
  {
    next, cmd := m, NoCmd;
    if msg.NotKey? {
      return;
    }
    match KeyOf(msg.name) {
      case Quit =>
        cmd := QuitCmd;
      case Up =>
        if next.cursor > 0 {
          next := next.(cursor := next.cursor - 1);
        }
      case Down =>
        if next.cursor < |next.choices| - 1 {
          next := next.(cursor := next.cursor + 1);
        }
      case Invoke =>
        var command := ExecuteCommand(next, engine);
        if command.Err? {
          cmd := if command.error.ProcessExit? then ExitProcess(command.error.code) else QuitCmd;
          return;
        }
        next := next.(rightContainerContent := command.value);
      case Other =>
    }
  }

  function Max(a: int, b: int): int { if a < b then b else a }
  function Min(a: int, b: int): int { if a < b then a else b }

  /** Up moves the cursor one entry towards the top and stops at the first entry. */
  lemma UpClamps(m: Model, name: string, engine: Engine)
    requires Valid(m) && KeyOf(name) == Up
    ensures Transition(m, KeyPress(name), engine) == Step(m.(cursor := Max(0, m.cursor - 1)), NoCmd)
  {
  }

  /** Down moves the cursor one entry towards the bottom and stops at the last entry. */
  lemma DownClamps(m: Model, name: string, engine: Engine)
    requires Valid(m) && KeyOf(name) == Down
    ensures Transition(m, KeyPress(name), engine) ==
      Step(m.(cursor := Min(|m.choices| - 1, m.cursor + 1)), NoCmd)
  {
  }

  /** Away from the top, up then down returns to the same model. */
  lemma UpThenDown(m: Model, engine: Engine)
    requires Valid(m) && m.cursor > 0
    ensures Transition(Transition(m, KeyPress("up"), engine).model, KeyPress("down"), engine).model == m
  {
  }

  /** Away from the bottom, down then up returns to the same model. */
  lemma DownThenUp(m: Model, engine: Engine)
    requires Valid(m) && m.cursor < |m.choices| - 1
    ensures Transition(Transition(m, KeyPress("down"), engine).model, KeyPress("up"), engine).model == m
  {
  }

  /** Quit keys, unbound keys and other messages leave the model as it was. */
  lemma IgnoredInputKeepsModel(m: Model, msg: Msg, engine: Engine)
    requires msg.NotKey? || KeyOf(msg.name) in {Quit, Other}
    ensures Transition(m, msg, engine).model == m
    ensures Transition(m, msg, engine).cmd == (if msg.KeyPress? && KeyOf(msg.name) == Quit then QuitCmd else NoCmd)
  {
  }

  /** Invoking stores a successful result in the right pane and keeps the
      cursor; a failure keeps the model and stops the loop. */
  lemma InvokeOutcome(m: Model, name: string, engine: Engine)
    requires KeyOf(name) == Invoke
    ensures var s := Transition(m, KeyPress(name), engine);
      match ExecuteCommand(m, engine)
      case Ok(out) => s == Step(m.(rightContainerContent := out), NoCmd)
      case Err(e) => s.model == m && s.cmd != NoCmd
  {
  }

  /** One input event together with the world as it is when the event arrives. */
  datatype Event = Event(msg: Msg, engine: Engine)

  /** The model after the interaction loop has handled `events` in order,
      stopping at the first update that ends the loop. */
  function Replay(m: Model, events: seq<Event>): Model
    decreases |events|
  {
    if events == [] then m
    else
      var s := Transition(m, events[0].msg, events[0].engine);
      if s.cmd != NoCmd then s.model else Replay(s.model, events[1..])
  }

  /** Every model the loop reaches from a valid one is valid and has the same menu. */
  lemma {:induction false} ReplayKeepsValid(m: Model, events: seq<Event>)
    requires Valid(m)
    ensures Valid(Replay(m, events)) && Replay(m, events).choices == m.choices
    decreases |events|
  {
    if events != [] {
      var s := Transition(m, events[0].msg, events[0].engine);
      if s.cmd == NoCmd {
        ReplayKeepsValid(s.model, events[1..]);
      }
    }
  }

  /** From the initial model, the cursor always has an operation registered:
      invoking never reports UnknownCommand. */
  lemma ReachableCursorIsRegistered(events: seq<Event>, engine: Engine)
    ensures Replay(InitialModel(), events).cursor in CommandFuncs
    ensures ExecuteCommand(Replay(InitialModel(), events), engine).Err? ==>
      !ExecuteCommand(Replay(InitialModel(), events), engine).error.UnknownCommand?
  {
    ReplayKeepsValid(InitialModel(), events);
  }

  /** From the start, two downs reach the last entry and a third down stays there. */
  lemma DownThreeTimes(engine: Engine)
    ensures Replay(InitialModel(), [Event(KeyPress("down"), engine), Event(KeyPress("down"), engine)]).cursor == 2
    ensures Replay(InitialModel(), [Event(KeyPress("down"), engine), Event(KeyPress("down"), engine),
                                    Event(KeyPress("down"), engine)]).cursor == 2
  {
    var e := Event(KeyPress("down"), engine);
    assert KeyOf("down") == Down;
    var m0 := InitialModel();
    var m1 := m0.(cursor := 1);
    var m2 := m0.(cursor := 2);
    assert Transition(m0, e.msg, engine) == Step(m1, NoCmd);
    assert Transition(m1, e.msg, engine) == Step(m2, NoCmd);
    assert Transition(m2, e.msg, engine) == Step(m2, NoCmd);
    assert Replay(m2, [e]) == m2 by {
      assert [e][1..] == [];
    }
    assert Replay(m1, [e]) == m2 by {
      assert [e][1..] == [];
    }
    assert Replay(m1, [e, e]) == m2 by {
      assert [e, e][1..] == [e];
    }
    assert [e, e][1..] == [e] && [e, e, e][1..] == [e, e];
  }

  /** The help line below the panes. */
  const Footer := "\nPress q to quit.\n"

  /** The menu entries, each with its cursor mark: ">" on the entry at the
      cursor and a space on every other, then two spaces and the entry. */
  function MenuLines(choices: seq<string>, cursor: int): (lines: seq<string>)
    ensures |lines| == |choices|
    ensures forall i :: 0 <= i < |lines| ==>
      |lines[i]| == |choices[i]| + 3 && lines[i][0] == (if i == cursor then '>' else ' ') &&
      lines[i][1..3] == "  " && lines[i][3..] == choices[i]
  {
    seq(|choices|, i requires 0 <= i < |choices| => (if i == cursor then ">" else " ") + "  " + choices[i])
  }

  /** Exactly the line at the cursor carries the mark, and none does when the
      cursor is outside the menu. */
  lemma MarkedLines(choices: seq<string>, cursor: int)
    ensures var lines := MenuLines(choices, cursor);
      (set i | 0 <= i < |lines| && lines[i][0] == '>') == if 0 <= cursor < |choices| then {cursor} else {}
  {
  }

  /** The menu pane, read back line by line, gives one line per entry and a
      final empty piece after the last newline. */
  lemma MenuPaneLines(choices: seq<string>, cursor: int)
    requires forall i :: 0 <= i < |choices| ==> '\n' !in choices[i]
    ensures Lines.SplitLines(Lines.Terminated(MenuLines(choices, cursor))) == MenuLines(choices, cursor) + [""]
  {
    var lines := MenuLines(choices, cursor);
    forall k | 0 <= k < |lines|
      ensures '\n' !in lines[k]
    {
      assert lines[k] == lines[k][..3] + choices[k];
    }
    Lines.SplitTerminated(lines, "");
    assert Lines.Terminated(lines) + "" == Lines.Terminated(lines);
  }

  /** The screen: the menu pane and the right pane laid side by side by
      `layout` (the lipgloss boxes), then the help line. */
  method View(m: Model, layout: (string, string) -> string) returns (s: string)
    ensures s == layout(Lines.Terminated(MenuLines(m.choices, m.cursor)), m.rightContainerContent) + Footer
  {
    s := "";
    var left := "";
    ghost var lines := MenuLines(m.choices, m.cursor);
    for i := 0 to |m.choices|
      invariant left == Lines.Terminated(lines[..i])
    {
      var cursor := " ";
      if m.cursor == i {
        cursor := ">";
      }
      assert lines[..i + 1][..i] == lines[..i];
      left := left + (cursor + "  " + m.choices[i]) + "\n";
    }
    assert lines[..|m.choices|] == lines;
    s := s + layout(left, m.rightContainerContent);
    s := s + Footer;
  }
}
