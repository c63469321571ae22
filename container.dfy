/** The host side of the container runtime (`ContainerRuntime`).

    The operating system is replaced by a `Host` whose fields record what the
    runtime does to it (the commands it runs, the images it has, the lines it
    prints) and whose constants answer what the runtime asks of it (`which`, the
    Containerfile, the build's outcome, the environment, path resolution). The
    child running the agent is a scripted `Process`: the lines its stderr yields,
    how long it keeps running after the stream ends, its exit code and its
    stdout. */
module Container {
  import opened Wrappers
  import opened PyText
  import opened Json
  import Display
  import opened Findings

  const ImageName: string := "good-start-agent"
  const ImageTag: string := "latest"
  const FullImage: string := ImageName + ":" + ImageTag

  /** The engines tried, in order of preference. */
  const Candidates: seq<string> := ["podman", "docker"]

  const NoEngineMessage: string :=
    "No container engine found. Install podman or docker, or use --no-container to run without a container."

  // The fixed texts of the messages the runtime raises and prints.
  const MissingOpen: string := "Containerfile not found at "
  const MissingClose: string := ". Cannot build the agent image."
  const BuildFailedOpen: string := "Image build failed:\n"
  const StartedOpen: string := "Container started ("
  const StartedClose: string := "). Agent is working..."
  const NoStatusDetails: string := "Container exited with non-zero status."
  const ErrorOpen: string := "Container error: "
  const DimOpen: string := "  [dim]"
  const DimClose: string := "[/dim]"

  /** `if path:` on what `shutil.which` returned. */
  predicate Truthy(path: Option<string>) {
    path.Some? && path.value != ""
  }

  /** `_detect_engine()`: the first candidate `which` finds. */
  method DetectEngine(which: string -> Option<string>) returns (r: Outcome<string>)
    ensures Truthy(which("podman")) ==> r == Returned("podman")
    ensures !Truthy(which("podman")) && Truthy(which("docker")) ==> r == Returned("docker")
    ensures !Truthy(which("podman")) && !Truthy(which("docker")) ==> r == Raised(RuntimeError(NoEngineMessage))
  {
    var i := 0;
    while i < |Candidates|
      invariant 0 <= i <= |Candidates|
      invariant forall j :: 0 <= j < i ==> !Truthy(which(Candidates[j]))
    {
      var path := which(Candidates[i]);
      if Truthy(path) {
        return Returned(Candidates[i]);
      }
      i := i + 1;
    }
    assert Candidates[0] == "podman" && Candidates[1] == "docker";
    return Raised(RuntimeError(NoEngineMessage));
  }

  // ---------------------------------------------------------------------------
  // Commands and paths
  // ---------------------------------------------------------------------------

  function InspectArgv(engine: string): seq<string> {
    [engine, "image", "inspect", FullImage]
  }

  function BuildArgv(engine: string, containerfile: string): seq<string> {
    [engine, "build", "-t", FullImage, "-f", containerfile, Parent(containerfile)]
  }

  function ContainerfileMissing(containerfile: string): Exception {
    FileNotFoundError(MissingOpen + containerfile + MissingClose)
  }

  function BuildFailed(stderr: string): Exception {
    RuntimeError(BuildFailedOpen + stderr)
  }

  /** The directory mounted into the container: the resolved target, or the
      directory holding it when it is a file. */
  function MountDir(resolved: string, isFile: bool): string {
    if isFile then Parent(resolved) else resolved
  }

  /** A file target is mounted through its directory: the target is that
      directory joined with the file's name. A directory is mounted itself. */
  lemma MountHoldsTarget(resolved: string, isFile: bool)
    ensures !isFile ==> MountDir(resolved, isFile) == resolved
    ensures isFile ==> var m := MountDir(resolved, isFile); var name := LastSegment(resolved, '/');
                       || (m == "." && '/' !in resolved)
                       || (m == "/" && resolved == "/" + name)
                       || resolved == m + "/" + name
  {
    if isFile {
      var k := AfterLast(resolved, '/');
      var name := LastSegment(resolved, '/');
      if k == 0 {
        assert resolved == name;
      } else if k == 1 {
        assert resolved == resolved[..1] + resolved[1..];
      } else {
        assert resolved == resolved[..k - 1] + [resolved[k - 1]] + resolved[k..];
      }
    }
  }

  /** The argument list of the container run. */
  function RunArgv(engine: string, mount: string, apiKey: string, prompt: string, target: string): seq<string> {
    [engine, "run", "--rm", "-v", mount + ":/workspace:ro", "-w", "/workspace",
     "-e", "ANTHROPIC_API_KEY=" + apiKey, FullImage, "--prompt", prompt, "--target", target]
  }

  /** `os.environ.get(key, '')` */
  function EnvGet(environ: map<string, string>, key: string): string {
    if key in environ then environ[key] else ""
  }

  /** The lines the console shows, as printed (Rich markup is not rendered). */
  function Dim(text: string): string {
    DimOpen + text + DimClose
  }

  function StartedLine(engine: string): string {
    Dim(StartedOpen + engine + StartedClose)
  }

  // ---------------------------------------------------------------------------
  // The stderr event stream
  // ---------------------------------------------------------------------------

  /** What one stripped, non-blank stderr line puts on the console, or the
      exception it lets escape from the loop. Lines that are not JSON, or whose
      object lacks `tool` or `input`, are shown only in verbose mode. */
  function EventEcho(line: string, verbose: bool): Outcome<seq<string>>
  {
    var swallowed := if verbose then [Dim(line)] else [];
    match Loads(line)
    case None => Returned(swallowed)
    case Some(event) =>
      match GetItem(event, "tool")
      case Raised(e) => if e.KeyError? then Returned(swallowed) else Raised(e)
      case Returned(tool) =>
        match GetItem(event, "input")
        case Raised(e) => if e.KeyError? then Returned(swallowed) else Raised(e)
        case Returned(input) => Display.PrintToolEvent(tool, input)
  }

  /** The cases of one event line: undecodable lines and objects without `tool`
      or `input` are swallowed, a decoded value that is not an object raises
      `TypeError`, and an event with both keys is displayed. */
  lemma EventEchoCases(line: string, verbose: bool)
    ensures Loads(line).None? ==> EventEcho(line, verbose) == Returned(if verbose then [Dim(line)] else [])
    ensures Loads(line).Some? && !Loads(line).value.JObj? ==>
              EventEcho(line, verbose).Raised? && EventEcho(line, verbose).exc.TypeError?
    ensures (Loads(line).Some? && Loads(line).value.JObj? &&
             (Lookup(Loads(line).value.members, "tool").None? || Lookup(Loads(line).value.members, "input").None?)) ==>
              EventEcho(line, verbose) == Returned(if verbose then [Dim(line)] else [])
    ensures Loads(line).Some? && Loads(line).value.JObj? &&
            Lookup(Loads(line).value.members, "tool").Some? && Lookup(Loads(line).value.members, "input").Some? ==>
              EventEcho(line, verbose) == Display.PrintToolEvent(Lookup(Loads(line).value.members, "tool").value,
                                                                 Lookup(Loads(line).value.members, "input").value)
  {
  }

  /** What the stderr loop shows for the lines `readline` returned, in order,
      and the exception that ended it early, if any. */
  datatype Echo = Echo(lines: seq<string>, error: Option<Exception>)

  function LineEcho(raw: string, verbose: bool): Outcome<seq<string>> {
    var line := Strip(raw);
    if line == "" then Returned([]) else EventEcho(line, verbose)
  }

  /** The lines shown by a run of per-line outcomes, up to the first exception. */
  function Collect(outs: seq<Outcome<seq<string>>>): Echo {
    if outs == [] then Echo([], None)
    else
      match outs[0]
      case Raised(x) => Echo([], Some(x))
      case Returned(ls) =>
        var rest := Collect(outs[1..]);
        Echo(ls + rest.lines, rest.error)
  }

  /** The outcome of every line, in order. */
  function MapLines(f: string -> Outcome<seq<string>>, chunks: seq<string>): (outs: seq<Outcome<seq<string>>>)
    ensures |outs| == |chunks|
    ensures forall i :: 0 <= i < |chunks| ==> outs[i] == f(chunks[i])
  {
    if chunks == [] then [] else [f(chunks[0])] + MapLines(f, chunks[1..])
  }

  function StderrEcho(chunks: seq<string>, verbose: bool): Echo {
    Collect(MapLines(c => LineEcho(c, verbose), chunks))
  }

  lemma {:induction false} MapLinesSnoc(f: string -> Outcome<seq<string>>, chunks: seq<string>, c: string)
    ensures MapLines(f, chunks + [c]) == MapLines(f, chunks) + [f(c)]
  {
    if chunks == [] {
      assert [c][1..] == [];
    } else {
      assert (chunks + [c])[1..] == chunks[1..] + [c];
      MapLinesSnoc(f, chunks[1..], c);
    }
  }

  /** One more outcome extends what was shown, or ends the run with its exception. */
  lemma {:induction false} CollectSnoc(outs: seq<Outcome<seq<string>>>, o: Outcome<seq<string>>)
    requires Collect(outs).error.None?
    ensures Collect(outs + [o]) ==
            match o
            case Raised(x) => Echo(Collect(outs).lines, Some(x))
            case Returned(ls) => Echo(Collect(outs).lines + ls, None)
  {
    if outs == [] {
      assert [o][1..] == [];
    } else {
      assert (outs + [o])[1..] == outs[1..] + [o];
      CollectSnoc(outs[1..], o);
      match o
      case Raised(x) =>
      case Returned(ls) =>
        assert outs[0].value + (Collect(outs[1..]).lines + ls) == (outs[0].value + Collect(outs[1..]).lines) + ls;
    }
  }

  /** Reading one more line extends what was shown, or ends the loop with the
      exception that line raised. */
  lemma StderrEchoSnoc(chunks: seq<string>, c: string, verbose: bool)
    requires StderrEcho(chunks, verbose).error.None?
    ensures StderrEcho(chunks + [c], verbose) ==
            match LineEcho(c, verbose)
            case Raised(x) => Echo(StderrEcho(chunks, verbose).lines, Some(x))
            case Returned(ls) => Echo(StderrEcho(chunks, verbose).lines + ls, None)
  {
    var f := c => LineEcho(c, verbose);
    MapLinesSnoc(f, chunks, c);
    CollectSnoc(MapLines(f, chunks), f(c));
  }

  /** Outcomes that show nothing and raise nothing show nothing together. */
  lemma {:induction false} CollectNothing(outs: seq<Outcome<seq<string>>>)
    requires forall i :: 0 <= i < |outs| ==> outs[i] == Returned([])
    ensures Collect(outs) == Echo([], None)
  {
    if outs != [] {
      CollectNothing(outs[1..]);
    }
  }

  /** Blank and whitespace-only lines show nothing and never raise. */
  lemma BlankLinesSkipped(blanks: seq<string>, verbose: bool)
    requires forall i :: 0 <= i < |blanks| ==> AllSpace(blanks[i])
    ensures StderrEcho(blanks, verbose) == Echo([], None)
  {
    var f := c => LineEcho(c, verbose);
    var outs := MapLines(f, blanks);
    forall i | 0 <= i < |outs|
      ensures outs[i] == Returned([])
    {
      TrimStartAllSpace(blanks[i]);
      assert Strip(blanks[i]) == [];
    }
    CollectNothing(outs);
  }

  /** The child process, scripted. */
  class Process {
    /** What successive `stderr.readline()` calls return before the stream ends. */
    const stderrChunks: seq<string>
    /** How many `poll()` calls still find the child running once stderr has ended. */
    const pollsBeforeExit: nat
    const exitCode: int
    const stdoutText: string
    var pos: nat
    var polls: nat
    var returncode: Option<int>

    /** `readline` returns "" only at the end of the stream. */
    predicate Valid()
      reads this
    {
      pos <= |stderrChunks| && polls <= pollsBeforeExit &&
      forall i :: 0 <= i < |stderrChunks| ==> stderrChunks[i] != ""
    }

    /** A child that has not been read from or polled. */
    predicate Fresh()
      reads this
    {
      Valid() && pos == 0 && polls == 0 && returncode.None?
    }

    constructor(chunks: seq<string>, pollsBeforeExit: nat, exitCode: int, stdout: string)
      requires forall i :: 0 <= i < |chunks| ==> chunks[i] != ""
      ensures stderrChunks == chunks && this.pollsBeforeExit == pollsBeforeExit
      ensures this.exitCode == exitCode && stdoutText == stdout && Fresh()
    {
      stderrChunks := chunks;
      this.pollsBeforeExit := pollsBeforeExit;
      this.exitCode := exitCode;
      stdoutText := stdout;
      pos := 0;
      polls := 0;
      returncode := None;
    }

    /** `proc.stderr.readline()` */
    method Readline() returns (line: string)
      requires Valid()
      modifies this`pos
      ensures Valid()
      ensures old(pos) < |stderrChunks| ==> line == stderrChunks[old(pos)] && pos == old(pos) + 1
      ensures old(pos) < |stderrChunks| ==> stderrChunks[..pos] == stderrChunks[..old(pos)] + [line]
      ensures old(pos) == |stderrChunks| ==> line == "" && pos == old(pos)
    {
      if pos < |stderrChunks| {
        line := stderrChunks[pos];
        pos := pos + 1;
        assert stderrChunks[..pos] == stderrChunks[..pos - 1] + [line];
      } else {
        line := "";
      }
    }

    /** `proc.poll()`: None while the child runs; its exit code once it has exited. */
    method Poll() returns (rc: Option<int>)
      requires Valid()
      modifies this`polls, this`returncode
      ensures Valid()
      ensures old(polls) < pollsBeforeExit ==> rc == None && polls == old(polls) + 1 && returncode == old(returncode)
      ensures old(polls) == pollsBeforeExit ==> rc == Some(exitCode) && polls == old(polls) && returncode == rc
    {
      if polls < pollsBeforeExit {
        rc := None;
        polls := polls + 1;
      } else {
        rc := Some(exitCode);
        returncode := rc;
      }
    }
  }

  // ---------------------------------------------------------------------------
  // Classification of the outcome
  // ---------------------------------------------------------------------------

  /** `stdout.strip() or "Container exited with non-zero status."` */
  function ErrorDetails(stdout: string): string {
    var s := Strip(stdout);
    if s == "" then NoStatusDetails else s
  }

  /** The line the findings are read from: the last line of the stripped
      stdout, or "{}" when there is none. */
  function LastLine(stdout: string): string {
    var lines := SplitLines(Strip(stdout));
    if lines == [] then "{}" else lines[|lines| - 1]
  }

  /** The findings for a child that exited with `rc` and wrote `stdout`. */
  function Classify(rc: int, stdout: string): (r: Outcome<AgentFindings>)
    ensures rc != 0 ==> r == Returned(WithDefaults(false, ErrorOpen + ErrorDetails(stdout)))
    ensures rc == 0 ==> r == ValidateFindingsJson(LastLine(stdout))
    ensures r.Raised? ==> rc == 0 && r.exc.ValidationError?
  {
    if rc != 0 then Returned(WithDefaults(false, ErrorOpen + ErrorDetails(stdout)))
    else ValidateFindingsJson(LastLine(stdout))
  }

  /** A failed child never passes, whatever its stdout holds, and its details
      start with "Container error: ". */
  lemma NonZeroExitFails(rc: int, stdout: string)
    requires rc != 0
    ensures Classify(rc, stdout).Returned? && !Classify(rc, stdout).value.passed
    ensures var d := Classify(rc, stdout).value.details;
            |d| > |ErrorOpen| && d[..|ErrorOpen|] == ErrorOpen
  {
    var d := ErrorOpen + ErrorDetails(stdout);
    assert d[..|ErrorOpen|] == ErrorOpen;
    assert |ErrorDetails(stdout)| > 0 by {
      var s := Strip(stdout);
      if s != "" { assert |s| > 0; }
    }
  }

  /** A child that exited cleanly without writing anything fails validation. */
  lemma EmptyStdoutRaises(stdout: string)
    requires AllSpace(stdout)
    ensures Classify(0, stdout).Raised?
  {
    TrimStartAllSpace(stdout);
    assert Strip(stdout) == "";
    EmptyObjectInvalid();
  }

  // ---------------------------------------------------------------------------
  // The host and the runtime
  // ---------------------------------------------------------------------------

  /** The machine the runtime drives. */
  class Host {
    /** Images present locally; `image inspect` succeeds exactly for these. */
    var images: set<string>
    /** Every command run, in order. */
    var commands: seq<seq<string>>
    /** Every line printed to the console (stderr), in order. */
    var console: seq<string>
    const containerfile: string
    const containerfileExists: bool
    const buildReturnCode: int
    const buildStdout: string
    const buildStderr: string
    const environ: map<string, string>
    /** `Path(p).resolve()` and `Path(p).is_file()` */
    const resolve: string -> string
    const isFile: string -> bool
    /** `datetime.now()` */
    const now: int

    constructor(images: set<string>, containerfile: string, containerfileExists: bool,
                buildReturnCode: int, buildStdout: string, buildStderr: string,
                environ: map<string, string>, resolve: string -> string, isFile: string -> bool, now: int)
      ensures this.images == images && commands == [] && console == []
      ensures this.containerfile == containerfile && this.containerfileExists == containerfileExists
      ensures this.buildReturnCode == buildReturnCode && this.buildStdout == buildStdout && this.buildStderr == buildStderr
      ensures this.environ == environ && this.resolve == resolve && this.isFile == isFile && this.now == now
    {
      this.images := images;
      commands := [];
      console := [];
      this.containerfile := containerfile;
      this.containerfileExists := containerfileExists;
      this.buildReturnCode := buildReturnCode;
      this.buildStdout := buildStdout;
      this.buildStderr := buildStderr;
      this.environ := environ;
      this.resolve := resolve;
      this.isFile := isFile;
      this.now := now;
    }
  }

  class ContainerRuntime {
    const engine: string
    const verbose: bool

    constructor(engine: string, verbose: bool)
      ensures this.engine == engine && this.verbose == verbose
    {
      this.engine := engine;
      this.verbose := verbose;
    }

    /** What `_ensure_image()` returns or raises, given whether the image was
        there before. */
    function Preflight(present: bool, h: Host): Outcome<()> {
      if present then Returned(())
      else if !h.containerfileExists then Raised(ContainerfileMissing(h.containerfile))
      else if h.buildReturnCode != 0 then Raised(BuildFailed(h.buildStderr))
      else Returned(())
    }

    /** The engine commands `_ensure_image()` runs: the inspection, then the
        build when the image is missing and there is a Containerfile. */
    function PreflightCommands(present: bool, h: Host): seq<seq<string>> {
      [InspectArgv(engine)] + (if !present && h.containerfileExists then [BuildArgv(engine, h.containerfile)] else [])
    }

    /** What `_ensure_image()` shows: the build output after a successful
        build, in verbose mode. */
    function PreflightEcho(present: bool, h: Host): seq<string> {
      if !present && h.containerfileExists && h.buildReturnCode == 0 && verbose
      then ["[dim]" + h.buildStdout + "[/dim]"] else []
    }

    /** The exception the rest of `run` raises once the child is started: the
        first event that fails to show, else what reading the findings raises. */
    function AwaitError(proc: Process): Option<Exception> {
      var echo := StderrEcho(proc.stderrChunks, verbose);
      var found := Classify(proc.exitCode, proc.stdoutText);
      if echo.error.Some? then echo.error
      else if found.Raised? then Some(found.exc)
      else None
    }

    /** What the rest of `run` shows: the events up to the first that fails
        and, when none fails, the error details of a failed child in verbose
        mode. */
    function AwaitEcho(proc: Process): seq<string> {
      var echo := StderrEcho(proc.stderrChunks, verbose);
      echo.lines + (if echo.error.None? && proc.exitCode != 0 && verbose then [Dim(ErrorDetails(proc.stdoutText))] else [])
    }

    /** `_ensure_image()`: inspect the image, and build it when it is missing. */
    method EnsureImage(h: Host) returns (r: Outcome<()>)
      modifies h`images, h`commands, h`console
      ensures r == Preflight(old(FullImage in h.images), h)
      ensures h.commands == old(h.commands) + PreflightCommands(old(FullImage in h.images), h)
      ensures h.console == old(h.console) + PreflightEcho(old(FullImage in h.images), h)
      ensures r.Returned? ==> FullImage in h.images
      ensures old(FullImage in h.images) ==>
                r == Returned(()) && h.commands == old(h.commands) + [InspectArgv(engine)] &&
                h.images == old(h.images) && h.console == old(h.console)
      ensures old(FullImage !in h.images) && !h.containerfileExists ==>
                r == Raised(ContainerfileMissing(h.containerfile)) &&
                h.commands == old(h.commands) + [InspectArgv(engine)] &&
                h.images == old(h.images) && h.console == old(h.console)
      ensures old(FullImage !in h.images) && h.containerfileExists ==>
                h.commands == old(h.commands) + [InspectArgv(engine), BuildArgv(engine, h.containerfile)]
      ensures old(FullImage !in h.images) && h.containerfileExists && h.buildReturnCode != 0 ==>
                r == Raised(BuildFailed(h.buildStderr)) && h.images == old(h.images) && h.console == old(h.console)
      ensures old(FullImage !in h.images) && h.containerfileExists && h.buildReturnCode == 0 ==>
                r == Returned(()) && h.images == old(h.images) + {FullImage} &&
                h.console == old(h.console) + (if verbose then ["[dim]" + h.buildStdout + "[/dim]"] else [])
    {
      h.commands := h.commands + [InspectArgv(engine)];
      if FullImage in h.images {
        return Returned(());
      }
      if !h.containerfileExists {
        return Raised(ContainerfileMissing(h.containerfile));
      }
      h.commands := h.commands + [BuildArgv(engine, h.containerfile)];
      if h.buildReturnCode != 0 {
        return Raised(BuildFailed(h.buildStderr));
      }
      h.images := h.images + {FullImage};
      if verbose {
        h.console := h.console + ["[dim]" + h.buildStdout + "[/dim]"];
      }
      r := Returned(());
    }

    /** The stderr loop of `run`: read lines until an empty read finds the child
        exited, showing each event as it arrives. */
    method StreamEvents(h: Host, proc: Process) returns (err: Option<Exception>)
      requires proc.Fresh()
      modifies h`console, proc`pos, proc`polls, proc`returncode
      ensures proc.Valid()
      ensures h.console == old(h.console) + StderrEcho(proc.stderrChunks[..proc.pos], verbose).lines
      ensures h.console == old(h.console) + StderrEcho(proc.stderrChunks, verbose).lines
      ensures err == StderrEcho(proc.stderrChunks, verbose).error
      ensures err.None? ==> proc.pos == |proc.stderrChunks| && proc.returncode == Some(proc.exitCode)
    {
      assert proc.stderrChunks[..proc.pos] == [];
      while true
        invariant Reading(h, proc, old(h.console))
        decreases |proc.stderrChunks| - proc.pos, proc.pollsBeforeExit - proc.polls
      {
        var exited, e := Step(h, proc, old(h.console));
        if e.Some? {
          ghost var echo := StderrEcho(proc.stderrChunks, verbose);
          assert h.console == old(h.console) + echo.lines;
          return e;
        }
        if exited {
          assert proc.stderrChunks[..proc.pos] == proc.stderrChunks;
          return None;
        }
      }
    }

    /** The state between two iterations of the stderr loop: everything read so
        far has been shown and none of it raised, and the child has not been
        seen to exit. */
    predicate Reading(h: Host, proc: Process, console0: seq<string>)
      reads h, proc
    {
      proc.Valid() && proc.returncode.None? &&
      (proc.polls > 0 ==> proc.pos == |proc.stderrChunks|) &&
      StderrEcho(proc.stderrChunks[..proc.pos], verbose).error.None? &&
      h.console == console0 + StderrEcho(proc.stderrChunks[..proc.pos], verbose).lines
    }

    /** One iteration of the stderr loop: read a line and show it, or poll the
        child once stderr has ended. */
    method Step(h: Host, proc: Process, ghost console0: seq<string>) returns (exited: bool, err: Option<Exception>)
      requires Reading(h, proc, console0)
      modifies h`console, proc`pos, proc`polls, proc`returncode
      ensures proc.Valid()
      ensures h.console == console0 + StderrEcho(proc.stderrChunks[..proc.pos], verbose).lines
      ensures err.Some? ==> StderrEcho(proc.stderrChunks, verbose) == StderrEcho(proc.stderrChunks[..proc.pos], verbose)
      ensures err.Some? ==> err == StderrEcho(proc.stderrChunks, verbose).error
      ensures exited ==> err.None? && proc.pos == |proc.stderrChunks| && proc.returncode == Some(proc.exitCode)
      ensures exited ==> StderrEcho(proc.stderrChunks, verbose).error.None?
      ensures !exited && err.None? ==> Reading(h, proc, console0)
      ensures !exited && err.None? ==>
                proc.pos > old(proc.pos) || (proc.pos == old(proc.pos) && proc.polls > old(proc.polls))
    {
      ghost var before := proc.stderrChunks[..proc.pos];
      ghost var shown := StderrEcho(before, verbose).lines;
      var line := proc.Readline();
      if line == "" {
        var rc := proc.Poll();
        if rc.Some? {
          assert proc.stderrChunks[..proc.pos] == proc.stderrChunks;
          return true, None;
        }
        return false, None;
      }
      StderrEchoSnoc(before, line, verbose);
      var out := ShowLine(h, line);
      if out.Raised? {
        EchoErrorStays(proc.stderrChunks, proc.pos, verbose);
        return false, Some(out.exc);
      }
      assert StderrEcho(before + [line], verbose).lines == shown + out.value;
      AppendAssoc(console0, shown, out.value);
      return false, None;
    }

    /** One line of the stderr loop: strip it, skip it when blank, and show the
        event it carries. */
    method ShowLine(h: Host, line: string) returns (out: Outcome<seq<string>>)
      modifies h`console
      ensures out == LineEcho(line, verbose)
      ensures h.console == old(h.console) + (if out.Returned? then out.value else [])
    {
      var stripped := Strip(line);
      if stripped == "" {
        return Returned([]);
      }
      out := EventEcho(stripped, verbose);
      if out.Returned? {
        h.console := h.console + out.value;
      }
    }

    /** The container run `run` starts: the resolved target's directory mounted
        read-only, the API key passed from the host environment. */
    function RunCommand(h: Host, prompt: string, target: string): (cmd: seq<string>)
      ensures |cmd| == 14 && cmd[0] == engine && cmd[9] == FullImage
      ensures cmd[10..] == ["--prompt", prompt, "--target", target]
      ensures var path := h.resolve(target);
              cmd[4] == MountDir(path, h.isFile(path)) + ":/workspace:ro"
      ensures cmd[8] == "ANTHROPIC_API_KEY=" + EnvGet(h.environ, "ANTHROPIC_API_KEY")
    {
      var path := h.resolve(target);
      RunArgv(engine, MountDir(path, h.isFile(path)), EnvGet(h.environ, "ANTHROPIC_API_KEY"), prompt, target)
    }

    /** `run(prompt, target)` */
    method Run(h: Host, proc: Process, prompt: string, target: string) returns (r: Outcome<Result>)
      requires proc.Fresh()
      modifies h`images, h`commands, h`console, proc`pos, proc`polls, proc`returncode
      ensures var pre := Preflight(old(FullImage in h.images), h);
              && (r.Raised? <==> pre.Raised? || AwaitError(proc).Some?)
              && (pre.Raised? ==> r.exc == pre.exc && proc.pos == 0)
              && (pre.Returned? && r.Raised? ==> r.exc == AwaitError(proc).value)
      ensures var present := old(FullImage in h.images);
              h.commands == old(h.commands) + PreflightCommands(present, h) +
                (if Preflight(present, h).Returned? then [RunCommand(h, prompt, target)] else [])
      ensures var present := old(FullImage in h.images);
              h.console == old(h.console) + PreflightEcho(present, h) +
                (if Preflight(present, h).Returned? then [StartedLine(engine)] + AwaitEcho(proc) else [])
      ensures h.images == old(h.images) + (if Preflight(old(FullImage in h.images), h).Returned? then {FullImage} else {})
      ensures r.Returned? ==> fresh(r.value)
      ensures r.Returned? ==> StderrEcho(proc.stderrChunks, verbose).error.None? && proc.pos == |proc.stderrChunks|
      ensures r.Returned? ==> Classify(proc.exitCode, proc.stdoutText) == Returned(r.value.Findings())
      ensures r.Returned? ==> r.value.messages == [] && r.value.timestamp == h.now
    {
      ghost var before := h.console + PreflightEcho(FullImage in h.images, h);
      var started := Start(h, prompt, target);
      if started.Raised? {
        return Raised(started.exc);
      }
      r := Await(h, proc);
      AppendAssoc(before, [StartedLine(engine)], AwaitEcho(proc));
    }

    /** Everything `run` does once the child is started: stream its events,
        then read its findings. */
    method Await(h: Host, proc: Process) returns (r: Outcome<Result>)
      requires proc.Fresh()
      modifies h`console, proc`pos, proc`polls, proc`returncode
      ensures r.Raised? <==> AwaitError(proc).Some?
      ensures r.Raised? ==> r.exc == AwaitError(proc).value
      ensures h.console == old(h.console) + AwaitEcho(proc)
      ensures AwaitError(proc).None? ==> proc.pos == |proc.stderrChunks| && proc.returncode == Some(proc.exitCode)
      ensures r.Returned? ==> fresh(r.value)
      ensures r.Returned? ==> StderrEcho(proc.stderrChunks, verbose).error.None? && proc.pos == |proc.stderrChunks|
      ensures r.Returned? ==> Classify(proc.exitCode, proc.stdoutText) == Returned(r.value.Findings())
      ensures r.Returned? ==> r.value.messages == [] && r.value.timestamp == h.now
    {
      var err := StreamEvents(h, proc);
      if err.Some? {
        return Raised(err.value);
      }
      r := Conclude(h, proc);
    }

    /** The start of `run`: make sure the image exists, then run the container
        and announce it. */
    method Start(h: Host, prompt: string, target: string) returns (r: Outcome<()>)
      modifies h`images, h`commands, h`console
      ensures r == Preflight(old(FullImage in h.images), h)
      ensures var present := old(FullImage in h.images);
              && h.commands == old(h.commands) + PreflightCommands(present, h) + (if r.Returned? then [RunCommand(h, prompt, target)] else [])
              && h.console == old(h.console) + PreflightEcho(present, h) + (if r.Returned? then [StartedLine(engine)] else [])
              && h.images == old(h.images) + (if r.Returned? then {FullImage} else {})
    {
      r := EnsureImage(h);
      if r.Raised? {
        return;
      }
      var cmd := RunCommand(h, prompt, target);
      h.console := h.console + [StartedLine(engine)];
      h.commands := h.commands + [cmd];
    }

    /** The end of `run`, once the child has exited: show the error details in
        verbose mode and read the findings. */
    method Conclude(h: Host, proc: Process) returns (r: Outcome<Result>)
      modifies h`console
      ensures r.Returned? ==> fresh(r.value)
      ensures r.Returned? ==> Classify(proc.exitCode, proc.stdoutText) == Returned(r.value.Findings())
      ensures r.Returned? ==> r.value.messages == [] && r.value.timestamp == h.now
      ensures r.Raised? <==> Classify(proc.exitCode, proc.stdoutText).Raised?
      ensures r.Raised? ==> r.exc == Classify(proc.exitCode, proc.stdoutText).exc
      ensures h.console == old(h.console) +
                (if proc.exitCode != 0 && verbose then [Dim(ErrorDetails(proc.stdoutText))] else [])
    {
      var stdout := proc.stdoutText;
      if proc.exitCode != 0 && verbose {
        h.console := h.console + [Dim(ErrorDetails(stdout))];
      }
      match Classify(proc.exitCode, stdout) {
        case Raised(e) =>
          return Raised(e);
        case Returned(findings) =>
          var result := new Result([], findings, h.now);
          return Returned(result);
      }
    }
  }

  lemma AppendAssoc(a: seq<string>, b: seq<string>, c: seq<string>)
    ensures (a + b) + c == a + (b + c)
  {
  }

  /** An exception among the first outcomes ends the run: nothing after it is
      collected. */
  lemma {:induction false} CollectErrorStays(outs: seq<Outcome<seq<string>>>, n: nat)
    requires n <= |outs| && Collect(outs[..n]).error.Some?
    ensures Collect(outs) == Collect(outs[..n])
    decreases n
  {
    if n > 0 {
      assert outs[..n][0] == outs[0];
      assert outs[..n][1..] == outs[1..][..n - 1];
      if outs[0].Returned? {
        CollectErrorStays(outs[1..], n - 1);
      }
    }
  }

  lemma {:induction false} MapLinesPrefix(f: string -> Outcome<seq<string>>, chunks: seq<string>, n: nat)
    requires n <= |chunks|
    ensures MapLines(f, chunks[..n]) == MapLines(f, chunks)[..n]
  {
  }

  /** An exception from a line ends the loop: what follows is neither shown nor
      read. */
  lemma EchoErrorStays(chunks: seq<string>, n: nat, verbose: bool)
    requires n <= |chunks| && StderrEcho(chunks[..n], verbose).error.Some?
    ensures StderrEcho(chunks, verbose) == StderrEcho(chunks[..n], verbose)
  {
    var f := c => LineEcho(c, verbose);
    MapLinesPrefix(f, chunks, n);
    CollectErrorStays(MapLines(f, chunks), n);
  }

  /** `ContainerRuntime(verbose)`: fails when no engine is found. */
  method NewContainerRuntime(which: string -> Option<string>, verbose: bool) returns (r: Outcome<ContainerRuntime>)
    ensures r.Returned? ==> fresh(r.value) && r.value.verbose == verbose
    ensures r.Returned? ==> r.value.engine == (if Truthy(which("podman")) then "podman" else "docker")
    ensures r.Raised? <==> !Truthy(which("podman")) && !Truthy(which("docker"))
    ensures r.Raised? ==> r.exc == RuntimeError(NoEngineMessage)
  {
    var engine := DetectEngine(which);
    match engine {
      case Raised(e) =>
        return Raised(e);
      case Returned(name) =>
        var rt := new ContainerRuntime(name, verbose);
        return Returned(rt);
    }
  }
}
