/** The container side (`good_start._entrypoint.main`): parse the command line,
    run the agent, print each tool event as a JSON line on stderr and the
    findings as one JSON line on stdout.

    The agent is not modelled: a run is given as the tool events it reports, in
    order, and how it ends (with a result, or by raising). The standard streams
    are one `Console` log that records which stream each line went to, so the
    order of the lines across the two streams is kept. */
module Entrypoint {
  import opened Wrappers
  import opened PyText
  import opened Json
  import opened Findings
  import JsonRoundTrip

  // ---------------------------------------------------------------------------
  // The command line: `--prompt` (required) and `--target` (default ".")
  // ---------------------------------------------------------------------------

  datatype Args = Args(prompt: string, target: string)

  /** How argparse reads one command-line word. */
  datatype Word =
    | Positional
    | UnknownOption
    | Ambiguous
    | Separator
    | Flag(name: string, explicit: Option<string>)

  predicate IsKnownOption(s: string) {
    s == "-h" || s == "--help" || s == "--prompt" || s == "--target"
  }

  /** The index of the first '=' in `s`, or `|s|`. */
  function EqualsAt(s: string): (i: nat)
    ensures i <= |s|
    ensures i < |s| ==> s[i] == '='
    ensures '=' !in s[..i]
  {
    if s == [] || s[0] == '=' then 0 else 1 + EqualsAt(s[1..])
  }

  /** argparse's negative-number pattern `^-\d+$|^-\d*\.\d+$`; `$` also matches
      before a final newline. */
  predicate IsNegativeNumber(s: string) {
    var t := if s != [] && s[|s| - 1] == '\n' then s[..|s| - 1] else s;
    t != [] && t[0] == '-' &&
    var body := t[1..];
    var d := LeadingDigits(body);
    (d != [] && |d| == |body|) ||
    (|d| + 1 < |body| && body[|d|] == '.' && AllDigits(body[|d| + 1..]))
  }

  /** The long options that start with `prefix`. */
  function LongMatches(prefix: string): (ms: seq<string>)
    ensures forall i :: 0 <= i < |ms| ==> IsKnownOption(ms[i]) && prefix <= ms[i]
  {
    (if prefix <= "--help" then ["--help"] else []) +
    (if prefix <= "--prompt" then ["--prompt"] else []) +
    (if prefix <= "--target" then ["--target"] else [])
  }

  /** `_parse_optional`: the `--` separator; an exact option; an option with
      `=value`; an abbreviation of one long option, or of several (an error);
      `-h` followed by more text in the same word; a word that is not an
      option (it does not start with '-', is "-" alone, is a negative number
      or contains a space); or an unknown option. */
  function WordKind(w: string): (k: Word)
    ensures k.Flag? ==> IsKnownOption(k.name)
    ensures (w == [] || w[0] != '-') ==> k == Positional
    ensures IsKnownOption(w) ==> k == Flag(w, None)
    ensures k.Ambiguous? ==> |w| >= 2 && w[..2] == "--"
  {
    if w == "--" then Separator
    else if w == [] || w[0] != '-' then Positional
    else if IsKnownOption(w) then Flag(w, None)
    else if |w| == 1 then Positional
    else
      var i := EqualsAt(w);
      var explicit := if i < |w| then Some(w[i + 1..]) else None;
      if i < |w| && IsKnownOption(w[..i]) then Flag(w[..i], explicit)
      else if w[1] == '-' && |LongMatches(w[..i])| > 1 then
        assert w[..2] <= w[..i];
        Ambiguous
      else if w[1] == '-' && |LongMatches(w[..i])| == 1 then Flag(LongMatches(w[..i])[0], explicit)
      else if w[1] == 'h' then Flag("-h", Some(w[2..]))
      else if IsNegativeNumber(w) then Positional
      else if ' ' in w then Positional
      else UnknownOption
  }

  /** A word argparse will not take as the value of an option. */
  predicate LooksLikeOption(w: string) {
    !WordKind(w).Positional?
  }

  /** The text after `-h` in one word (`-hhh`, or `-h=hhh`) repeats the help
      flag when it is all 'h'; any other text names a short option that does
      not exist, or is empty, and is refused. */
  predicate AllH(s: string) {
    s != [] && forall i :: 0 <= i < |s| ==> s[i] == 'h'
  }

  /** `parser.parse_args(words)` from the given word on: the last `--prompt` and
      the last `--target` win; help exits with status 0 when it is reached; a
      missing or option-like value, refused text after help, a stray word or
      unknown option, an ambiguous abbreviation, the `--` separator (after
      which nothing is an option) or a missing `--prompt` exit with status 2. */
  function ParseFrom(words: seq<string>, prompt: Option<string>, target: string, stray: bool): (r: Outcome<Args>)
    ensures r.Raised? ==> r.exc == SystemExit(0) || r.exc == SystemExit(2)
    ensures r.Returned? ==> !stray
    decreases |words|
  {
    if words == [] then
      if prompt.None? || stray then Raised(SystemExit(2)) else Returned(Args(prompt.value, target))
    else
      match WordKind(words[0])
      case Positional => ParseFrom(words[1..], prompt, target, true)
      case UnknownOption => ParseFrom(words[1..], prompt, target, true)
      case Ambiguous => Raised(SystemExit(2))
      case Separator => Raised(SystemExit(2))
      case Flag(name, explicit) =>
        if name == "-h" || name == "--help" then
          if explicit.None? || (name == "-h" && AllH(explicit.value)) then Raised(SystemExit(0))
          else Raised(SystemExit(2))
        else if explicit.None? && (|words| < 2 || LooksLikeOption(words[1])) then Raised(SystemExit(2))
        else
          var value := if explicit.Some? then explicit.value else words[1];
          var rest := if explicit.Some? then words[1..] else words[2..];
          if name == "--prompt" then ParseFrom(rest, Some(value), target, stray)
          else ParseFrom(rest, prompt, value, stray)
  }

  /** Some word before the first `--` abbreviates several options. */
  predicate AmbiguousBeforeSeparator(words: seq<string>) {
    words != [] && words[0] != "--" &&
    (WordKind(words[0]).Ambiguous? || AmbiguousBeforeSeparator(words[1..]))
  }

  /** `parser.parse_args(words)`. argparse classifies every word before it
      acts on any, so an ambiguous abbreviation is reported first. */
  function ParseArgs(words: seq<string>): (r: Outcome<Args>)
    ensures AmbiguousBeforeSeparator(words) ==> r == Raised(SystemExit(2))
    ensures !AmbiguousBeforeSeparator(words) ==> r == ParseFrom(words, None, ".", false)
  {
    if AmbiguousBeforeSeparator(words) then Raised(SystemExit(2)) else ParseFrom(words, None, ".", false)
  }

  // ---------------------------------------------------------------------------
  // What the command line promises
  // ---------------------------------------------------------------------------

  /** `--prompt` is required: without it the parser exits with status 2 or,
      when help is asked for, 0. */
  lemma {:induction false} PromptRequired(words: seq<string>, target: string, stray: bool)
    requires forall i :: 0 <= i < |words| ==> !(WordKind(words[i]).Flag? && WordKind(words[i]).name == "--prompt")
    ensures ParseFrom(words, None, target, stray).Raised?
    decreases |words|
  {
    if words != [] {
      forall i | 0 <= i < |words[1..]|
        ensures !(WordKind(words[1..][i]).Flag? && WordKind(words[1..][i]).name == "--prompt")
      {
        assert words[1..][i] == words[i + 1];
      }
      if |words| >= 2 {
        forall i | 0 <= i < |words[2..]|
          ensures !(WordKind(words[2..][i]).Flag? && WordKind(words[2..][i]).name == "--prompt")
        {
          assert words[2..][i] == words[i + 2];
        }
      }
      match WordKind(words[0])
      case Positional => PromptRequired(words[1..], target, true);
      case UnknownOption => PromptRequired(words[1..], target, true);
      case Ambiguous =>
      case Separator =>
      case Flag(name, explicit) =>
        if name == "--target" {
          if explicit.Some? {
            PromptRequired(words[1..], explicit.value, stray);
          } else if |words| >= 2 && !LooksLikeOption(words[1]) {
            PromptRequired(words[2..], words[1], stray);
          }
        }
    }
  }

  /** The command line the host runs the container with is read back as the
      prompt and target it carries, when neither looks like an option to
      argparse; when one does, the container exits with usage status 2. */
  lemma ReadsHostCommand(prompt: string, target: string)
    ensures !LooksLikeOption(prompt) && !LooksLikeOption(target) ==>
              ParseArgs(["--prompt", prompt, "--target", target]) == Returned(Args(prompt, target))
    ensures LooksLikeOption(prompt) || LooksLikeOption(target) ==>
              ParseArgs(["--prompt", prompt, "--target", target]) == Raised(SystemExit(2))
  {
    var words := ["--prompt", prompt, "--target", target];
    assert WordKind("--prompt") == Flag("--prompt", None);
    assert WordKind("--target") == Flag("--target", None);
    assert words[2..] == ["--target", target];
    assert words[2..][2..] == [];
    assert words[0] == "--prompt" && words[1] == prompt;
    if !LooksLikeOption(prompt) {
      if !LooksLikeOption(target) {
        NoAmbiguity(words);
      }
      if !AmbiguousBeforeSeparator(words) {
        assert ParseArgs(words) == ParseFrom(["--target", target], Some(prompt), ".", false);
        var tail := ["--target", target];
        assert tail[0] == "--target" && tail[1] == target && tail[2..] == [];
        if !LooksLikeOption(target) {
          assert ParseFrom(tail, Some(prompt), ".", false) == ParseFrom([], Some(prompt), target, false);
        }
      }
    }
  }

  /** `--target` defaults to ".". */
  lemma TargetDefault(prompt: string)
    requires !LooksLikeOption(prompt)
    ensures ParseArgs(["--prompt", prompt]) == Returned(Args(prompt, "."))
  {
    var words := ["--prompt", prompt];
    assert WordKind("--prompt") == Flag("--prompt", None);
    assert words[0] == "--prompt" && words[1] == prompt;
    assert words[2..] == [];
    NoAmbiguity(words);
    assert ParseArgs(words) == ParseFrom([], Some(prompt), ".", false);
  }

  /** The `=value` form carries any text, even one that looks like an option. */
  lemma ExplicitValue(prompt: string)
    ensures ParseArgs(["--prompt=" + prompt]) == Returned(Args(prompt, "."))
  {
    var w := "--prompt=" + prompt;
    assert w[..8] == "--prompt";
    assert EqualsAt(w) == 8 by {
      assert w[8] == '=';
      assert w[..8] == ['-', '-', 'p', 'r', 'o', 'm', 'p', 't'];
      EqualsAtPrefix(w, 8);
    }
    assert !IsKnownOption(w) by {
      assert |w| >= 9;
    }
    assert w[9..] == prompt;
    assert WordKind(w) == Flag("--prompt", Some(prompt));
    assert [w][0] == w && [w][1..] == [];
    NoAmbiguity([w]);
    assert ParseArgs([w]) == ParseFrom([], Some(prompt), ".", false);
  }

  lemma {:induction false} EqualsAtPrefix(s: string, n: nat)
    requires n < |s| && s[n] == '=' && '=' !in s[..n]
    ensures EqualsAt(s) == n
    decreases n
  {
    if n > 0 {
      assert s[0] in s[..n];
      assert s[1..][..n - 1] == s[1..n];
      assert forall c :: c in s[1..n] ==> c in s[..n];
      EqualsAtPrefix(s[1..], n - 1);
    }
  }

  /** Words none of which is an ambiguous abbreviation pass the check. */
  lemma {:induction false} NoAmbiguity(words: seq<string>)
    requires forall i :: 0 <= i < |words| ==> !WordKind(words[i]).Ambiguous?
    ensures !AmbiguousBeforeSeparator(words)
  {
    if words != [] {
      assert forall i :: 0 <= i < |words[1..]| ==> words[1..][i] == words[i + 1];
      NoAmbiguity(words[1..]);
    }
  }

  /** The last occurrence of an option wins. */
  lemma LastPromptWins(p1: string, p2: string)
    requires !LooksLikeOption(p1) && !LooksLikeOption(p2)
    ensures ParseArgs(["--prompt", p1, "--prompt", p2]) == Returned(Args(p2, "."))
  {
    var words := ["--prompt", p1, "--prompt", p2];
    assert WordKind("--prompt") == Flag("--prompt", None);
    assert words[0] == "--prompt" && words[1] == p1;
    assert words[2..] == ["--prompt", p2];
    assert words[2..][2..] == [];
    NoAmbiguity(words);
    assert ParseArgs(words) == ParseFrom(["--prompt", p2], Some(p1), ".", false);
    assert ParseFrom(["--prompt", p2], Some(p1), ".", false) == ParseFrom([], Some(p2), ".", false);
  }

  /** Help exits with status 0 wherever it is met, before a missing `--prompt`
      or a stray word is reported, unless a later word is an ambiguous
      abbreviation: argparse reports that before it acts on any word. */
  lemma HelpExits(before: seq<string>, after: seq<string>)
    requires forall i :: 0 <= i < |before| ==> WordKind(before[i]) == UnknownOption
    ensures ParseArgs(before + ["-h"] + after) ==
            if AmbiguousBeforeSeparator(after) then Raised(SystemExit(2)) else Raised(SystemExit(0))
  {
    AmbiguityAfterUnknown(before, after);
    HelpAfterUnknown(before, after, None, ".", false);
  }

  lemma {:induction false} AmbiguityAfterUnknown(before: seq<string>, after: seq<string>)
    requires forall i :: 0 <= i < |before| ==> WordKind(before[i]) == UnknownOption
    ensures AmbiguousBeforeSeparator(before + ["-h"] + after) == AmbiguousBeforeSeparator(after)
  {
    var words := before + ["-h"] + after;
    if before == [] {
      assert words[0] == "-h" && words[1..] == after;
      assert WordKind("-h") == Flag("-h", None);
    } else {
      assert words[0] == before[0];
      assert words[1..] == before[1..] + ["-h"] + after;
      assert before[0] != "--";
      AmbiguityAfterUnknown(before[1..], after);
    }
  }

  /** A word of `-h` and more `h`s asks for help; `-h` and other text is refused. */
  lemma ShortHelpCluster(rest: string)
    requires rest != [] && rest[0] != '='
    ensures AllH(rest) ==> ParseArgs(["-h" + rest]) == Raised(SystemExit(0))
    ensures !AllH(rest) ==> ParseArgs(["-h" + rest]) == Raised(SystemExit(2))
  {
    var w := "-h" + rest;
    assert w[0] == '-' && w[1] == 'h' && w[2..] == rest && w != "--";
    assert |w| > 2;
    assert !IsKnownOption(w);
    var i := EqualsAt(w);
    assert i > 2 by {
      assert EqualsAt(w) == 1 + EqualsAt(w[1..]);
      assert w[1..][0] == 'h' && w[1..][1..] == rest;
      assert EqualsAt(w[1..]) == 1 + EqualsAt(rest);
    }
    if i < |w| {
      assert w[..i][1] == 'h' && |w[..i]| > 2;
      assert !IsKnownOption(w[..i]);
    }
    assert WordKind(w) == Flag("-h", Some(rest));
    NoAmbiguity([w]);
  }

  /** A unique abbreviation of `--prompt` reads as `--prompt`. */
  lemma PromptAbbreviation(abbrev: string, prompt: string)
    requires "--p" <= abbrev && abbrev <= "--prompt" && abbrev != "--prompt"
    requires !LooksLikeOption(prompt)
    ensures ParseArgs([abbrev, prompt]) == Returned(Args(prompt, "."))
  {
    assert abbrev[..3] == "--p";
    assert |abbrev| >= 3 && abbrev[2] == 'p';
    assert abbrev != "--" && !IsKnownOption(abbrev);
    assert EqualsAt(abbrev) == |abbrev| by {
      assert '=' !in abbrev;
      EqualsNone(abbrev);
    }
    assert abbrev[..|abbrev|] == abbrev;
    assert !(abbrev <= "--help") && !(abbrev <= "--target");
    assert LongMatches(abbrev) == ["--prompt"];
    assert WordKind(abbrev) == Flag("--prompt", None);
    var words := [abbrev, prompt];
    assert words[0] == abbrev && words[1] == prompt && words[2..] == [];
    NoAmbiguity(words);
    assert ParseArgs(words) == ParseFrom([], Some(prompt), ".", false);
  }

  lemma {:induction false} EqualsNone(s: string)
    requires '=' !in s
    ensures EqualsAt(s) == |s|
  {
    if s != [] {
      assert s[0] in s;
      assert forall c :: c in s[1..] ==> c in s;
      EqualsNone(s[1..]);
    }
  }

  lemma {:induction false} HelpAfterUnknown(before: seq<string>, after: seq<string>, prompt: Option<string>,
                                            target: string, stray: bool)
    requires forall i :: 0 <= i < |before| ==> WordKind(before[i]) == UnknownOption
    ensures ParseFrom(before + ["-h"] + after, prompt, target, stray) == Raised(SystemExit(0))
    decreases |before|
  {
    var words := before + ["-h"] + after;
    assert WordKind("-h") == Flag("-h", None);
    if before == [] {
      assert words[0] == "-h";
    } else {
      assert words[0] == before[0];
      assert words[1..] == before[1..] + ["-h"] + after;
      HelpAfterUnknown(before[1..], after, prompt, target, true);
    }
  }

  // ---------------------------------------------------------------------------
  // The agent run and the findings it yields
  // ---------------------------------------------------------------------------

  /** One `on_tool_use(name, tool_input)` callback. */
  datatype ToolUse = ToolUse(name: string, input: seq<Member>)

  /** How `agent.run(...)` ends: with its result, or by raising with the text
      `str(exc)`. */
  datatype Ending = Succeeded(result: AgentFindings) | Failed(message: string)

  /** An agent run: the tool uses it reports, in order, then its ending. */
  datatype AgentRun = AgentRun(uses: seq<ToolUse>, ending: Ending)

  const FailureOpen: string := "Agent encountered an error: "

  /** The findings `main` prints: the result's fields on success, a failure
      with the exception's text otherwise. */
  function ChosenFindings(ending: Ending): (f: AgentFindings)
    ensures ending.Succeeded? ==> f == ending.result
    ensures ending.Failed? ==> !f.passed && f.details == FailureOpen + ending.message
    ensures ending.Failed? ==> f.steps == [] && f.verificationCommand.None?
  {
    match ending
    case Succeeded(result) =>
      AgentFindings(result.passed, result.details, result.steps, result.verificationCommand)
    case Failed(message) => WithDefaults(false, FailureOpen + message)
  }

  /** The value `_on_tool_use` encodes: exactly the keys `tool` and `input`. */
  function EventJson(u: ToolUse): Json {
    JObj([Member("tool", JStr(u.name)), Member("input", JObj(u.input))])
  }

  /** `json.dumps({"tool": name, "input": tool_input})` */
  function EventLine(u: ToolUse): string {
    Dump(EventJson(u), DumpsStyle)
  }

  /** The findings line with every non-ASCII character escaped (the
      `json.dumps` style). `main` prints `model_dump_json()` instead, which
      leaves U+0085, U+2028 and U+2029 raw, and the host splits its line on
      them (`Protocol.RawBreakSplitsFindings`); this is the corrected line
      `RunMainFixed` prints. */
  function EscapedFindingsLine(f: AgentFindings): string {
    Dump(FindingsJson(f), DumpsStyle)
  }

  // ---------------------------------------------------------------------------
  // The streams and `main`
  // ---------------------------------------------------------------------------

  datatype Written = Err(line: string) | Out(line: string)

  /** The process's stderr and stdout, as one log of printed lines. */
  class Console {
    var log: seq<Written>

    constructor()
      ensures log == []
    {
      log := [];
    }

    /** `print(line, file=...)`: the line and its newline. */
    method Print(w: Written)
      modifies this
      ensures log == old(log) + [w]
    {
      log := log + [w];
    }
  }

  /** What was written to stdout, each line followed by its newline. */
  function OutText(log: seq<Written>): string {
    if log == [] then ""
    else (if log[0].Out? then log[0].line + "\n" else "") + OutText(log[1..])
  }

  /** The stderr lines of a run's tool uses, in order. */
  function EventLog(uses: seq<ToolUse>): (r: seq<Written>)
    ensures |r| == |uses|
    ensures forall i :: 0 <= i < |uses| ==> r[i] == Err(EventLine(uses[i]))
  {
    if uses == [] then [] else [Err(EventLine(uses[0]))] + EventLog(uses[1..])
  }

  /** `main()` with `sys.argv[1:] == words`: the exit status, and what was
      printed. The agent is started with the parsed prompt; the findings go
      out as `model_dump_json()` writes them. */
  method RunMain(words: seq<string>, agent: string -> AgentRun, io: Console) returns (status: int)
    modifies io
    ensures ParseArgs(words).Raised? ==> status == ParseArgs(words).exc.code && io.log == old(io.log)
    ensures ParseArgs(words).Returned? ==>
              var run := agent(ParseArgs(words).value.prompt);
              status == 0 && io.log == old(io.log) + EventLog(run.uses) + [Out(ModelDumpJson(ChosenFindings(run.ending)))]
  {
    status := RunMainPrinting(words, agent, io, ModelDumpJson);
  }

  /** `main()` printing the corrected findings line. */
  method RunMainFixed(words: seq<string>, agent: string -> AgentRun, io: Console) returns (status: int)
    modifies io
    ensures ParseArgs(words).Raised? ==> status == ParseArgs(words).exc.code && io.log == old(io.log)
    ensures ParseArgs(words).Returned? ==>
              var run := agent(ParseArgs(words).value.prompt);
              status == 0 && io.log == old(io.log) + EventLog(run.uses) + [Out(EscapedFindingsLine(ChosenFindings(run.ending)))]
  {
    status := RunMainPrinting(words, agent, io, EscapedFindingsLine);
  }

  /** The body of `main`, with the encoder of the findings line as a parameter. */
  method RunMainPrinting(words: seq<string>, agent: string -> AgentRun, io: Console, line: AgentFindings -> string)
    returns (status: int)
    modifies io
    ensures ParseArgs(words).Raised? ==> status == ParseArgs(words).exc.code && io.log == old(io.log)
    ensures ParseArgs(words).Returned? ==>
              var run := agent(ParseArgs(words).value.prompt);
              status == 0 && io.log == old(io.log) + EventLog(run.uses) + [Out(line(ChosenFindings(run.ending)))]
  {
    var args := ParseArgs(words);
    if args.Raised? {
      return args.exc.code;
    }
    var run := agent(args.value.prompt);
    var i := 0;
    while i < |run.uses|
      invariant 0 <= i <= |run.uses|
      invariant io.log == old(io.log) + EventLog(run.uses[..i])
    {
      io.Print(Err(EventLine(run.uses[i])));
      EventLogSnoc(run.uses[..i], run.uses[i]);
      assert run.uses[..i + 1] == run.uses[..i] + [run.uses[i]];
      i := i + 1;
    }
    assert run.uses[..i] == run.uses;
    io.Print(Out(line(ChosenFindings(run.ending))));
    return 0;
  }

  lemma {:induction false} EventLogSnoc(uses: seq<ToolUse>, u: ToolUse)
    ensures EventLog(uses + [u]) == EventLog(uses) + [Err(EventLine(u))]
  {
    if uses == [] {
      assert [u][1..] == [];
    } else {
      assert (uses + [u])[1..] == uses[1..] + [u];
      EventLogSnoc(uses[1..], u);
    }
  }

  // ---------------------------------------------------------------------------
  // What `main` promises about its output
  // ---------------------------------------------------------------------------

  /** The tool events write nothing to stdout. */
  lemma {:induction false} EventsNotOnStdout(uses: seq<ToolUse>)
    ensures OutText(EventLog(uses)) == ""
  {
    if uses != [] {
      assert EventLog(uses)[1..] == EventLog(uses[1..]);
      EventsNotOnStdout(uses[1..]);
    }
  }

  lemma {:induction false} OutTextAppend(a: seq<Written>, b: seq<Written>)
    ensures OutText(a + b) == OutText(a) + OutText(b)
  {
    if a == [] {
      assert a + b == b;
    } else {
      assert (a + b)[0] == a[0];
      assert (a + b)[1..] == a[1..] + b;
      OutTextAppend(a[1..], b);
    }
  }

  /** A run prints exactly one line on stdout, the findings line, and prints it
      after every event line. */
  lemma OneFindingsLine(uses: seq<ToolUse>, line: string)
    ensures OutText(EventLog(uses) + [Out(line)]) == line + "\n"
    ensures var log := EventLog(uses) + [Out(line)];
            forall i :: 0 <= i < |log| - 1 ==> log[i].Err?
  {
    OutTextAppend(EventLog(uses), [Out(line)]);
    EventsNotOnStdout(uses);
    assert [Out(line)][1..] == [];
  }

  /** Each event line is one line of JSON that decodes to an object with
      exactly the keys `tool` and `input`. */
  lemma EventLineShape(u: ToolUse)
    requires WellFormed(JObj(u.input))
    ensures NoLineBoundary(EventLine(u))
    ensures Loads(EventLine(u)) == Some(JObj([Member("tool", JStr(u.name)), Member("input", JObj(u.input))]))
  {
    EventLineSingle(u);
    EventLineLoads(u);
  }

  lemma EventLineSingle(u: ToolUse)
    ensures NoLineBoundary(EventLine(u))
  {
    assert JsonRoundTrip.SingleLineStyle(DumpsStyle);
    JsonRoundTrip.DumpSingleLine(EventJson(u), DumpsStyle);
  }

  lemma EventLineLoads(u: ToolUse)
    requires WellFormed(JObj(u.input))
    ensures Loads(EventLine(u)) == Some(EventJson(u))
  {
    EventJsonWellFormed(u);
    JsonRoundTrip.LoadsDump(EventJson(u), DumpsStyle);
  }

  lemma EventJsonWellFormed(u: ToolUse)
    requires WellFormed(JObj(u.input))
    ensures WellFormed(EventJson(u))
  {
    assert "tool" != "input" by { assert |"tool"| != |"input"|; }
  }

  /** The corrected findings line validates back to the findings. */
  lemma EscapedLineValidates(f: AgentFindings)
    ensures ValidateFindingsJson(EscapedFindingsLine(f)) == Returned(f)
  {
    FindingsRoundTrip(f, DumpsStyle);
  }

  /** The corrected findings line is one line, whatever text the findings hold. */
  lemma EscapedLineSingle(f: AgentFindings)
    ensures NoLineBoundary(EscapedFindingsLine(f))
  {
    assert JsonRoundTrip.SingleLineStyle(DumpsStyle);
    JsonRoundTrip.DumpSingleLine(FindingsJson(f), DumpsStyle);
  }
}
