/** The wire between the two ends of a containerised run: what
    `good_start._entrypoint` prints inside the container and what the host's
    `ContainerRuntime` makes of it. Stderr carries one JSON event per tool use;
    stdout carries the findings on its last line. */
module Protocol {
  import opened Wrappers
  import opened PyText
  import opened Json
  import opened Findings
  import JsonRoundTrip
  import Display
  import Container
  import Entrypoint

  // ---------------------------------------------------------------------------
  // Stderr: the tool events
  // ---------------------------------------------------------------------------

  /** The chunks the host's `readline()` returns from the child's stderr: each
      printed line with its newline. Text-mode `readline` cuts only at "\n",
      "\r" and "\r\n", which no event line holds (`Entrypoint.EventLineShape`). */
  function StderrChunks(log: seq<Entrypoint.Written>): (chunks: seq<string>)
    ensures forall w :: w in log && w.Err? ==> w.line + "\n" in chunks
  {
    if log == [] then []
    else (if log[0].Err? then [log[0].line + "\n"] else []) + StderrChunks(log[1..])
  }

  /** What `print_tool_event(name, input)` shows for one tool use. */
  function Shown(u: Entrypoint.ToolUse): (lines: seq<string>)
    ensures |lines| == (if u.name == "StructuredOutput" then 0 else 1)
  {
    Display.PrintToolEvent(JStr(u.name), JObj(u.input)).value
  }

  /** What `print_tool_event` shows for each use, in order. */
  function Displayed(uses: seq<Entrypoint.ToolUse>): seq<string> {
    if uses == [] then [] else Shown(uses[0]) + Displayed(uses[1..])
  }

  lemma EventLineFramed(u: Entrypoint.ToolUse)
    ensures var x := Entrypoint.EventLine(u);
            x != [] && x[0] == '{' && x[|x| - 1] == '}'
  {
    assert Entrypoint.EventLine(u) == "{" + DumpMembers(Entrypoint.EventJson(u).members, DumpsStyle) + "}";
  }

  lemma EventLookups(u: Entrypoint.ToolUse)
    ensures Lookup(Entrypoint.EventJson(u).members, "tool") == Some(JStr(u.name))
    ensures Lookup(Entrypoint.EventJson(u).members, "input") == Some(JObj(u.input))
  {
    var ms := Entrypoint.EventJson(u).members;
    assert "tool" != "input" by { assert |"tool"| != |"input"|; }
    assert UniqueKeys(ms);
    LookupAt(ms, 0);
    LookupAt(ms, 1);
  }

  /** A decoded event names its tool and its input, so `print_tool_event` shows it. */
  lemma EventDisplayed(u: Entrypoint.ToolUse, verbose: bool)
    requires WellFormed(JObj(u.input))
    ensures Container.EventEcho(Entrypoint.EventLine(u), verbose) == Returned(Shown(u))
  {
    var x := Entrypoint.EventLine(u);
    Entrypoint.EventLineShape(u);
    assert Loads(x) == Some(Entrypoint.EventJson(u));
    EventLookups(u);
    Container.EventEchoCases(x, verbose);
  }

  /** An event line with its newline is shown exactly as `print_tool_event`
      shows the tool use it encodes, in verbose mode or not. */
  lemma EventShown(u: Entrypoint.ToolUse, verbose: bool)
    requires WellFormed(JObj(u.input))
    ensures Container.LineEcho(Entrypoint.EventLine(u) + "\n", verbose) == Returned(Shown(u))
  {
    var x := Entrypoint.EventLine(u);
    EventLineFramed(u);
    StripFramed("", x, "\n");
    assert "" + x + "\n" == x + "\n";
    assert Strip(x + "\n") == x;
    EventDisplayed(u, verbose);
  }

  /** One more line in front shows its lines in front, when it does not raise. */
  lemma EchoCons(c: string, cs: seq<string>, verbose: bool)
    requires Container.LineEcho(c, verbose).Returned?
    ensures Container.StderrEcho([c] + cs, verbose) ==
            Container.Echo(Container.LineEcho(c, verbose).value + Container.StderrEcho(cs, verbose).lines,
                           Container.StderrEcho(cs, verbose).error)
  {
    var f := c => Container.LineEcho(c, verbose);
    var outs := Container.MapLines(f, [c] + cs);
    assert ([c] + cs)[1..] == cs;
    assert outs == [f(c)] + Container.MapLines(f, cs);
    assert outs[1..] == Container.MapLines(f, cs);
  }

  /** The host shows the entrypoint's tool events exactly as `print_tool_event`
      renders them, one use after the other, and no event line raises. */
  lemma {:induction false} EventsShown(uses: seq<Entrypoint.ToolUse>, verbose: bool)
    requires forall i :: 0 <= i < |uses| ==> WellFormed(JObj(uses[i].input))
    ensures Container.StderrEcho(StderrChunks(Entrypoint.EventLog(uses)), verbose) ==
            Container.Echo(Displayed(uses), None)
  {
    var log := Entrypoint.EventLog(uses);
    if uses == [] {
      assert StderrChunks(log) == [];
    } else {
      var c := Entrypoint.EventLine(uses[0]) + "\n";
      assert log == [Entrypoint.Err(Entrypoint.EventLine(uses[0]))] + Entrypoint.EventLog(uses[1..]);
      assert log[1..] == Entrypoint.EventLog(uses[1..]);
      assert StderrChunks(log) == [c] + StderrChunks(Entrypoint.EventLog(uses[1..]));
      EventShown(uses[0], verbose);
      EventsShown(uses[1..], verbose);
      EchoCons(c, StderrChunks(Entrypoint.EventLog(uses[1..])), verbose);
    }
  }

  // ---------------------------------------------------------------------------
  // Stdout: the findings
  // ---------------------------------------------------------------------------

  lemma FindingsLineFramed(f: AgentFindings, st: Style)
    ensures var x := Dump(FindingsJson(f), st);
            x != [] && x[0] == '{' && x[|x| - 1] == '}'
  {
    assert Dump(FindingsJson(f), st) == "{" + DumpMembers(FindingsJson(f).members, st) + "}";
  }

  /** A clean exit after the findings line hands the host those findings, after
      any output that ends a line of its own, as long as no text of the
      findings holds a line boundary `model_dump_json` writes raw. */
  lemma FindingsReachHost(noise: string, f: AgentFindings)
    requires noise == [] || IsLineBoundary(noise[|noise| - 1])
    requires NoRawBreakInFindings(f)
    ensures Container.Classify(0, noise + ModelDumpJson(f) + "\n") == Returned(f)
  {
    var x := ModelDumpJson(f);
    FindingsLineFramed(f, PydanticStyle);
    assert x != [] && x[0] == '{' && x[|x| - 1] == '}';
    ModelDumpSingleLine(f);
    ModelDumpValidates(f);
    LineReachesHost(noise, x, f);
  }

  /** The corrected findings line reaches the host whatever text it holds. */
  lemma EscapedFindingsReachHost(noise: string, f: AgentFindings)
    requires noise == [] || IsLineBoundary(noise[|noise| - 1])
    ensures Container.Classify(0, noise + Entrypoint.EscapedFindingsLine(f) + "\n") == Returned(f)
  {
    FindingsLineFramed(f, DumpsStyle);
    Entrypoint.EscapedLineSingle(f);
    Entrypoint.EscapedLineValidates(f);
    LineReachesHost(noise, Entrypoint.EscapedFindingsLine(f), f);
  }

  /** A one-line object that validates, printed last, is what the host reads. */
  lemma LineReachesHost(noise: string, x: string, f: AgentFindings)
    requires noise == [] || IsLineBoundary(noise[|noise| - 1])
    requires x != [] && x[0] == '{' && x[|x| - 1] == '}' && NoLineBoundary(x)
    requires ValidateFindingsJson(x) == Returned(f)
    ensures Container.Classify(0, noise + x + "\n") == Returned(f)
  {
    LastLineOfFramed(noise, x);
  }

  /** The host's last line is the text framed between a line boundary (or the
      start of its stdout) and the final newline. */
  lemma LastLineOfFramed(noise: string, x: string)
    requires x != [] && !IsSpace(x[0]) && !IsSpace(x[|x| - 1]) && NoLineBoundary(x)
    requires noise == [] || IsLineBoundary(noise[|noise| - 1])
    ensures Container.LastLine(noise + x + "\n") == x
  {
    StripFramed(noise, x, "\n");
    var t := TrimStart(noise);
    assert t == [] || t[|t| - 1] == noise[|noise| - 1];
    LastLineAfterBreak(t, x);
  }

  /** What `main` prints on stderr is shown on the host exactly as
      `print_tool_event` renders the tool uses, and raises nothing. */
  lemma MainEventsShown(uses: seq<Entrypoint.ToolUse>, findingsLine: string, verbose: bool)
    requires forall i :: 0 <= i < |uses| ==> WellFormed(JObj(uses[i].input))
    ensures Container.StderrEcho(StderrChunks(Entrypoint.EventLog(uses) + [Entrypoint.Out(findingsLine)]), verbose)
            == Container.Echo(Displayed(uses), None)
  {
    StderrChunksOut(Entrypoint.EventLog(uses), findingsLine);
    EventsShown(uses, verbose);
  }

  /** What `main` prints on stdout hands the host the findings `main` chose,
      when their text holds none of U+0085, U+2028 and U+2029. */
  lemma MainFindingsRead(uses: seq<Entrypoint.ToolUse>, f: AgentFindings)
    requires NoRawBreakInFindings(f)
    ensures Container.Classify(0, Entrypoint.OutText(Entrypoint.EventLog(uses) + [Entrypoint.Out(ModelDumpJson(f))]))
            == Returned(f)
  {
    var x := ModelDumpJson(f);
    Entrypoint.OneFindingsLine(uses, x);
    FindingsReachHost("", f);
    assert "" + x == x;
  }

  /** What the corrected `main` prints on stdout hands the host the findings,
      whatever their text. */
  lemma FixedMainFindingsRead(uses: seq<Entrypoint.ToolUse>, f: AgentFindings)
    ensures Container.Classify(0, Entrypoint.OutText(Entrypoint.EventLog(uses) + [Entrypoint.Out(Entrypoint.EscapedFindingsLine(f))]))
            == Returned(f)
  {
    var x := Entrypoint.EscapedFindingsLine(f);
    Entrypoint.OneFindingsLine(uses, x);
    EscapedFindingsReachHost("", f);
    assert "" + x == x;
  }

  /** A stdout line adds nothing to stderr. */
  lemma {:induction false} StderrChunksOut(log: seq<Entrypoint.Written>, line: string)
    ensures StderrChunks(log + [Entrypoint.Out(line)]) == StderrChunks(log)
  {
    if log == [] {
      assert [Entrypoint.Out(line)][1..] == [];
    } else {
      assert (log + [Entrypoint.Out(line)])[0] == log[0];
      assert (log + [Entrypoint.Out(line)])[1..] == log[1..] + [Entrypoint.Out(line)];
      StderrChunksOut(log[1..], line);
    }
  }

  // ---------------------------------------------------------------------------
  // The findings as `model_dump_json` writes them
  // ---------------------------------------------------------------------------

  /** `model_dump_json` of findings whose details are one such character writes
      it raw, so the findings line splits in two and the host reads only the
      fragment after the break: the details are lost and validation fails,
      although the child exited cleanly. The corrected line reads back. */
  lemma RawBreakSplitsFindings(passed: bool, c: char)
    requires RawBreak(c)
    ensures Container.Classify(0, ModelDumpJson(WithDefaults(passed, [c])) + "\n").Raised?
    ensures Container.Classify(0, Entrypoint.EscapedFindingsLine(WithDefaults(passed, [c])) + "\n")
            == Returned(WithDefaults(passed, [c]))
  {
    RawLineRefused(passed, c);
    CleanLineRead(WithDefaults(passed, [c]));
  }

  lemma RawLineRefused(passed: bool, c: char)
    requires RawBreak(c)
    ensures Container.Classify(0, ModelDumpJson(WithDefaults(passed, [c])) + "\n").Raised?
  {
    var head, q := RawDumpSplits(passed, c);
    SplitLineRefused(head, c, q);
  }

  lemma CleanLineRead(f: AgentFindings)
    ensures Container.Classify(0, Entrypoint.EscapedFindingsLine(f) + "\n") == Returned(f)
  {
    var x := Entrypoint.EscapedFindingsLine(f);
    EscapedFindingsReachHost("", f);
    assert "" + x == x;
  }

  /** An object broken by a line boundary before a `","...` fragment is not
      read back by the host. */
  lemma SplitLineRefused(head: string, c: char, q: string)
    requires RawBreak(c) && head != [] && head[0] == '{'
    requires NoLineBoundary(q) && Fragment(q)
    ensures Container.Classify(0, (head + [c]) + q + "\n").Raised?
  {
    LastLineAfterSplit(head, c, q);
    FragmentNotJson(q);
  }

  /** The host reads the text after the last break. */
  lemma LastLineAfterSplit(head: string, c: char, q: string)
    requires RawBreak(c) && head != [] && head[0] == '{'
    requires NoLineBoundary(q) && Fragment(q)
    ensures Container.LastLine((head + [c]) + q + "\n") == q
  {
    var noise := head + [c];
    assert noise[|noise| - 1] == c;
    LastLineOfFramed(noise, q);
  }

  /** The text after the break: `","s...}`. */
  predicate Fragment(q: string) {
    |q| > 3 && q[0] == '"' && q[1] == ',' && q[2] == '"' && q[3] == 's' && q[|q| - 1] == '}'
  }

  /** Where the raw character sits in `model_dump_json`'s output, and what
      follows it: `","steps":[],"verification_command":null}`. */
  lemma RawDumpSplits(passed: bool, c: char) returns (head: string, q: string)
    requires RawBreak(c)
    ensures ModelDumpJson(WithDefaults(passed, [c])) == (head + [c]) + q
    ensures head != [] && head[0] == '{'
    ensures NoLineBoundary(q) && Fragment(q)
  {
    var f := WithDefaults(passed, [c]);
    var ms := FindingsJson(f).members;
    var st := PydanticStyle;
    var d0 := DumpMember(ms[0], st);
    var k := Quote("details", false);
    var more := DumpMoreMembers(ms[2..], st);
    DetailsDump(ms[1], c);
    assert DumpMoreMembers(ms[1..], st) == "," + DumpMember(ms[1], st) + more by {
      assert ms[1..][0] == ms[1] && ms[1..][1..] == ms[2..];
    }
    assert DumpMembers(ms, st) == d0 + DumpMoreMembers(ms[1..], st);
    assert ModelDumpJson(f) == "{" + (d0 + ("," + (k + ":" + ("\"" + [c] + "\"")) + more)) + "}";
    head := "{" + d0 + "," + k + ":" + "\"";
    q := "\"" + more + "}";
    DumpPieces(d0, k, c, more);
    FragmentStart(ms[2..]);
    TailSingleLine(ms[2..]);
  }

  lemma DetailsDump(m: Member, c: char)
    requires RawBreak(c) && m == Member("details", JStr([c]))
    ensures DumpMember(m, PydanticStyle) == Quote("details", false) + ":" + ("\"" + [c] + "\"")
  {
    assert EscapeString([c], false) == [c] by {
      assert EscapeChar(c, false) == [c];
      assert [c][1..] == [];
    }
    assert Dump(m.value, PydanticStyle) == Quote([c], false);
  }

  lemma DumpPieces(d0: string, k: string, c: char, more: string)
    ensures "{" + (d0 + ("," + (k + ":" + ("\"" + [c] + "\"")) + more)) + "}"
            == (("{" + d0 + "," + k + ":" + "\"") + [c]) + ("\"" + more + "}")
  {
  }

  /** The dump of the members after `details`, quoted and closed, is a fragment. */
  lemma FragmentStart(tail: seq<Member>)
    requires |tail| > 0 && tail[0].key == "steps"
    ensures Fragment("\"" + DumpMoreMembers(tail, PydanticStyle) + "}")
  {
    var st := PydanticStyle;
    var key := Quote("steps", false);
    var rest := st.keySep + Dump(tail[0].value, st) + DumpMoreMembers(tail[1..], st);
    StepsKeyStarts();
    assert DumpMember(tail[0], st) == key + st.keySep + Dump(tail[0].value, st);
    assert DumpMoreMembers(tail, st) == st.itemSep + DumpMember(tail[0], st) + DumpMoreMembers(tail[1..], st);
    Regroup(",", key, st.keySep, Dump(tail[0].value, st), DumpMoreMembers(tail[1..], st));
    IndexPieces(key, rest);
  }

  lemma Regroup(a: string, b: string, c: string, d: string, e: string)
    ensures a + (b + c + d) + e == a + (b + (c + d + e))
  {
  }

  lemma StepsKeyStarts()
    ensures var key := Quote("steps", false);
            |key| > 1 && key[0] == '"' && key[1] == 's'
  {
    assert EscapeString("steps", false) == EscapeChar('s', false) + EscapeString("teps", false);
    assert EscapeChar('s', false) == "s";
  }

  lemma IndexPieces(key: string, rest: string)
    requires |key| > 1 && key[0] == '"' && key[1] == 's'
    ensures Fragment("\"" + ("," + (key + rest)) + "}")
  {
  }

  lemma TailSingleLine(tail: seq<Member>)
    requires tail == [Member("steps", JArr([])), Member("verification_command", JNull)]
    ensures NoLineBoundary("\"" + DumpMoreMembers(tail, PydanticStyle) + "}")
  {
    var more := DumpMoreMembers(tail, PydanticStyle);
    JsonRoundTrip.PrintableNoRawBreak("steps");
    JsonRoundTrip.PrintableNoRawBreak("verification_command");
    JsonRoundTrip.MoreMembersSingleLine(tail, PydanticStyle);
    JsonRoundTrip.NoBoundaryConcat("\"", more);
    JsonRoundTrip.NoBoundaryConcat("\"" + more, "}");
  }

  /** A string `","` followed by more text is not a JSON document. */
  lemma FragmentNotJson(q: string)
    requires Fragment(q)
    ensures Loads(q).None?
  {
    FragmentValue(q);
    JsonRoundTrip.SkipWsNone(q[3..]);
  }

  lemma FragmentValue(q: string)
    requires Fragment(q)
    ensures ParseValue(q) == Some((JStr(","), q[3..]))
  {
    JsonRoundTrip.ValueAt(q);
    FragmentBody(q);
  }

  lemma FragmentBody(q: string)
    requires Fragment(q)
    ensures ParseStringBody(q[1..]) == Some((",", q[3..]))
  {
    var r := q[1..];
    assert r[0] == ',' && r[1..] == q[2..];
    assert q[2..][0] == '"' && q[2..][1..] == q[3..];
    assert ParseStringBody(q[2..]) == Some(([], q[3..]));
    assert [','] + [] == [','];
  }

  // ---------------------------------------------------------------------------
  // The command line
  // ---------------------------------------------------------------------------

  /** The arguments the host passes after the image name are exactly what the
      entrypoint parses: the prompt and the target come through unless one of
      them looks like an option, in which case the child exits with usage
      status 2 before the agent starts. */
  lemma ArgvReachesEntrypoint(rt: Container.ContainerRuntime, h: Container.Host, prompt: string, target: string)
    ensures var words := rt.RunCommand(h, prompt, target)[10..];
            && (!Entrypoint.LooksLikeOption(prompt) && !Entrypoint.LooksLikeOption(target) ==>
                  Entrypoint.ParseArgs(words) == Returned(Entrypoint.Args(prompt, target)))
            && (Entrypoint.LooksLikeOption(prompt) || Entrypoint.LooksLikeOption(target) ==>
                  Entrypoint.ParseArgs(words) == Raised(SystemExit(2)))
  {
    Entrypoint.ReadsHostCommand(prompt, target);
  }
}
