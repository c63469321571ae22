/** The findings an agent run reports (`AgentStep`, `AgentFindings`), their JSON
    form on the wire, and the `Result` object the host hands to its callers.

    `model_dump_json` writes the fields in declaration order; `model_validate_json`
    reads them back, fills in the defaults of the optional fields and ignores
    keys it does not know. */
module Findings {
  import opened Wrappers
  import opened PyText
  import opened Json
  import JsonRoundTrip

  datatype AgentStep = AgentStep(tool: string, input: string, output: string, isError: bool)

  datatype AgentFindings = AgentFindings(
    passed: bool,
    details: string,
    steps: seq<AgentStep>,
    verificationCommand: Option<string>)

  /** `AgentFindings(passed=..., details=...)`: the optional fields take their defaults. */
  function WithDefaults(passed: bool, details: string): AgentFindings {
    AgentFindings(passed, details, [], None)
  }

  // ---------------------------------------------------------------------------
  // The JSON form
  // ---------------------------------------------------------------------------

  function StepJson(s: AgentStep): Json {
    JObj([Member("tool", JStr(s.tool)), Member("input", JStr(s.input)),
          Member("output", JStr(s.output)), Member("is_error", JBool(s.isError))])
  }

  function StepsJson(steps: seq<AgentStep>): (r: seq<Json>)
    ensures |r| == |steps|
    ensures forall i :: 0 <= i < |steps| ==> r[i] == StepJson(steps[i])
  {
    if steps == [] then [] else [StepJson(steps[0])] + StepsJson(steps[1..])
  }

  /** `model_dump(mode="json")`: every field, in declaration order. */
  function FindingsJson(f: AgentFindings): Json {
    JObj([Member("passed", JBool(f.passed)), Member("details", JStr(f.details)),
          Member("steps", JArr(StepsJson(f.steps))),
          Member("verification_command", CommandJson(f.verificationCommand))])
  }

  /** An optional string as JSON: `null` for none. */
  function CommandJson(c: Option<string>): Json {
    match c
    case None => JNull
    case Some(s) => JStr(s)
  }

  /** `findings.model_dump_json()`. */
  function ModelDumpJson(f: AgentFindings): string {
    Dump(FindingsJson(f), PydanticStyle)
  }

  /** No text of the findings holds U+0085, U+2028 or U+2029, the line
      boundaries `model_dump_json` writes raw. */
  predicate NoRawBreakInFindings(f: AgentFindings) {
    && NoRawBreak(f.details)
    && (forall i :: 0 <= i < |f.steps| ==> StepNoRawBreak(f.steps[i]))
    && (f.verificationCommand.Some? ==> NoRawBreak(f.verificationCommand.value))
  }

  predicate StepNoRawBreak(s: AgentStep) {
    NoRawBreak(s.tool) && NoRawBreak(s.input) && NoRawBreak(s.output)
  }

  /** `model_dump_json` writes findings free of those characters on one line,
      since the keys are plain ASCII. */
  lemma ModelDumpSingleLine(f: AgentFindings)
    requires NoRawBreakInFindings(f)
    ensures NoLineBoundary(ModelDumpJson(f))
  {
    FindingsJsonNoRawBreak(f);
    assert JsonRoundTrip.SingleLineStyle(PydanticStyle);
    JsonRoundTrip.DumpSingleLine(FindingsJson(f), PydanticStyle);
  }

  lemma FindingsJsonNoRawBreak(f: AgentFindings)
    requires NoRawBreakInFindings(f)
    ensures JsonRoundTrip.NoBreakInStrings(FindingsJson(f))
  {
    var items := StepsJson(f.steps);
    forall i | 0 <= i < |items|
      ensures JsonRoundTrip.NoBreakInStrings(items[i])
    {
      StepJsonNoRawBreak(f.steps[i]);
    }
    var ms := FindingsJson(f).members;
    JsonRoundTrip.PrintableNoRawBreak("passed");
    JsonRoundTrip.PrintableNoRawBreak("details");
    JsonRoundTrip.PrintableNoRawBreak("steps");
    JsonRoundTrip.PrintableNoRawBreak("verification_command");
    assert JsonRoundTrip.NoBreakInStrings(ms[3].value);
  }

  lemma StepJsonNoRawBreak(s: AgentStep)
    requires StepNoRawBreak(s)
    ensures JsonRoundTrip.NoBreakInStrings(StepJson(s))
  {
    JsonRoundTrip.PrintableNoRawBreak("tool");
    JsonRoundTrip.PrintableNoRawBreak("input");
    JsonRoundTrip.PrintableNoRawBreak("output");
    JsonRoundTrip.PrintableNoRawBreak("is_error");
  }

  // ---------------------------------------------------------------------------
  // Validation
  // ---------------------------------------------------------------------------

  function Invalid<T>(field: string): Outcome<T> {
    Raised(ValidationError(field))
  }

  /** A required string field. */
  function StrField(ms: seq<Member>, key: string): (r: Outcome<string>)
    ensures r.Returned? <==> (Lookup(ms, key).Some? && Lookup(ms, key).value.JStr?)
  {
    match Lookup(ms, key)
    case Some(JStr(s)) => Returned(s)
    case _ => Invalid(key)
  }

  function ValidateStep(v: Json): (r: Outcome<AgentStep>)
    ensures r.Returned? ==> v.JObj?
  {
    if !v.JObj? then Invalid("steps")
    else
      var ms := v.members;
      match (StrField(ms, "tool"), StrField(ms, "input"), StrField(ms, "output"), Lookup(ms, "is_error"))
      case (Returned(tool), Returned(input), Returned(output), None) => Returned(AgentStep(tool, input, output, false))
      case (Returned(tool), Returned(input), Returned(output), Some(JBool(e))) => Returned(AgentStep(tool, input, output, e))
      case _ => Invalid("steps")
  }

  function ValidateSteps(items: seq<Json>): (r: Outcome<seq<AgentStep>>)
    ensures r.Returned? ==> |r.value| == |items|
  {
    if items == [] then Returned([])
    else
      match (ValidateStep(items[0]), ValidateSteps(items[1..]))
      case (Returned(s), Returned(rest)) => Returned([s] + rest)
      case _ => Invalid("steps")
  }

  /** `AgentFindings.model_validate(v)` on a decoded JSON value. */
  function ValidateFindings(v: Json): (r: Outcome<AgentFindings>)
    ensures r.Returned? ==> v.JObj?
    ensures r.Raised? ==> r.exc.ValidationError?
  {
    if !v.JObj? then Invalid("AgentFindings")
    else
      var ms := v.members;
      match (Lookup(ms, "passed"), StrField(ms, "details"), StepsField(ms), CommandField(ms))
      case (Some(JBool(p)), Returned(d), Returned(st), Returned(c)) => Returned(AgentFindings(p, d, st, c))
      case _ => Invalid("AgentFindings")
  }

  /** The `steps` field: a list of steps, empty when it is missing. */
  function StepsField(ms: seq<Member>): (r: Outcome<seq<AgentStep>>)
    ensures r.Raised? ==> r.exc.ValidationError?
  {
    match Lookup(ms, "steps")
    case None => Returned([])
    case Some(JArr(items)) => ValidateSteps(items)
    case Some(_) => Invalid("steps")
  }

  /** The `verification_command` field: a string or null, null when it is missing. */
  function CommandField(ms: seq<Member>): (r: Outcome<Option<string>>)
    ensures r.Raised? ==> r.exc.ValidationError?
  {
    match Lookup(ms, "verification_command")
    case None => Returned(None)
    case Some(JNull) => Returned(None)
    case Some(JStr(c)) => Returned(Some(c))
    case Some(_) => Invalid("verification_command")
  }

  /** `AgentFindings.model_validate_json(text)`. */
  function ValidateFindingsJson(text: string): (r: Outcome<AgentFindings>)
    ensures r.Raised? ==> r.exc.ValidationError?
    ensures Loads(text).None? ==> r.Raised?
  {
    match Loads(text)
    case None => Invalid("json_invalid")
    case Some(v) => ValidateFindings(v)
  }

  // ---------------------------------------------------------------------------
  // What validation promises
  // ---------------------------------------------------------------------------

  lemma StepKeysDistinct()
    ensures "tool" != "input" && "tool" != "output" && "tool" != "is_error"
    ensures "input" != "output" && "input" != "is_error" && "output" != "is_error"
  {
    assert |"tool"| == 4 && |"input"| == 5 && |"output"| == 6 && |"is_error"| == 8;
  }

  lemma FindingsKeysDistinct()
    ensures "passed" != "details" && "passed" != "steps" && "passed" != "verification_command"
    ensures "details" != "steps" && "details" != "verification_command" && "steps" != "verification_command"
  {
    assert |"passed"| == 6 && |"details"| == 7 && |"steps"| == 5 && |"verification_command"| == 20;
  }

  lemma StepLookups(s: AgentStep)
    ensures var ms := StepJson(s).members;
            && Lookup(ms, "tool") == Some(JStr(s.tool)) && Lookup(ms, "input") == Some(JStr(s.input))
            && Lookup(ms, "output") == Some(JStr(s.output)) && Lookup(ms, "is_error") == Some(JBool(s.isError))
  {
    StepKeysDistinct();
    var ms := StepJson(s).members;
    assert UniqueKeys(ms);
    LookupAt(ms, 0);
    LookupAt(ms, 1);
    LookupAt(ms, 2);
    LookupAt(ms, 3);
  }

  lemma StepValidates(s: AgentStep)
    ensures ValidateStep(StepJson(s)) == Returned(s)
  {
    StepLookups(s);
  }

  lemma {:induction false} StepsValidate(steps: seq<AgentStep>)
    ensures ValidateSteps(StepsJson(steps)) == Returned(steps)
  {
    if steps != [] {
      var items := StepsJson(steps);
      assert items[0] == StepJson(steps[0]);
      assert items[1..] == StepsJson(steps[1..]);
      StepValidates(steps[0]);
      StepsValidate(steps[1..]);
      assert [steps[0]] + steps[1..] == steps;
    }
  }

  /** Validating what `model_dump` wrote gives back the same findings. */
  lemma FindingsValidate(f: AgentFindings)
    ensures ValidateFindings(FindingsJson(f)) == Returned(f)
  {
    var ms := FindingsJson(f).members;
    FindingsLookups(f);
    StepsValidate(f.steps);
    assert StrField(ms, "details") == Returned(f.details);
    assert StepsField(ms) == Returned(f.steps);
    CommandFieldReads(ms, f.verificationCommand);
  }

  lemma CommandFieldReads(ms: seq<Member>, c: Option<string>)
    requires Lookup(ms, "verification_command") == Some(CommandJson(c))
    ensures CommandField(ms) == Returned(c)
  {
  }

  lemma FindingsLookups(f: AgentFindings)
    ensures var ms := FindingsJson(f).members;
            && Lookup(ms, "passed") == Some(JBool(f.passed))
            && Lookup(ms, "details") == Some(JStr(f.details))
            && Lookup(ms, "steps") == Some(JArr(StepsJson(f.steps)))
            && Lookup(ms, "verification_command") == Some(CommandJson(f.verificationCommand))
  {
    FindingsKeysDistinct();
    var ms := FindingsJson(f).members;
    assert UniqueKeys(ms);
    LookupAt(ms, 0);
    LookupAt(ms, 1);
    LookupAt(ms, 2);
    LookupAt(ms, 3);
  }

  lemma FindingsJsonWellFormed(f: AgentFindings)
    ensures WellFormed(FindingsJson(f))
  {
    FindingsKeysDistinct();
    var items := StepsJson(f.steps);
    forall i | 0 <= i < |items|
      ensures WellFormed(items[i])
    {
      StepJsonWellFormed(f.steps[i]);
    }
  }

  lemma StepJsonWellFormed(s: AgentStep)
    ensures WellFormed(StepJson(s))
  {
    StepKeysDistinct();
  }

  /** `model_validate_json` reads back what `model_dump_json` wrote. */
  lemma ModelDumpValidates(f: AgentFindings)
    ensures ValidateFindingsJson(ModelDumpJson(f)) == Returned(f)
  {
    assert ValidStyle(PydanticStyle);
    FindingsRoundTrip(f, PydanticStyle);
  }

  /** Whatever encoder writes the findings, `model_validate_json` reads them back. */
  lemma FindingsRoundTrip(f: AgentFindings, st: Style)
    requires ValidStyle(st)
    ensures ValidateFindingsJson(Dump(FindingsJson(f), st)) == Returned(f)
  {
    FindingsJsonWellFormed(f);
    JsonRoundTrip.LoadsDump(FindingsJson(f), st);
    FindingsValidate(f);
  }

  /** A findings object missing its optional fields gets the defaults: no steps
      and no verification command. */
  lemma Defaults(passed: bool, details: string)
    ensures ValidateFindings(JObj([Member("passed", JBool(passed)), Member("details", JStr(details))]))
            == Returned(WithDefaults(passed, details))
  {
    FindingsKeysDistinct();
    var fs := [Member("passed", JBool(passed)), Member("details", JStr(details))];
    assert Lookup(fs, "passed") == Some(JBool(passed));
    assert Lookup(fs, "details") == Some(JStr(details));
    assert Lookup(fs, "steps").None? && Lookup(fs, "verification_command").None?;
  }

  /** A step missing `is_error` is not an error. */
  lemma StepDefaults(tool: string, input: string, output: string)
    ensures ValidateStep(JObj([Member("tool", JStr(tool)), Member("input", JStr(input)), Member("output", JStr(output))]))
            == Returned(AgentStep(tool, input, output, false))
  {
    StepKeysDistinct();
    var ss := [Member("tool", JStr(tool)), Member("input", JStr(input)), Member("output", JStr(output))];
    assert UniqueKeys(ss);
    LookupAt(ss, 0);
    LookupAt(ss, 1);
    LookupAt(ss, 2);
    assert Lookup(ss, "is_error").None?;
  }

  /** The required fields: `{}` does not validate. */
  lemma EmptyObjectInvalid()
    ensures ValidateFindings(JObj([])).Raised?
    ensures ValidateFindingsJson("{}").Raised?
  {
    assert Dump(JObj([]), DumpsStyle) == "{}";
    JsonRoundTrip.LoadsDump(JObj([]), DumpsStyle);
  }

  /** Only the four fields matter: keys validation does not know are ignored. */
  lemma OnlyFieldsMatter(ms: seq<Member>, ms': seq<Member>)
    requires Lookup(ms, "passed") == Lookup(ms', "passed")
    requires Lookup(ms, "details") == Lookup(ms', "details")
    requires Lookup(ms, "steps") == Lookup(ms', "steps")
    requires Lookup(ms, "verification_command") == Lookup(ms', "verification_command")
    ensures ValidateFindings(JObj(ms)) == ValidateFindings(JObj(ms'))
  {
    assert StrField(ms, "details") == StrField(ms', "details");
    assert StepsField(ms) == StepsField(ms');
    assert CommandField(ms) == CommandField(ms');
  }

  // ---------------------------------------------------------------------------
  // Result
  // ---------------------------------------------------------------------------

  /** One message of the agent's conversation, as the agent library gives it. */
  datatype Message = Message(payload: Json)

  /** The outcome of one documentation test, as the host returns it. The clock
      reading is passed in. */
  class Result {
    var passed: bool
    var details: string
    var steps: seq<AgentStep>
    var verificationCommand: Option<string>
    var messages: seq<Message>
    var timestamp: int

    /** The findings this result carries. */
    function Findings(): AgentFindings
      reads this
    {
      AgentFindings(passed, details, steps, verificationCommand)
    }

    /** `Result(agent_messages, agent_result)`: the findings' fields, the
        messages as given and the time of creation. */
    constructor(agentMessages: seq<Message>, agentResult: AgentFindings, now: int)
      ensures passed == agentResult.passed && details == agentResult.details
      ensures steps == agentResult.steps && verificationCommand == agentResult.verificationCommand
      ensures Findings() == agentResult
      ensures messages == agentMessages && timestamp == now
    {
      passed := agentResult.passed;
      details := agentResult.details;
      steps := agentResult.steps;
      verificationCommand := agentResult.verificationCommand;
      messages := agentMessages;
      timestamp := now;
    }
  }
}
