/** The pytest plugin: the `good_start` fixture's choice of target, prompt
    template and runtime, the automatic `good_start` mark on the tests that use
    the fixture, and the agent's details added to a failed test's report. */
module Plugin {
  import opened Wrappers
  import opened Findings

  const FixtureName: string := "good_start"
  const ReportBanner: string := "\n\n--- good-start agent details ---\n"

  // ---------------------------------------------------------------------------
  // Configuration and marks
  // ---------------------------------------------------------------------------

  /** A `good_start` mark and the string keyword arguments it carries. */
  datatype Mark = Mark(name: string, target: Option<string>, prompt: Option<string>)

  /** The mark `pytest_collection_modifyitems` adds: `pytest.mark.good_start`. */
  const BareMark: Mark := Mark(FixtureName, None, None)

  /** The plugin's command-line options and ini settings as pytest reports them:
      `--good-start-target`, `--good-start-prompt`, `--good-start-no-container`,
      and `good_start_target` (default "."), `good_start_prompt` (default None),
      `good_start_no_container` (default False). */
  datatype Config = Config(
    cliTarget: Option<string>,
    cliPrompt: Option<string>,
    cliNoContainer: bool,
    iniTarget: string,
    iniPrompt: Option<string>,
    iniNoContainer: bool)

  /** Python truthiness of an optional string. */
  predicate Truthy(v: Option<string>) {
    v.Some? && v.value != ""
  }

  /** The first candidate that is set and not empty. */
  function FirstTruthy(candidates: seq<Option<string>>): (r: Option<string>)
    ensures r.None? <==> forall i :: 0 <= i < |candidates| ==> !Truthy(candidates[i])
    ensures r.Some? ==> Truthy(r) && (exists i :: 0 <= i < |candidates| && candidates[i] == r &&
                                                 forall j :: 0 <= j < i ==> !Truthy(candidates[j]))
  {
    if candidates == [] then None
    else if Truthy(candidates[0]) then candidates[0]
    else
      var r := FirstTruthy(candidates[1..]);
      if r.Some? then FirstAfterFalsy(candidates, r); r else r
  }

  /** A first truthy candidate after a falsy head is the first of the whole. */
  lemma FirstAfterFalsy(candidates: seq<Option<string>>, r: Option<string>)
    requires candidates != [] && !Truthy(candidates[0])
    requires exists i :: 0 <= i < |candidates[1..]| && candidates[1..][i] == r &&
                         forall j :: 0 <= j < i ==> !Truthy(candidates[1..][j])
    ensures exists i :: 0 <= i < |candidates| && candidates[i] == r &&
                        forall j :: 0 <= j < i ==> !Truthy(candidates[j])
  {
    var i :| 0 <= i < |candidates[1..]| && candidates[1..][i] == r &&
             forall j :: 0 <= j < i ==> !Truthy(candidates[1..][j]);
    assert candidates[i + 1] == r;
    forall j | 0 <= j < i + 1
      ensures !Truthy(candidates[j])
    {
      if j > 0 {
        assert candidates[j] == candidates[1..][j - 1];
      }
    }
  }

  /** Three candidates are tried in order. */
  lemma FirstOfThree(a: Option<string>, b: Option<string>, c: Option<string>)
    ensures FirstTruthy([a, b, c]) == if Truthy(a) then a else if Truthy(b) then b else if Truthy(c) then c else None
  {
    assert [a, b, c][1..] == [b, c];
    assert [b, c][1..] == [c];
    assert [c][1..] == [];
    assert FirstTruthy([c]) == if Truthy(c) then c else None;
    assert FirstTruthy([b, c]) == if Truthy(b) then b else FirstTruthy([c]);
  }

  /** `marker.kwargs.get(key)` on the closest mark, if there is one. */
  function MarkTarget(marker: Option<Mark>): Option<string> {
    if marker.Some? then marker.value.target else None
  }

  function MarkPrompt(marker: Option<Mark>): Option<string> {
    if marker.Some? then marker.value.prompt else None
  }

  /** The target `_run` works on: the explicit argument when one is given, even
      an empty one; otherwise the first of the mark's `target`, the command-line
      option and the ini setting that is set and not empty; otherwise ".". */
  function ResolveTarget(explicit: Option<string>, marker: Option<Mark>, config: Config): (t: string)
    ensures explicit.Some? ==> t == explicit.value
    ensures explicit.None? ==>
              t == FirstTruthy([MarkTarget(marker), config.cliTarget, Some(config.iniTarget)]).GetOr(".")
    ensures explicit.None? ==> t != ""
  {
    FirstOfThree(MarkTarget(marker), config.cliTarget, Some(config.iniTarget));
    if explicit.Some? then explicit.value
    else if marker.Some? && Truthy(marker.value.target) then marker.value.target.value
    else if Truthy(config.cliTarget) then config.cliTarget.value
    else if config.iniTarget != "" then config.iniTarget
    else "."
  }

  /** The prompt template path `_run` chooses: the explicit argument when one
      is given; otherwise the first of the mark's `prompt`, the command-line
      option and the ini setting that is set and not empty; otherwise none. */
  function ResolvePrompt(explicit: Option<string>, marker: Option<Mark>, config: Config): (p: Option<string>)
    ensures explicit.Some? ==> p == explicit
    ensures explicit.None? ==> p == FirstTruthy([MarkPrompt(marker), config.cliPrompt, config.iniPrompt])
  {
    FirstOfThree(MarkPrompt(marker), config.cliPrompt, config.iniPrompt);
    if explicit.Some? then explicit
    else if marker.Some? && Truthy(marker.value.prompt) then marker.value.prompt
    else if Truthy(config.cliPrompt) then config.cliPrompt
    else if Truthy(config.iniPrompt) then config.iniPrompt
    else None
  }

  /** `load_prompt(path)` is called with a path only when the chosen path is
      not empty; otherwise the packaged default template is loaded. */
  function TemplateFile(p: Option<string>): (file: Option<string>)
    ensures file.Some? <==> Truthy(p)
    ensures file.Some? ==> p == file
  {
    if Truthy(p) then p else None
  }

  /** The runtime is local exactly when the option or the ini setting asks for it. */
  predicate NoContainer(config: Config) {
    config.cliNoContainer || config.iniNoContainer
  }

  // ---------------------------------------------------------------------------
  // Test items
  // ---------------------------------------------------------------------------

  /** The first mark named `good_start` in a list of marks, nearest first. */
  function Closest(marks: seq<Mark>): (m: Option<Mark>)
    ensures m.Some? ==> m.value in marks && m.value.name == FixtureName
    ensures m.None? <==> forall i :: 0 <= i < |marks| ==> marks[i].name != FixtureName
  {
    if marks == [] then None
    else if marks[0].name == FixtureName then Some(marks[0])
    else Closest(marks[1..])
  }

  /** A collected test: the fixtures it requests (none when it has no
      `fixturenames`), its own marks in order, the marks of the nodes it sits
      in (its class, then its module) and the result stashed under the
      plugin's key. */
  class Item {
    var fixtureNames: seq<string>
    var ownMarks: seq<Mark>
    const parentMarks: seq<Mark>
    var stashed: Option<Result>

    constructor(fixtureNames: seq<string>, ownMarks: seq<Mark>, parentMarks: seq<Mark>)
      ensures this.fixtureNames == fixtureNames && this.ownMarks == ownMarks && stashed.None?
      ensures this.parentMarks == parentMarks
    {
      this.fixtureNames := fixtureNames;
      this.ownMarks := ownMarks;
      this.parentMarks := parentMarks;
      stashed := None;
    }

    predicate UsesFixture()
      reads this
    {
      FixtureName in fixtureNames
    }

    /** `get_closest_marker("good_start")`: the item's own marks are searched
        first, then those of its class and module. */
    function ClosestMark(): (m: Option<Mark>)
      reads this
      ensures Closest(ownMarks).Some? ==> m == Closest(ownMarks)
      ensures Closest(ownMarks).None? ==> m == Closest(parentMarks)
    {
      ClosestAppend(ownMarks, parentMarks);
      Closest(ownMarks + parentMarks)
    }

    /** `item.add_marker(mark)`: the mark goes last. */
    method AddMarker(m: Mark)
      modifies this`ownMarks
      ensures ownMarks == old(ownMarks) + [m]
    {
      ownMarks := ownMarks + [m];
    }
  }

  /** `n` copies of the mark the collection hook adds. */
  function BareMarks(n: nat): (ms: seq<Mark>)
    ensures |ms| == n
    ensures forall i :: 0 <= i < n ==> ms[i] == BareMark
  {
    if n == 0 then [] else BareMarks(n - 1) + [BareMark]
  }

  /** `pytest_collection_modifyitems`: every item that requests the fixture
      gains one bare `good_start` mark for each time it is listed; every other
      item keeps its marks. Nothing else about an item changes. */
  method CollectionModifyItems(items: seq<Item>)
    modifies set it | it in items
    ensures forall it :: it in items ==> it.fixtureNames == old(it.fixtureNames) && it.stashed == old(it.stashed)
    ensures forall it :: it in items ==>
              it.ownMarks == old(it.ownMarks) + BareMarks(if it.UsesFixture() then multiset(items)[it] else 0)
  {
    var i := 0;
    while i < |items|
      invariant 0 <= i <= |items|
      invariant forall it :: it in items ==> it.fixtureNames == old(it.fixtureNames) && it.stashed == old(it.stashed)
      invariant forall it :: it in items ==>
                  it.ownMarks == old(it.ownMarks) + BareMarks(if it.UsesFixture() then multiset(items[..i])[it] else 0)
    {
      var item := items[i];
      PrefixCountStep(items, i);
      if FixtureName in item.fixtureNames {
        item.AddMarker(BareMark);
      }
      i := i + 1;
    }
    assert items[..i] == items;
  }

  /** One more item of the list counts once more for that item and for no other. */
  lemma PrefixCountStep(items: seq<Item>, i: nat)
    requires i < |items|
    ensures forall it :: multiset(items[..i + 1])[it] == multiset(items[..i])[it] + (if it == items[i] then 1 else 0)
  {
    assert items[..i + 1] == items[..i] + [items[i]];
  }

  /** Among the item's own marks, the added marks carry no keyword arguments
      and come after any the test declares itself, so they never change which
      target or prompt the fixture chooses from those. */
  lemma AutoMarkNeutral(marks: seq<Mark>, n: nat, target: Option<string>, prompt: Option<string>, config: Config)
    ensures ResolveTarget(target, Closest(marks + BareMarks(n)), config) == ResolveTarget(target, Closest(marks), config)
    ensures ResolvePrompt(prompt, Closest(marks + BareMarks(n)), config) == ResolvePrompt(prompt, Closest(marks), config)
  {
    ClosestAppend(marks, BareMarks(n));
    if n > 0 {
      assert BareMarks(n)[0] == BareMark;
      ClosestAppend([], BareMarks(n));
      assert [] + BareMarks(n) == BareMarks(n);
    } else {
      assert BareMarks(n) == [];
    }
  }

  /** The added mark does shadow a `good_start` mark of the class or module: a
      test in a class marked `good_start(target="docs")` that declares no mark
      of its own gets the bare mark first, and the fixture falls back to the
      default target. */
  lemma AutoMarkShadowsClassMark()
    ensures var parents := [Mark(FixtureName, Some("docs"), None)];
            var config := Config(None, None, false, ".", None, false);
            && ResolveTarget(None, Closest([] + parents), config) == "docs"
            && ResolveTarget(None, Closest(BareMarks(1) + parents), config) == "."
  {
    var parents := [Mark(FixtureName, Some("docs"), None)];
    assert [] + parents == parents;
    assert BareMarks(1) == [BareMark];
    assert (BareMarks(1) + parents)[0] == BareMark;
  }

  /** The collection hook with the mark added only to items that have no
      `good_start` mark anywhere in their chain: each item using the fixture
      ends up with a mark to select it by, and nothing else changes. */
  method CollectionModifyItemsFixed(items: seq<Item>)
    modifies set it | it in items
    ensures forall it :: it in items ==> it.fixtureNames == old(it.fixtureNames) && it.stashed == old(it.stashed)
    ensures forall it :: it in items ==>
              it.ownMarks == old(it.ownMarks) + (if it.UsesFixture() && old(it.ClosestMark()).None? then [BareMark] else [])
    ensures forall it :: it in items && it.UsesFixture() ==> it.ClosestMark().Some?
  {
    var i := 0;
    while i < |items|
      invariant 0 <= i <= |items|
      invariant forall it :: it in items ==> it.fixtureNames == old(it.fixtureNames) && it.stashed == old(it.stashed)
      invariant forall it :: it in items ==>
                  it.ownMarks == old(it.ownMarks) +
                    (if it.UsesFixture() && old(it.ClosestMark()).None? && it in items[..i] then [BareMark] else [])
      invariant forall it :: it in items[..i] && it.UsesFixture() ==> it.ClosestMark().Some?
    {
      var item := items[i];
      assert items[..i + 1] == items[..i] + [item];
      MarkIfUnmarked(item);
      i := i + 1;
    }
    assert items[..i] == items;
  }

  /** One item of the corrected hook. */
  method MarkIfUnmarked(item: Item)
    modifies item`ownMarks
    ensures item.ownMarks == old(item.ownMarks) + (if item.UsesFixture() && old(item.ClosestMark()).None? then [BareMark] else [])
    ensures item.UsesFixture() ==> item.ClosestMark().Some?
  {
    if FixtureName in item.fixtureNames && item.ClosestMark().None? {
      ClosestAppend(item.ownMarks, [BareMark]);
      assert Closest([BareMark]).Some?;
      item.AddMarker(BareMark);
    }
  }

  /** With the corrected hook, the mark added to an item changes neither the
      target nor the prompt the fixture chooses. */
  lemma FixedMarkNeutral(own: seq<Mark>, parents: seq<Mark>, added: seq<Mark>,
                         target: Option<string>, prompt: Option<string>, config: Config)
    requires added == [] || (added == [BareMark] && Closest(own + parents).None?)
    ensures ResolveTarget(target, Closest((own + added) + parents), config) == ResolveTarget(target, Closest(own + parents), config)
    ensures ResolvePrompt(prompt, Closest((own + added) + parents), config) == ResolvePrompt(prompt, Closest(own + parents), config)
  {
    if added == [] {
      assert own + added == own;
    } else {
      ClosestAppend(own, parents);
      ClosestAppend(own, added);
      ClosestAppend(own + added, parents);
    }
  }

  /** The closest mark of `a + b` is the closest of `a`, or else of `b`. */
  lemma {:induction false} ClosestAppend(a: seq<Mark>, b: seq<Mark>)
    ensures Closest(a + b) == if Closest(a).Some? then Closest(a) else Closest(b)
  {
    if a == [] {
      assert a + b == b;
    } else {
      assert (a + b)[0] == a[0];
      assert (a + b)[1..] == a[1..] + b;
      ClosestAppend(a[1..], b);
    }
  }

  // ---------------------------------------------------------------------------
  // The fixture
  // ---------------------------------------------------------------------------

  /** `good_start(target, prompt_path)`, the function the fixture returns. It
      loads and renders the template with the chosen target, runs the runtime
      `resolve_runtime` picks on the rendered prompt and the same target, and
      stashes the result on the item before returning it. `render` stands for
      `load_prompt(file).render(target=...)` and `run` for
      `asyncio.run(resolve_runtime(no_container=...).run(...))`; an exception
      from the run leaves the stash as it was. */
  method RunFixture(item: Item, config: Config, target: Option<string>, promptPath: Option<string>,
                    render: (Option<string>, string) -> string,
                    run: (bool, string, string) -> Outcome<Result>)
    returns (r: Outcome<Result>)
    modifies item`stashed
    ensures var t := ResolveTarget(target, item.ClosestMark(), config);
            var file := TemplateFile(ResolvePrompt(promptPath, item.ClosestMark(), config));
            r == run(NoContainer(config), render(file, t), t)
    ensures r.Returned? ==> item.stashed == Some(r.value)
    ensures r.Raised? ==> item.stashed == old(item.stashed)
  {
    var marker := item.ClosestMark();
    var t := ResolveTarget(target, marker, config);
    var p := ResolvePrompt(promptPath, marker, config);
    var rendered := render(TemplateFile(p), t);
    var noContainer := config.cliNoContainer || config.iniNoContainer;
    r := run(noContainer, rendered, t);
    if r.Returned? {
      item.stashed := Some(r.value);
    }
  }

  // ---------------------------------------------------------------------------
  // The report hook
  // ---------------------------------------------------------------------------

  /** A test report: the phase, whether it failed, and the text of `longrepr`
      (`None` when there is none). */
  class Report {
    var when: string
    var failed: bool
    var longrepr: Option<string>

    constructor(when: string, failed: bool, longrepr: Option<string>)
      ensures this.when == when && this.failed == failed && this.longrepr == longrepr
    {
      this.when := when;
      this.failed := failed;
      this.longrepr := longrepr;
    }
  }

  /** The text added to a failed test's report. */
  function Banner(details: string): (extra: string)
    ensures |extra| == |ReportBanner| + |details| + 1
    ensures extra[..|ReportBanner|] == ReportBanner
    ensures extra[|ReportBanner|..|extra| - 1] == details && extra[|extra| - 1] == '\n'
  {
    ReportBanner + details + "\n"
  }

  /** Whether the hook adds the details: a failure in the call phase of a test
      that ran the agent, with a report text to add to. */
  predicate Augments(when: string, failed: bool, stashed: Option<Result>, longrepr: Option<string>) {
    when == "call" && failed && stashed.Some? && Truthy(longrepr)
  }

  /** `pytest_runtest_makereport`: the agent's details are appended to the
      report of a failed call that ran the agent; every other report is left
      alone. */
  method MakeReport(item: Item, report: Report)
    modifies report`longrepr
    ensures Augments(report.when, report.failed, item.stashed, old(report.longrepr)) ==>
              report.longrepr == Some(old(report.longrepr).value + Banner(item.stashed.value.details))
    ensures !Augments(report.when, report.failed, item.stashed, old(report.longrepr)) ==>
              report.longrepr == old(report.longrepr)
  {
    if report.when == "call" && report.failed {
      var result := item.stashed;
      if result.Some? {
        var extra := Banner(result.value.details);
        if report.longrepr.Some? && report.longrepr.value != "" {
          report.longrepr := Some(report.longrepr.value + extra);
        }
      }
    }
  }

  /** The augmented report keeps the original text in front and ends with the
      details, so the details can be read back from it. */
  lemma AugmentedKeepsReport(longrepr: string, details: string)
    ensures var text := longrepr + Banner(details);
            && text[..|longrepr|] == longrepr
            && text[|longrepr| + |ReportBanner|..|text| - 1] == details
  {
    var text := longrepr + Banner(details);
    assert text[|longrepr|..] == Banner(details);
    assert text[|longrepr| + |ReportBanner|..|text| - 1] == Banner(details)[|ReportBanner|..|Banner(details)| - 1];
  }
}
