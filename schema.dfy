/** Inlining of `$ref` references in a JSON schema (`_dereference_schema`).

    The schema's `$defs` block is popped off the dict; then every dict that holds a
    `$ref` key is replaced, sibling keys and all, by the resolved definition named
    after the last "/" of the reference; other dicts keep their keys, lists keep
    their items in order, and everything else is returned as it is.

    Python evaluates this recursion depth first, left to right, and a cycle among
    the definitions recurses until the interpreter gives up. The model carries the
    set of definition names being expanded: a name met again inside its own
    expansion would repeat the same computation for ever, so it stands for the
    `RecursionError`, and it is also what makes every call terminate. */
module Schema {
  import opened Wrappers
  import opened PyText
  import opened Json

  /** `ref.split("/")[-1]` */
  function RefName(ref: string): string {
    LastSegment(ref, '/')
  }

  /** The keys of `defs` when it is a dict; names are only ever found among them. */
  function DefNames(defs: Json): set<string> {
    if defs.JObj? then set i | 0 <= i < |defs.members| :: defs.members[i].key else {}
  }

  /** A name found among the definitions is one of their keys. */
  lemma FoundInDefNames(defs: Json, name: string)
    requires defs.JObj? && Lookup(defs.members, name).Some?
    ensures name in DefNames(defs)
  {
    var i :| 0 <= i < |defs.members| && defs.members[i].key == name;
  }

  lemma RemainderShrinks(all: set<string>, stack: set<string>, n: string)
    requires n in all && n !in stack
    ensures |all - (stack + {n})| < |all - stack|
  {
    assert all - stack == (all - (stack + {n})) + {n};
  }

  /** No dict anywhere in the tree holds a `$ref` key. */
  predicate NoRefs(v: Json)
    decreases v
  {
    match v
    case JArr(items) => forall i :: 0 <= i < |items| ==> NoRefs(items[i])
    case JObj(ms) => Lookup(ms, "$ref").None? && forall i :: 0 <= i < |ms| ==> NoRefs(ms[i].value)
    case _ => true
  }

  /** The exceptions `_resolve` can raise. */
  predicate ResolveError(e: Exception) {
    e.KeyError? || e.TypeError? || e.AttributeError? || e.RecursionError?
  }

  /** `_resolve(v)` with the definitions `defs`, while the names in `stack` are being expanded. */
  function Resolve(defs: Json, v: Json, stack: set<string>): (r: Outcome<Json>)
    ensures r.Returned? ==> NoRefs(r.value)
    ensures r.Raised? ==> ResolveError(r.exc)
    ensures !v.JObj? && !v.JArr? ==> r == Returned(v)
    ensures v.JArr? && r.Returned? ==> r.value.JArr? && |r.value.items| == |v.items|
    ensures v.JObj? && Lookup(v.members, "$ref").None? && r.Returned? ==>
              r.value.JObj? && SameKeys(r.value.members, v.members)
    decreases |DefNames(defs) - stack|, v, 1
  {
    match v
    case JObj(ms) =>
      if Lookup(ms, "$ref").Some? then ResolveRef(defs, ms, stack)
      else
        (match ResolveMembers(defs, ms, stack)
         case Raised(e) => Raised(e)
         case Returned(ms') => Returned(JObj(ms')))
    case JArr(items) =>
      (match ResolveItems(defs, items, stack)
       case Raised(e) => Raised(e)
       case Returned(items') => Returned(JArr(items')))
    case _ => Returned(v)
  }

  /** `_resolve(defs[obj["$ref"].split("/")[-1]])` for a dict `obj` holding a `$ref`. */
  function ResolveRef(defs: Json, ms: seq<Member>, stack: set<string>): (r: Outcome<Json>)
    requires Lookup(ms, "$ref").Some?
    ensures r.Returned? ==> NoRefs(r.value)
    ensures r.Raised? ==> ResolveError(r.exc)
    decreases |DefNames(defs) - stack|, ms, 0
  {
    var ref := Lookup(ms, "$ref").value;
    if !ref.JStr? then Raised(AttributeError("'" + TypeName(ref) + "' object has no attribute 'split'"))
    else
      var name := RefName(ref.s);
      match GetItem(defs, name)
      case Raised(e) => Raised(e)
      case Returned(d) =>
        if name in stack then Raised(RecursionError)
        else
          FoundInDefNames(defs, name);
          RemainderShrinks(DefNames(defs), stack, name);
          Resolve(defs, d, stack + {name})
  }

  /** The same keys in the same order. */
  predicate SameKeys(a: seq<Member>, b: seq<Member>) {
    |a| == |b| && forall i :: 0 <= i < |a| ==> a[i].key == b[i].key
  }

  /** `{k: _resolve(v) for k, v in obj.items()}` */
  function ResolveMembers(defs: Json, ms: seq<Member>, stack: set<string>): (r: Outcome<seq<Member>>)
    ensures r.Returned? ==> SameKeys(r.value, ms) && forall i :: 0 <= i < |ms| ==> NoRefs(r.value[i].value)
    ensures r.Raised? ==> ResolveError(r.exc)
    decreases |DefNames(defs) - stack|, ms, 1
  {
    if ms == [] then Returned([])
    else
      match Resolve(defs, ms[0].value, stack)
      case Raised(e) => Raised(e)
      case Returned(v) =>
        match ResolveMembers(defs, ms[1..], stack)
        case Raised(e) => Raised(e)
        case Returned(rest) => Returned([Member(ms[0].key, v)] + rest)
  }

  /** `[_resolve(item) for item in obj]` */
  function ResolveItems(defs: Json, items: seq<Json>, stack: set<string>): (r: Outcome<seq<Json>>)
    ensures r.Returned? ==> |r.value| == |items| && forall i :: 0 <= i < |items| ==> NoRefs(r.value[i])
    ensures r.Raised? ==> ResolveError(r.exc)
    decreases |DefNames(defs) - stack|, items, 1
  {
    if items == [] then Returned([])
    else
      match Resolve(defs, items[0], stack)
      case Raised(e) => Raised(e)
      case Returned(v) =>
        match ResolveItems(defs, items[1..], stack)
        case Raised(e) => Raised(e)
        case Returned(rest) => Returned([v] + rest)
  }

  // ---------------------------------------------------------------------------
  // What the inliner promises
  // ---------------------------------------------------------------------------

  /** A tree without references comes back unchanged, whatever the definitions. */
  lemma {:induction false} ResolveNoRefs(defs: Json, v: Json, stack: set<string>)
    requires NoRefs(v)
    ensures Resolve(defs, v, stack) == Returned(v)
    decreases v, 1
  {
    match v
    case JObj(ms) => ResolveMembersNoRefs(defs, ms, stack);
    case JArr(items) => ResolveItemsNoRefs(defs, items, stack);
    case _ =>
  }

  lemma {:induction false} ResolveMembersNoRefs(defs: Json, ms: seq<Member>, stack: set<string>)
    requires forall i :: 0 <= i < |ms| ==> NoRefs(ms[i].value)
    ensures ResolveMembers(defs, ms, stack) == Returned(ms)
    decreases ms, 0
  {
    if ms != [] {
      ResolveNoRefs(defs, ms[0].value, stack);
      ResolveMembersNoRefs(defs, ms[1..], stack);
      assert [Member(ms[0].key, ms[0].value)] + ms[1..] == ms;
    }
  }

  lemma {:induction false} ResolveItemsNoRefs(defs: Json, items: seq<Json>, stack: set<string>)
    requires forall i :: 0 <= i < |items| ==> NoRefs(items[i])
    ensures ResolveItems(defs, items, stack) == Returned(items)
    decreases items, 0
  {
    if items != [] {
      ResolveNoRefs(defs, items[0], stack);
      ResolveItemsNoRefs(defs, items[1..], stack);
      assert [items[0]] + items[1..] == items;
    }
  }

  /** Inlining twice is inlining once: a resolved schema resolves to itself. */
  lemma ResolveIdempotent(defs: Json, v: Json, stack: set<string>, defs': Json, stack': set<string>)
    requires Resolve(defs, v, stack).Returned?
    ensures Resolve(defs', Resolve(defs, v, stack).value, stack') == Resolve(defs, v, stack)
  {
    ResolveNoRefs(defs', Resolve(defs, v, stack).value, stack');
  }

  /** A dict holding a `$ref` is resolved through its reference alone. */
  lemma ResolveDictRef(defs: Json, ms: seq<Member>, stack: set<string>)
    requires Lookup(ms, "$ref").Some?
    ensures Resolve(defs, JObj(ms), stack) == ResolveRef(defs, ms, stack)
  {
  }

  /** Following a reference to a definition that is found and not being expanded. */
  lemma RefStep(defs: Json, ms: seq<Member>, stack: set<string>, name: string, d: Json)
    requires Lookup(ms, "$ref").Some? && Lookup(ms, "$ref").value.JStr?
    requires name == RefName(Lookup(ms, "$ref").value.s) && name !in stack
    requires defs.JObj? && Lookup(defs.members, name) == Some(d)
    ensures ResolveRef(defs, ms, stack) == Resolve(defs, d, stack + {name})
  {
    assert GetItem(defs, name) == Returned(d);
  }

  /** A dict holding a `$ref` becomes the resolved definition: its other keys are
      dropped. */
  lemma RefReplacesDict(defs: Json, ms: seq<Member>, stack: set<string>, ref: string, d: Json)
    requires Lookup(ms, "$ref") == Some(JStr(ref))
    requires defs.JObj? && Lookup(defs.members, RefName(ref)) == Some(d)
    requires RefName(ref) !in stack
    ensures Resolve(defs, JObj(ms), stack) == Resolve(defs, d, stack + {RefName(ref)})
  {
    ResolveDictRef(defs, ms, stack);
    RefStep(defs, ms, stack, RefName(ref), d);
  }

  /** A definition without references is inlined as it stands. */
  lemma RefInlinesDefinition(defs: Json, ms: seq<Member>, stack: set<string>, ref: string, d: Json)
    requires Lookup(ms, "$ref") == Some(JStr(ref))
    requires defs.JObj? && Lookup(defs.members, RefName(ref)) == Some(d)
    requires RefName(ref) !in stack && NoRefs(d)
    ensures Resolve(defs, JObj(ms), stack) == Returned(d)
  {
    RefReplacesDict(defs, ms, stack, ref, d);
    ResolveNoRefs(defs, d, stack + {RefName(ref)});
  }

  /** A reference that is not a string cannot be split. */
  lemma RefNotString(defs: Json, ms: seq<Member>, stack: set<string>)
    requires Lookup(ms, "$ref").Some? && !Lookup(ms, "$ref").value.JStr?
    ensures Resolve(defs, JObj(ms), stack)
            == Raised(AttributeError("'" + TypeName(Lookup(ms, "$ref").value) + "' object has no attribute 'split'"))
  {
    ResolveDictRef(defs, ms, stack);
  }

  /** A reference to a name the definitions cannot give raises what `defs[name]`
      raises: `KeyError` for a dict without that key, `TypeError` for a `$defs`
      that is not a dict. */
  lemma RefUnknown(defs: Json, ms: seq<Member>, stack: set<string>, ref: string)
    requires Lookup(ms, "$ref") == Some(JStr(ref))
    requires GetItem(defs, RefName(ref)).Raised?
    ensures Resolve(defs, JObj(ms), stack) == GetItem(defs, RefName(ref))
    ensures defs.JObj? ==> Resolve(defs, JObj(ms), stack) == Raised(KeyError(RefName(ref)))
  {
    ResolveDictRef(defs, ms, stack);
  }

  /** A reference met again inside its own expansion never finishes. */
  lemma RefCycle(defs: Json, ms: seq<Member>, stack: set<string>, ref: string)
    requires Lookup(ms, "$ref") == Some(JStr(ref))
    requires defs.JObj? && Lookup(defs.members, RefName(ref)).Some? && RefName(ref) in stack
    ensures Resolve(defs, JObj(ms), stack) == Raised(RecursionError)
  {
    ResolveDictRef(defs, ms, stack);
  }

  /** A definition that refers to itself never finishes. */
  lemma SelfReference()
    ensures var node := JObj([Member("$ref", JStr("#/$defs/Node"))]);
            Resolve(JObj([Member("Node", node)]), node, {}) == Raised(RecursionError)
  {
    assert "#/$defs/Node" == "#/$defs" + ['/'] + "Node";
    LastSegmentAfter("#/$defs", '/', "Node");
    var node := JObj([Member("$ref", JStr("#/$defs/Node"))]);
    var defs := JObj([Member("Node", node)]);
    assert Lookup(node.members, "$ref") == Some(JStr("#/$defs/Node"));
    assert RefName("#/$defs/Node") == "Node";
    assert GetItem(defs, "Node") == Returned(node);
    assert {} + {"Node"} == {"Node"};
    assert ResolveRef(defs, node.members, {"Node"}) == Raised(RecursionError);
    assert ResolveRef(defs, node.members, {}) == Resolve(defs, node, {"Node"});
  }

  /** A reference to the `AgentStep` definition, as pydantic writes it, is
      replaced by that definition. */
  lemma StepRefInlined(step: Json)
    requires NoRefs(step)
    ensures Resolve(JObj([Member("AgentStep", step)]), JObj([Member("$ref", JStr("#/$defs/AgentStep"))]), {})
            == Returned(step)
  {
    assert "#/$defs/AgentStep" == "#/$defs" + ['/'] + "AgentStep";
    LastSegmentAfter("#/$defs", '/', "AgentStep");
    var items := JObj([Member("$ref", JStr("#/$defs/AgentStep"))]);
    RefInlinesDefinition(JObj([Member("AgentStep", step)]), items.members, {}, "#/$defs/AgentStep", step);
  }

  /** The shape pydantic gives a list of steps: the item reference is replaced by
      the definition and the sibling `type` is kept. */
  lemma StepListInlined()
    ensures var step := JObj([Member("type", JStr("object"))]);
            var items := JObj([Member("$ref", JStr("#/$defs/AgentStep"))]);
            Resolve(JObj([Member("AgentStep", step)]),
                    JObj([Member("type", JStr("array")), Member("items", items)]), {})
            == Returned(JObj([Member("type", JStr("array")), Member("items", step)]))
  {
    var step := JObj([Member("type", JStr("object"))]);
    var items := JObj([Member("$ref", JStr("#/$defs/AgentStep"))]);
    var defs := JObj([Member("AgentStep", step)]);
    var ms := [Member("type", JStr("array")), Member("items", items)];
    assert "type"[0] != "$ref"[0] && |"items"| != |"$ref"|;
    assert Lookup(ms, "$ref").None? by {
      assert ms[1..] == [Member("items", items)];
    }
    assert NoRefs(step);
    StepRefInlined(step);
    ResolveTwoMembers(defs, "type", JStr("array"), JStr("array"), "items", items, step);
  }

  /** A two-entry dict resolves entry by entry. */
  lemma ResolveTwoMembers(defs: Json, k1: string, v1: Json, r1: Json, k2: string, v2: Json, r2: Json)
    requires Resolve(defs, v1, {}) == Returned(r1)
    requires Resolve(defs, v2, {}) == Returned(r2)
    ensures ResolveMembers(defs, [Member(k1, v1), Member(k2, v2)], {}) == Returned([Member(k1, r1), Member(k2, r2)])
  {
    var ms := [Member(k1, v1), Member(k2, v2)];
    assert ms[1..] == [Member(k2, v2)] && ms[1..][1..] == [];
    assert ResolveMembers(defs, ms[1..], {}) == Returned([Member(k2, r2)] + []);
    assert [Member(k1, r1)] + ([Member(k2, r2)] + []) == [Member(k1, r1), Member(k2, r2)];
  }

  // ---------------------------------------------------------------------------
  // Termination without error on acyclic definitions
  // ---------------------------------------------------------------------------

  /** Every reference `_resolve` will follow in `v` is a string naming a
      definition of rank below `b`. */
  predicate RefsRanked(v: Json, rank: map<string, nat>, b: nat)
    decreases v
  {
    match v
    case JObj(ms) =>
      (match Lookup(ms, "$ref")
       case Some(ref) => ref.JStr? && RefName(ref.s) in rank && rank[RefName(ref.s)] < b
       case None => forall i :: 0 <= i < |ms| ==> RefsRanked(ms[i].value, rank, b))
    case JArr(items) => forall i :: 0 <= i < |items| ==> RefsRanked(items[i], rank, b)
    case _ => true
  }

  /** The definitions are a dict and each ranked one refers only to lower ranks. */
  predicate Acyclic(defs: Json, rank: map<string, nat>) {
    defs.JObj? &&
    forall n :: n in rank ==>
      Lookup(defs.members, n).Some? && RefsRanked(Lookup(defs.members, n).value, rank, rank[n])
  }

  /** With acyclic definitions that every reference can find, inlining succeeds
      and no `$ref` remains anywhere. */
  lemma {:induction false} ResolveTotal(defs: Json, rank: map<string, nat>, v: Json, b: nat, stack: set<string>)
    requires Acyclic(defs, rank) && RefsRanked(v, rank, b)
    requires forall n :: n in stack && n in rank ==> rank[n] >= b
    ensures Resolve(defs, v, stack).Returned? && NoRefs(Resolve(defs, v, stack).value)
    decreases |DefNames(defs) - stack|, v, 1
  {
    match v
    case JObj(ms) =>
      if Lookup(ms, "$ref").Some? {
        ResolveRefTotal(defs, rank, ms, b, stack);
      } else {
        ResolveMembersTotal(defs, rank, ms, b, stack);
      }
    case JArr(items) =>
      ResolveItemsTotal(defs, rank, items, b, stack);
    case _ =>
  }

  lemma {:induction false} ResolveRefTotal(defs: Json, rank: map<string, nat>, ms: seq<Member>, b: nat, stack: set<string>)
    requires Acyclic(defs, rank) && Lookup(ms, "$ref").Some? && RefsRanked(JObj(ms), rank, b)
    requires forall n :: n in stack && n in rank ==> rank[n] >= b
    ensures ResolveRef(defs, ms, stack).Returned?
    decreases |DefNames(defs) - stack|, ms, 0
  {
    var name := RefName(Lookup(ms, "$ref").value.s);
    RankedRefFound(defs, rank, ms, b);
    var d := Lookup(defs.members, name).value;
    StackBelow(stack, rank, name, b);
    RefStep(defs, ms, stack, name, d);
    FoundInDefNames(defs, name);
    RemainderShrinks(DefNames(defs), stack, name);
    ResolveTotal(defs, rank, d, rank[name], stack + {name});
  }

  /** A ranked reference names a definition, itself ranked one level down. */
  lemma RankedRefFound(defs: Json, rank: map<string, nat>, ms: seq<Member>, b: nat)
    requires Acyclic(defs, rank) && Lookup(ms, "$ref").Some? && RefsRanked(JObj(ms), rank, b)
    ensures var ref := Lookup(ms, "$ref").value;
            && ref.JStr? && RefName(ref.s) in rank && rank[RefName(ref.s)] < b
            && Lookup(defs.members, RefName(ref.s)).Some?
            && RefsRanked(Lookup(defs.members, RefName(ref.s)).value, rank, rank[RefName(ref.s)])
  {
  }

  /** A name of rank below every ranked name in the stack is not in it, and stays
      the lowest once pushed. */
  lemma StackBelow(stack: set<string>, rank: map<string, nat>, name: string, b: nat)
    requires name in rank && rank[name] < b
    requires forall n :: n in stack && n in rank ==> rank[n] >= b
    ensures name !in stack
    ensures forall n :: n in stack + {name} && n in rank ==> rank[n] >= rank[name]
  {
    forall n | n in stack + {name} && n in rank
      ensures rank[n] >= rank[name]
    {
      if n != name {
        assert n in stack;
      }
    }
  }

  lemma {:induction false} ResolveMembersTotal(defs: Json, rank: map<string, nat>, ms: seq<Member>, b: nat, stack: set<string>)
    requires Acyclic(defs, rank) && forall i :: 0 <= i < |ms| ==> RefsRanked(ms[i].value, rank, b)
    requires forall n :: n in stack && n in rank ==> rank[n] >= b
    ensures ResolveMembers(defs, ms, stack).Returned?
    decreases |DefNames(defs) - stack|, ms, 0
  {
    if ms != [] {
      ResolveTotal(defs, rank, ms[0].value, b, stack);
      ResolveMembersTotal(defs, rank, ms[1..], b, stack);
    }
  }

  lemma {:induction false} ResolveItemsTotal(defs: Json, rank: map<string, nat>, items: seq<Json>, b: nat, stack: set<string>)
    requires Acyclic(defs, rank) && forall i :: 0 <= i < |items| ==> RefsRanked(items[i], rank, b)
    requires forall n :: n in stack && n in rank ==> rank[n] >= b
    ensures ResolveItems(defs, items, stack).Returned?
    decreases |DefNames(defs) - stack|, items, 0
  {
    if items != [] {
      ResolveTotal(defs, rank, items[0], b, stack);
      ResolveItemsTotal(defs, rank, items[1..], b, stack);
    }
  }

  // ---------------------------------------------------------------------------
  // _dereference_schema
  // ---------------------------------------------------------------------------

  /** A dict without `$ref` and `$defs` resolves to a dict that still has no `$defs`. */
  lemma {:induction false} NoTopLevelDefs(defs: Json, ms: seq<Member>, stack: set<string>)
    requires Lookup(ms, "$ref").None? && Lookup(ms, "$defs").None?
    ensures Resolve(defs, JObj(ms), stack).Returned? ==>
              Resolve(defs, JObj(ms), stack).value.JObj? && Lookup(Resolve(defs, JObj(ms), stack).value.members, "$defs").None?
  {
    var r := Resolve(defs, JObj(ms), stack);
    if r.Returned? {
      assert SameKeys(r.value.members, ms);
      forall i | 0 <= i < |r.value.members| ensures r.value.members[i].key != "$defs" {
        assert r.value.members[i].key == ms[i].key;
      }
    }
  }

  /** The schema dict, which `_dereference_schema` changes in place. */
  class SchemaDict {
    var members: seq<Member>

    constructor(ms: seq<Member>)
      ensures members == ms
    {
      members := ms;
    }

    /** `d.pop(k, default)` */
    method Pop(k: string, default: Json) returns (r: Json)
      modifies this
      ensures r == Lookup(old(members), k).GetOr(default)
      ensures members == Remove(old(members), k)
    {
      r := Lookup(members, k).GetOr(default);
      members := Remove(members, k);
    }
  }

  /** `_dereference_schema(schema)`: pops `$defs` (an empty dict when absent) and
      inlines every reference in what is left. */
  method DereferenceSchema(schema: SchemaDict) returns (r: Outcome<Json>)
    modifies schema
    ensures schema.members == Remove(old(schema.members), "$defs")
    ensures r == Resolve(Lookup(old(schema.members), "$defs").GetOr(JObj([])), JObj(schema.members), {})
    ensures Lookup(old(schema.members), "$ref").None? && r.Returned? ==>
              r.value.JObj? && Lookup(r.value.members, "$defs").None?
  {
    var defs := schema.Pop("$defs", JObj([]));
    r := Resolve(defs, JObj(schema.members), {});
    assert |"$ref"| != |"$defs"|;
    if Lookup(old(schema.members), "$ref").None? {
      NoTopLevelDefs(defs, schema.members, {});
    }
  }
}
