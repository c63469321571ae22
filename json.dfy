/** JSON values as both ends of the wire handle them.

    Two encoders appear in the system: `json.dumps` with its defaults (separators
    ", " and ": ", every non-ASCII character escaped) for the tool-event lines on
    stderr, and pydantic's `model_dump_json` (separators "," and ":", only quotes,
    backslashes and control characters escaped) for the findings line on stdout.
    Both are `Dump` with a `Style`. One decoder, `Loads`, stands for `json.loads`
    and for the JSON parser underneath `model_validate_json`. Objects keep their
    members in insertion order with Python `dict` semantics: a repeated key keeps
    its first position and takes its last value. */
module Json {
  import opened Wrappers
  import opened PyText

  datatype Json =
    | JNull
    | JBool(b: bool)
    | JInt(n: int)
    | JStr(s: string)
    | JArr(items: seq<Json>)
    | JObj(members: seq<Member>)

  datatype Member = Member(key: string, value: Json)

  // ---------------------------------------------------------------------------
  // Objects as Python dicts
  // ---------------------------------------------------------------------------

  predicate UniqueKeys(ms: seq<Member>) {
    forall i, j :: 0 <= i < j < |ms| ==> ms[i].key != ms[j].key
  }

  /** `d.get(k)` */
  function Lookup(ms: seq<Member>, k: string): (r: Option<Json>)
    ensures r.None? <==> forall i :: 0 <= i < |ms| ==> ms[i].key != k
  {
    if ms == [] then None
    else if ms[0].key == k then Some(ms[0].value)
    else Lookup(ms[1..], k)
  }

  /** In a dict every member is found under its own key. */
  lemma {:induction false} LookupAt(ms: seq<Member>, i: nat)
    requires UniqueKeys(ms) && i < |ms|
    ensures Lookup(ms, ms[i].key) == Some(ms[i].value)
  {
    if i > 0 {
      assert ms[0].key != ms[i].key;
      assert ms[1..][i - 1] == ms[i];
      LookupAt(ms[1..], i - 1);
    }
  }

  /** `d[k] = v`: an existing key keeps its place and takes the new value; a new key goes last. */
  function Insert(ms: seq<Member>, k: string, v: Json): (r: seq<Member>)
    ensures |r| == |ms| || |r| == |ms| + 1
  {
    if ms == [] then [Member(k, v)]
    else if ms[0].key == k then [Member(k, v)] + ms[1..]
    else [ms[0]] + Insert(ms[1..], k, v)
  }

  /** After `d[k] = v`, `d.get(k)` is `v` and every other key reads as before. */
  lemma {:induction false} InsertLookup(ms: seq<Member>, k: string, v: Json)
    ensures Lookup(Insert(ms, k, v), k) == Some(v)
    ensures forall k' :: k' != k ==> Lookup(Insert(ms, k, v), k') == Lookup(ms, k')
  {
    var r := Insert(ms, k, v);
    if ms == [] {
      assert r[1..] == [];
    } else if ms[0].key == k {
      assert r[1..] == ms[1..];
    } else {
      assert r[1..] == Insert(ms[1..], k, v);
      InsertLookup(ms[1..], k, v);
    }
  }

  /** Every key after `d[k] = v` is `k` or was already there. */
  lemma {:induction false} InsertKeys(ms: seq<Member>, k: string, v: Json)
    ensures forall i :: 0 <= i < |Insert(ms, k, v)| ==>
              Insert(ms, k, v)[i].key == k || Lookup(ms, Insert(ms, k, v)[i].key).Some?
  {
    var r := Insert(ms, k, v);
    if ms != [] && ms[0].key != k {
      InsertKeys(ms[1..], k, v);
      assert r[1..] == Insert(ms[1..], k, v);
      forall i | 0 <= i < |r|
        ensures r[i].key == k || Lookup(ms, r[i].key).Some?
      {
        if i > 0 {
          assert r[i] == r[1..][i - 1];
          var key := r[i].key;
          if key != k && key != ms[0].key {
            assert Lookup(ms[1..], key).Some?;
            assert Lookup(ms, key) == Lookup(ms[1..], key);
          }
        }
      }
    } else if ms != [] {
      forall i | 0 <= i < |r|
        ensures r[i].key == k || Lookup(ms, r[i].key).Some?
      {
        if i > 0 {
          assert r[i] == ms[i];
          LookupFound(ms, i);
        }
      }
    }
  }

  lemma LookupFound(ms: seq<Member>, i: nat)
    requires i < |ms|
    ensures Lookup(ms, ms[i].key).Some?
  {
  }

  /** `d[k] = v` keeps the keys of a dict distinct. */
  lemma {:induction false} InsertUnique(ms: seq<Member>, k: string, v: Json)
    ensures UniqueKeys(ms) ==> UniqueKeys(Insert(ms, k, v))
  {
    if UniqueKeys(ms) && ms != [] {
      var r := Insert(ms, k, v);
      if ms[0].key == k {
        forall i, j | 0 <= i < j < |r|
          ensures r[i].key != r[j].key
        {
          assert r[j] == ms[j];
          if i > 0 {
            assert r[i] == ms[i];
          }
        }
      } else {
        InsertUnique(ms[1..], k, v);
        InsertKeys(ms[1..], k, v);
        var t := Insert(ms[1..], k, v);
        assert r == [ms[0]] + t;
        forall i, j | 0 <= i < j < |r|
          ensures r[i].key != r[j].key
        {
          assert r[j] == t[j - 1];
          if i > 0 {
            assert r[i] == t[i - 1];
          } else if t[j - 1].key != k {
            assert Lookup(ms[1..], t[j - 1].key).Some?;
            assert forall q :: 0 <= q < |ms[1..]| ==> ms[1..][q] == ms[q + 1];
          }
        }
      }
    }
  }

  /** A new key goes last. */
  lemma {:induction false} InsertNew(ms: seq<Member>, k: string, v: Json)
    requires Lookup(ms, k).None?
    ensures Insert(ms, k, v) == ms + [Member(k, v)]
  {
    if ms != [] {
      assert ms[0].key != k;
      InsertNew(ms[1..], k, v);
      assert ms == [ms[0]] + ms[1..];
    }
  }

  /** `dict(pairs)`: the members inserted one after the other into `acc`. */
  function BuildDict(acc: seq<Member>, pairs: seq<Member>): (r: seq<Member>)
    ensures UniqueKeys(acc) ==> UniqueKeys(r)
    decreases |pairs|
  {
    if pairs == [] then acc
    else
      InsertUnique(acc, pairs[0].key, pairs[0].value);
      BuildDict(Insert(acc, pairs[0].key, pairs[0].value), pairs[1..])
  }

  /** Members whose keys are already distinct come out of `dict(pairs)` unchanged. */
  lemma {:induction false} BuildDictUnique(acc: seq<Member>, pairs: seq<Member>)
    requires UniqueKeys(acc + pairs)
    ensures BuildDict(acc, pairs) == acc + pairs
    decreases |pairs|
  {
    if pairs != [] {
      var m := pairs[0];
      var all := acc + pairs;
      assert all[|acc|] == m;
      assert forall i :: 0 <= i < |acc| ==> all[i] == acc[i];
      assert Lookup(acc, m.key).None?;
      InsertNew(acc, m.key, m.value);
      assert all == (acc + [m]) + pairs[1..];
      BuildDictUnique(acc + [m], pairs[1..]);
    }
  }

  /** `d.pop(k, None)` without the value: the members other than `k`. */
  function Remove(ms: seq<Member>, k: string): (r: seq<Member>)
    ensures Lookup(r, k).None?
    ensures forall k' :: k' != k ==> Lookup(r, k') == Lookup(ms, k')
    ensures UniqueKeys(ms) ==> UniqueKeys(r)
    ensures forall i :: 0 <= i < |r| ==> Lookup(ms, r[i].key).Some?
  {
    if ms == [] then []
    else if ms[0].key == k then Remove(ms[1..], k)
    else [ms[0]] + Remove(ms[1..], k)
  }

  /** Every object in the tree has distinct keys, as every Python dict does. */
  predicate WellFormed(v: Json) {
    match v
    case JArr(items) => forall i :: 0 <= i < |items| ==> WellFormed(items[i])
    case JObj(ms) => UniqueKeys(ms) && forall i :: 0 <= i < |ms| ==> WellFormed(ms[i].value)
    case _ => true
  }

  /** `type(v).__name__` of the Python value `json.loads` builds. */
  function TypeName(v: Json): string {
    match v
    case JNull => "NoneType"
    case JBool(_) => "bool"
    case JInt(_) => "int"
    case JStr(_) => "str"
    case JArr(_) => "list"
    case JObj(_) => "dict"
  }

  /** `v[key]` with a string key, for whatever Python value `v` is. */
  function GetItem(v: Json, key: string): (r: Outcome<Json>)
    ensures r.Returned? <==> v.JObj? && Lookup(v.members, key).Some?
    ensures r.Returned? ==> Lookup(v.members, key) == Some(r.value)
    ensures v.JObj? && r.Raised? ==> r.exc == KeyError(key)
    ensures !v.JObj? ==> r.Raised? && r.exc.TypeError?
  {
    match v
    case JObj(ms) =>
      (match Lookup(ms, key)
       case None => Raised(KeyError(key))
       case Some(d) => Returned(d))
    case JArr(_) => Raised(TypeError("list indices must be integers or slices, not str"))
    case JStr(_) => Raised(TypeError("string indices must be integers, not 'str'"))
    case _ => Raised(TypeError("'" + TypeName(v) + "' object is not subscriptable"))
  }

  // ---------------------------------------------------------------------------
  // Encoding
  // ---------------------------------------------------------------------------

  /** Separators and escaping of an encoder. */
  datatype Style = Style(itemSep: string, keySep: string, asciiOnly: bool)

  /** `json.dumps(v)` with its defaults. */
  const DumpsStyle := Style(", ", ": ", true)

  /** pydantic's `model_dump_json()`. */
  const PydanticStyle := Style(",", ":", false)

  predicate IsJsonWs(c: char) { c == ' ' || c == '\t' || c == '\n' || c == '\r' }

  predicate AllJsonWs(s: string) {
    forall i :: 0 <= i < |s| ==> IsJsonWs(s[i])
  }

  /** A separator is its punctuation character followed by JSON whitespace. */
  predicate ValidStyle(st: Style) {
    && |st.itemSep| >= 1 && st.itemSep[0] == ',' && AllJsonWs(st.itemSep[1..])
    && |st.keySep| >= 1 && st.keySep[0] == ':' && AllJsonWs(st.keySep[1..])
  }

  /** "\\uXXXX" for one UTF-16 code unit. */
  function UnicodeEscape(u: nat): (s: string)
    requires u < 0x1_0000
    ensures |s| == 6
  {
    "\\u" + Hex4(u)
  }

  /** How an encoder writes one character inside a string literal. In ASCII-only
      mode everything outside ' '..'~' is escaped, characters beyond the Basic
      Multilingual Plane as a surrogate pair. */
  function EscapeChar(c: char, asciiOnly: bool): (e: string)
    ensures e != []
    ensures !asciiOnly ==> (e == [c] <==> (c != '"' && c != '\\' && c >= ' '))
    ensures asciiOnly ==> (e == [c] <==> (c != '"' && c != '\\' && ' ' <= c <= '~'))
    ensures e != [c] ==> e[0] == '\\'
  {
    if c == '"' then "\\\""
    else if c == '\\' then "\\\\"
    else if c == '\n' then "\\n"
    else if c == '\r' then "\\r"
    else if c == '\t' then "\\t"
    else if c == '\U{8}' then "\\b"
    else if c == '\U{C}' then "\\f"
    else if c < ' ' then UnicodeEscape(c as int)
    else if asciiOnly && c > '~' then
      if (c as int) < 0x1_0000 then UnicodeEscape(c as int)
      else
        var v := c as int - 0x1_0000;
        UnicodeEscape(0xD800 + v / 0x400) + UnicodeEscape(0xDC00 + v % 0x400)
    else [c]
  }

  function EscapeString(s: string, asciiOnly: bool): string {
    if s == [] then "" else EscapeChar(s[0], asciiOnly) + EscapeString(s[1..], asciiOnly)
  }

  /** A string literal. */
  function Quote(s: string, asciiOnly: bool): string {
    "\"" + EscapeString(s, asciiOnly) + "\""
  }

  function Dump(v: Json, st: Style): string
    decreases v
  {
    match v
    case JNull => "null"
    case JBool(b) => if b then "true" else "false"
    case JInt(n) => IntToString(n)
    case JStr(s) => Quote(s, st.asciiOnly)
    case JArr(items) => "[" + DumpItems(items, st) + "]"
    case JObj(ms) => "{" + DumpMembers(ms, st) + "}"
  }

  function DumpItems(items: seq<Json>, st: Style): string
    decreases items
  {
    if items == [] then "" else Dump(items[0], st) + DumpMoreItems(items[1..], st)
  }

  /** The items after the first, each preceded by the item separator. */
  function DumpMoreItems(items: seq<Json>, st: Style): string
    decreases items
  {
    if items == [] then "" else st.itemSep + Dump(items[0], st) + DumpMoreItems(items[1..], st)
  }

  function DumpMember(m: Member, st: Style): string
    decreases m
  {
    Quote(m.key, st.asciiOnly) + st.keySep + Dump(m.value, st)
  }

  function DumpMembers(ms: seq<Member>, st: Style): string
    decreases ms
  {
    if ms == [] then "" else DumpMember(ms[0], st) + DumpMoreMembers(ms[1..], st)
  }

  function DumpMoreMembers(ms: seq<Member>, st: Style): string
    decreases ms
  {
    if ms == [] then "" else st.itemSep + DumpMember(ms[0], st) + DumpMoreMembers(ms[1..], st)
  }

  // ---------------------------------------------------------------------------
  // Decoding
  // ---------------------------------------------------------------------------

  function SkipWs(s: string): (r: string)
    ensures |r| <= |s| && r == s[|s| - |r|..]
    ensures r == [] || !IsJsonWs(r[0])
  {
    if s != [] && IsJsonWs(s[0]) then SkipWs(s[1..]) else s
  }

  /** A `\u` escape after the backslash and the `u`: one code unit, or a
      surrogate pair written as two escapes. A lone surrogate is refused, since
      it is not a character here. */
  function ParseUnicodeEscape(s: string): (r: Option<(char, string)>)
    ensures r.Some? ==> |r.value.1| < |s|
  {
    if |s| < 4 || !(IsHexDigit(s[0]) && IsHexDigit(s[1]) && IsHexDigit(s[2]) && IsHexDigit(s[3])) then None
    else
      var u := Hex4Value(s[..4]);
      if 0xDC00 <= u < 0xE000 then None
      else if u < 0xD800 || 0xE000 <= u then Some((u as char, s[4..]))
      else if 10 <= |s| && s[4] == '\\' && s[5] == 'u'
        && IsHexDigit(s[6]) && IsHexDigit(s[7]) && IsHexDigit(s[8]) && IsHexDigit(s[9])
        && 0xDC00 <= Hex4Value(s[6..10]) < 0xE000
      then
        var lo := Hex4Value(s[6..10]);
        Some(((0x1_0000 + (u - 0xD800) * 0x400 + (lo - 0xDC00)) as char, s[10..]))
      else None
  }

  /** The body of a string literal after its opening quote: the decoded text and
      what follows the closing quote. Raw control characters are refused. */
  function ParseStringBody(s: string): (r: Option<(string, string)>)
    ensures r.Some? ==> |r.value.1| < |s|
    decreases |s|
  {
    if s == [] then None
    else if s[0] == '"' then Some(([], s[1..]))
    else if s[0] == '\\' then
      if |s| < 2 then None
      else
        var e := s[1];
        if e == 'u' then
          match ParseUnicodeEscape(s[2..])
          case None => None
          case Some((c, rest)) => Prepend(c, ParseStringBody(rest))
        else
          var c :=
            if e == '"' then Some('"')
            else if e == '\\' then Some('\\')
            else if e == '/' then Some('/')
            else if e == 'b' then Some('\U{8}')
            else if e == 'f' then Some('\U{C}')
            else if e == 'n' then Some('\n')
            else if e == 'r' then Some('\r')
            else if e == 't' then Some('\t')
            else None;
          if c.None? then None else Prepend(c.value, ParseStringBody(s[2..]))
    else if s[0] < ' ' then None
    else Prepend(s[0], ParseStringBody(s[1..]))
  }

  function Prepend(c: char, r: Option<(string, string)>): Option<(string, string)> {
    match r
    case None => None
    case Some((t, rest)) => Some(([c] + t, rest))
  }

  function ParseLiteral(t: string, word: string, v: Json): (r: Option<(Json, string)>)
    requires |word| > 0
    ensures r.Some? ==> |r.value.1| < |t|
  {
    if |word| <= |t| && t[..|word|] == word then Some((v, t[|word|..])) else None
  }

  /** A natural number: "0", or a digit string that does not start with a zero,
      and what follows it. */
  function ParseNatural(body: string): (r: Option<(nat, string)>)
    ensures r.Some? ==> |r.value.1| < |body|
  {
    if body == [] || !IsDigit(body[0]) then None
    else
      var digits := if body[0] == '0' then body[..1] else LeadingDigits(body);
      Some((DigitsValue(digits), body[|digits|..]))
  }

  /** An integer: an optional minus, then a natural number. A fraction or an
      exponent, which would make a float, is refused. */
  function ParseNumber(t: string): (r: Option<(Json, string)>)
    ensures r.Some? ==> |r.value.1| < |t|
  {
    var neg := t != [] && t[0] == '-';
    match ParseNatural(if neg then t[1..] else t)
    case None => None
    case Some((n, rest)) =>
      if rest != [] && (rest[0] == '.' || rest[0] == 'e' || rest[0] == 'E') then None
      else Some((JInt(if neg then -(n as int) else n), rest))
  }

  /** One JSON value after optional whitespace, and what follows it. */
  function ParseValue(s: string): (r: Option<(Json, string)>)
    ensures r.Some? ==> |r.value.1| < |s|
    decreases |s|, 1
  {
    ParseValueAt(SkipWs(s))
  }

  /** One JSON value at the start of `t`, which has no leading whitespace. */
  function ParseValueAt(t: string): (r: Option<(Json, string)>)
    ensures r.Some? ==> |r.value.1| < |t|
    decreases |t|, 0
  {
    if t == [] then None
    else if t[0] == 'n' then ParseLiteral(t, "null", JNull)
    else if t[0] == 't' then ParseLiteral(t, "true", JBool(true))
    else if t[0] == 'f' then ParseLiteral(t, "false", JBool(false))
    else if t[0] == '"' then
      match ParseStringBody(t[1..])
      case None => None
      case Some((str, rest)) => Some((JStr(str), rest))
    else if t[0] == '[' then ParseArray(t[1..])
    else if t[0] == '{' then ParseObject(t[1..])
    else if t[0] == '-' || IsDigit(t[0]) then ParseNumber(t)
    else None
  }

  /** An array after its '['. */
  function ParseArray(s: string): (r: Option<(Json, string)>)
    ensures r.Some? ==> |r.value.1| < |s|
    decreases |s|, 2
  {
    var t := SkipWs(s);
    if t != [] && t[0] == ']' then Some((JArr([]), t[1..]))
    else
      match ParseValue(t)
      case None => None
      case Some((first, rest)) =>
        match ParseArrayTail(rest)
        case None => None
        case Some((more, rest')) => Some((JArr([first] + more), rest'))
  }

  /** The items after the first one of an array, and what follows its ']'. */
  function ParseArrayTail(s: string): (r: Option<(seq<Json>, string)>)
    ensures r.Some? ==> |r.value.1| < |s|
    decreases |s|, 0
  {
    var t := SkipWs(s);
    if t == [] then None
    else if t[0] == ']' then Some(([], t[1..]))
    else if t[0] != ',' then None
    else
      match ParseValue(t[1..])
      case None => None
      case Some((item, rest)) =>
        match ParseArrayTail(rest)
        case None => None
        case Some((more, rest')) => Some(([item] + more, rest'))
  }

  /** One `"key": value` member after optional whitespace. */
  function ParseMember(s: string): (r: Option<(Member, string)>)
    ensures r.Some? ==> |r.value.1| < |s|
    decreases |s|, 1
  {
    ParseMemberAt(SkipWs(s))
  }

  /** One member at the start of `t`, which has no leading whitespace. */
  function ParseMemberAt(t: string): (r: Option<(Member, string)>)
    ensures r.Some? ==> |r.value.1| < |t|
    decreases |t|, 0
  {
    if t == [] || t[0] != '"' then None
    else
      match ParseStringBody(t[1..])
      case None => None
      case Some((key, rest)) =>
        var u := SkipWs(rest);
        if u == [] || u[0] != ':' then None
        else
          match ParseValue(u[1..])
          case None => None
          case Some((v, rest')) => Some((Member(key, v), rest'))
  }

  /** An object after its '{'. */
  function ParseObject(s: string): (r: Option<(Json, string)>)
    ensures r.Some? ==> |r.value.1| < |s|
    decreases |s|, 2
  {
    var t := SkipWs(s);
    if t != [] && t[0] == '}' then Some((JObj([]), t[1..]))
    else
      match ParseMember(t)
      case None => None
      case Some((first, rest)) =>
        match ParseObjectTail(rest)
        case None => None
        case Some((more, rest')) => Some((JObj(BuildDict([], [first] + more)), rest'))
  }

  /** The members after the first one of an object, and what follows its '}'. */
  function ParseObjectTail(s: string): (r: Option<(seq<Member>, string)>)
    ensures r.Some? ==> |r.value.1| < |s|
    decreases |s|, 0
  {
    var t := SkipWs(s);
    if t == [] then None
    else if t[0] == '}' then Some(([], t[1..]))
    else if t[0] != ',' then None
    else
      match ParseMember(t[1..])
      case None => None
      case Some((m, rest)) =>
        match ParseObjectTail(rest)
        case None => None
        case Some((more, rest')) => Some(([m] + more, rest'))
  }

  /** `json.loads(s)`: one value, with nothing but whitespace around it;
      `None` where Python raises `JSONDecodeError`. */
  function Loads(s: string): Option<Json> {
    match ParseValue(s)
    case None => None
    case Some((v, rest)) => if SkipWs(rest) == [] then Some(v) else None
  }
}
