/** What the two encoders promise the decoder: whatever either of them writes,
    `Loads` reads back as the same value, and an encoder that escapes every line
    break (always so for `json.dumps`; for pydantic only when no string holds
    U+0085, U+2028 or U+2029) writes a single line. */
module JsonRoundTrip {
  import opened Wrappers
  import opened PyText
  import opened Json

  /** What may follow a value inside the text an encoder writes. */
  predicate Follows(rest: string) {
    rest == [] || rest[0] == ',' || rest[0] == ']' || rest[0] == '}'
  }

  // ---------------------------------------------------------------------------
  // Strings
  // ---------------------------------------------------------------------------

  lemma UnicodeEscapeParses(u: nat, more: string)
    requires u < 0x1_0000 && !(0xD800 <= u < 0xE000)
    ensures ParseUnicodeEscape(Hex4(u) + more) == Some((u as char, more))
  {
    var s := Hex4(u) + more;
    assert s[..4] == Hex4(u);
    Hex4RoundTrip(u);
    assert s[4..] == more;
  }

  lemma PairUnicodeParses(hi: nat, lo: nat, c: char, more: string)
    requires 0xD800 <= hi < 0xDC00 && 0xDC00 <= lo < 0xE000
    requires c as int == 0x1_0000 + (hi - 0xD800) * 0x400 + (lo - 0xDC00)
    ensures ParseUnicodeEscape(Hex4(hi) + UnicodeEscape(lo) + more) == Some((c, more))
  {
    var s := Hex4(hi) + UnicodeEscape(lo) + more;
    assert s[..4] == Hex4(hi);
    Hex4RoundTrip(hi);
    Hex4RoundTrip(lo);
    assert s[4] == '\\' && s[5] == 'u';
    assert s[6..10] == Hex4(lo);
    assert s[10..] == more;
  }

  /** The decoder reads one escaped character back. */
  lemma EscapeCharParses(c: char, ascii: bool, more: string)
    ensures ParseStringBody(EscapeChar(c, ascii) + more) == Prepend(c, ParseStringBody(more))
  {
    var e := EscapeChar(c, ascii);
    if e == [c] {
      PlainCharParses(c, more);
    } else if |e| == 2 {
      ShortEscapeParses(c, ascii, more);
    } else if c as int < 0x1_0000 {
      BmpEscapeParses(c, ascii, more);
    } else {
      PairEscapeParses(c, more);
    }
  }

  lemma PlainCharParses(c: char, more: string)
    requires c != '"' && c != '\\' && c >= ' '
    ensures ParseStringBody([c] + more) == Prepend(c, ParseStringBody(more))
  {
    var s := [c] + more;
    assert s[0] == c && s[1..] == more;
  }

  lemma ShortEscapeParses(c: char, ascii: bool, more: string)
    requires |EscapeChar(c, ascii)| == 2
    ensures ParseStringBody(EscapeChar(c, ascii) + more) == Prepend(c, ParseStringBody(more))
  {
    var e := EscapeChar(c, ascii);
    var s := e + more;
    assert s[0] == '\\' && s[1] == e[1] && s[2..] == more;
    if c == '"' {
      assert e[1] == '"';
    } else if c == '\\' {
      assert e[1] == '\\';
    } else if c == '\n' {
      assert e[1] == 'n';
    } else if c == '\r' {
      assert e[1] == 'r';
    } else if c == '\t' {
      assert e[1] == 't';
    } else if c == '\U{8}' {
      assert e[1] == 'b';
    } else {
      assert c == '\U{C}' && e[1] == 'f';
    }
  }

  /** One `\\u` escape is read by `ParseUnicodeEscape`. */
  lemma UnicodeBodyParses(s: string, c: char, rest: string)
    requires |s| >= 2 && s[0] == '\\' && s[1] == 'u'
    requires ParseUnicodeEscape(s[2..]) == Some((c, rest))
    ensures ParseStringBody(s) == Prepend(c, ParseStringBody(rest))
  {
  }

  lemma BmpEscapeParses(c: char, ascii: bool, more: string)
    requires |EscapeChar(c, ascii)| > 2 && c as int < 0x1_0000
    ensures ParseStringBody(EscapeChar(c, ascii) + more) == Prepend(c, ParseStringBody(more))
  {
    EscapeBmpShape(c, ascii);
    BmpBodyParses(c, more);
  }

  lemma EscapeBmpShape(c: char, ascii: bool)
    requires |EscapeChar(c, ascii)| > 2 && c as int < 0x1_0000
    ensures EscapeChar(c, ascii) == UnicodeEscape(c as int)
  {
  }

  lemma BmpBodyParses(c: char, more: string)
    requires c as int < 0x1_0000
    ensures ParseStringBody(UnicodeEscape(c as int) + more) == Prepend(c, ParseStringBody(more))
  {
    var s := UnicodeEscape(c as int) + more;
    assert s[0] == '\\' && s[1] == 'u';
    assert s[2..] == Hex4(c as int) + more;
    UnicodeEscapeParses(c as int, more);
    UnicodeBodyParses(s, c, more);
  }

  lemma PairEscapeParses(c: char, more: string)
    requires c as int >= 0x1_0000
    ensures ParseStringBody(EscapeChar(c, true) + more) == Prepend(c, ParseStringBody(more))
  {
    var v := c as int - 0x1_0000;
    var hi, lo := 0xD800 + v / 0x400, 0xDC00 + v % 0x400;
    EscapePairShape(c);
    var e := UnicodeEscape(hi) + UnicodeEscape(lo);
    assert EscapeChar(c, true) + more == e + more;
    assert v == (v / 0x400) * 0x400 + v % 0x400;
    PairBodyParses(hi, lo, c, more);
  }

  lemma EscapePairShape(c: char)
    requires c as int >= 0x1_0000
    ensures var v := c as int - 0x1_0000;
            EscapeChar(c, true) == UnicodeEscape(0xD800 + v / 0x400) + UnicodeEscape(0xDC00 + v % 0x400)
  {
    assert c > '~' && !(c < ' ') && c != '"' && c != '\\';
  }

  lemma PairBodyParses(hi: nat, lo: nat, c: char, more: string)
    requires 0xD800 <= hi < 0xDC00 && 0xDC00 <= lo < 0xE000
    requires c as int == 0x1_0000 + (hi - 0xD800) * 0x400 + (lo - 0xDC00)
    ensures ParseStringBody(UnicodeEscape(hi) + UnicodeEscape(lo) + more) == Prepend(c, ParseStringBody(more))
  {
    var s := UnicodeEscape(hi) + UnicodeEscape(lo) + more;
    assert s[0] == '\\' && s[1] == 'u';
    assert s[2..] == Hex4(hi) + UnicodeEscape(lo) + more;
    PairUnicodeParses(hi, lo, c, more);
    UnicodeBodyParses(s, c, more);
  }

  /** The body of a string literal decodes to the string that was escaped. */
  lemma {:induction false} EscapeStringParses(s: string, ascii: bool, rest: string)
    ensures ParseStringBody(EscapeString(s, ascii) + "\"" + rest) == Some((s, rest))
  {
    if s == [] {
      assert EscapeString(s, ascii) + "\"" + rest == "\"" + rest;
    } else {
      EscapeStringParses(s[1..], ascii, rest);
      EscapeStringCons(s[0], s[1..], ascii, rest);
      assert [s[0]] + s[1..] == s;
    }
  }

  lemma EscapeStringCons(c: char, t: string, ascii: bool, rest: string)
    requires ParseStringBody(EscapeString(t, ascii) + "\"" + rest) == Some((t, rest))
    ensures ParseStringBody(EscapeString([c] + t, ascii) + "\"" + rest) == Some(([c] + t, rest))
  {
    var more := EscapeString(t, ascii) + "\"" + rest;
    EscapeStringShape(c, t, ascii, rest);
    EscapeCharParses(c, ascii, more);
  }

  lemma EscapeStringShape(c: char, t: string, ascii: bool, rest: string)
    ensures EscapeString([c] + t, ascii) + "\"" + rest == EscapeChar(c, ascii) + (EscapeString(t, ascii) + "\"" + rest)
  {
    assert ([c] + t)[0] == c && ([c] + t)[1..] == t;
  }

  // ---------------------------------------------------------------------------
  // Whitespace and the first character of an encoding
  // ---------------------------------------------------------------------------

  lemma {:induction false} SkipWsPrefix(ws: string, x: string)
    requires AllJsonWs(ws)
    ensures SkipWs(ws + x) == SkipWs(x)
  {
    if ws != [] {
      assert (ws + x)[1..] == ws[1..] + x;
      SkipWsPrefix(ws[1..], x);
    } else {
      assert ws + x == x;
    }
  }

  lemma ParseValueAfterWs(ws: string, x: string)
    requires AllJsonWs(ws)
    ensures ParseValue(ws + x) == ParseValue(x)
  {
    SkipWsPrefix(ws, x);
  }

  lemma ParseMemberAfterWs(ws: string, x: string)
    requires AllJsonWs(ws)
    ensures ParseMember(ws + x) == ParseMember(x)
  {
    SkipWsPrefix(ws, x);
  }

  /** An encoding starts with a character that opens a value: neither
      whitespace nor a closing bracket. */
  lemma DumpOpens(v: Json, st: Style, tail: string)
    ensures var s := Dump(v, st) + tail;
            s != [] && !IsJsonWs(s[0]) && s[0] != ']' && s[0] != '}'
  {
    var s := Dump(v, st) + tail;
    assert s[0] == Dump(v, st)[0];
  }

  lemma SkipWsNone(x: string)
    requires x != [] && !IsJsonWs(x[0])
    ensures SkipWs(x) == x
  {
  }

  // ---------------------------------------------------------------------------
  // Values
  // ---------------------------------------------------------------------------

  /** The digits of a non-negative number are read back up to the first
      character that follows them. */
  lemma NaturalParses(m: nat, rest: string)
    requires Follows(rest)
    ensures ParseNatural(NatToString(m) + rest) == Some((m, rest))
  {
    var body := NatToString(m) + rest;
    DigitsValueOfNatToString(m);
    if m == 0 {
      assert body[..1] == NatToString(m);
      assert body[1..] == rest;
    } else {
      LeadingDigitsOfDigits(NatToString(m), rest);
      assert body[|NatToString(m)|..] == rest;
    }
  }

  lemma NegativeParses(body: string, m: nat, rest: string)
    requires body != [] && IsDigit(body[0])
    requires ParseNatural(body) == Some((m, rest)) && Follows(rest)
    ensures ParseNumber("-" + body) == Some((JInt(-(m as int)), rest))
  {
    assert ("-" + body)[1..] == body;
  }

  lemma NonNegativeParses(body: string, m: nat, rest: string)
    requires body != [] && IsDigit(body[0])
    requires ParseNatural(body) == Some((m, rest)) && Follows(rest)
    ensures ParseNumber(body) == Some((JInt(m), rest))
  {
  }

  lemma NumberParses(n: int, rest: string)
    requires Follows(rest)
    ensures ParseNumber(IntToString(n) + rest) == Some((JInt(n), rest))
  {
    var m: nat := if n < 0 then -n else n;
    var body := NatToString(m) + rest;
    NaturalParses(m, rest);
    if n < 0 {
      assert IntToString(n) + rest == "-" + body;
      NegativeParses(body, m, rest);
    } else {
      assert IntToString(n) + rest == body;
      NonNegativeParses(body, m, rest);
    }
  }

  // ParseValue on text that starts with the first character of a value.

  lemma ValueIsNumber(t: string)
    requires t != [] && (t[0] == '-' || IsDigit(t[0]))
    ensures ParseValue(t) == ParseNumber(t)
  {
    SkipWsNone(t);
    var c := t[0];
    assert c != 'n' && c != 't' && c != 'f' && c != '"' && c != '[' && c != '{';
  }

  lemma ValueAt(t: string)
    requires t != [] && !IsJsonWs(t[0])
    ensures ParseValue(t) == ParseValueAt(t)
  {
    SkipWsNone(t);
  }

  lemma ValueIsString(x: string, str: string, rest: string)
    requires ParseStringBody(x) == Some((str, rest))
    ensures ParseValue("\"" + x) == Some((JStr(str), rest))
  {
    var t := "\"" + x;
    ValueAt(t);
    assert t[0] == '"' && t[1..] == x;
  }

  lemma ValueIsArray(x: string)
    ensures ParseValue("[" + x) == ParseArray(x)
  {
    var t := "[" + x;
    ValueAt(t);
    assert t[0] == '[' && t[1..] == x;
  }

  lemma ValueIsObject(x: string)
    ensures ParseValue("{" + x) == ParseObject(x)
  {
    var t := "{" + x;
    ValueAt(t);
    assert t[0] == '{' && t[1..] == x;
  }

  lemma ValueIsLiteral(word: string, v: Json, rest: string)
    requires word == "null" || word == "true" || word == "false"
    requires v == (if word == "null" then JNull else JBool(word == "true"))
    ensures ParseValue(word + rest) == Some((v, rest))
  {
    var t := word + rest;
    SkipWsNone(t);
    assert t[..|word|] == word && t[|word|..] == rest;
  }

  /** Decoding what an encoder wrote gives back the value, and the text after it. */
  lemma {:induction false} DumpParses(v: Json, st: Style, rest: string)
    requires ValidStyle(st) && WellFormed(v) && Follows(rest)
    ensures ParseValue(Dump(v, st) + rest) == Some((v, rest))
    decreases v, 1
  {
    match v
    case JNull =>
      ValueIsLiteral("null", v, rest);
    case JBool(b) =>
      ValueIsLiteral(if b then "true" else "false", v, rest);
    case JInt(n) =>
      NumberParses(n, rest);
      ValueIsNumber(Dump(v, st) + rest);
    case JStr(str) =>
      StrDumpParses(str, st, rest);
    case JArr(items) =>
      ItemsParse(items, st, rest);
      ArrDumpParses(items, st, rest);
    case JObj(ms) =>
      MembersParse(ms, st, rest);
      FreshDictUnique(ms);
      ObjDumpParses(ms, st, rest);
  }

  lemma StrDumpParses(str: string, st: Style, rest: string)
    ensures ParseValue(Dump(JStr(str), st) + rest) == Some((JStr(str), rest))
  {
    var body := EscapeString(str, st.asciiOnly) + "\"" + rest;
    assert Dump(JStr(str), st) + rest == "\"" + body;
    EscapeStringParses(str, st.asciiOnly, rest);
    ValueIsString(body, str, rest);
  }

  lemma ArrDumpParses(items: seq<Json>, st: Style, rest: string)
    requires ParseArray(DumpItems(items, st) + "]" + rest) == Some((JArr(items), rest))
    ensures ParseValue(Dump(JArr(items), st) + rest) == Some((JArr(items), rest))
  {
    var body := DumpItems(items, st) + "]" + rest;
    assert Dump(JArr(items), st) + rest == "[" + body;
    ValueIsArray(body);
  }

  lemma ObjDumpParses(ms: seq<Member>, st: Style, rest: string)
    requires ParseObject(DumpMembers(ms, st) + "}" + rest) == Some((JObj(ms), rest))
    ensures ParseValue(Dump(JObj(ms), st) + rest) == Some((JObj(ms), rest))
  {
    var body := DumpMembers(ms, st) + "}" + rest;
    ObjDumpShape(ms, st, rest);
    ValueIsObject(body);
  }

  lemma ObjDumpShape(ms: seq<Member>, st: Style, rest: string)
    ensures Dump(JObj(ms), st) + rest == "{" + (DumpMembers(ms, st) + "}" + rest)
  {
  }

  lemma FreshDictUnique(ms: seq<Member>)
    requires UniqueKeys(ms)
    ensures BuildDict([], ms) == ms
  {
    assert [] + ms == ms;
    BuildDictUnique([], ms);
  }

  // How the encodings of a non-empty sequence split into the first item and the rest.

  lemma SeparatedShape(sep: string, d: string, m: string, close: string, rest: string)
    requires sep != []
    ensures sep + d + m + close + rest == [sep[0]] + sep[1..] + (d + (m + close + rest))
  {
    assert sep == [sep[0]] + sep[1..];
  }

  lemma DumpItemsShape(first: Json, more: seq<Json>, st: Style, rest: string)
    ensures DumpItems([first] + more, st) + "]" + rest
            == Dump(first, st) + (DumpMoreItems(more, st) + "]" + rest)
  {
    assert ([first] + more)[0] == first && ([first] + more)[1..] == more;
  }

  lemma DumpMoreItemsShape(first: Json, more: seq<Json>, st: Style, rest: string)
    requires ValidStyle(st)
    ensures DumpMoreItems([first] + more, st) + "]" + rest
            == [','] + st.itemSep[1..] + (Dump(first, st) + (DumpMoreItems(more, st) + "]" + rest))
  {
    assert ([first] + more)[0] == first && ([first] + more)[1..] == more;
    SeparatedShape(st.itemSep, Dump(first, st), DumpMoreItems(more, st), "]", rest);
  }

  lemma DumpMembersShape(first: Member, more: seq<Member>, st: Style, rest: string)
    ensures DumpMembers([first] + more, st) + "}" + rest
            == DumpMember(first, st) + (DumpMoreMembers(more, st) + "}" + rest)
  {
    assert ([first] + more)[0] == first && ([first] + more)[1..] == more;
  }

  lemma DumpMoreMembersShape(first: Member, more: seq<Member>, st: Style, rest: string)
    requires ValidStyle(st)
    ensures DumpMoreMembers([first] + more, st) + "}" + rest
            == [','] + st.itemSep[1..] + (DumpMember(first, st) + (DumpMoreMembers(more, st) + "}" + rest))
  {
    assert ([first] + more)[0] == first && ([first] + more)[1..] == more;
    SeparatedShape(st.itemSep, DumpMember(first, st), DumpMoreMembers(more, st), "}", rest);
  }

  lemma DumpMemberStart(m: Member, st: Style, rest: string)
    ensures (DumpMember(m, st) + rest)[0] == '"'
  {
  }

  lemma ArrayFirst(s: string, first: Json, mid: string, more: seq<Json>, rest: string)
    requires s != [] && !IsJsonWs(s[0]) && s[0] != ']'
    requires ParseValue(s) == Some((first, mid)) && ParseArrayTail(mid) == Some((more, rest))
    ensures ParseArray(s) == Some((JArr([first] + more), rest))
  {
    SkipWsNone(s);
  }

  lemma ArrayClose(rest: string)
    ensures ParseArray("]" + rest) == Some((JArr([]), rest))
    ensures ParseArrayTail("]" + rest) == Some(([], rest))
  {
    SkipWsNone("]" + rest);
    assert ("]" + rest)[1..] == rest;
  }

  lemma ObjectClose(rest: string)
    ensures ParseObject("}" + rest) == Some((JObj([]), rest))
    ensures ParseObjectTail("}" + rest) == Some(([], rest))
  {
    SkipWsNone("}" + rest);
    assert ("}" + rest)[1..] == rest;
  }

  lemma {:induction false} ItemsParse(items: seq<Json>, st: Style, rest: string)
    requires ValidStyle(st) && Follows(rest)
    requires forall i :: 0 <= i < |items| ==> WellFormed(items[i])
    ensures ParseArray(DumpItems(items, st) + "]" + rest) == Some((JArr(items), rest))
    decreases items, 0
  {
    if items == [] {
      assert DumpItems(items, st) + "]" + rest == "]" + rest;
      ArrayClose(rest);
    } else {
      var first, more := items[0], items[1..];
      assert items == [first] + more;
      var tail := DumpMoreItems(more, st) + "]" + rest;
      MoreItemsStart(more, st, rest);
      DumpParses(first, st, tail);
      MoreItemsParse(more, st, rest);
      ItemsCons(first, more, st, rest);
    }
  }

  lemma ItemsCons(first: Json, more: seq<Json>, st: Style, rest: string)
    requires var tail := DumpMoreItems(more, st) + "]" + rest;
             && ParseValue(Dump(first, st) + tail) == Some((first, tail))
             && ParseArrayTail(tail) == Some((more, rest))
    ensures ParseArray(DumpItems([first] + more, st) + "]" + rest) == Some((JArr([first] + more), rest))
  {
    DumpItemsShape(first, more, st, rest);
    ItemsFirst(first, st, DumpMoreItems(more, st) + "]" + rest, more, rest);
  }

  lemma ItemsFirst(first: Json, st: Style, tail: string, more: seq<Json>, rest: string)
    requires ParseValue(Dump(first, st) + tail) == Some((first, tail))
    requires ParseArrayTail(tail) == Some((more, rest))
    ensures ParseArray(Dump(first, st) + tail) == Some((JArr([first] + more), rest))
  {
    DumpOpens(first, st, tail);
    ArrayFirst(Dump(first, st) + tail, first, tail, more, rest);
  }

  lemma MoreItemsStart(items: seq<Json>, st: Style, rest: string)
    requires ValidStyle(st)
    ensures Follows(DumpMoreItems(items, st) + "]" + rest)
  {
  }

  lemma AfterSeparator(ws: string, x: string)
    ensures ([','] + ws + x)[0] == ','
    ensures ([','] + ws + x)[1..] == ws + x
  {
  }

  lemma ArrayTailNext(ws: string, x: string, item: Json, mid: string, more: seq<Json>, rest: string)
    requires AllJsonWs(ws)
    requires ParseValue(x) == Some((item, mid)) && ParseArrayTail(mid) == Some((more, rest))
    ensures ParseArrayTail([','] + ws + x) == Some(([item] + more, rest))
  {
    var s := [','] + ws + x;
    AfterSeparator(ws, x);
    SkipWsNone(s);
    ParseValueAfterWs(ws, x);
  }

  lemma {:induction false} MoreItemsParse(items: seq<Json>, st: Style, rest: string)
    requires ValidStyle(st) && Follows(rest)
    requires forall i :: 0 <= i < |items| ==> WellFormed(items[i])
    ensures ParseArrayTail(DumpMoreItems(items, st) + "]" + rest) == Some((items, rest))
    decreases items, 1
  {
    if items == [] {
      assert DumpMoreItems(items, st) + "]" + rest == "]" + rest;
      ArrayClose(rest);
    } else {
      var first, more := items[0], items[1..];
      assert items == [first] + more;
      var tail := DumpMoreItems(more, st) + "]" + rest;
      MoreItemsStart(more, st, rest);
      DumpParses(first, st, tail);
      MoreItemsParse(more, st, rest);
      MoreItemsCons(first, more, st, rest);
    }
  }

  lemma MoreItemsCons(first: Json, more: seq<Json>, st: Style, rest: string)
    requires ValidStyle(st)
    requires var tail := DumpMoreItems(more, st) + "]" + rest;
             && ParseValue(Dump(first, st) + tail) == Some((first, tail))
             && ParseArrayTail(tail) == Some((more, rest))
    ensures ParseArrayTail(DumpMoreItems([first] + more, st) + "]" + rest) == Some(([first] + more, rest))
  {
    var tail := DumpMoreItems(more, st) + "]" + rest;
    DumpMoreItemsShape(first, more, st, rest);
    ArrayTailNext(st.itemSep[1..], Dump(first, st) + tail, first, tail, more, rest);
  }

  lemma MemberAfterKey(x: string, key: string, afterKey: string, v: Json, rest: string)
    requires ParseStringBody(x) == Some((key, afterKey))
    requires afterKey != [] && afterKey[0] == ':'
    requires ParseValue(afterKey[1..]) == Some((v, rest))
    ensures ParseMember("\"" + x) == Some((Member(key, v), rest))
  {
    SkipWsNone("\"" + x);
    assert ("\"" + x)[1..] == x;
    SkipWsNone(afterKey);
  }

  lemma DumpMemberShape(m: Member, st: Style, rest: string)
    requires ValidStyle(st)
    ensures DumpMember(m, st) + rest
            == "\"" + (EscapeString(m.key, st.asciiOnly) + "\"" + ([':'] + st.keySep[1..] + (Dump(m.value, st) + rest)))
  {
    assert st.keySep == [':'] + st.keySep[1..];
  }

  lemma {:induction false} MemberParses(m: Member, st: Style, rest: string)
    requires ValidStyle(st) && WellFormed(m.value) && Follows(rest)
    ensures ParseMember(DumpMember(m, st) + rest) == Some((m, rest))
    decreases m, 1
  {
    DumpParses(m.value, st, rest);
    MemberCons(m, st, rest);
  }

  lemma MemberCons(m: Member, st: Style, rest: string)
    requires ValidStyle(st)
    requires ParseValue(Dump(m.value, st) + rest) == Some((m.value, rest))
    ensures ParseMember(DumpMember(m, st) + rest) == Some((m, rest))
  {
    var valueText := Dump(m.value, st) + rest;
    var afterKey := [':'] + st.keySep[1..] + valueText;
    DumpMemberShape(m, st, rest);
    KeyParses(m.key, st.asciiOnly, st.keySep[1..], valueText, m.value, rest);
  }

  lemma KeyParses(key: string, ascii: bool, ws: string, valueText: string, v: Json, rest: string)
    requires AllJsonWs(ws)
    requires ParseValue(valueText) == Some((v, rest))
    ensures ParseMember("\"" + (EscapeString(key, ascii) + "\"" + ([':'] + ws + valueText)))
            == Some((Member(key, v), rest))
  {
    var afterKey := [':'] + ws + valueText;
    EscapeStringParses(key, ascii, afterKey);
    assert afterKey[0] == ':' && afterKey[1..] == ws + valueText;
    ParseValueAfterWs(ws, valueText);
    MemberAfterKey(EscapeString(key, ascii) + "\"" + afterKey, key, afterKey, v, rest);
  }

  lemma ObjectFirst(s: string, first: Member, mid: string, more: seq<Member>, rest: string)
    requires s != [] && !IsJsonWs(s[0]) && s[0] != '}'
    requires ParseMember(s) == Some((first, mid)) && ParseObjectTail(mid) == Some((more, rest))
    ensures ParseObject(s) == Some((JObj(BuildDict([], [first] + more)), rest))
  {
    SkipWsNone(s);
  }

  lemma {:induction false} MembersParse(ms: seq<Member>, st: Style, rest: string)
    requires ValidStyle(st) && Follows(rest)
    requires forall i :: 0 <= i < |ms| ==> WellFormed(ms[i].value)
    ensures ParseObject(DumpMembers(ms, st) + "}" + rest) == Some((JObj(BuildDict([], ms)), rest))
    decreases ms, 0
  {
    if ms == [] {
      assert DumpMembers(ms, st) + "}" + rest == "}" + rest;
      ObjectClose(rest);
    } else {
      var first, more := ms[0], ms[1..];
      assert ms == [first] + more;
      var tail := DumpMoreMembers(more, st) + "}" + rest;
      MoreMembersStart(more, st, rest);
      MemberParses(first, st, tail);
      MoreMembersParse(more, st, rest);
      MembersCons(first, more, st, rest);
    }
  }

  lemma MembersCons(first: Member, more: seq<Member>, st: Style, rest: string)
    requires var tail := DumpMoreMembers(more, st) + "}" + rest;
             && ParseMember(DumpMember(first, st) + tail) == Some((first, tail))
             && ParseObjectTail(tail) == Some((more, rest))
    ensures ParseObject(DumpMembers([first] + more, st) + "}" + rest)
            == Some((JObj(BuildDict([], [first] + more)), rest))
  {
    DumpMembersShape(first, more, st, rest);
    MembersFirst(first, st, DumpMoreMembers(more, st) + "}" + rest, more, rest);
  }

  lemma MembersFirst(first: Member, st: Style, tail: string, more: seq<Member>, rest: string)
    requires ParseMember(DumpMember(first, st) + tail) == Some((first, tail))
    requires ParseObjectTail(tail) == Some((more, rest))
    ensures ParseObject(DumpMember(first, st) + tail) == Some((JObj(BuildDict([], [first] + more)), rest))
  {
    DumpMemberStart(first, st, tail);
    ObjectFirst(DumpMember(first, st) + tail, first, tail, more, rest);
  }

  lemma MoreMembersStart(ms: seq<Member>, st: Style, rest: string)
    requires ValidStyle(st)
    ensures Follows(DumpMoreMembers(ms, st) + "}" + rest)
  {
  }

  lemma ObjectTailNext(ws: string, x: string, m: Member, mid: string, more: seq<Member>, rest: string)
    requires AllJsonWs(ws)
    requires ParseMember(x) == Some((m, mid)) && ParseObjectTail(mid) == Some((more, rest))
    ensures ParseObjectTail([','] + ws + x) == Some(([m] + more, rest))
  {
    var s := [','] + ws + x;
    AfterSeparator(ws, x);
    SkipWsNone(s);
    ParseMemberAfterWs(ws, x);
  }

  lemma {:induction false} MoreMembersParse(ms: seq<Member>, st: Style, rest: string)
    requires ValidStyle(st) && Follows(rest)
    requires forall i :: 0 <= i < |ms| ==> WellFormed(ms[i].value)
    ensures ParseObjectTail(DumpMoreMembers(ms, st) + "}" + rest) == Some((ms, rest))
    decreases ms, 1
  {
    if ms == [] {
      assert DumpMoreMembers(ms, st) + "}" + rest == "}" + rest;
      ObjectClose(rest);
    } else {
      var first, more := ms[0], ms[1..];
      assert ms == [first] + more;
      var tail := DumpMoreMembers(more, st) + "}" + rest;
      MoreMembersStart(more, st, rest);
      MemberParses(first, st, tail);
      MoreMembersParse(more, st, rest);
      MoreMembersCons(first, more, st, rest);
    }
  }

  lemma MoreMembersCons(first: Member, more: seq<Member>, st: Style, rest: string)
    requires ValidStyle(st)
    requires var tail := DumpMoreMembers(more, st) + "}" + rest;
             && ParseMember(DumpMember(first, st) + tail) == Some((first, tail))
             && ParseObjectTail(tail) == Some((more, rest))
    ensures ParseObjectTail(DumpMoreMembers([first] + more, st) + "}" + rest) == Some(([first] + more, rest))
  {
    var tail := DumpMoreMembers(more, st) + "}" + rest;
    DumpMoreMembersShape(first, more, st, rest);
    ObjectTailNext(st.itemSep[1..], DumpMember(first, st) + tail, first, tail, more, rest);
  }

  /** `json.loads` reads back exactly what either encoder wrote. */
  lemma LoadsDump(v: Json, st: Style)
    requires ValidStyle(st) && WellFormed(v)
    ensures Loads(Dump(v, st)) == Some(v)
  {
    DumpParses(v, st, []);
    assert Dump(v, st) + [] == Dump(v, st);
  }

  // ---------------------------------------------------------------------------
  // One line per value
  // ---------------------------------------------------------------------------

  /** No string anywhere in the value, key or text, holds a line boundary
      at or above the space character. */
  predicate NoBreakInStrings(v: Json) {
    match v
    case JStr(str) => NoRawBreak(str)
    case JArr(items) => forall i :: 0 <= i < |items| ==> NoBreakInStrings(items[i])
    case JObj(ms) => forall i :: 0 <= i < |ms| ==> NoRawBreak(ms[i].key) && NoBreakInStrings(ms[i].value)
    case _ => true
  }

  /** What an encoder may write raw without breaking its line. */
  predicate SingleLineStyle(st: Style) {
    NoLineBoundary(st.itemSep) && NoLineBoundary(st.keySep)
  }

  predicate Printable(s: string) {
    forall i :: 0 <= i < |s| ==> ' ' <= s[i] <= '~'
  }

  lemma PrintableNoBoundary(s: string)
    requires Printable(s)
    ensures NoLineBoundary(s)
  {
  }

  lemma PrintableNoRawBreak(s: string)
    requires Printable(s)
    ensures NoRawBreak(s)
  {
  }

  lemma NoBoundaryConcat(a: string, b: string)
    requires NoLineBoundary(a) && NoLineBoundary(b)
    ensures NoLineBoundary(a + b)
  {
    forall i | 0 <= i < |a + b|
      ensures !IsLineBoundary((a + b)[i])
    {
      if i >= |a| {
        assert (a + b)[i] == b[i - |a|];
      }
    }
  }

  lemma UnicodeEscapePrintable(u: nat)
    requires u < 0x1_0000
    ensures Printable(UnicodeEscape(u))
  {
    var e := UnicodeEscape(u);
    forall i | 0 <= i < |e|
      ensures ' ' <= e[i] <= '~'
    {
      if i >= 2 {
        assert e[i] == Hex4(u)[i - 2];
      }
    }
  }

  /** An escape sequence is printable ASCII; a raw character is itself. */
  lemma EscapeCharSingleLine(c: char, ascii: bool)
    requires ascii || !RawBreak(c)
    ensures NoLineBoundary(EscapeChar(c, ascii))
  {
    var e := EscapeChar(c, ascii);
    if e == [c] {
      assert !IsLineBoundary(e[0]);
    } else if |e| == 2 {
      ShortEscapeSingleLine(c, ascii);
    } else if c as int < 0x1_0000 {
      EscapeBmpShape(c, ascii);
      UnicodeEscapePrintable(c as int);
    } else {
      EscapePairShape(c);
      PairSingleLine(c);
    }
  }

  lemma ShortEscapeSingleLine(c: char, ascii: bool)
    requires |EscapeChar(c, ascii)| == 2
    ensures NoLineBoundary(EscapeChar(c, ascii))
  {
    var e := EscapeChar(c, ascii);
    assert e[0] == '\\';
    assert e[1] == '"' || e[1] == '\\' || e[1] == 'n' || e[1] == 'r' || e[1] == 't' || e[1] == 'b' || e[1] == 'f';
  }

  lemma PairSingleLine(c: char)
    requires c as int >= 0x1_0000
    ensures var v := c as int - 0x1_0000;
            NoLineBoundary(UnicodeEscape(0xD800 + v / 0x400) + UnicodeEscape(0xDC00 + v % 0x400))
  {
    var v := c as int - 0x1_0000;
    var hi, lo := 0xD800 + v / 0x400, 0xDC00 + v % 0x400;
    UnicodeEscapePrintable(hi);
    UnicodeEscapePrintable(lo);
    NoBoundaryConcat(UnicodeEscape(hi), UnicodeEscape(lo));
  }

  lemma {:induction false} EscapeStringSingleLine(s: string, ascii: bool)
    requires ascii || NoRawBreak(s)
    ensures NoLineBoundary(EscapeString(s, ascii))
  {
    if s != [] {
      EscapeCharSingleLine(s[0], ascii);
      EscapeStringSingleLine(s[1..], ascii);
      NoBoundaryConcat(EscapeChar(s[0], ascii), EscapeString(s[1..], ascii));
    }
  }

  lemma QuoteSingleLine(s: string, ascii: bool)
    requires ascii || NoRawBreak(s)
    ensures NoLineBoundary(Quote(s, ascii))
  {
    EscapeStringSingleLine(s, ascii);
    NoBoundaryConcat("\"", EscapeString(s, ascii));
    NoBoundaryConcat("\"" + EscapeString(s, ascii), "\"");
  }

  lemma DigitsNoBoundary(n: int)
    ensures NoLineBoundary(IntToString(n))
  {
  }

  /** An encoder that either escapes every non-ASCII character or is given
      strings without U+0085, U+2028 and U+2029 writes one line: every other
      line boundary is a control character, which both encoders escape. */
  lemma {:induction false} DumpSingleLine(v: Json, st: Style)
    requires SingleLineStyle(st) && (st.asciiOnly || NoBreakInStrings(v))
    ensures NoLineBoundary(Dump(v, st))
    decreases v, 1
  {
    match v
    case JNull =>
    case JBool(b) =>
    case JInt(n) =>
      DigitsNoBoundary(n);
    case JStr(str) =>
      QuoteSingleLine(str, st.asciiOnly);
    case JArr(items) =>
      ItemsSingleLine(items, st);
      NoBoundaryConcat("[", DumpItems(items, st));
      NoBoundaryConcat("[" + DumpItems(items, st), "]");
    case JObj(ms) =>
      MembersSingleLine(ms, st);
      NoBoundaryConcat("{", DumpMembers(ms, st));
      NoBoundaryConcat("{" + DumpMembers(ms, st), "}");
  }

  lemma {:induction false} ItemsSingleLine(items: seq<Json>, st: Style)
    requires SingleLineStyle(st)
    requires st.asciiOnly || forall i :: 0 <= i < |items| ==> NoBreakInStrings(items[i])
    ensures NoLineBoundary(DumpItems(items, st))
    decreases items, 0
  {
    if items != [] {
      DumpSingleLine(items[0], st);
      MoreItemsSingleLine(items[1..], st);
      NoBoundaryConcat(Dump(items[0], st), DumpMoreItems(items[1..], st));
    }
  }

  lemma {:induction false} MoreItemsSingleLine(items: seq<Json>, st: Style)
    requires SingleLineStyle(st)
    requires st.asciiOnly || forall i :: 0 <= i < |items| ==> NoBreakInStrings(items[i])
    ensures NoLineBoundary(DumpMoreItems(items, st))
    decreases items, 1
  {
    if items != [] {
      DumpSingleLine(items[0], st);
      MoreItemsSingleLine(items[1..], st);
      NoBoundaryConcat(st.itemSep, Dump(items[0], st));
      NoBoundaryConcat(st.itemSep + Dump(items[0], st), DumpMoreItems(items[1..], st));
    }
  }

  lemma {:induction false} MemberSingleLine(m: Member, st: Style)
    requires SingleLineStyle(st)
    requires st.asciiOnly || (NoRawBreak(m.key) && NoBreakInStrings(m.value))
    ensures NoLineBoundary(DumpMember(m, st))
    decreases m, 1
  {
    QuoteSingleLine(m.key, st.asciiOnly);
    DumpSingleLine(m.value, st);
    NoBoundaryConcat(Quote(m.key, st.asciiOnly), st.keySep);
    NoBoundaryConcat(Quote(m.key, st.asciiOnly) + st.keySep, Dump(m.value, st));
  }

  lemma {:induction false} MembersSingleLine(ms: seq<Member>, st: Style)
    requires SingleLineStyle(st)
    requires st.asciiOnly || forall i :: 0 <= i < |ms| ==> NoRawBreak(ms[i].key) && NoBreakInStrings(ms[i].value)
    ensures NoLineBoundary(DumpMembers(ms, st))
    decreases ms, 0
  {
    if ms != [] {
      MemberSingleLine(ms[0], st);
      MoreMembersSingleLine(ms[1..], st);
      NoBoundaryConcat(DumpMember(ms[0], st), DumpMoreMembers(ms[1..], st));
    }
  }

  lemma {:induction false} MoreMembersSingleLine(ms: seq<Member>, st: Style)
    requires SingleLineStyle(st)
    requires st.asciiOnly || forall i :: 0 <= i < |ms| ==> NoRawBreak(ms[i].key) && NoBreakInStrings(ms[i].value)
    ensures NoLineBoundary(DumpMoreMembers(ms, st))
    decreases ms, 1
  {
    if ms != [] {
      MemberSingleLine(ms[0], st);
      MoreMembersSingleLine(ms[1..], st);
      NoBoundaryConcat(st.itemSep, DumpMember(ms[0], st));
      NoBoundaryConcat(st.itemSep + DumpMember(ms[0], st), DumpMoreMembers(ms[1..], st));
    }
  }
}
