/** The few Python `str` operations the modelled code relies on, over Dafny
    strings (sequences of Unicode scalar values): `str.isspace`/`str.strip`,
    `str.splitlines`, `str.split(sep)[-1]`, decimal and hexadecimal digits, and
    the parent of a resolved POSIX path. */
module PyText {

  // ---------------------------------------------------------------------------
  // Whitespace and strip()
  // ---------------------------------------------------------------------------

  /** `c.isspace()`: the characters Python's `str.strip()` removes. */
  predicate IsSpace(c: char) {
    || ('\U{9}' <= c <= '\U{D}')
    || ('\U{1C}' <= c <= ' ')
    || c == '\U{85}' || c == '\U{A0}' || c == '\U{1680}'
    || ('\U{2000}' <= c <= '\U{200A}')
    || c == '\U{2028}' || c == '\U{2029}' || c == '\U{202F}' || c == '\U{205F}' || c == '\U{3000}'
  }

  predicate AllSpace(s: string) {
    forall i :: 0 <= i < |s| ==> IsSpace(s[i])
  }

  /** `s.lstrip()`: the longest suffix of `s` that does not start with whitespace. */
  function TrimStart(s: string): (r: string)
    ensures |r| <= |s| && r == s[|s| - |r|..]
    ensures r == [] || !IsSpace(r[0])
    ensures AllSpace(s[..|s| - |r|])
  {
    if s != [] && IsSpace(s[0]) then
      var r := TrimStart(s[1..]);
      TrimStartStep(s, r);
      r
    else s
  }

  lemma TrimStartStep(s: string, r: string)
    requires s != [] && IsSpace(s[0])
    requires |r| <= |s| - 1 && r == s[1..][|s| - 1 - |r|..]
    requires AllSpace(s[1..][..|s| - 1 - |r|])
    ensures r == s[|s| - |r|..]
    ensures AllSpace(s[..|s| - |r|])
  {
    var t := s[1..];
    assert t[|t| - |r|..] == s[|s| - |r|..];
    var pre, rest := s[..|s| - |r|], t[..|t| - |r|];
    forall i | 0 <= i < |pre|
      ensures IsSpace(pre[i])
    {
      if i > 0 {
        assert pre[i] == rest[i - 1];
      }
    }
  }

  /** `s.rstrip()`: the longest prefix of `s` that does not end with whitespace. */
  function TrimEnd(s: string): (r: string)
    ensures |r| <= |s| && r == s[..|r|]
    ensures r == [] || !IsSpace(r[|r| - 1])
    ensures AllSpace(s[|r|..])
  {
    if s != [] && IsSpace(s[|s| - 1]) then
      var r := TrimEnd(s[..|s| - 1]);
      TrimEndStep(s, r);
      r
    else s
  }

  lemma TrimEndStep(s: string, r: string)
    requires s != [] && IsSpace(s[|s| - 1])
    requires |r| <= |s| - 1 && r == s[..|s| - 1][..|r|]
    requires AllSpace(s[..|s| - 1][|r|..])
    ensures r == s[..|r|]
    ensures AllSpace(s[|r|..])
  {
    var t := s[..|s| - 1];
    assert t[..|r|] == s[..|r|];
    var post, rest := s[|r|..], t[|r|..];
    forall i | 0 <= i < |post|
      ensures IsSpace(post[i])
    {
      if i < |rest| {
        assert post[i] == rest[i];
      }
    }
  }

  /** `s.strip()` */
  function Strip(s: string): (r: string)
    ensures r == [] || (!IsSpace(r[0]) && !IsSpace(r[|r| - 1]))
  {
    TrimEnd(TrimStart(s))
  }

  lemma {:induction false} TrimStartAllSpace(s: string)
    requires AllSpace(s)
    ensures TrimStart(s) == []
  {
    if s != [] {
      TrimStartAllSpace(s[1..]);
    }
  }

  /** Leading whitespace of the first part is all that lstrip() can remove once
      something that is not whitespace follows. */
  lemma {:induction false} TrimStartAppend(a: string, b: string)
    requires b != [] && !IsSpace(b[0])
    ensures TrimStart(a + b) == TrimStart(a) + b
  {
    if a == [] {
      assert a + b == b;
    } else if IsSpace(a[0]) {
      assert (a + b)[1..] == a[1..] + b;
      TrimStartAppend(a[1..], b);
    } else {
      assert (a + b)[0] == a[0];
    }
  }

  /** rstrip() removes exactly a whitespace tail that follows a non-space character. */
  lemma {:induction false} TrimEndAppendSpace(a: string, b: string)
    requires a != [] && !IsSpace(a[|a| - 1])
    requires AllSpace(b)
    ensures TrimEnd(a + b) == a
  {
    if b == [] {
      assert a + b == a;
    } else {
      assert (a + b)[..|a + b| - 1] == a + b[..|b| - 1];
      TrimEndAppendSpace(a, b[..|b| - 1]);
    }
  }

  /** strip() of a text framed by whitespace-free ends, after an arbitrary prefix
      and before a whitespace tail. */
  lemma StripFramed(prefix: string, x: string, tail: string)
    requires x != [] && !IsSpace(x[0]) && !IsSpace(x[|x| - 1])
    requires AllSpace(tail)
    ensures Strip(prefix + x + tail) == TrimStart(prefix) + x
  {
    TrimStartFramed(prefix, x, tail);
    var a := TrimStart(prefix) + x;
    assert a[|a| - 1] == x[|x| - 1];
    TrimEndAppendSpace(a, tail);
  }

  lemma TrimStartFramed(prefix: string, x: string, tail: string)
    requires x != [] && !IsSpace(x[0])
    ensures TrimStart(prefix + x + tail) == (TrimStart(prefix) + x) + tail
  {
    assert prefix + x + tail == prefix + (x + tail);
    TrimStartAppend(prefix, x + tail);
  }

  // ---------------------------------------------------------------------------
  // splitlines()
  // ---------------------------------------------------------------------------

  /** The characters at which `str.splitlines()` breaks a line. */
  predicate IsLineBoundary(c: char) {
    c == '\n' || c == '\r' || c == '\U{B}' || c == '\U{C}'
    || c == '\U{1C}' || c == '\U{1D}' || c == '\U{1E}'
    || c == '\U{85}' || c == '\U{2028}' || c == '\U{2029}'
  }

  predicate NoLineBoundary(s: string) {
    forall i :: 0 <= i < |s| ==> !IsLineBoundary(s[i])
  }

  /** The line boundaries at or above the space character: the only ones an
      encoder that escapes just the control characters writes raw. */
  predicate RawBreak(c: char) {
    c == '\U{85}' || c == '\U{2028}' || c == '\U{2029}'
  }

  predicate NoRawBreak(s: string) {
    forall i :: 0 <= i < |s| ==> !RawBreak(s[i])
  }

  /** Index of the first line boundary in `s`, or `|s|` when there is none. */
  function LineEnd(s: string): (i: nat)
    ensures i <= |s|
    ensures NoLineBoundary(s[..i])
    ensures i < |s| ==> IsLineBoundary(s[i])
  {
    if s == [] then 0
    else if IsLineBoundary(s[0]) then 0
    else
      assert s[1..][..LineEnd(s[1..])] == s[1..1 + LineEnd(s[1..])];
      1 + LineEnd(s[1..])
  }

  /** Width of the boundary at `i`: "\r\n" counts as one boundary of two characters. */
  function BreakWidth(s: string, i: nat): (w: nat)
    requires i < |s|
    ensures 1 <= w <= |s| - i
  {
    if s[i] == '\r' && i + 1 < |s| && s[i + 1] == '\n' then 2 else 1
  }

  /** `s.splitlines()`: the lines of `s` without their terminators; a final
      terminator does not start an empty line. */
  function SplitLines(s: string): (lines: seq<string>)
    ensures |lines| == 0 <==> s == []
    ensures forall k :: 0 <= k < |lines| ==> NoLineBoundary(lines[k])
    decreases |s|
  {
    if s == [] then []
    else
      var i := LineEnd(s);
      if i == |s| then [s]
      else [s[..i]] + SplitLines(s[i + BreakWidth(s, i)..])
  }

  /** Whatever comes before a final line break, the last line of the text is the
      line after it. */
  lemma {:induction false} LastLineAfterBreak(a: string, line: string)
    requires a == [] || IsLineBoundary(a[|a| - 1])
    requires line != [] && NoLineBoundary(line)
    ensures SplitLines(a + line) != []
    ensures SplitLines(a + line)[|SplitLines(a + line)| - 1] == line
    decreases |a|
  {
    var s := a + line;
    if a == [] {
      assert s == line;
      NoBoundaryLineEnd(line);
    } else {
      BreakInPrefix(a, line);
      var i := LineEnd(s);
      var a' := a[i + BreakWidth(s, i)..];
      LastLineAfterBreak(a', line);
      SplitLinesLast(s, i, a' + line);
    }
  }

  /** The first line boundary of `a + line` lies inside `a`, and what follows it
      is the rest of `a`, which ends as `a` does, then `line`. */
  lemma BreakInPrefix(a: string, line: string)
    requires a != [] && IsLineBoundary(a[|a| - 1])
    requires line != [] && NoLineBoundary(line)
    ensures var s := a + line; var i := LineEnd(s);
            && i < |a| && i + BreakWidth(s, i) <= |a|
            && s[i + BreakWidth(s, i)..] == a[i + BreakWidth(s, i)..] + line
            && var a' := a[i + BreakWidth(s, i)..]; a' == [] || a'[|a'| - 1] == a[|a| - 1]
  {
    var s := a + line;
    var i := LineEnd(s);
    assert IsLineBoundary(s[|a| - 1]);
    assert i <= |a| - 1;
    assert s[|a|] == line[0];
    var w := BreakWidth(s, i);
    assert i + w <= |a|;
    assert s[i + w..] == a[i + w..] + line;
  }

  /** When `s` holds a line boundary at `i`, its last line is the last line of
      `tail`, the text after that boundary. */
  lemma SplitLinesLast(s: string, i: nat, tail: string)
    requires i == LineEnd(s) && i < |s| && tail == s[i + BreakWidth(s, i)..]
    requires SplitLines(tail) != []
    ensures SplitLines(s) != []
    ensures SplitLines(s)[|SplitLines(s)| - 1] == SplitLines(tail)[|SplitLines(tail)| - 1]
  {
    SplitLinesCons(s, i, tail);
    LastOfCons(s[..i], SplitLines(tail));
  }

  lemma SplitLinesCons(s: string, i: nat, tail: string)
    requires i == LineEnd(s) && i < |s| && tail == s[i + BreakWidth(s, i)..]
    ensures SplitLines(s) == [s[..i]] + SplitLines(tail)
  {
  }

  lemma LastOfCons<T>(x: T, t: seq<T>)
    requires t != []
    ensures ([x] + t)[|[x] + t| - 1] == t[|t| - 1]
  {
  }

  lemma NoBoundaryLineEnd(s: string)
    requires s != [] && NoLineBoundary(s)
    ensures SplitLines(s) == [s]
  {
  }

  // ---------------------------------------------------------------------------
  // Decimal and hexadecimal digits
  // ---------------------------------------------------------------------------

  predicate IsDigit(c: char) { '0' <= c <= '9' }

  predicate AllDigits(s: string) {
    forall i :: 0 <= i < |s| ==> IsDigit(s[i])
  }

  function DigitChar(d: nat): (c: char)
    requires d < 10
    ensures IsDigit(c) && c as int - '0' as int == d
  {
    ('0' as int + d) as char
  }

  /** `str(n)` for a non-negative integer: decimal digits, no leading zero. */
  function NatToString(n: nat): (s: string)
    ensures s != [] && AllDigits(s)
    ensures s[0] == '0' <==> n == 0
    ensures n == 0 ==> s == "0"
    decreases n
  {
    if n < 10 then [DigitChar(n)] else NatToString(n / 10) + [DigitChar(n % 10)]
  }

  /** `str(n)` for any integer. */
  function IntToString(n: int): (s: string)
    ensures s != [] && (s[0] == '-' <==> n < 0)
  {
    if n < 0 then "-" + NatToString(-n) else NatToString(n)
  }

  /** The value of a string of decimal digits. */
  function DigitsValue(s: string): nat
    requires AllDigits(s)
  {
    if s == [] then 0
    else DigitsValue(s[..|s| - 1]) * 10 + (s[|s| - 1] as int - '0' as int)
  }

  lemma {:induction false} DigitsValueOfNatToString(n: nat)
    ensures DigitsValue(NatToString(n)) == n
    decreases n
  {
    if n >= 10 {
      var s := NatToString(n);
      assert s[..|s| - 1] == NatToString(n / 10);
      DigitsValueOfNatToString(n / 10);
    }
  }

  /** The longest prefix of `s` made of decimal digits. */
  function LeadingDigits(s: string): (d: string)
    ensures |d| <= |s| && d == s[..|d|] && AllDigits(d)
    ensures |d| < |s| ==> !IsDigit(s[|d|])
  {
    if s != [] && IsDigit(s[0]) then
      assert [s[0]] + LeadingDigits(s[1..]) == s[..1 + |LeadingDigits(s[1..])|];
      [s[0]] + LeadingDigits(s[1..])
    else []
  }

  lemma {:induction false} LeadingDigitsOfDigits(d: string, rest: string)
    requires AllDigits(d)
    requires rest == [] || !IsDigit(rest[0])
    ensures LeadingDigits(d + rest) == d
  {
    if d == [] {
      assert d + rest == rest;
    } else {
      assert (d + rest)[1..] == d[1..] + rest;
      LeadingDigitsOfDigits(d[1..], rest);
      assert [d[0]] + d[1..] == d;
    }
  }

  predicate IsHexDigit(c: char) {
    ('0' <= c <= '9') || ('a' <= c <= 'f') || ('A' <= c <= 'F')
  }

  function HexDigitValue(c: char): (v: nat)
    requires IsHexDigit(c)
    ensures v < 16
  {
    if '0' <= c <= '9' then c as int - '0' as int
    else if 'a' <= c <= 'f' then c as int - 'a' as int + 10
    else c as int - 'A' as int + 10
  }

  /** Lower-case hexadecimal digit, as `format(n, "x")` writes it. */
  function HexChar(d: nat): (c: char)
    requires d < 16
    ensures IsHexDigit(c) && HexDigitValue(c) == d
  {
    if d < 10 then ('0' as int + d) as char else ('a' as int + d - 10) as char
  }

  /** `format(n, "02x")` */
  function Hex2(n: nat): (s: string)
    requires n < 0x100
    ensures |s| == 2 && IsHexDigit(s[0]) && IsHexDigit(s[1])
  {
    [HexChar(n / 16), HexChar(n % 16)]
  }

  /** `format(n, "04x")` */
  function Hex4(n: nat): (s: string)
    requires n < 0x1_0000
    ensures |s| == 4 && forall i :: 0 <= i < 4 ==> IsHexDigit(s[i])
  {
    Hex2(n / 0x100) + Hex2(n % 0x100)
  }

  /** The value of two hexadecimal digits, either case. */
  function Hex2Value(c0: char, c1: char): (v: nat)
    requires IsHexDigit(c0) && IsHexDigit(c1)
    ensures v < 0x100
  {
    HexDigitValue(c0) * 16 + HexDigitValue(c1)
  }

  /** The value of four hexadecimal digits, either case. */
  function Hex4Value(s: string): (v: nat)
    requires |s| == 4 && forall i :: 0 <= i < 4 ==> IsHexDigit(s[i])
    ensures v < 0x1_0000
  {
    Hex2Value(s[0], s[1]) * 0x100 + Hex2Value(s[2], s[3])
  }

  lemma Hex4RoundTrip(n: nat)
    requires n < 0x1_0000
    ensures Hex4Value(Hex4(n)) == n
  {
    var hi, lo := n / 0x100, n % 0x100;
    assert Hex2Value(Hex2(hi)[0], Hex2(hi)[1]) == hi;
    assert Hex2Value(Hex2(lo)[0], Hex2(lo)[1]) == lo;
  }

  // ---------------------------------------------------------------------------
  // split("/")[-1] and Path.parent
  // ---------------------------------------------------------------------------

  /** Index just after the last occurrence of `sep` in `s`, or 0 when it does not occur. */
  function AfterLast(s: string, sep: char): (i: nat)
    ensures i <= |s|
    ensures i > 0 ==> s[i - 1] == sep
    ensures forall k :: i <= k < |s| ==> s[k] != sep
  {
    if s == [] then 0
    else if s[|s| - 1] == sep then |s|
    else AfterLast(s[..|s| - 1], sep)
  }

  /** `s.split(sep)[-1]`: the text after the last separator (all of `s` if none). */
  function LastSegment(s: string, sep: char): (r: string)
    ensures |r| <= |s| && r == s[|s| - |r|..]
    ensures sep !in r
    ensures |r| < |s| ==> s[|s| - |r| - 1] == sep
  {
    s[AfterLast(s, sep)..]
  }

  /** The segment after a separator that is followed by no other one. */
  lemma {:induction false} LastSegmentAfter(prefix: string, sep: char, name: string)
    requires sep !in name
    ensures AfterLast(prefix + [sep] + name, sep) == |prefix| + 1
    ensures LastSegment(prefix + [sep] + name, sep) == name
    decreases |name|
  {
    var s := prefix + [sep] + name;
    if name != [] {
      assert s[|s| - 1] == name[|name| - 1];
      assert s[..|s| - 1] == prefix + [sep] + name[..|name| - 1];
      LastSegmentAfter(prefix, sep, name[..|name| - 1]);
    }
    assert s[|prefix| + 1..] == name;
  }

  /** `str(Path(p).parent)` for a normalised path: everything before the last '/',
      "/" when that is the root, and "." for a single relative component. */
  function Parent(p: string): (r: string)
    ensures r == "/" || r == "." || (|r| < |p| && r == p[..|r|] && p[|r|] == '/')
  {
    var k := AfterLast(p, '/');
    if k == 0 then "."
    else if k == 1 then "/"
    else p[..k - 1]
  }
}
