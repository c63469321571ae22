/** The one-line rendering of a tool event shown on the host console
    (`format_tool_event`, `print_tool_event`).

    Tool events reach the host as decoded JSON, so the tool name and its input
    are arbitrary JSON values here: a name that is a list or an object cannot be
    looked up in the prefix table, and a known tool whose input is not an object
    has no `.get`. Both raise, as they do in Python. */
module Display {
  import opened Wrappers
  import opened PyText
  import opened Json

  // ---------------------------------------------------------------------------
  // Python's str() and repr() of decoded JSON values
  // ---------------------------------------------------------------------------

  /** `str.isprintable` for one character: the controls, the Latin-1 controls
      and no-break space, the soft hyphen and the Unicode space, line and
      paragraph separators are unprintable. */
  predicate Printable(c: char) {
    && c >= ' ' && c != '\U{7F}'
    && !('\U{80}' <= c <= '\U{A0}') && c != '\U{AD}'
    && !(c > '\U{FF}' && IsSpace(c))
  }

  /** The quote `repr` puts around a string: a double quote when the text holds
      a single quote and no double quote, a single quote otherwise. */
  function QuoteFor(s: string): (q: char)
    ensures q == '\'' || q == '"'
    ensures q == '"' <==> ('\'' in s && '"' !in s)
  {
    if '\'' in s && '"' !in s then '"' else '\''
  }

  /** How `repr` writes one character of a string quoted with `q`. */
  function ReprChar(c: char, q: char): (e: string)
    ensures e != []
    ensures e == [c] <==> (Printable(c) && c != q && c != '\\')
    ensures e != [c] ==> e[0] == '\\'
  {
    if c == q || c == '\\' then ['\\', c]
    else if c == '\t' then "\\t"
    else if c == '\n' then "\\n"
    else if c == '\r' then "\\r"
    else if Printable(c) then [c]
    else if c <= '\U{FF}' then "\\x" + Hex2(c as int)
    else "\\u" + Hex4(c as int)
  }

  function ReprBody(s: string, q: char): string {
    if s == [] then "" else ReprChar(s[0], q) + ReprBody(s[1..], q)
  }

  /** `repr(s)` for a string. */
  function StrRepr(s: string): string {
    var q := QuoteFor(s);
    [q] + ReprBody(s, q) + [q]
  }

  /** `repr(v)`. */
  function Repr(v: Json): string
    decreases v
  {
    match v
    case JNull => "None"
    case JBool(b) => if b then "True" else "False"
    case JInt(n) => IntToString(n)
    case JStr(s) => StrRepr(s)
    case JArr(items) => "[" + ReprItems(items) + "]"
    case JObj(ms) => "{" + ReprMembers(ms) + "}"
  }

  function ReprItems(items: seq<Json>): string
    decreases items
  {
    if items == [] then ""
    else Repr(items[0]) + (if |items| == 1 then "" else ", " + ReprItems(items[1..]))
  }

  function ReprMembers(ms: seq<Member>): string
    decreases ms
  {
    if ms == [] then ""
    else StrRepr(ms[0].key) + ": " + Repr(ms[0].value)
         + (if |ms| == 1 then "" else ", " + ReprMembers(ms[1..]))
  }

  /** `str(v)`, which is `repr(v)` for everything but a string. */
  function Str(v: Json): string {
    if v.JStr? then v.s else Repr(v)
  }

  // ---------------------------------------------------------------------------
  // Reading a string literal back, the partner of StrRepr
  // ---------------------------------------------------------------------------

  function PrependChar(c: char, r: Option<string>): Option<string> {
    match r
    case None => None
    case Some(t) => Some([c] + t)
  }

  /** The text between the quotes of a Python string literal quoted with `q`,
      for the escapes `repr` writes. */
  function EvalBody(s: string, q: char): (r: Option<string>)
    decreases |s|
  {
    if s == [] then Some([])
    else if s[0] == q then None
    else if s[0] != '\\' then PrependChar(s[0], EvalBody(s[1..], q))
    else if |s| < 2 then None
    else
      var e := s[1];
      if e == '\\' || e == '\'' || e == '"' then PrependChar(e, EvalBody(s[2..], q))
      else if e == 't' then PrependChar('\t', EvalBody(s[2..], q))
      else if e == 'n' then PrependChar('\n', EvalBody(s[2..], q))
      else if e == 'r' then PrependChar('\r', EvalBody(s[2..], q))
      else if e == 'x' && |s| >= 4 && IsHexDigit(s[2]) && IsHexDigit(s[3]) then
        PrependChar(Hex2Value(s[2], s[3]) as char, EvalBody(s[4..], q))
      else if e == 'u' && |s| >= 6 && IsHexDigit(s[2]) && IsHexDigit(s[3]) && IsHexDigit(s[4]) && IsHexDigit(s[5]) then
        var u := Hex4Value(s[2..6]);
        if 0xD800 <= u < 0xE000 then None else PrependChar(u as char, EvalBody(s[6..], q))
      else None
  }

  /** `eval` of a string literal: a quote, the body, the same quote. */
  function EvalStrLiteral(lit: string): Option<string> {
    if |lit| < 2 || !(lit[0] == '\'' || lit[0] == '"') || lit[|lit| - 1] != lit[0] then None
    else EvalBody(lit[1..|lit| - 1], lit[0])
  }

  lemma Hex2RoundTrip(n: nat)
    requires n < 0x100
    ensures Hex2Value(Hex2(n)[0], Hex2(n)[1]) == n
  {
  }

  lemma ReprCharEvaluates(c: char, q: char, more: string)
    requires q == '\'' || q == '"'
    ensures EvalBody(ReprChar(c, q) + more, q) == PrependChar(c, EvalBody(more, q))
  {
    var e := ReprChar(c, q);
    if e == [c] {
      PlainReprEvaluates(c, q, more);
    } else if |e| == 2 {
      ShortReprEvaluates(c, q, more);
    } else if c <= '\U{FF}' {
      ByteReprEvaluates(c, q, more);
    } else {
      WideReprEvaluates(c, q, more);
    }
  }

  lemma PlainReprEvaluates(c: char, q: char, more: string)
    requires c != q && c != '\\'
    ensures EvalBody([c] + more, q) == PrependChar(c, EvalBody(more, q))
  {
    var s := [c] + more;
    assert s[0] == c && s[1..] == more;
  }

  lemma ShortReprEvaluates(c: char, q: char, more: string)
    requires q == '\'' || q == '"'
    requires |ReprChar(c, q)| == 2
    ensures EvalBody(ReprChar(c, q) + more, q) == PrependChar(c, EvalBody(more, q))
  {
    var e := ReprChar(c, q);
    var s := e + more;
    assert s[0] == '\\' && s[1] == e[1] && s[2..] == more;
    if c == q || c == '\\' {
      assert e[1] == c;
    } else if c == '\t' {
      assert e[1] == 't';
    } else if c == '\n' {
      assert e[1] == 'n';
    } else {
      assert c == '\r' && e[1] == 'r';
    }
  }

  lemma ByteReprEvaluates(c: char, q: char, more: string)
    requires q == '\'' || q == '"'
    requires |ReprChar(c, q)| > 2 && c <= '\U{FF}'
    ensures EvalBody(ReprChar(c, q) + more, q) == PrependChar(c, EvalBody(more, q))
  {
    ByteReprShape(c, q);
    var s := "\\x" + Hex2(c as int) + more;
    assert s[0] == '\\' && s[1] == 'x' && s[2] == Hex2(c as int)[0] && s[3] == Hex2(c as int)[1];
    Hex2RoundTrip(c as int);
    assert s[4..] == more;
  }

  lemma ByteReprShape(c: char, q: char)
    requires |ReprChar(c, q)| > 2 && c <= '\U{FF}'
    ensures ReprChar(c, q) == "\\x" + Hex2(c as int)
  {
  }

  lemma WideReprEvaluates(c: char, q: char, more: string)
    requires q == '\'' || q == '"'
    requires |ReprChar(c, q)| > 2 && c > '\U{FF}'
    ensures EvalBody(ReprChar(c, q) + more, q) == PrependChar(c, EvalBody(more, q))
  {
    WideReprShape(c, q);
    WideBodyEvaluates(c, q, more);
  }

  lemma WideBodyEvaluates(c: char, q: char, more: string)
    requires q == '\'' || q == '"'
    requires c as int < 0x1_0000
    ensures EvalBody("\\u" + Hex4(c as int) + more, q) == PrependChar(c, EvalBody(more, q))
  {
    var u := c as int;
    var h := Hex4(u);
    var s := "\\u" + h + more;
    assert s[0] == '\\' && s[1] == 'u';
    assert s[2..6] == h;
    assert s[2] == h[0] && s[3] == h[1] && s[4] == h[2] && s[5] == h[3];
    Hex4RoundTrip(u);
    assert s[6..] == more;
    assert EvalBody(s, q) == PrependChar(u as char, EvalBody(more, q));
  }

  lemma WideReprShape(c: char, q: char)
    requires |ReprChar(c, q)| > 2 && c > '\U{FF}'
    ensures c as int < 0x1_0000 && ReprChar(c, q) == "\\u" + Hex4(c as int)
  {
  }

  lemma {:induction false} ReprBodyEvaluates(s: string, q: char)
    requires q == '\'' || q == '"'
    ensures EvalBody(ReprBody(s, q), q) == Some(s)
  {
    if s == [] {
    } else {
      ReprCharEvaluates(s[0], q, ReprBody(s[1..], q));
      ReprBodyEvaluates(s[1..], q);
      assert [s[0]] + s[1..] == s;
    }
  }

  /** `eval(repr(s)) == s`: the literal `repr` writes reads back as the string. */
  lemma EvalStrRepr(s: string)
    ensures EvalStrLiteral(StrRepr(s)) == Some(s)
  {
    var q := QuoteFor(s);
    var lit := StrRepr(s);
    assert lit[1..|lit| - 1] == ReprBody(s, q);
    ReprBodyEvaluates(s, q);
  }

  /** Text without quotes, backslashes or unprintable characters is written
      between single quotes as it is. */
  lemma {:induction false} PlainStrRepr(s: string)
    requires forall i :: 0 <= i < |s| ==> Printable(s[i]) && s[i] != '\'' && s[i] != '"' && s[i] != '\\'
    ensures StrRepr(s) == "'" + s + "'"
  {
    PlainReprBody(s);
  }

  lemma {:induction false} PlainReprBody(s: string)
    requires forall i :: 0 <= i < |s| ==> Printable(s[i]) && s[i] != '\'' && s[i] != '\\'
    ensures ReprBody(s, '\'') == s
  {
    if s != [] {
      PlainReprBody(s[1..]);
      assert [s[0]] + s[1..] == s;
    }
  }

  // ---------------------------------------------------------------------------
  // format_tool_event
  // ---------------------------------------------------------------------------

  /** A name that can be looked up in a dict or a set. */
  predicate Hashable(name: Json) {
    !name.JArr? && !name.JObj?
  }

  /** `_TOOL_PREFIXES.get(tool_name, "#")` for a hashable name. */
  function Prefix(name: Json): (p: string)
    ensures |p| == 1
  {
    if name == JStr("Bash") then "$"
    else if name == JStr("Read") then ">"
    else if name == JStr("Grep") then "?"
    else if name == JStr("Glob") then "*"
    else "#"
  }

  predicate KnownTool(name: Json) {
    name == JStr("Bash") || name == JStr("Read") || name == JStr("Grep") || name == JStr("Glob")
  }

  /** `tool_input.get(key, default)` on a decoded object. */
  function Get(input: seq<Member>, key: string, default: Json): Json {
    Lookup(input, key).GetOr(default)
  }

  function UnhashableError(name: Json): Exception {
    TypeError("unhashable type: '" + TypeName(name) + "'")
  }

  /** `format_tool_event(tool_name, tool_input)`. */
  function FormatToolEvent(name: Json, input: Json): (r: Outcome<string>)
    ensures r.Raised? <==> !Hashable(name) || (KnownTool(name) && !input.JObj?)
    ensures r.Returned? ==> |r.value| >= 2 && r.value[..2] == Prefix(name) + " "
  {
    if !Hashable(name) then Raised(UnhashableError(name))
    else
      var prefix := Prefix(name);
      if KnownTool(name) && !input.JObj? then
        Raised(AttributeError("'" + TypeName(input) + "' object has no attribute 'get'"))
      else if name == JStr("Bash") then
        Returned(prefix + " " + Str(Get(input.members, "command", JStr(""))))
      else if name == JStr("Read") then
        Returned(prefix + " " + Str(Get(input.members, "file_path", JStr(""))))
      else if name == JStr("Grep") then
        var pattern := Get(input.members, "pattern", JStr(""));
        var path := Get(input.members, "path", JStr("."));
        Returned(prefix + " grep " + Repr(pattern) + " " + Str(path))
      else if name == JStr("Glob") then
        Returned(prefix + " " + Str(Get(input.members, "pattern", JStr(""))))
      else
        Returned(prefix + " " + Str(name) + " " + Str(input))
  }

  /** The lines `print_tool_event` puts on the console. */
  function PrintToolEvent(name: Json, input: Json): (r: Outcome<seq<string>>)
    ensures r.Raised? <==> !Hashable(name) || (KnownTool(name) && !input.JObj?)
    ensures r.Returned? ==> |r.value| == (if name == JStr("StructuredOutput") then 0 else 1)
  {
    if !Hashable(name) then Raised(UnhashableError(name))
    else if name == JStr("StructuredOutput") then Returned([])
    else
      match FormatToolEvent(name, input)
      case Raised(e) => Raised(e)
      case Returned(line) => Returned(["  [dim]" + line + "[/dim]"])
  }

  // ---------------------------------------------------------------------------
  // What each tool renders as
  // ---------------------------------------------------------------------------

  lemma ToolNamesDistinct()
    ensures "Bash" != "Read" && "Bash" != "Grep" && "Bash" != "Glob"
    ensures "Read" != "Grep" && "Read" != "Glob" && "Grep" != "Glob"
  {
    assert "Bash"[0] != "Read"[0] && "Bash"[0] != "Grep"[0] && "Bash"[0] != "Glob"[0];
    assert "Read"[0] != "Grep"[0] && "Read"[0] != "Glob"[0] && "Grep"[2] != "Glob"[2];
  }

  lemma PrefixLiterals()
    ensures "$" + " " == "$ " && ">" + " " == "> " && "*" + " " == "* " && "#" + " " == "# "
    ensures "?" + " grep " == "? grep "
  {
  }

  /** Bash shows its command after "$ ", and nothing after it when there is none. */
  lemma BashEvent(ms: seq<Member>)
    ensures Lookup(ms, "command").None? ==> FormatToolEvent(JStr("Bash"), JObj(ms)) == Returned("$ ")
    ensures forall c :: Lookup(ms, "command") == Some(JStr(c))
              ==> FormatToolEvent(JStr("Bash"), JObj(ms)) == Returned("$ " + c)
  {
    if Lookup(ms, "command").None? {
      assert FormatToolEvent(JStr("Bash"), JObj(ms)) == Returned("$" + " " + "");
      assert "$" + " " + "" == "$ ";
    }
    forall c | Lookup(ms, "command") == Some(JStr(c))
      ensures FormatToolEvent(JStr("Bash"), JObj(ms)) == Returned("$ " + c)
    {
      assert FormatToolEvent(JStr("Bash"), JObj(ms)) == Returned("$" + " " + c);
      PrefixLiterals();
    }
  }

  /** Read shows its file path after "> ", and nothing after it when there is none. */
  lemma ReadEvent(ms: seq<Member>)
    ensures Lookup(ms, "file_path").None? ==> FormatToolEvent(JStr("Read"), JObj(ms)) == Returned("> ")
    ensures forall p :: Lookup(ms, "file_path") == Some(JStr(p))
              ==> FormatToolEvent(JStr("Read"), JObj(ms)) == Returned("> " + p)
  {
    ToolNamesDistinct();
    if Lookup(ms, "file_path").None? {
      assert FormatToolEvent(JStr("Read"), JObj(ms)) == Returned(">" + " " + "");
      assert ">" + " " + "" == "> ";
    }
    forall p | Lookup(ms, "file_path") == Some(JStr(p))
      ensures FormatToolEvent(JStr("Read"), JObj(ms)) == Returned("> " + p)
    {
      assert FormatToolEvent(JStr("Read"), JObj(ms)) == Returned(">" + " " + p);
      PrefixLiterals();
    }
  }

  /**
   * Grep shows the quoted pattern and the path. A missing pattern is the empty
   * string, shown as '', and a missing path is ".".
   */
  lemma GrepEvent(ms: seq<Member>)
    ensures Lookup(ms, "pattern").None? && Lookup(ms, "path").None? ==>
              FormatToolEvent(JStr("Grep"), JObj(ms)) == Returned("? grep '' .")
    ensures Lookup(ms, "pattern").None? ==>
              forall p :: Lookup(ms, "path") == Some(JStr(p))
                ==> FormatToolEvent(JStr("Grep"), JObj(ms)) == Returned("? grep '' " + p)
    ensures forall pattern :: Lookup(ms, "pattern") == Some(JStr(pattern)) && Lookup(ms, "path").None?
              ==> FormatToolEvent(JStr("Grep"), JObj(ms)) == Returned("? grep " + StrRepr(pattern) + " .")
    ensures forall pattern :: Lookup(ms, "pattern") == Some(JStr(pattern)) ==>
              forall p :: Lookup(ms, "path") == Some(JStr(p))
                ==> FormatToolEvent(JStr("Grep"), JObj(ms)) == Returned("? grep " + StrRepr(pattern) + " " + p)
  {
    if Lookup(ms, "pattern").None? {
      EmptyRepr();
      if Lookup(ms, "path").None? {
        GrepLine(ms, "", ".");
        GrepDefaultPath(StrRepr(""));
        assert "? grep " + "''" + " ." == "? grep '' .";
      }
      forall p | Lookup(ms, "path") == Some(JStr(p))
        ensures FormatToolEvent(JStr("Grep"), JObj(ms)) == Returned("? grep '' " + p)
      {
        GrepLine(ms, "", p);
        assert "? grep " + "''" + " " == "? grep '' ";
      }
    }
    forall pattern | Lookup(ms, "pattern") == Some(JStr(pattern)) && Lookup(ms, "path").None?
      ensures FormatToolEvent(JStr("Grep"), JObj(ms)) == Returned("? grep " + StrRepr(pattern) + " .")
    {
      GrepLine(ms, pattern, ".");
      GrepDefaultPath(StrRepr(pattern));
    }
    forall pattern, p | Lookup(ms, "pattern") == Some(JStr(pattern)) && Lookup(ms, "path") == Some(JStr(p))
      ensures FormatToolEvent(JStr("Grep"), JObj(ms)) == Returned("? grep " + StrRepr(pattern) + " " + p)
    {
      GrepLine(ms, pattern, p);
    }
  }

  lemma EmptyRepr()
    ensures StrRepr("") == "''"
  {
    PlainStrRepr("");
  }

  lemma GrepDefaultPath(quoted: string)
    ensures "? grep " + quoted + " " + "." == "? grep " + quoted + " ."
  {
    assert " " + "." == " .";
    assert "? grep " + quoted + " " + "." == ("? grep " + quoted) + (" " + ".");
  }

  lemma GrepLine(ms: seq<Member>, pattern: string, p: string)
    requires Get(ms, "pattern", JStr("")) == JStr(pattern)
    requires Get(ms, "path", JStr(".")) == JStr(p)
    ensures FormatToolEvent(JStr("Grep"), JObj(ms)) == Returned("? grep " + StrRepr(pattern) + " " + p)
  {
    ToolNamesDistinct();
    assert FormatToolEvent(JStr("Grep"), JObj(ms)) == Returned("?" + " grep " + StrRepr(pattern) + " " + p);
    PrefixLiterals();
  }

  /** Glob shows its pattern after "* ", and nothing after it when there is none. */
  lemma GlobEvent(ms: seq<Member>)
    ensures Lookup(ms, "pattern").None? ==> FormatToolEvent(JStr("Glob"), JObj(ms)) == Returned("* ")
    ensures forall p :: Lookup(ms, "pattern") == Some(JStr(p))
              ==> FormatToolEvent(JStr("Glob"), JObj(ms)) == Returned("* " + p)
  {
    ToolNamesDistinct();
    if Lookup(ms, "pattern").None? {
      assert FormatToolEvent(JStr("Glob"), JObj(ms)) == Returned("*" + " " + "");
      assert "*" + " " + "" == "* ";
    }
    forall p | Lookup(ms, "pattern") == Some(JStr(p))
      ensures FormatToolEvent(JStr("Glob"), JObj(ms)) == Returned("* " + p)
    {
      assert FormatToolEvent(JStr("Glob"), JObj(ms)) == Returned("*" + " " + p);
      PrefixLiterals();
    }
  }

  /** Any other tool shows "#", its name and its whole input. */
  lemma OtherEvent(name: string, input: Json)
    requires !KnownTool(JStr(name))
    ensures FormatToolEvent(JStr(name), input) == Returned("# " + name + " " + Str(input))
  {
    assert FormatToolEvent(JStr(name), input) == Returned("#" + " " + name + " " + Str(input));
    PrefixLiterals();
  }

  /** The line of any other tool starts with "#" and its name. */
  lemma OtherEventNamed(name: string, input: Json)
    requires !KnownTool(JStr(name))
    ensures var r := FormatToolEvent(JStr(name), input);
            r.Returned? && |r.value| >= |name| + 2 && r.value[..|name| + 2] == "# " + name
  {
    OtherEvent(name, input);
    var line := "# " + name + " " + Str(input);
    assert line == ("# " + name) + (" " + Str(input));
    assert line[..|name| + 2] == "# " + name;
  }

  // The cases of the display tests, string for string.

  lemma BashExample()
    ensures FormatToolEvent(JStr("Bash"), JObj([Member("command", JStr("pip install good-start"))]))
            == Returned("$ " + "pip install good-start")
  {
    BashEvent([Member("command", JStr("pip install good-start"))]);
  }

  lemma ReadExample()
    ensures FormatToolEvent(JStr("Read"), JObj([Member("file_path", JStr("README.md"))]))
            == Returned("> " + "README.md")
  {
    var ms := [Member("file_path", JStr("README.md"))];
    assert Lookup(ms, "file_path") == Some(JStr("README.md"));
    ReadEvent(ms);
  }

  lemma GrepExample()
    ensures FormatToolEvent(JStr("Grep"), JObj([Member("pattern", JStr("install")), Member("path", JStr("."))]))
            == Returned("? grep " + ("'" + "install" + "'") + " " + ".")
  {
    var ms := [Member("pattern", JStr("install")), Member("path", JStr("."))];
    GrepExampleLookups(ms);
    GrepLine(ms, "install", ".");
    InstallIsPlain();
  }

  lemma GrepExampleLookups(ms: seq<Member>)
    requires ms == [Member("pattern", JStr("install")), Member("path", JStr("."))]
    ensures Lookup(ms, "pattern") == Some(JStr("install")) && Get(ms, "path", JStr(".")) == JStr(".")
  {
    assert "path" != "pattern" by { assert |"path"| != |"pattern"|; }
    assert ms[1..] == [Member("path", JStr("."))];
    assert Lookup(ms, "path") == Some(JStr("."));
  }

  lemma InstallIsPlain()
    ensures StrRepr("install") == "'" + "install" + "'"
  {
    var s := "install";
    forall i | 0 <= i < |s|
      ensures Printable(s[i]) && s[i] != '\'' && s[i] != '"' && s[i] != '\\'
    {
      assert 'a' <= s[i] <= 'z';
    }
    PlainStrRepr(s);
  }

  lemma GlobExample()
    ensures FormatToolEvent(JStr("Glob"), JObj([Member("pattern", JStr("*.md"))]))
            == Returned("* " + "*.md")
  {
    var ms := [Member("pattern", JStr("*.md"))];
    assert Lookup(ms, "pattern") == Some(JStr("*.md"));
    GlobEvent(ms);
  }

  /** A tool outside the table is shown under "#" with its own name. */
  lemma CustomToolExample()
    ensures var r := FormatToolEvent(JStr("CustomTool"), JObj([Member("arg", JStr("value"))]));
            r.Returned? && |r.value| >= 12 && r.value[..12] == "# " + "CustomTool"
  {
    CustomToolUnknown();
    OtherEventNamed("CustomTool", JObj([Member("arg", JStr("value"))]));
  }

  lemma CustomToolUnknown()
    ensures !KnownTool(JStr("CustomTool"))
  {
    assert |"CustomTool"| != 4;
  }
}
