/** The patterns and literals of a managed configuration, against what they stand for. */
module CodexPatterns {
  import opened Wrappers
  import opened Text
  import opened CodexConfig
  import TomlText

  /** A line split as the pattern of a section header has it: `ws [ inner ] gap comment`. */
  ghost predicate HeaderParts(line: string, ws: string, inner: string, gap: string, comment: string) {
    && line == ws + ("[" + (inner + ("]" + (gap + comment))))
    && Blank(ws) && Blank(gap) && inner != "" && ']' !in inner
    && (comment == "" || (comment[0] == '#' && EndsLine(comment)))
  }

  lemma {:induction false} BlankStrips(gap: string)
    requires Blank(gap)
    ensures StripLeft(gap) == ""
  {
    if gap != "" {
      assert Blank(gap[1..]);
      BlankStrips(gap[1..]);
    }
  }

  lemma {:induction false} BracketFound(s: string, name: string)
    requires UpToBracket(s) == Some(name)
    ensures |name| < |s| && s == name + ("]" + s[|name| + 1..]) && ']' !in name
  {
    if s[0] != ']' {
      var tail := UpToBracket(s[1..]).value;
      BracketFound(s[1..], tail);
      BracketAfterOne(s, tail);
      assert name == [s[0]] + tail;
    }
  }

  lemma BracketAfterOne(s: string, tail: string)
    requires s != "" && s[0] != ']' && |tail| < |s[1..]| && s[1..] == tail + ("]" + s[1..][|tail| + 1..]) && ']' !in tail
    ensures var name := [s[0]] + tail; |name| < |s| && s == name + ("]" + s[|name| + 1..]) && ']' !in name
  {
    assert s == [s[0]] + s[1..] && s[1..][|tail| + 1..] == s[|tail| + 2..];
  }

  lemma AfterBrackets(inner: string, rest: string)
    ensures var t := "[" + (inner + ("]" + rest));
      t[1..] == inner + "]" + rest && |inner| + 2 <= |t| && t[|inner| + 2..] == rest
  {
  }

  lemma CommentStrips(gap: string, comment: string)
    requires Blank(gap) && (comment == "" || comment[0] == '#')
    ensures StripLeft(gap + comment) == comment
  {
    if comment == "" {
      BlankStrips(gap);
      assert gap + comment == gap;
    } else {
      StripLeftOf(gap, comment);
    }
  }

  lemma HeadersAreRead(line: string, ws: string, inner: string, gap: string, comment: string)
    requires HeaderParts(line, ws, inner, gap, comment)
    ensures SectionName(line) == Some(Strip(inner))
  {
    var t := "[" + (inner + ("]" + (gap + comment)));
    StripLeftOf(ws, t);
    AfterBrackets(inner, gap + comment);
    UpToBracketOf(inner, gap + comment);
    CommentStrips(gap, comment);
  }

  lemma HeadersHaveParts(line: string) returns (ws: string, inner: string, gap: string, comment: string)
    requires SectionName(line).Some?
    ensures HeaderParts(line, ws, inner, gap, comment) && SectionName(line) == Some(Strip(inner))
  {
    var t := StripLeft(line);
    ws, inner := Indent(line), UpToBracket(t[1..]).value;
    IndentIsSpace(line);
    BracketFound(t[1..], inner);
    var rest := t[1..][|inner| + 1..];
    assert t == "[" + t[1..];
    AfterBrackets(inner, rest);
    gap, comment := Indent(rest), StripLeft(rest);
    IndentIsSpace(rest);
    assert gap + comment == rest;
    assert ws + t == line;
  }

  /** A line opens section `name` exactly when it has these parts and the name is what is inside the brackets,
      stripped. */
  lemma OpensExactlyWhen(line: string, name: string)
    ensures SectionName(line) == Some(name)
            <==> exists ws, inner, gap, comment :: HeaderParts(line, ws, inner, gap, comment) && name == Strip(inner)
  {
    if SectionName(line).Some? {
      var ws, inner, gap, comment := HeadersHaveParts(line);
    }
    if ws, inner, gap, comment :| HeaderParts(line, ws, inner, gap, comment) && name == Strip(inner) {
      HeadersAreRead(line, ws, inner, gap, comment);
    }
  }

  /** A line split as the pattern of an assignment has it: `ws key gap = rest`. */
  ghost predicate AssignmentParts(line: string, key: string, ws: string, gap: string, rest: string) {
    line == ws + (key + (gap + ("=" + rest))) && Blank(ws) && Blank(gap) && EndsLine(rest)
  }

  /** A line assigns to a plain key exactly when it has these parts. */
  lemma AssignsExactlyWhen(line: string, key: string)
    requires Plain(key)
    ensures Assigns(line, key) <==> exists ws, gap, rest :: AssignmentParts(line, key, ws, gap, rest)
  {
    if Assigns(line, key) {
      var ws, gap, rest := AssignmentsHaveParts(line, key);
    }
    if ws, gap, rest :| AssignmentParts(line, key, ws, gap, rest) {
      AssignmentsAreRead(line, key, ws, gap, rest);
    }
  }

  lemma AssignmentsHaveParts(line: string, key: string) returns (ws: string, gap: string, rest: string)
    requires Assigns(line, key)
    ensures AssignmentParts(line, key, ws, gap, rest)
  {
    var t := StripLeft(line);
    var after := t[|key|..];
    var u := StripLeft(after);
    ws, gap, rest := Indent(line), Indent(after), u[1..];
    IndentIsSpace(line);
    IndentIsSpace(after);
    assert t == key + after && u == "=" + rest;
  }

  lemma AssignmentsAreRead(line: string, key: string, ws: string, gap: string, rest: string)
    requires Plain(key) && AssignmentParts(line, key, ws, gap, rest)
    ensures Assigns(line, key)
  {
    var after := gap + ("=" + rest);
    StripLeftOf(ws, key + after);
    StripLeftOf(gap, "=" + rest);
    assert (key + after)[..|key|] == key && (key + after)[|key|..] == after && ("=" + rest)[1..] == rest;
  }

  // ---- Literals ----

  /** Characters a quoted value may hold for TOML to read it. */
  predicate Readable(s: string) {
    forall k :: 0 <= k < |s| ==> !TomlText.Illegal(s[k])
  }

  lemma {:induction false} EscapedBodyIsRead(s: string)
    ensures TomlText.ReadBody(EscapeQuotes(s) + "\"") == if Readable(s) then TomlText.Got(s, "") else TomlText.Bad
    decreases |s|
  {
    if s == "" {
      assert EscapeQuotes(s) + "\"" == "\"";
    } else {
      var tail := EscapeQuotes(s[1..]) + "\"";
      EscapedBodyIsRead(s[1..]);
      OneEscaped(s[0], tail);
      assert EscapeQuotes(s) + "\"" == EscapedQuote(s[0]) + tail;
      assert s == [s[0]] + s[1..];
      ReadableSplit(s);
    }
  }

  lemma ReadableSplit(s: string)
    requires s != ""
    ensures Readable(s) <==> !TomlText.Illegal(s[0]) && Readable(s[1..])
  {
    assert forall k :: 1 <= k < |s| ==> s[k] == s[1..][k - 1];
  }

  function EscapedQuote(c: char): string {
    if c == '\\' then "\\\\" else if c == '"' then "\\\"" else [c]
  }

  lemma OneEscaped(c: char, tail: string)
    ensures TomlText.ReadBody(EscapedQuote(c) + tail)
            == if TomlText.Illegal(c) then TomlText.Bad else TomlText.Prepended(c, TomlText.ReadBody(tail))
  {
    var text := EscapedQuote(c) + tail;
    if c == '\\' || c == '"' {
      assert text[1..][1..] == tail;
    } else {
      assert text[1..] == tail;
    }
  }

  /** A quoted value is not the opening of a multi-line text. */
  lemma NoThreeQuotes(s: string)
    ensures var body := EscapeQuotes(s) + "\""; |body| < 2 || body[0] != '"' || body[1] != '"'
  {
    if s != "" {
      assert EscapeQuotes(s)[0] != '"';
    } else {
      assert EscapeQuotes(s) + "\"" == "\"";
    }
  }

  lemma WordIsRead(s: string)
    ensures TomlText.ReadValue(Literal(Word(s)))
            == if Readable(s) then TomlText.Got(TomlText.Str(s), "") else TomlText.Bad
  {
    var text := Literal(Word(s));
    assert text[0] == '"' && text[1..] == EscapeQuotes(s) + "\"";
    EscapedBodyIsRead(s);
    NoThreeQuotes(s);
  }

  /** A literal is read by TOML as its value, except for a text that holds a control character or a delete, which is no
      TOML at all. */
  lemma LiteralsReadBack(v: Scalar)
    ensures TomlText.ReadValue(Literal(v))
            == match v
               case Flag(on) => TomlText.Got(TomlText.Bool(on), "")
               case Number(n) => TomlText.Got(TomlText.Int(n), "")
               case Word(s) => if Readable(s) then TomlText.Got(TomlText.Str(s), "") else TomlText.Bad
  {
    assert Literal(v) + "" == Literal(v);
    match v
    case Flag(on) => TomlText.BoolRoundTrip(on, "");
    case Number(n) => TomlText.NumberRoundTrip(n, "");
    case Word(s) => WordIsRead(s);
  }

  // ---- What is left alone ----

  lemma {:induction false} OthersStay(section: Lines, keys: set<string>, line: string)
    requires forall k :: k in keys ==> !Assigns(line, k)
    ensures multiset(Unmanaged(section, keys))[line] == multiset(section)[line]
    decreases |section|
  {
    if section != [] {
      var mine := set k | k in keys && Assigns(section[0], k);
      assert section == [section[0]] + section[1..];
      OthersStay(section[1..], if mine != {} then keys - mine else keys, line);
    }
  }

  /** At most one line goes for each key. */
  lemma {:induction false} FewLinesGo(section: Lines, keys: set<string>)
    ensures |section| - |keys| <= |Unmanaged(section, keys)| <= |section|
    decreases |section|
  {
    if section != [] {
      var mine := set k | k in keys && Assigns(section[0], k);
      if mine != {} {
        FewLinesGo(section[1..], keys - mine);
        assert keys == (keys - mine) + mine;
      } else {
        FewLinesGo(section[1..], keys);
      }
    }
  }
}
