/** Text as the programs handle it: white space, stripping, lines. */
module Text {

  /** White space as text stripping sees it. */
  predicate IsSpace(c: char) {
    || '\U{0009}' <= c <= '\U{000D}' || '\U{001C}' <= c <= '\U{0020}' || c == '\U{0085}' || c == '\U{00A0}'
    || c == '\U{1680}' || '\U{2000}' <= c <= '\U{200A}' || c == '\U{2028}' || c == '\U{2029}'
    || c == '\U{202F}' || c == '\U{205F}' || c == '\U{3000}'
  }

  function StripLeft(s: string): string {
    if s != [] && IsSpace(s[0]) then StripLeft(s[1..]) else s
  }

  function StripRight(s: string): string {
    if s != [] && IsSpace(s[|s| - 1]) then StripRight(s[..|s| - 1]) else s
  }

  function Strip(s: string): string { StripRight(StripLeft(s)) }

  /** Neither end is white space. */
  predicate Trimmed(s: string) {
    s == "" || (!IsSpace(s[0]) && !IsSpace(s[|s| - 1]))
  }

  lemma {:induction false} StripLeftTrims(s: string)
    ensures StripLeft(s) == "" || !IsSpace(StripLeft(s)[0])
  {
    if s != [] && IsSpace(s[0]) { StripLeftTrims(s[1..]); }
  }

  lemma {:induction false} StripRightTrims(s: string)
    requires s == "" || !IsSpace(s[0])
    ensures Trimmed(StripRight(s))
  {
    if s != [] && IsSpace(s[|s| - 1]) { StripRightTrims(s[..|s| - 1]); }
  }

  /** Stripping leaves a text alone that does not end in white space; printable ASCII is none. */
  lemma StripRightKeeps(s: string)
    requires s != "" && ' ' < s[|s| - 1] < '\U{007F}'
    ensures StripRight(s) == s
  {
  }

  lemma StripTrims(s: string)
    ensures Trimmed(Strip(s))
    ensures Trimmed(s) ==> Strip(s) == s
  {
    StripLeftTrims(s);
    StripRightTrims(StripLeft(s));
  }

  // ---- Lines ----

  /** Lines joined by newlines. */
  function Join(lines: seq<string>): string {
    if lines == [] then "" else if |lines| == 1 then lines[0] else lines[0] + "\n" + Join(lines[1..])
  }

  /** The pieces of a text between newlines. */
  function Split(s: string): (lines: seq<string>)
    ensures lines != []
  {
    if s == "" then [""]
    else
      var rest := Split(s[1..]);
      if s[0] == '\n' then [""] + rest else [[s[0]] + rest[0]] + rest[1..]
  }

  lemma {:induction false} SplitLine(line: string, rest: string)
    requires '\n' !in line
    ensures Split(line + "\n" + rest) == [line] + Split(rest)
  {
    var s := line + "\n" + rest;
    if line == "" {
      assert s[1..] == rest;
    } else {
      SplitLine(line[1..], rest);
      assert s[1..] == line[1..] + "\n" + rest;
      var tail := Split(s[1..]);
      assert tail[0] == line[1..] && tail[1..] == Split(rest);
      assert [line[0]] + line[1..] == line;
    }
  }

  /** Splitting what was joined gives the lines back. */
  lemma {:induction false} SplitJoin(lines: seq<string>)
    requires lines != [] && forall k :: 0 <= k < |lines| ==> '\n' !in lines[k]
    ensures Split(Join(lines) + "\n") == lines + [""]
  {
    if |lines| == 1 {
      SplitLine(lines[0], "");
      assert lines[0] + "\n" == lines[0] + "\n" + "";
      assert Split("") == [""];
    } else {
      var rest := Join(lines[1..]);
      SplitJoin(lines[1..]);
      SplitLine(lines[0], rest + "\n");
      Regrouped(lines[0], "\n", rest, "\n");
      assert [lines[0]] + (lines[1..] + [""]) == lines + [""];
    }
  }

  lemma Regrouped(a: string, b: string, c: string, d: string)
    ensures a + b + c + d == a + b + (c + d)
  {
  }

  lemma {:induction false} JoinEndsWithLastLine(lines: seq<string>)
    requires lines != [] && lines[|lines| - 1] != ""
    ensures Join(lines) != "" && Join(lines)[|Join(lines)| - 1] == lines[|lines| - 1][|lines[|lines| - 1]| - 1]
  {
    if |lines| > 1 { JoinEndsWithLastLine(lines[1..]); }
  }

  // ---- Lines with their ends ----

  /** Characters that end a line. */
  predicate IsBreak(c: char) {
    || '\U{000A}' <= c <= '\U{000D}' || '\U{001C}' <= c <= '\U{001E}'
    || c == '\U{0085}' || c == '\U{2028}' || c == '\U{2029}'
  }

  /** A text cut after each line end; a carriage return and a newline are one end. */
  function CutLines(s: string): (lines: seq<string>)
    ensures s == "" <==> lines == []
    ensures forall k :: 0 <= k < |lines| ==> lines[k] != ""
  {
    if s == "" then []
    else if s[0] == '\r' && |s| > 1 && s[1] == '\n' then ["\r\n"] + CutLines(s[2..])
    else if IsBreak(s[0]) then [[s[0]]] + CutLines(s[1..])
    else
      var rest := CutLines(s[1..]);
      if rest == [] then [s] else [[s[0]] + rest[0]] + rest[1..]
  }

  /** The ten characters that end a line. */
  lemma TenBreaks(c: char)
    ensures IsBreak(c) <==> c as int in {10, 11, 12, 13, 28, 29, 30, 133, 8232, 8233}
    ensures IsBreak(c) ==> IsSpace(c)
  {
  }

  /** The white space: the ASCII kinds, the separators of files and units, and the wide and narrow spaces. */
  lemma WhiteSpaceIs(c: char)
    ensures IsSpace(c)
            <==> c as int in {9, 10, 11, 12, 13, 28, 29, 30, 31, 32, 133, 160, 5760, 8192, 8193, 8194, 8195, 8196, 8197,
                              8198, 8199, 8200, 8201, 8202, 8232, 8233, 8239, 8287, 12288}
  {
  }

  /** Pieces put together as they are. */
  function Flatten(lines: seq<string>): string {
    if lines == [] then "" else lines[0] + Flatten(lines[1..])
  }

  /** Each piece of a list cut into lines. */
  function Recut(lines: seq<string>): seq<string> {
    if lines == [] then [] else CutLines(lines[0]) + Recut(lines[1..])
  }

  /** The text ends with a line end. */
  predicate EndsInBreak(s: string) { s != "" && IsBreak(s[|s| - 1]) }

  /** Side by side, the end of `a` and the start of `b` would be one line end. */
  predicate Merges(a: string, b: string) {
    a != "" && b != "" && a[|a| - 1] == '\r' && b[0] == '\n'
  }

  /** After a line end a text is cut on its own. */
  lemma {:induction false} CutConcat(a: string, b: string)
    requires EndsInBreak(a) && !Merges(a, b)
    ensures CutLines(a + b) == CutLines(a) + CutLines(b)
    decreases |a|
  {
    HeadOfConcat(a, b);
    if OpensCrLf(a) {
      CutPair(a);
      CutPair(a + b);
      if |a| > 2 { CutConcat(a[2..], b); }
      AfterPair(CutLines(a[2..]), CutLines(b));
    } else {
      CutOne(a);
      CutOne(a + b);
      if |a| > 1 { CutConcat(a[1..], b); }
      PrependConcat(a[0], CutLines(a[1..]), CutLines(b));
    }
  }

  predicate OpensCrLf(s: string) { |s| > 1 && s[0] == '\r' && s[1] == '\n' }

  lemma CutPair(s: string)
    requires OpensCrLf(s)
    ensures CutLines(s) == ["\r\n"] + CutLines(s[2..])
  {
  }

  /** One more character in front of lines. */
  function Prepend(c: char, rest: seq<string>): seq<string> {
    if IsBreak(c) then [[c]] + rest else if rest == [] then [[c]] else [[c] + rest[0]] + rest[1..]
  }

  lemma CutOne(s: string)
    requires s != "" && !OpensCrLf(s)
    ensures CutLines(s) == Prepend(s[0], CutLines(s[1..]))
  {
    if CutLines(s[1..]) == [] { assert s == [s[0]]; }
  }

  lemma PrependConcat(c: char, x: seq<string>, y: seq<string>)
    requires IsBreak(c) || x != []
    ensures Prepend(c, x + y) == Prepend(c, x) + y
  {
    if !IsBreak(c) { assert (x + y)[1..] == x[1..] + y; }
  }

  lemma AfterPair(x: seq<string>, y: seq<string>)
    ensures ["\r\n"] + (x + y) == ["\r\n"] + x + y
  {
  }

  lemma HeadOfConcat(a: string, b: string)
    requires a != ""
    ensures (a + b)[0] == a[0] && (a + b)[1..] == a[1..] + b
    ensures |a| > 1 ==> (a + b)[1] == a[1] && (a + b)[2..] == a[2..] + b
    ensures |a| == 1 ==> a[1..] == "" && a[1..] + b == b
    ensures |a| == 2 ==> a[2..] == "" && a[2..] + b == b
  {
  }

  /** Pieces that end in a line end, none of which merges with the next. */
  predicate Solid(lines: seq<string>) {
    lines != [] ==> EndsInBreak(lines[0]) && (|lines| > 1 ==> !Merges(lines[0], lines[1])) && Solid(lines[1..])
  }

  lemma FlattenStarts(lines: seq<string>)
    requires lines != [] && lines[0] != ""
    ensures Flatten(lines) != "" && Flatten(lines)[0] == lines[0][0]
  {
  }

  /** Solid pieces put together and cut again are each cut on their own. */
  lemma {:induction false} CutFlatten(lines: seq<string>)
    requires Solid(lines)
    ensures CutLines(Flatten(lines)) == Recut(lines)
  {
    if lines != [] {
      CutFlatten(lines[1..]);
      if |lines| > 1 { FlattenStarts(lines[1..]); }
      CutConcat(lines[0], Flatten(lines[1..]));
    }
  }

  /** What has been cut and is put together is the text again. */
  lemma {:induction false} FlattenCut(s: string)
    ensures Flatten(CutLines(s)) == s
    decreases |s|
  {
    if s != "" {
      if OpensCrLf(s) {
        CutPair(s);
        FlattenCut(s[2..]);
        assert s == "\r\n" + s[2..];
      } else {
        CutOne(s);
        FlattenCut(s[1..]);
        FlattenPrepend(s[0], CutLines(s[1..]));
        assert s == [s[0]] + s[1..];
      }
    }
  }

  lemma FlattenPrepend(c: char, rest: seq<string>)
    ensures Flatten(Prepend(c, rest)) == [c] + Flatten(rest)
  {
    if IsBreak(c) {
      assert ([[c]] + rest)[1..] == rest;
    } else if rest != [] {
      assert ([[c] + rest[0]] + rest[1..])[1..] == rest[1..];
      assert [c] + (rest[0] + Flatten(rest[1..])) == ([c] + rest[0]) + Flatten(rest[1..]);
    } else {
      assert [[c]][1..] == [];
    }
  }

  lemma {:induction false} RecutConcat(a: seq<string>, b: seq<string>)
    ensures Recut(a + b) == Recut(a) + Recut(b)
    decreases |a|
  {
    if a == [] {
      assert a + b == b;
    } else {
      assert (a + b)[1..] == a[1..] + b;
      RecutConcat(a[1..], b);
    }
  }

  lemma {:induction false} SolidConcat(a: seq<string>, b: seq<string>)
    ensures Solid(a + b) <==> Solid(a) && Solid(b) && (a != [] && b != [] ==> !Merges(a[|a| - 1], b[0]))
    decreases |a|
  {
    if a == [] {
      assert a + b == b;
    } else {
      assert (a + b)[0] == a[0] && (a + b)[1..] == a[1..] + b;
      SolidConcat(a[1..], b);
      if |a| > 1 { assert (a + b)[1] == a[1]; } else if b != [] { assert (a + b)[1] == b[0]; }
    }
  }

  /**
   * A line as it is cut, or such a line with a newline put after it: newlines are at the very end, and any other line
   * end is at the end or just before a newline there.
   */
  predicate Tame(e: string) {
    && e != ""
    && forall i :: 0 <= i < |e| - 1 ==> e[i] != '\n' && (IsBreak(e[i]) ==> i == |e| - 2 && e[|e| - 1] == '\n')
  }

  lemma OneCharacterIsOneLine(e: string)
    requires |e| == 1
    ensures CutLines(e) == [e]
  {
    assert e[1..] == "" && e == [e[0]];
  }

  lemma TwoBreaks(e: string)
    requires |e| == 2 && IsBreak(e[0]) && e[1] == '\n'
    ensures if e[0] == '\r' then CutLines(e) == [e] else CutLines(e) == [e[..1], "\n"]
  {
    assert e[2..] == "" && e[1..] == "\n" && e[..1] == [e[0]];
    OneCharacterIsOneLine("\n");
    if e[0] == '\r' { assert e == "\r\n"; }
  }

  /** Cutting a tame piece gives it back, or its line and the newline put after it. */
  lemma {:induction false} CutTame(e: string)
    requires Tame(e)
    ensures CutLines(e) == [e] || (|e| > 1 && e[|e| - 1] == '\n' && CutLines(e) == [e[..|e| - 1], "\n"])
    ensures |e| < 2 || !IsBreak(e[|e| - 2]) || e[|e| - 2] == '\r' ==> CutLines(e) == [e]
    decreases |e|
  {
    if |e| == 1 {
      assert e[1..] == "" && e == [e[0]];
    } else if IsBreak(e[0]) {
      assert |e| == 2 && e[1] == '\n';
      TwoBreaks(e);
    } else {
      var t := e[1..];
      CutTame(t);
      assert e == [e[0]] + t && e[..|e| - 1] == [e[0]] + t[..|t| - 1];
    }
  }

  /** Pieces of which all but the last end in a line end, and none merges with the next. */
  predicate AlmostSolid(lines: seq<string>) {
    |lines| > 1 ==> EndsInBreak(lines[0]) && !Merges(lines[0], lines[1]) && AlmostSolid(lines[1..])
  }

  /** A line that is left as it is when it is cut. */
  predicate OneLine(e: string) { Tame(e) && CutLines(e) == [e] }

  /** As a cut text is: single lines, with their ends where they belong. */
  predicate WellCut(lines: seq<string>) {
    AlmostSolid(lines) && forall k :: 0 <= k < |lines| ==> OneLine(lines[k])
  }

  lemma WellCutFirst(e: string, rest: seq<string>)
    requires WellCut(rest) && OneLine(e) && (rest != [] ==> EndsInBreak(e) && !Merges(e, rest[0]))
    ensures WellCut([e] + rest)
  {
    assert ([e] + rest)[1..] == rest;
  }

  lemma LongerLine(c: char, e: string)
    requires !IsBreak(c) && OneLine(e)
    ensures OneLine([c] + e) && (EndsInBreak(e) ==> EndsInBreak([c] + e))
    ensures forall next :: Merges([c] + e, next) ==> Merges(e, next)
  {
    var s := [c] + e;
    assert s[1..] == e;
    forall i | 0 <= i < |s| - 1 ensures s[i] != '\n' && (IsBreak(s[i]) ==> i == |s| - 2 && s[|s| - 1] == '\n') {
      if i > 0 { assert s[i] == e[i - 1]; }
    }
  }

  /** Of a cut text every line is tame and left as it is, all but the last have an end, and none merges with the
      next. */
  lemma {:induction false} CutIsWellCut(s: string)
    ensures WellCut(CutLines(s)) && (s != "" ==> CutLines(s)[0][0] == s[0])
    decreases |s|
  {
    if s != "" {
      if s[0] == '\r' && |s| > 1 && s[1] == '\n' {
        CutIsWellCut(s[2..]);
        TwoBreaks("\r\n");
        WellCutFirst("\r\n", CutLines(s[2..]));
      } else {
        var rest := CutLines(s[1..]);
        CutIsWellCut(s[1..]);
        if IsBreak(s[0]) {
          OneCharacterIsOneLine([s[0]]);
          if rest != [] { assert s[1..][0] == s[1]; }
          WellCutFirst([s[0]], rest);
        } else if rest == [] {
          assert |s| == 1;
          OneCharacterIsOneLine(s);
        } else {
          LongerLine(s[0], rest[0]);
          assert forall k :: 0 <= k < |rest[1..]| ==> rest[1..][k] == rest[k + 1];
          WellCutFirst([s[0]] + rest[0], rest[1..]);
        }
      }
    }
  }

  /** The last line ends as the text does. */
  lemma {:induction false} FlattenEnds(lines: seq<string>)
    requires lines != [] && lines[|lines| - 1] != ""
    ensures Flatten(lines) != ""
    ensures Flatten(lines)[|Flatten(lines)| - 1] == lines[|lines| - 1][|lines[|lines| - 1]| - 1]
  {
    if |lines| > 1 { FlattenEnds(lines[1..]); }
  }
}
