/**
 * The update of a configuration file as a text: cut into lines, updated line by line, and put together again. What a
 * second update finds depends on how the text is cut then.
 */
module CodexText {
  import opened Wrappers
  import opened Text
  import opened Sections
  import opened CodexConfig
  import TomlText

  /** The whole update of a text. */
  function UpsertText(text: string, v: Values): string {
    Flatten(Upsert(CutLines(text), v))
  }

  /** No line end is in the text. */
  predicate BreakFree(s: string) {
    forall i :: 0 <= i < |s| ==> !IsBreak(s[i])
  }

  predicate BreakFreeValues(v: Values) {
    && BreakFree(v.orchestratorModel) && BreakFree(v.orchestratorEffort)
    && BreakFree(v.workerModel) && BreakFree(v.workerEffort)
  }

  // ---- Written lines ----

  lemma {:induction false} EscapingKeepsBreaks(s: string)
    ensures BreakFree(EscapeQuotes(s)) <==> BreakFree(s)
  {
    if s != "" {
      EscapingKeepsBreaks(s[1..]);
      var first := if s[0] == '\\' then "\\\\" else if s[0] == '"' then "\\\"" else [s[0]];
      BreakFreeConcat(first, EscapeQuotes(s[1..]));
      BreakFreeConcat([s[0]], s[1..]);
      assert s == [s[0]] + s[1..];
    }
  }

  lemma BreakFreeConcat(a: string, b: string)
    ensures BreakFree(a + b) <==> BreakFree(a) && BreakFree(b)
  {
    if BreakFree(a + b) {
      forall i | 0 <= i < |a| ensures !IsBreak(a[i]) { assert a[i] == (a + b)[i]; }
      forall i | 0 <= i < |b| ensures !IsBreak(b[i]) { assert b[i] == (a + b)[|a| + i]; }
    }
  }

  lemma LiteralIsBreakFree(v: Scalar)
    ensures BreakFree(Literal(v)) <==> (v.Word? ==> BreakFree(v.s))
  {
    match v
    case Flag(_) =>
    case Number(n) =>
      TomlText.DigitsAreDigits(if n < 0 then -n else n);
      assert forall i :: 0 <= i < |Literal(v)| ==> TomlText.IsDigit(Literal(v)[i]) || Literal(v)[i] == '-';
    case Word(s) =>
      EscapingKeepsBreaks(s);
      BreakFreeConcat(['"'] + EscapeQuotes(s), ['"']);
      BreakFreeConcat(['"'], EscapeQuotes(s));
  }

  lemma PlainIsBreakFree(key: string)
    requires Plain(key)
    ensures BreakFree(key)
  {
  }

  /** A written line without its newline. */
  function Content(indent: string, s: Setting): string {
    indent + s.key + " = " + Literal(s.value)
  }

  lemma ContentIsBreakFree(indent: string, s: Setting)
    requires Plain(s.key)
    ensures BreakFree(Content(indent, s)) <==> BreakFree(indent) && BreakFree(Literal(s.value))
  {
    PlainIsBreakFree(s.key);
    BreakFreeConcat(indent, s.key);
    BreakFreeConcat(indent + s.key, " = ");
    BreakFreeConcat(indent + s.key + " = ", Literal(s.value));
  }

  lemma {:induction false} CutContent(content: string)
    requires content != "" ==> !IsBreak(content[|content| - 1])
    ensures BreakFree(content) ==> OneLine(content + "\n")
    ensures !BreakFree(content) ==> |CutLines(content + "\n")| >= 2
    decreases |content|
  {
    var s := content + "\n";
    if content == "" {
      OneCharacterIsOneLine(s);
    } else {
      var c, rest := content[0], content[1..];
      assert s[1..] == rest + "\n" && content == [c] + rest && s == [c] + (rest + "\n");
      BreakFreeConcat([c], rest);
      CutContent(rest);
      if !IsBreak(c) {
        assert BreakFree([c]);
        if BreakFree(rest) { LongerLine(c, rest + "\n"); }
      } else {
        assert |rest| > 0 && s[2..] != "";
        assert [c][0] == c;
      }
    }
  }

  /** A literal ends in a visible character. */
  lemma LiteralEnds(v: Scalar)
    ensures Literal(v) != "" && !IsBreak(Literal(v)[|Literal(v)| - 1])
  {
    match v
    case Flag(_) =>
    case Number(n) =>
      TomlText.DigitsAreDigits(if n < 0 then -n else n);
      assert TomlText.IsDigit(Literal(v)[|Literal(v)| - 1]);
    case Word(s) =>
  }

  /** A written line is one line when it is cut again, exactly when neither its indent nor its value holds a line
      end. */
  lemma WrittenLineIsOneLine(indent: string, s: Setting)
    requires Plain(s.key)
    ensures BreakFree(indent) && BreakFree(Literal(s.value)) <==> OneLine(Assignment(indent, s))
    ensures !(BreakFree(indent) && BreakFree(Literal(s.value))) ==> |CutLines(Assignment(indent, s))| >= 2
  {
    var content := Content(indent, s);
    LiteralEnds(s.value);
    assert content[|content| - 1] == Literal(s.value)[|Literal(s.value)| - 1];
    ContentIsBreakFree(indent, s);
    CutContent(content);
    assert Assignment(indent, s) == content + "\n";
  }

  // ---- A newline put after a line ----

  lemma {:induction false} StripLeftTail(a: string)
    ensures StripLeft(a + "\n") == if StripLeft(a) == "" then "" else StripLeft(a) + "\n"
    ensures |StripLeft(a)| <= |a| && StripLeft(a) == a[|a| - |StripLeft(a)|..]
  {
    if a == "" {
      assert a + "\n" == "\n" && "\n"[1..] == "";
    } else if IsSpace(a[0]) {
      assert (a + "\n")[1..] == a[1..] + "\n";
      StripLeftTail(a[1..]);
    }
  }

  lemma NoNewlineInside(a: string, i: nat)
    requires '\n' !in a && i <= |a|
    ensures '\n' !in a[i..] && EndsLine(a[i..]) && EndsLine(a[i..] + "\n")
  {
  }

  lemma PlainHoldsNoNewline(key: string)
    requires Plain(key)
    ensures '\n' !in key
  {
  }

  /** What follows the key of an assignment. */
  predicate GoesOnAssigning(s: string) {
    var u := StripLeft(s);
    u != "" && u[0] == '=' && EndsLine(u[1..])
  }

  lemma TailGoesOn(s: string)
    requires '\n' !in s
    ensures GoesOnAssigning(s + "\n") == GoesOnAssigning(s)
  {
    StripLeftTail(s);
    var u := StripLeft(s);
    if u != "" {
      assert '\n' !in u;
      NoNewlineInside(u, 1);
      assert (u + "\n")[1..] == u[1..] + "\n";
    }
  }

  lemma TailStarts(t: string, key: string)
    requires Plain(key)
    ensures StartsWith(t + "\n", key) == StartsWith(t, key)
    ensures StartsWith(t, key) ==> (t + "\n")[|key|..] == t[|key|..] + "\n"
  {
    var t1 := t + "\n";
    PlainHoldsNoNewline(key);
    assert t1[|t|] in t1 && t1[..|t1|] == t1 && key != t1;
    assert |key| <= |t| ==> t1[..|key|] == t[..|key|];
  }

  /** It changes no assignment, */
  lemma TailKeepsAssignment(a: string, key: string)
    requires '\n' !in a && Plain(key)
    ensures Assigns(a + "\n", key) == Assigns(a, key)
  {
    var t := StripLeft(a);
    StripLeftTail(a);
    if t != "" {
      TailStarts(t, key);
      if StartsWith(t, key) {
        assert '\n' !in t;
        TailGoesOn(t[|key|..]);
      }
    }
  }

  lemma {:induction false} BracketTail(s: string)
    ensures UpToBracket(s + "\n") == UpToBracket(s)
    ensures UpToBracket(s).Some? ==> |UpToBracket(s).value| < |s|
  {
    if s == "" {
      assert s + "\n" == "\n" && "\n"[1..] == "";
    } else {
      assert (s + "\n")[1..] == s[1..] + "\n";
      BracketTail(s[1..]);
    }
  }

  /** What follows the bracket of a header. */
  predicate EndsHeader(s: string) {
    var rest := StripLeft(s);
    rest == "" || (rest[0] == '#' && EndsLine(rest))
  }

  lemma TailEndsHeader(s: string)
    requires '\n' !in s
    ensures EndsHeader(s + "\n") == EndsHeader(s)
  {
    StripLeftTail(s);
    var u := StripLeft(s);
    assert '\n' !in u;
    NoNewlineInside(u, 0);
    assert u[0..] == u;
  }

  /** and opens the same section. */
  lemma TailKeepsSection(a: string)
    requires '\n' !in a
    ensures SectionName(a + "\n") == SectionName(a)
  {
    var t := StripLeft(a);
    StripLeftTail(a);
    if t != "" && t[0] == '[' {
      var t1 := t + "\n";
      assert t1[1..] == t[1..] + "\n" && t1[0] == '[';
      BracketTail(t[1..]);
      match UpToBracket(t[1..])
      case None =>
      case Some(name) =>
        var rest := t[|name| + 2..];
        assert t1[|name| + 2..] == rest + "\n" && '\n' !in rest;
        TailEndsHeader(rest);
    }
  }

  // ---- The lines of an update, cut again ----

  predicate AllTame(lines: Lines) {
    forall k :: 0 <= k < |lines| ==> Tame(lines[k])
  }

  lemma NewlineAssignsNothing(key: string)
    requires Plain(key)
    ensures !Assigns("\n", key) && !Opens("\n")
  {
    BlankLine();
  }

  /** The first line of a piece that is cut. */
  function FirstCut(e: string): string { if CutLines(e) == [] then "" else CutLines(e)[0] }

  /** A tame line, cut again, is a line, and perhaps an empty one. */
  lemma TameRecut(e: string)
    requires Tame(e)
    ensures CutLines(e) == [e]
        || (CutLines(e) == [FirstCut(e), "\n"] && e == FirstCut(e) + "\n" && '\n' !in FirstCut(e))
  {
    CutTame(e);
    if CutLines(e) != [e] {
      var a := e[..|e| - 1];
      assert '\n' !in a && e == a + "\n";
    }
  }

  lemma TameOpens(e: string)
    requires Tame(e)
    ensures SectionName(FirstCut(e)) == SectionName(e)
  {
    TameRecut(e);
    if CutLines(e) != [e] { TailKeepsSection(FirstCut(e)); }
  }

  lemma TameAssigns(e: string, key: string)
    requires Tame(e) && Plain(key)
    ensures Assigns(FirstCut(e), key) == Assigns(e, key)
  {
    TameRecut(e);
    if CutLines(e) != [e] { TailKeepsAssignment(FirstCut(e), key); }
  }

  lemma TameIsHarmless(e: string)
    requires Tame(e)
    ensures Harmless(e, CutLines, Opens, OpensAgents)
  {
    TameRecut(e);
    TameOpens(e);
    BlankLine();
    var cut := CutLines(e);
    assert cut != [] && cut[0] == FirstCut(e);
    forall k | 0 < k < |cut| ensures cut[k] == "\n" { }
  }

  lemma {:induction false} RecutIsExpanded(lines: Lines)
    ensures Recut(lines) == Expanded(lines, CutLines)
  {
    if lines != [] { RecutIsExpanded(lines[1..]); }
  }

  /** Cutting again keeps the root, */
  lemma RootRecut(lines: Lines)
    requires AllTame(lines)
    ensures Root(Recut(lines)) == Recut(Root(lines))
  {
    forall k | 0 <= k < |lines| ensures Harmless(lines[k], CutLines, Opens, OpensAgents) { TameIsHarmless(lines[k]); }
    BeforeExpanded(lines, CutLines, Opens, OpensAgents);
    RecutIsExpanded(lines);
    RecutIsExpanded(Root(lines));
  }

  /** and the agents section, but for an empty line at its start. */
  lemma BodyRecut(lines: Lines)
    requires AllTame(lines) && HasAgents(lines)
    ensures HasAgents(Recut(lines))
    ensures AgentsBody(Recut(lines)) in {Recut(AgentsBody(lines)), ["\n"] + Recut(AgentsBody(lines))}
  {
    forall k | 0 <= k < |lines| ensures Harmless(lines[k], CutLines, Opens, OpensAgents) { TameIsHarmless(lines[k]); }
    NameExpanded(lines, CutLines, Opens, OpensAgents);
    RecutIsExpanded(lines);
    var after, tail := After(lines, OpensAgents), NameTail(lines, CutLines, OpensAgents);
    AfterIsTame(lines);
    RecutIsExpanded(after);
    RootRecut(after);
    TailIsBlank(lines);
    BlankLine();
    HalvesOf(tail, Recut(after), Opens);
    assert [] + Recut(AgentsBody(lines)) == Recut(AgentsBody(lines));
  }

  lemma {:induction false} AfterIsTame(lines: Lines)
    requires AllTame(lines)
    ensures AllTame(After(lines, OpensAgents))
  {
    if lines != [] {
      assert forall k :: 0 <= k < |lines[1..]| ==> lines[1..][k] == lines[k + 1];
      AfterIsTame(lines[1..]);
    }
  }

  lemma {:induction false} TailIsBlank(lines: Lines)
    requires AllTame(lines)
    ensures NameTail(lines, CutLines, OpensAgents) in {[], ["\n"]}
  {
    if lines != [] {
      TameRecut(lines[0]);
      assert forall k :: 0 <= k < |lines[1..]| ==> lines[1..][k] == lines[k + 1];
      if OpensAgents(lines[0]) {
        var cut := CutLines(lines[0]);
        assert |cut| == 1 ==> cut[1..] == [];
        assert |cut| == 2 ==> cut[1..] == [cut[1]];
      } else {
        TailIsBlank(lines[1..]);
      }
    }
  }

  /** What assigns first still does, as far as it is cut. */
  lemma {:induction false} FirstRecut(section: Lines, key: string)
    requires AllTame(section) && Plain(key)
    ensures FirstAssignment(Recut(section), key)
            == match FirstAssignment(section, key) case None => None case Some(e) => Some(FirstCut(e))
    decreases |section|
  {
    if section != [] {
      TameTail(section);
      FirstRecut(section[1..], key);
      FirstOfCut(section[0], Recut(section[1..]), key);
    }
  }

  lemma TameTail(section: Lines)
    requires AllTame(section) && section != []
    ensures Tame(section[0]) && AllTame(section[1..])
  {
    AllTameConcat([section[0]], section[1..]);
    assert [section[0]] + section[1..] == section;
  }

  lemma FirstOfCut(e: string, rest: Lines, key: string)
    requires Tame(e) && Plain(key)
    ensures FirstAssignment(CutLines(e) + rest, key)
            == if Assigns(e, key) then Some(FirstCut(e)) else FirstAssignment(rest, key)
  {
    TameRecut(e);
    TameAssigns(e, key);
    FirstOfTwo(FirstCut(e), ["\n"] + rest, key);
    FirstOfTwo(FirstCut(e), rest, key);
    BlankFirst(rest, key);
    assert [FirstCut(e), "\n"] + rest == [FirstCut(e)] + (["\n"] + rest);
  }

  lemma FirstOfTwo(line: string, rest: Lines, key: string)
    ensures FirstAssignment([line] + rest, key) == if Assigns(line, key) then Some(line) else FirstAssignment(rest, key)
  {
    assert ([line] + rest)[1..] == rest;
  }

  lemma BlankFirst(section: Lines, key: string)
    requires Plain(key)
    ensures FirstAssignment(["\n"] + section, key) == FirstAssignment(section, key)
  {
    NewlineAssignsNothing(key);
    assert (["\n"] + section)[0] == "\n" && (["\n"] + section)[1..] == section;
  }

  /** What is set is one line, so it is found again. */
  lemma IsSetRecut(section: Lines, s: Setting)
    requires AllTame(section) && Plain(s.key) && IsSet(section, s)
    ensures IsSet(Recut(section), s) && IsSet(["\n"] + Recut(section), s)
  {
    var e := FirstAssignment(section, s.key).value;
    FirstIsThere(section, s.key);
    var content := Content(KeptIndent(section, s.key), s);
    assert e == content + "\n";
    LiteralEnds(s.value);
    assert e[|e| - 2] == content[|content| - 1] == Literal(s.value)[|Literal(s.value)| - 1];
    CutTame(e);
    FirstRecut(section, s.key);
    BlankFirst(Recut(section), s.key);
  }

  lemma {:induction false} FirstIsThere(section: Lines, key: string)
    requires FirstAssignment(section, key).Some?
    ensures FirstAssignment(section, key).value in section && Assigns(FirstAssignment(section, key).value, key)
  {
    if !Assigns(section[0], key) { FirstIsThere(section[1..], key); }
  }

  lemma AllSetRecut(section: Lines, settings: seq<Setting>)
    requires AllTame(section) && PlainKeys(settings) && AllSet(section, settings)
    ensures AllSet(Recut(section), settings) && AllSet(["\n"] + Recut(section), settings)
  {
    forall i | 0 <= i < |settings|
        ensures IsSet(Recut(section), settings[i]) && IsSet(["\n"] + Recut(section), settings[i]) {
      assert IsSet(section, settings[i]);
      IsSetRecut(section, settings[i]);
    }
  }

  // ---- An update keeps lines tame ----

  ghost predicate BreakFreeSettings(settings: seq<Setting>) {
    forall i :: 0 <= i < |settings| ==> BreakFree(Literal(settings[i].value))
  }

  lemma IndentIsBreakFree(e: string, key: string)
    requires Tame(e) && Plain(key) && Assigns(e, key)
    ensures BreakFree(Indent(e))
  {
    IndentIsSpace(e);
    StripLeftTail(e);
    var t := StripLeft(e);
    StripLeftTail(t[|key|..]);
    assert |t| >= 2;
    forall i | 0 <= i < |Indent(e)| ensures !IsBreak(Indent(e)[i]) { assert Indent(e)[i] == e[i]; }
  }

  lemma {:induction false} SetIsTame(section: Lines, s: Setting)
    requires AllTame(section) && Plain(s.key) && BreakFree(Literal(s.value))
    ensures AllTame(Set(section, s))
    decreases |section|
  {
    if section == [] {
      WrittenLineIsOneLine("", s);
    } else {
      assert forall k :: 0 <= k < |section[1..]| ==> section[1..][k] == section[k + 1];
      if Assigns(section[0], s.key) {
        IndentIsBreakFree(section[0], s.key);
        WrittenLineIsOneLine(Indent(section[0]), s);
      } else {
        SetIsTame(section[1..], s);
      }
    }
  }

  lemma {:induction false} SetAllIsTame(section: Lines, settings: seq<Setting>)
    requires AllTame(section) && PlainKeys(settings) && BreakFreeSettings(settings)
    ensures AllTame(SetAll(section, settings))
    decreases |settings|
  {
    if settings != [] {
      PlainKeysSplit(settings);
      assert forall i :: 0 <= i < |settings[1..]| ==> settings[1..][i] == settings[i + 1];
      SetIsTame(section, settings[0]);
      SetAllIsTame(Set(section, settings[0]), settings[1..]);
    }
  }

  lemma AllTameConcat(a: Lines, b: Lines)
    ensures AllTame(a + b) <==> AllTame(a) && AllTame(b)
  {
    if AllTame(a + b) {
      forall k | 0 <= k < |a| ensures Tame(a[k]) { assert a[k] == (a + b)[k]; }
      forall k | 0 <= k < |b| ensures Tame(b[k]) { assert b[k] == (a + b)[|a| + k]; }
    }
  }

  lemma SetRootIsTame(lines: Lines, settings: seq<Setting>)
    requires AllTame(lines) && PlainKeys(settings) && BreakFreeSettings(settings)
    ensures AllTame(SetRoot(lines, settings))
  {
    Halves(lines, Opens);
    AllTameConcat(Root(lines), Rest(lines));
    SetAllIsTame(Root(lines), settings);
    AllTameConcat(SetAll(Root(lines), settings), Rest(lines));
  }

  lemma HeaderIsTame()
    ensures OneLine("[agents]\n") && OneLine("\n")
  {
    OneCharacterIsOneLine("\n");
    assert BreakFree("[agents]");
    CutContent("[agents]");
    assert "[agents]" + "\n" == "[agents]\n";
  }

  lemma TameParts(a: Lines, b: Lines, c: Lines)
    ensures AllTame(a + b + c) <==> AllTame(a) && AllTame(b) && AllTame(c)
  {
    AllTameConcat(a + b, c);
    AllTameConcat(a, b);
  }

  lemma NewSectionIsTame(lines: Lines, settings: seq<Setting>)
    requires PlainKeys(settings) && BreakFreeSettings(settings)
    ensures AllTame(NewSection(lines, settings))
  {
    FreshIsSet(settings);
    SetAllIsTame([], settings);
    HeaderIsTame();
    TameParts(if lines != [] && Strip(lines[|lines| - 1]) != "" then ["\n"] else [], ["[agents]\n"], Fresh(settings));
  }

  lemma SetAgentsIsTame(lines: Lines, settings: seq<Setting>)
    requires AllTame(lines) && PlainKeys(settings) && BreakFreeSettings(settings)
    ensures AllTame(SetAgents(lines, settings))
  {
    if HasAgents(lines) {
      AgentsParts(lines);
      TameParts(UpToBody(lines), AgentsBody(lines), AfterBody(lines));
      SetAllIsTame(AgentsBody(lines), settings);
      TameParts(UpToBody(lines), SetAll(AgentsBody(lines), settings), AfterBody(lines));
    } else {
      NewSectionIsTame(lines, settings);
      AllTameConcat(lines, NewSection(lines, settings));
    }
  }

  lemma SettingsAreBreakFree(v: Values)
    requires BreakFreeValues(v)
    ensures BreakFreeSettings(RootSettings(v)) && BreakFreeSettings(AgentSettings(v))
  {
    forall i | 0 <= i < |RootSettings(v)| ensures BreakFree(Literal(RootSettings(v)[i].value)) {
      LiteralIsBreakFree(RootSettings(v)[i].value);
    }
    forall i | 0 <= i < |AgentSettings(v)| ensures BreakFree(Literal(AgentSettings(v)[i].value)) {
      LiteralIsBreakFree(AgentSettings(v)[i].value);
    }
  }

  /** The lines of a text, with the newline that may be missing at its end. */
  lemma ClosedIsTame(text: string)
    ensures AllTame(Closed(CutLines(text)))
  {
    CutIsWellCut(text);
    var lines := CutLines(text);
    if !Ended(lines) {
      var last := lines[|lines| - 1];
      assert OneLine(last);
      ClosingIsTame(last);
    }
  }

  lemma ClosingIsTame(last: string)
    requires OneLine(last) && last[|last| - 1] != '\n'
    ensures Tame(last + "\n")
  {
    var e := last + "\n";
    forall i | 0 <= i < |e| - 1 ensures e[i] != '\n' && (IsBreak(e[i]) ==> i == |e| - 2 && e[|e| - 1] == '\n') {
      assert e[i] == last[i];
    }
  }

  lemma UpdateIsTame(text: string, v: Values)
    requires BreakFreeValues(v)
    ensures AllTame(Upsert(CutLines(text), v))
  {
    ClosedIsTame(text);
    SettingsAreBreakFree(v);
    RootKeysArePlain(v);
    AgentKeysArePlain(v);
    SetRootIsTame(Closed(CutLines(text)), RootSettings(v));
    SetAgentsIsTame(SetRoot(Closed(CutLines(text)), RootSettings(v)), AgentSettings(v));
  }

  // ---- An update keeps line ends where they belong ----

  lemma SolidInsert(a: Lines, c: Lines, line: string)
    requires Solid(a + c) && Solid([line]) && line != "" && line[0] != '\n' && line[|line| - 1] == '\n'
    ensures Solid(a + [line] + c)
  {
    SolidConcat(a, c);
    SolidConcat(a, [line]);
    SolidConcat(a + [line], c);
  }

  lemma SolidReplace(a: Lines, e: string, c: Lines, line: string)
    requires Solid(a + [e] + c) && Solid([line]) && line != "" && line[|line| - 1] == '\n'
    requires forall before :: Merges(before, line) ==> Merges(before, e)
    ensures Solid(a + [line] + c)
  {
    SolidConcat(a + [e], c);
    SolidConcat(a, [e]);
    SolidConcat(a, [line]);
    SolidConcat(a + [line], c);
  }

  lemma Regrouped(a: Lines, e: string, rest: Lines, c: Lines)
    ensures a + ([e] + rest) + c == a + [e] + (rest + c) == (a + [e]) + rest + c
  {
  }

  /** Setting one part of a solid list leaves it solid. */
  lemma {:induction false} SetStaysSolid(a: Lines, b: Lines, c: Lines, s: Setting)
    requires Solid(a + b + c) && Plain(s.key)
    ensures Solid(a + Set(b, s) + c)
    decreases |b|
  {
    if b == [] {
      WrittenStarts("", s);
      assert a + [] + c == a + c;
      SolidInsert(a, c, Assignment("", s));
    } else {
      var e, rest := b[0], b[1..];
      assert b == [e] + rest;
      Regrouped(a, e, rest, c);
      if Assigns(e, s.key) {
        var line := Assignment(Indent(e), s);
        WrittenStarts(Indent(e), s);
        IndentStarts(e, s);
        SolidReplace(a, e, rest + c, line);
        Regrouped(a, line, rest, c);
      } else {
        SetStaysSolid(a + [e], rest, c, s);
        Regrouped(a, e, Set(rest, s), c);
      }
    }
  }

  /** A written line ends in a newline, and does not start with one unless its indent does. */
  lemma WrittenStarts(indent: string, s: Setting)
    requires Plain(s.key)
    ensures var line := Assignment(indent, s);
            && line != "" && line[|line| - 1] == '\n' && line[0] == (if indent == "" then s.key[0] else indent[0])
            && s.key[0] != '\n' && Solid([line])
  {
    assert [Assignment(indent, s)][1..] == [];
  }

  /** So it merges with the line before only if the line it replaces did. */
  lemma IndentStarts(e: string, s: Setting)
    requires Plain(s.key) && Assigns(e, s.key)
    ensures forall before :: Merges(before, Assignment(Indent(e), s)) ==> Merges(before, e)
  {
    WrittenStarts(Indent(e), s);
    IndentIsSpace(e);
    StripLeftTail(e);
    assert e != "" && (Indent(e) != "" ==> Indent(e)[0] == e[0]);
  }

  lemma {:induction false} SetAllStaysSolid(a: Lines, b: Lines, c: Lines, settings: seq<Setting>)
    requires Solid(a + b + c) && PlainKeys(settings)
    ensures Solid(a + SetAll(b, settings) + c)
    decreases |settings|
  {
    if settings != [] {
      PlainKeysSplit(settings);
      SetStaysSolid(a, b, c, settings[0]);
      SetAllStaysSolid(a, Set(b, settings[0]), c, settings[1..]);
    }
  }

  lemma SetRootStaysSolid(lines: Lines, settings: seq<Setting>)
    requires Solid(lines) && PlainKeys(settings)
    ensures Solid(SetRoot(lines, settings))
  {
    Halves(lines, Opens);
    StartsEmpty([], Root(lines), Rest(lines));
    SetAllStaysSolid([], Root(lines), Rest(lines), settings);
    StartsEmpty([], SetAll(Root(lines), settings), Rest(lines));
  }

  lemma SetAgentsStaysSolid(lines: Lines, settings: seq<Setting>)
    requires Solid(lines) && Ended(lines) && PlainKeys(settings)
    ensures Solid(SetAgents(lines, settings))
  {
    if HasAgents(lines) {
      AgentsParts(lines);
      SetAllStaysSolid(UpToBody(lines), AgentsBody(lines), AfterBody(lines), settings);
    } else {
      NewSectionIsSolid(lines, settings);
      SolidConcat(lines, NewSection(lines, settings));
    }
  }

  lemma NewSectionIsSolid(lines: Lines, settings: seq<Setting>)
    requires PlainKeys(settings)
    ensures Solid(NewSection(lines, settings))
  {
    var header, values := ["[agents]\n"], Fresh(settings);
    HeaderIsSolid(settings);
    if lines != [] && Strip(lines[|lines| - 1]) != "" {
      OneIsSolid("\n");
      SolidConcat(["\n"], header + values);
      assert ["\n"] + header + values == ["\n"] + (header + values);
    } else {
      assert [] + header + values == header + values;
    }
  }

  lemma OneIsSolid(line: string)
    requires EndsInBreak(line)
    ensures Solid([line])
  {
    assert [line][1..] == [];
  }

  lemma HeaderIsSolid(settings: seq<Setting>)
    requires PlainKeys(settings)
    ensures Solid(["[agents]\n"] + Fresh(settings))
  {
    var header := ["[agents]\n"];
    OneIsSolid("[agents]\n");
    assert header + [] + [] == header;
    SetAllStaysSolid(header, [], [], settings);
    FreshIsSet(settings);
    assert header + Fresh(settings) + [] == header + Fresh(settings);
  }

  lemma {:induction false} AlmostSolidEnds(lines: Lines)
    requires AlmostSolid(lines) && lines != [] && EndsInBreak(lines[|lines| - 1])
    ensures Solid(lines)
  {
    if |lines| > 1 { AlmostSolidEnds(lines[1..]); }
  }

  lemma {:induction false} AlmostSolidClosed(lines: Lines, end: string)
    requires AlmostSolid(lines) && lines != [] && end != "" && lines[|lines| - 1] != ""
        && end[0] == lines[|lines| - 1][0]
    ensures AlmostSolid(lines[..|lines| - 1] + [end])
    decreases |lines|
  {
    var front := lines[..|lines| - 1];
    if |lines| > 1 {
      AlmostSolidClosed(lines[1..], end);
      assert (front + [end])[1..] == lines[1..][..|lines| - 2] + [end];
      assert |lines| > 2 ==> (front + [end])[1] == lines[1];
    }
  }

  lemma ClosedLinesAreSolid(lines: Lines)
    requires AlmostSolid(lines) && forall k :: 0 <= k < |lines| ==> lines[k] != ""
    ensures Solid(Closed(lines))
  {
    if lines != [] {
      var last := lines[|lines| - 1];
      if Ended(lines) {
        AlmostSolidEnds(lines);
      } else {
        AlmostSolidClosed(lines, last + "\n");
        AlmostSolidEnds(lines[..|lines| - 1] + [last + "\n"]);
      }
    }
  }

  lemma ClosedIsSolid(text: string)
    ensures Solid(Closed(CutLines(text)))
  {
    CutIsWellCut(text);
    ClosedLinesAreSolid(CutLines(text));
  }

  lemma UpdateIsSolid(text: string, v: Values)
    ensures Solid(Upsert(CutLines(text), v))
  {
    var lines, r := Closed(CutLines(text)), RootSettings(v);
    RootKeysArePlain(v);
    AgentKeysArePlain(v);
    ClosedIsSolid(text);
    SetRootStaysSolid(lines, r);
    ClosedIsEnded(CutLines(text));
    SetRootStaysEnded(lines, r);
    SetAgentsStaysSolid(SetRoot(lines, r), AgentSettings(v));
  }

  // ---- Values without line ends ----

  lemma {:induction false} RecutEnds(lines: Lines)
    requires AllTame(lines) && Ended(lines)
    ensures Ended(Recut(lines)) && (lines != [] ==> Recut(lines) != [])
  {
    if lines != [] {
      TameRecutEnds(lines[0]);
      assert forall k :: 0 <= k < |lines[1..]| ==> lines[1..][k] == lines[k + 1];
      assert |lines| > 1 ==> lines[1..][|lines| - 2] == lines[|lines| - 1];
      RecutEnds(lines[1..]);
      EndedJoin(CutLines(lines[0]), Recut(lines[1..]));
    }
  }

  lemma TameRecutEnds(e: string)
    requires Tame(e)
    ensures CutLines(e) != [] && (e[|e| - 1] == '\n' ==> Ended(CutLines(e)))
  {
    TameRecut(e);
  }

  lemma {:induction false} PartsAreTame(lines: Lines)
    requires AllTame(lines) && HasAgents(lines)
    ensures AllTame(Root(lines)) && AllTame(AgentsBody(lines))
  {
    Halves(lines, Opens);
    AllTameConcat(Root(lines), Rest(lines));
    AgentsParts(lines);
    AllTameConcat(UpToBody(lines) + AgentsBody(lines), AfterBody(lines));
    AllTameConcat(UpToBody(lines), AgentsBody(lines));
  }

  lemma BreakFreeIsOneLine(v: Values)
    requires BreakFreeValues(v)
    ensures OneLineValues(v)
  {
  }

  /** Once updated and cut again, a text has every setting in its place. */
  lemma UpdatedTextHasTheSettings(text: string, v: Values)
    requires BreakFreeValues(v)
    ensures var lines := CutLines(UpsertText(text, v));
            && Ended(lines) && HasAgents(lines)
            && AllSet(Root(lines), RootSettings(v)) && AllSet(AgentsBody(lines), AgentSettings(v))
  {
    var after := Upsert(CutLines(text), v);
    UpdateIsTame(text, v);
    UpdateIsSolid(text, v);
    CutFlatten(after);
    BreakFreeIsOneLine(v);
    UpsertEnds(CutLines(text), v);
    UpsertSets(CutLines(text), v);
    PartsAreTame(after);
    RecutEnds(after);
    RootRecut(after);
    BodyRecut(after);
    RootKeysArePlain(v);
    AgentKeysArePlain(v);
    AllSetRecut(Root(after), RootSettings(v));
    AllSetRecut(AgentsBody(after), AgentSettings(v));
  }

  /** Such values are set once and for all. */
  lemma BreakFreeUpdatesAreStable(text: string, v: Values)
    requires BreakFreeValues(v)
    ensures UpsertText(UpsertText(text, v), v) == UpsertText(text, v)
  {
    var once := UpsertText(text, v);
    UpdatedTextHasTheSettings(text, v);
    UpsertIsIdle(CutLines(once), v);
    FlattenCut(once);
  }

  // ---- Values with line ends ----

  /** The number of lines when each piece is cut. */
  function Weight(lines: Lines): nat { |Recut(lines)| }

  lemma WeightConcat(a: Lines, b: Lines)
    ensures Weight(a + b) == Weight(a) + Weight(b)
  {
    RecutConcat(a, b);
  }

  lemma WeightOne(e: string)
    requires e != ""
    ensures Weight([e]) == |CutLines(e)| >= 1
  {
    assert [e][1..] == [] && Recut([e][1..]) == [];
    assert Recut([e]) == CutLines(e) + [] == CutLines(e);
  }

  /** Whatever assigns to `key` is a single line. */
  predicate Light(section: Lines, key: string) {
    forall k :: 0 <= k < |section| && Assigns(section[k], key) ==> |CutLines(section[k])| == 1
  }

  /** Setting a key takes no line away, and adds one if its value holds a line end. */
  lemma {:induction false} SetGrows(section: Lines, s: Setting)
    requires Plain(s.key) && Light(section, s.key)
    ensures Weight(Set(section, s)) >= Weight(section)
    ensures !BreakFree(Literal(s.value)) ==> Weight(Set(section, s)) > Weight(section)
    decreases |section|
  {
    if section == [] {
      WrittenStarts("", s);
      WeightOne(Assignment("", s));
    } else {
      var e, rest := section[0], section[1..];
      assert section == [e] + rest;
      assert forall k :: 0 <= k < |rest| ==> rest[k] == section[k + 1];
      WeightConcat([e], rest);
      if Assigns(e, s.key) {
        var line := Assignment(Indent(e), s);
        WrittenStarts(Indent(e), s);
        WrittenLineIsOneLine(Indent(e), s);
        assert e != "" by { StripLeftTail(e); }
        WeightOne(e);
        WeightOne(line);
        WeightConcat([line], rest);
      } else {
        SetGrows(rest, s);
        WeightConcat([e], Set(rest, s));
      }
    }
  }

  lemma LightFirst(e: string, rest: Lines, key: string)
    ensures Light([e] + rest, key) <==> (Assigns(e, key) ==> |CutLines(e)| == 1) && Light(rest, key)
  {
    var all := [e] + rest;
    assert all[0] == e && forall k :: 0 <= k < |rest| ==> all[k + 1] == rest[k];
    if Light(all, key) {
      forall k | 0 <= k < |rest| && Assigns(rest[k], key) ensures |CutLines(rest[k])| == 1 {
        assert all[k + 1] == rest[k];
      }
    }
  }

  /** Setting one key leaves the lines of another as light as they were. */
  lemma {:induction false} SetStaysLight(section: Lines, s: Setting, key: string)
    requires Plain(s.key) && Plain(key) && key != s.key && Light(section, key)
    ensures Light(Set(section, s), key)
    decreases |section|
  {
    if section == [] {
      WrittenLineIsOther("", s, key);
      LightFirst(Assignment("", s), [], key);
      assert [Assignment("", s)] + [] == [Assignment("", s)];
    } else {
      var e, rest := section[0], section[1..];
      assert section == [e] + rest;
      LightFirst(e, rest, key);
      if Assigns(e, s.key) {
        IndentIsSpace(e);
        WrittenLineIsOther(Indent(e), s, key);
        LightFirst(Assignment(Indent(e), s), rest, key);
      } else {
        SetStaysLight(rest, s, key);
        LightFirst(e, Set(rest, s), key);
      }
    }
  }

  lemma {:induction false} SetAllGrows(section: Lines, settings: seq<Setting>)
    requires PlainKeys(settings) && forall i :: 0 <= i < |settings| ==> Light(section, settings[i].key)
    ensures Weight(SetAll(section, settings)) >= Weight(section)
    ensures !BreakFreeSettings(settings) ==> Weight(SetAll(section, settings)) > Weight(section)
    decreases |settings|
  {
    if settings != [] {
      var next, rest := Set(section, settings[0]), settings[1..];
      PlainKeysSplit(settings);
      SetGrows(section, settings[0]);
      forall i | 0 <= i < |rest| ensures Light(next, rest[i].key) {
        assert rest[i] == settings[i + 1];
        SetStaysLight(section, settings[0], rest[i].key);
      }
      SetAllGrows(next, rest);
      assert !BreakFreeSettings(settings) ==> !BreakFree(Literal(settings[0].value)) || !BreakFreeSettings(rest) by {
        assert forall i :: 0 < i < |settings| ==> settings[i] == rest[i - 1];
      }
    }
  }

  /** Each piece is a single line. */
  predicate AllSingle(lines: Lines) {
    forall k :: 0 <= k < |lines| ==> |CutLines(lines[k])| == 1
  }

  lemma AllSingleConcat(a: Lines, b: Lines)
    ensures AllSingle(a + b) <==> AllSingle(a) && AllSingle(b)
  {
    if AllSingle(a + b) {
      forall k | 0 <= k < |a| ensures |CutLines(a[k])| == 1 { assert a[k] == (a + b)[k]; }
      forall k | 0 <= k < |b| ensures |CutLines(b[k])| == 1 { assert b[k] == (a + b)[|a| + k]; }
    }
  }

  lemma SetRootGrows(lines: Lines, settings: seq<Setting>)
    requires AllSingle(lines) && PlainKeys(settings)
    ensures Weight(SetRoot(lines, settings)) >= Weight(lines) && AllSingle(Rest(lines))
    ensures !BreakFreeSettings(settings) ==> Weight(SetRoot(lines, settings)) > Weight(lines)
  {
    Halves(lines, Opens);
    AllSingleConcat(Root(lines), Rest(lines));
    SetAllGrows(Root(lines), settings);
    WeightConcat(Root(lines), Rest(lines));
    WeightConcat(SetAll(Root(lines), settings), Rest(lines));
  }

  lemma SetAgentsGrows(lines: Lines, settings: seq<Setting>)
    requires AllSingle(Rest(lines)) && PlainKeys(settings)
    ensures Weight(SetAgents(lines, settings)) >= Weight(lines)
    ensures !BreakFreeSettings(settings) ==> Weight(SetAgents(lines, settings)) > Weight(lines)
  {
    if HasAgents(lines) {
      var a, b, c, body := UpToBody(lines), AgentsBody(lines), AfterBody(lines), SetAll(AgentsBody(lines), settings);
      AgentsParts(lines);
      BodyIsSingle(lines);
      SetAllGrows(b, settings);
      WeightConcat(a + b, c);
      WeightConcat(a, b);
      WeightConcat(a + body, c);
      WeightConcat(a, body);
    } else {
      var added := NewSection(lines, settings);
      WeightConcat(lines, added);
      var blank := if lines != [] && Strip(lines[|lines| - 1]) != "" then ["\n"] else [];
      WeightConcat(blank + ["[agents]\n"], Fresh(settings));
      WeightConcat(blank, ["[agents]\n"]);
      WeightOne("[agents]\n");
    }
  }

  lemma BodyIsSingle(lines: Lines)
    requires AllSingle(Rest(lines)) && HasAgents(lines)
    ensures AllSingle(AgentsBody(lines))
  {
    var rest := Rest(lines);
    NameIsInASection(lines, Opens, OpensAgents);
    SectionIsInRest(lines, Opens, OpensAgents);
    AgentsParts(rest);
    AllSingleConcat(UpToBody(rest) + AgentsBody(rest), AfterBody(rest));
    AllSingleConcat(UpToBody(rest), AgentsBody(rest));
  }

  /** A value with a line end makes every update of a text that ends with a newline add lines. */
  lemma BrokenUpdatesGrow(text: string, v: Values)
    requires !BreakFreeValues(v) && Ended(CutLines(text))
    ensures |CutLines(UpsertText(text, v))| > |CutLines(text)|
  {
    var lines, r, a := CutLines(text), RootSettings(v), AgentSettings(v);
    CutIsWellCut(text);
    RootKeysArePlain(v);
    AgentKeysArePlain(v);
    SetRootGrows(lines, r);
    SetRootSets(lines, r);
    SetAgentsGrows(SetRoot(lines, r), a);
    BrokenSettings(v);
    UpdateIsSolid(text, v);
    CutFlatten(Upsert(lines, v));
    WeightOfSingles(lines);
  }

  lemma {:induction false} WeightOfSingles(lines: Lines)
    requires AllSingle(lines)
    ensures Weight(lines) == |lines|
  {
    if lines != [] {
      assert forall k :: 0 <= k < |lines[1..]| ==> lines[1..][k] == lines[k + 1];
      WeightOfSingles(lines[1..]);
    }
  }

  lemma BrokenSettings(v: Values)
    requires !BreakFreeValues(v)
    ensures !BreakFreeSettings(RootSettings(v)) || !BreakFreeSettings(AgentSettings(v))
  {
    var r, a := RootSettings(v), AgentSettings(v);
    LiteralIsBreakFree(r[0].value);
    LiteralIsBreakFree(r[1].value);
    LiteralIsBreakFree(a[2].value);
    LiteralIsBreakFree(a[3].value);
  }

  lemma UpdatedTextEnds(text: string, v: Values)
    ensures Ended(CutLines(UpsertText(text, v)))
  {
    UpsertEnds(CutLines(text), v);
    FlattenedEnds(Upsert(CutLines(text), v));
  }

  lemma FlattenedEnds(lines: Lines)
    requires Ended(lines) && lines != []
    ensures Ended(CutLines(Flatten(lines)))
  {
    FlattenEnds(lines);
    CutEnds(Flatten(lines));
  }

  lemma CutEnds(text: string)
    requires text != "" && text[|text| - 1] == '\n'
    ensures Ended(CutLines(text))
  {
    FlattenCut(text);
    FlattenEnds(CutLines(text));
  }

  /**
   * Of any text: updating twice is updating once exactly when no value holds a line end. Otherwise every further update
   * finds only the first line of what it wrote, writes the whole again, and leaves the rest behind.
   */
  lemma UpdatingTwiceExactlyWhen(text: string, v: Values)
    ensures UpsertText(UpsertText(text, v), v) == UpsertText(text, v) <==> BreakFreeValues(v)
    ensures !BreakFreeValues(v) ==> |CutLines(UpsertText(UpsertText(text, v), v))| > |CutLines(UpsertText(text, v))|
  {
    if BreakFreeValues(v) {
      BreakFreeUpdatesAreStable(text, v);
    } else {
      UpdatedTextEnds(text, v);
      BrokenUpdatesGrow(UpsertText(text, v), v);
    }
  }

  /** A newline, or a carriage return alone, is enough. */
  lemma OneLineEndIsEnough(text: string, v: Values)
    requires v.orchestratorModel == "a\nb" || v.orchestratorModel == "a\rb"
    ensures UpsertText(UpsertText(text, v), v) != UpsertText(text, v)
  {
    assert IsBreak(v.orchestratorModel[1]);
    UpdatingTwiceExactlyWhen(text, v);
  }

  // ---- The update ----

  method UpsertCodexConfig(existing: string, v: Values) returns (text: string)
    ensures text == UpsertText(existing, v)
  {
    var lines := UpsertConfig(CutLines(existing), v);
    text := Flatten(lines);
  }
}
