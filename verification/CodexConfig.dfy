/**
 * Keeping a handful of keys up to date in a configuration file that belongs to its user: a key that is there has its
 * line rewritten, a key that is not gets a line at the end of its section. A file is a list of lines, each with its
 * line end.
 */
module CodexConfig {
  import opened Wrappers
  import opened Text
  import opened Sections
  import TomlText

  type Lines = seq<string>

  datatype Scalar = Flag(on: bool) | Number(n: int) | Word(s: string)

  datatype Setting = Setting(key: string, value: Scalar)

  datatype Values = Values(
    orchestratorModel: string, orchestratorEffort: string, workerModel: string, workerEffort: string, maxThreads: int)

  // ---- Patterns ----

  /** Nothing but the last character may be a newline: the rest of a line, as a pattern sees it. */
  predicate EndsLine(s: string) {
    forall i :: 0 <= i < |s| - 1 ==> s[i] != '\n'
  }

  /** White space at the front of a line. */
  function Indent(line: string): string {
    if line != [] && IsSpace(line[0]) then [line[0]] + Indent(line[1..]) else ""
  }

  predicate StartsWith(s: string, p: string) {
    |p| <= |s| && s[..|p|] == p
  }

  /** The line assigns to `key`: white space, the key, white space, an equals sign, and the rest of the line. */
  predicate Assigns(line: string, key: string) {
    var t := StripLeft(line);
    && StartsWith(t, key)
    && (var u := StripLeft(t[|key|..]); u != "" && u[0] == '=' && EndsLine(u[1..]))
  }

  /** The text up to the first closing bracket. */
  function UpToBracket(s: string): Option<string> {
    if s == "" then None
    else if s[0] == ']' then Some("")
    else match UpToBracket(s[1..]) case None => None case Some(t) => Some([s[0]] + t)
  }

  /** The name of the section a line opens, if it opens one. */
  function SectionName(line: string): Option<string> {
    var t := StripLeft(line);
    if t == "" || t[0] != '[' then None
    else
      match UpToBracket(t[1..])
      case None => None
      case Some(name) =>
        if name == "" || |name| + 2 > |t| then None
        else
          var rest := StripLeft(t[|name| + 2..]);
          if rest == "" || (rest[0] == '#' && EndsLine(rest)) then Some(Strip(name)) else None
  }

  // ---- Values ----

  function EscapeQuotes(s: string): string {
    if s == "" then ""
    else (if s[0] == '\\' then "\\\\" else if s[0] == '"' then "\\\"" else [s[0]]) + EscapeQuotes(s[1..])
  }

  function Literal(v: Scalar): string {
    match v
    case Flag(on) => if on then "true" else "false"
    case Number(n) => TomlText.IntText(n)
    case Word(s) => ['"'] + EscapeQuotes(s) + ['"']
  }

  function Assignment(indent: string, s: Setting): string {
    indent + s.key + " = " + Literal(s.value) + "\n"
  }

  // ---- One section ----

  /** Rewrites the first assignment to the key, or adds one at the end. */
  function Set(section: Lines, s: Setting): Lines {
    if section == [] then [Assignment("", s)]
    else if Assigns(section[0], s.key) then [Assignment(Indent(section[0]), s)] + section[1..]
    else [section[0]] + Set(section[1..], s)
  }

  function SetAll(section: Lines, settings: seq<Setting>): Lines
    decreases |settings|
  {
    if settings == [] then section else SetAll(Set(section, settings[0]), settings[1..])
  }

  /** The first assignment to a key. */
  function FirstAssignment(section: Lines, key: string): Option<string> {
    if section == [] then None
    else if Assigns(section[0], key) then Some(section[0])
    else FirstAssignment(section[1..], key)
  }

  /** The indent a key's line keeps. */
  function KeptIndent(section: Lines, key: string): string {
    match FirstAssignment(section, key) case None => "" case Some(line) => Indent(line)
  }

  /** A key as the managed ones are: not empty, without white space, equals signs or brackets. */
  predicate Plain(key: string) {
    key != "" && forall i :: 0 <= i < |key| ==> !IsSpace(key[i]) && key[i] != '=' && key[i] != '['
  }

  /** Plain keys, each once. */
  ghost predicate PlainKeys(settings: seq<Setting>) {
    && (forall i :: 0 <= i < |settings| ==> Plain(settings[i].key))
    && forall i, j :: 0 <= i < j < |settings| ==> settings[i].key != settings[j].key
  }

  /** Plain keys, each once, with values free of newlines. */
  ghost predicate Manageable(settings: seq<Setting>) {
    PlainKeys(settings) && forall i :: 0 <= i < |settings| ==> '\n' !in Literal(settings[i].value)
  }

  // ---- What a written line is ----

  lemma {:induction false} StripLeftOf(indent: string, rest: string)
    requires (forall i :: 0 <= i < |indent| ==> IsSpace(indent[i])) && rest != "" && !IsSpace(rest[0])
    ensures StripLeft(indent + rest) == rest && Indent(indent + rest) == indent
  {
    if indent == "" {
      assert indent + rest == rest;
    } else {
      StripLeftOf(indent[1..], rest);
      assert (indent + rest)[1..] == indent[1..] + rest;
    }
  }

  lemma {:induction false} IndentIsSpace(line: string)
    ensures forall i :: 0 <= i < |Indent(line)| ==> IsSpace(Indent(line)[i])
    ensures Indent(line) + StripLeft(line) == line
  {
    if line != [] && IsSpace(line[0]) {
      var rest := Indent(line[1..]);
      IndentIsSpace(line[1..]);
      assert Indent(line) == [line[0]] + rest;
      assert [line[0]] + rest + StripLeft(line[1..]) == [line[0]] + (rest + StripLeft(line[1..])) == line;
    }
  }

  predicate Blank(indent: string) {
    forall i :: 0 <= i < |indent| ==> IsSpace(indent[i])
  }

  lemma WrittenStripped(indent: string, s: Setting)
    requires Blank(indent) && Plain(s.key)
    ensures Indent(Assignment(indent, s)) == indent
    ensures StripLeft(Assignment(indent, s)) == s.key + (" = " + Literal(s.value) + "\n")
  {
    var rest := " = " + Literal(s.value) + "\n";
    StripLeftOf(indent, s.key + rest);
    assert Assignment(indent, s) == indent + (s.key + rest);
  }

  lemma ValueEndsLine(value: string)
    ensures EndsLine(" " + value + "\n") <==> '\n' !in value
  {
    var tail := " " + value + "\n";
    if '\n' in value {
      var i :| 0 <= i < |value| && value[i] == '\n';
      assert tail[i + 1] == '\n';
    } else {
      forall i | 0 <= i < |tail| - 1 ensures tail[i] != '\n' { assert i > 0 ==> tail[i] == value[i - 1]; }
    }
  }

  lemma WrittenAssigns(indent: string, s: Setting)
    requires Blank(indent) && Plain(s.key)
    ensures Assigns(Assignment(indent, s), s.key) <==> '\n' !in Literal(s.value)
  {
    var value := Literal(s.value);
    var rest, tail := " = " + value + "\n", " " + value + "\n";
    WrittenStripped(indent, s);
    assert (s.key + rest)[|s.key|..] == rest && (s.key + rest)[..|s.key|] == s.key;
    assert rest == " " + (['='] + tail) && (['='] + tail)[1..] == tail;
    StripLeftOf(" ", ['='] + tail);
    ValueEndsLine(value);
  }

  /** A written line assigns to its own key, exactly when its value holds no newline, keeps its indent, and opens no
      section. */
  lemma WrittenLine(indent: string, s: Setting)
    requires Blank(indent) && Plain(s.key)
    ensures Indent(Assignment(indent, s)) == indent
    ensures Assigns(Assignment(indent, s), s.key) <==> '\n' !in Literal(s.value)
    ensures SectionName(Assignment(indent, s)) == None
  {
    WrittenStripped(indent, s);
    WrittenAssigns(indent, s);
    assert StripLeft(Assignment(indent, s))[0] == s.key[0] != '[';
  }

  /** What follows a shorter match goes on with the longer key. */
  lemma KeyGoesOn(t: string, a: string, b: string)
    requires Plain(b) && StartsWith(t, a) && StartsWith(t, b) && |a| < |b|
    ensures var u := StripLeft(t[|a|..]); u != "" && u[0] != '='
  {
    assert t[|a|..][0] == t[|a|] == b[|a|];
  }

  /** A line assigns to at most one plain key. */
  lemma OneKeyPerLine(line: string, a: string, b: string)
    requires Plain(a) && Plain(b) && Assigns(line, a) && Assigns(line, b)
    ensures a == b
  {
    if |a| < |b| { KeyGoesOn(StripLeft(line), a, b); }
    if |b| < |a| { KeyGoesOn(StripLeft(line), b, a); }
  }

  // ---- One setting ----

  /** Setting a key gives it its line, leaves the first assignments of other keys alone, and is undone by nothing. */
  lemma {:induction false} SetGives(section: Lines, s: Setting)
    requires Plain(s.key) && '\n' !in Literal(s.value)
    ensures FirstAssignment(Set(section, s), s.key) == Some(Assignment(KeptIndent(section, s.key), s))
    ensures Set(Set(section, s), s) == Set(section, s)
    decreases |section|
  {
    if section == [] {
      WrittenLine("", s);
    } else if Assigns(section[0], s.key) {
      IndentIsSpace(section[0]);
      WrittenLine(Indent(section[0]), s);
    } else {
      SetGives(section[1..], s);
    }
  }

  lemma {:induction false} SetLeavesOthers(section: Lines, s: Setting, key: string)
    requires Plain(s.key) && Plain(key) && key != s.key && '\n' !in Literal(s.value)
    ensures FirstAssignment(Set(section, s), key) == FirstAssignment(section, key)
    decreases |section|
  {
    if section == [] {
      WrittenLine("", s);
      if Assigns(Assignment("", s), key) { OneKeyPerLine(Assignment("", s), s.key, key); }
    } else if Assigns(section[0], s.key) {
      var line := Assignment(Indent(section[0]), s);
      IndentIsSpace(section[0]);
      WrittenLine(Indent(section[0]), s);
      if Assigns(line, key) { OneKeyPerLine(line, s.key, key); }
      if Assigns(section[0], key) { OneKeyPerLine(section[0], s.key, key); }
    } else {
      SetLeavesOthers(section[1..], s, key);
    }
  }

  /** A key whose first line is as it would be written. */
  predicate IsSet(section: Lines, s: Setting) {
    FirstAssignment(section, s.key) == Some(Assignment(KeptIndent(section, s.key), s))
  }

  lemma {:induction false} SetIsIdle(section: Lines, s: Setting)
    requires IsSet(section, s)
    ensures Set(section, s) == section
    decreases |section|
  {
    if !Assigns(section[0], s.key) { SetIsIdle(section[1..], s); }
  }

  // ---- All settings of a section ----

  lemma PlainKeysSplit(settings: seq<Setting>)
    requires PlainKeys(settings) && settings != []
    ensures PlainKeys(settings[1..])
    ensures forall i :: 0 <= i < |settings[1..]| ==> settings[1..][i].key != settings[0].key
  {
    assert forall i :: 0 <= i < |settings[1..]| ==> settings[1..][i] == settings[i + 1];
  }

  lemma ManageableSplit(settings: seq<Setting>)
    requires Manageable(settings) && settings != []
    ensures Manageable(settings[1..])
    ensures forall i :: 0 <= i < |settings[1..]| ==> settings[1..][i].key != settings[0].key
  {
    assert forall i :: 0 <= i < |settings[1..]| ==> settings[1..][i] == settings[i + 1];
  }

  lemma {:induction false} SetAllLeavesOthers(section: Lines, settings: seq<Setting>, key: string)
    requires Manageable(settings) && Plain(key) && forall i :: 0 <= i < |settings| ==> settings[i].key != key
    ensures FirstAssignment(SetAll(section, settings), key) == FirstAssignment(section, key)
    decreases |settings|
  {
    if settings != [] {
      ManageableSplit(settings);
      assert forall i :: 0 <= i < |settings[1..]| ==> settings[1..][i] == settings[i + 1];
      SetLeavesOthers(section, settings[0], key);
      SetAllLeavesOthers(Set(section, settings[0]), settings[1..], key);
    }
  }

  /** Each managed key's first line has its value, and the indent it had before. */
  lemma {:induction false} SetAllGives(section: Lines, settings: seq<Setting>, i: nat)
    requires Manageable(settings) && i < |settings|
    ensures FirstAssignment(SetAll(section, settings), settings[i].key)
            == Some(Assignment(KeptIndent(section, settings[i].key), settings[i]))
    decreases |settings|
  {
    ManageableSplit(settings);
    var next := Set(section, settings[0]);
    if i == 0 {
      SetGives(section, settings[0]);
      SetAllLeavesOthers(next, settings[1..], settings[0].key);
    } else {
      assert settings[1..][i - 1] == settings[i];
      SetLeavesOthers(section, settings[0], settings[i].key);
      SetAllGives(next, settings[1..], i - 1);
    }
  }

  ghost predicate AllSet(section: Lines, settings: seq<Setting>) {
    forall i :: 0 <= i < |settings| ==> IsSet(section, settings[i])
  }

  lemma SetAllSets(section: Lines, settings: seq<Setting>)
    requires Manageable(settings)
    ensures AllSet(SetAll(section, settings), settings)
  {
    forall i | 0 <= i < |settings| ensures IsSet(SetAll(section, settings), settings[i]) {
      SetAllGives(section, settings, i);
      var indent := KeptIndent(section, settings[i].key);
      var first := FirstAssignment(section, settings[i].key);
      if first.Some? { IndentIsSpace(first.value); }
      WrittenLine(indent, settings[i]);
    }
  }

  lemma {:induction false} SetAllIsIdle(section: Lines, settings: seq<Setting>)
    requires AllSet(section, settings)
    ensures SetAll(section, settings) == section
    decreases |settings|
  {
    if settings != [] {
      SetIsIdle(section, settings[0]);
      assert forall i :: 0 <= i < |settings[1..]| ==> settings[1..][i] == settings[i + 1];
      SetAllIsIdle(section, settings[1..]);
    }
  }

  // ---- What is left alone ----

  /** The lines of a section without the first assignment to each of `keys`. */
  function Unmanaged(section: Lines, keys: set<string>): Lines {
    if section == [] then []
    else
      var mine := set k | k in keys && Assigns(section[0], k);
      if mine != {} then Unmanaged(section[1..], keys - mine) else [section[0]] + Unmanaged(section[1..], keys)
  }

  lemma MineIsOne(line: string, keys: set<string>, key: string)
    requires key in keys && Assigns(line, key) && forall k :: k in keys ==> Plain(k)
    ensures (set k | k in keys && Assigns(line, k)) == {key}
  {
    forall k | k in keys && Assigns(line, k) ensures k == key { OneKeyPerLine(line, k, key); }
  }

  /** Setting a key keeps every other line, in order. */
  lemma {:induction false} SetKeepsTheRest(section: Lines, s: Setting, keys: set<string>)
    requires s.key in keys && (forall k :: k in keys ==> Plain(k)) && '\n' !in Literal(s.value)
    ensures Unmanaged(Set(section, s), keys) == Unmanaged(section, keys)
    decreases |section|
  {
    if section == [] {
      WrittenLine("", s);
      MineIsOne(Assignment("", s), keys, s.key);
    } else if Assigns(section[0], s.key) {
      IndentIsSpace(section[0]);
      WrittenLine(Indent(section[0]), s);
      MineIsOne(Assignment(Indent(section[0]), s), keys, s.key);
      MineIsOne(section[0], keys, s.key);
    } else {
      var mine := set k | k in keys && Assigns(section[0], k);
      assert s.key !in mine;
      SetKeepsTheRest(section[1..], s, if mine != {} then keys - mine else keys);
    }
  }

  function KeysOf(settings: seq<Setting>): set<string> {
    set i | 0 <= i < |settings| :: settings[i].key
  }

  /** Setting all keys keeps every line but the first assignment to each. */
  lemma {:induction false} SetAllKeepsTheRest(section: Lines, settings: seq<Setting>, keys: set<string>)
    requires Manageable(settings) && KeysOf(settings) <= keys && forall k :: k in keys ==> Plain(k)
    ensures Unmanaged(SetAll(section, settings), keys) == Unmanaged(section, keys)
    decreases |settings|
  {
    if settings != [] {
      ManageableSplit(settings);
      assert settings[0].key in KeysOf(settings);
      SetKeepsTheRest(section, settings[0], keys);
      forall k | k in KeysOf(settings[1..]) ensures k in keys {
        var i :| 0 <= i < |settings[1..]| && settings[1..][i].key == k;
        assert settings[i + 1].key in KeysOf(settings);
      }
      SetAllKeepsTheRest(Set(section, settings[0]), settings[1..], keys);
    }
  }

  // ---- The whole file ----

  predicate Opens(line: string) { SectionName(line).Some? }

  const Agents: string := "agents"

  predicate OpensAgents(line: string) { SectionName(line) == Some(Agents) }

  /** The lines before the first section, and the rest. */
  function Root(lines: Lines): Lines { Before(lines, Opens) }
  function Rest(lines: Lines): Lines { From(lines, Opens) }

  /** The lines up to the header of the first section named `agents`, the lines of that section, and the rest. */
  predicate HasAgents(lines: Lines) { Has(lines, OpensAgents) }
  function UpToBody(lines: Lines): Lines { UpTo(lines, OpensAgents) }
  function AgentsBody(lines: Lines): Lines { Body(lines, Opens, OpensAgents) }
  function AfterBody(lines: Lines): Lines { From(After(lines, OpensAgents), Opens) }

  /** The last line ends with a newline. */
  predicate Ended(lines: Lines) {
    lines != [] ==> (var last := lines[|lines| - 1]; last != "" && last[|last| - 1] == '\n')
  }

  function Closed(lines: Lines): Lines {
    if Ended(lines) then lines else lines[..|lines| - 1] + [lines[|lines| - 1] + "\n"]
  }

  const ModelKey: string := "model"
  const EffortKey: string := "model_reasoning_effort"
  const EnabledKey: string := "enabled"
  const ThreadsKey: string := "max_concurrent_threads_per_session"
  const WorkerModelKey: string := "default_subagent_model"
  const WorkerEffortKey: string := "default_subagent_reasoning_effort"
  const InterruptKey: string := "interrupt_message"

  function RootSettings(v: Values): seq<Setting> {
    [Setting(ModelKey, Word(v.orchestratorModel)), Setting(EffortKey, Word(v.orchestratorEffort))]
  }

  function AgentSettings(v: Values): seq<Setting> {
    [Setting(EnabledKey, Flag(true)),
     Setting(ThreadsKey, Number(v.maxThreads)),
     Setting(WorkerModelKey, Word(v.workerModel)),
     Setting(WorkerEffortKey, Word(v.workerEffort)),
     Setting(InterruptKey, Flag(true))]
  }

  /** The lines before the first section, set; the others as they are. */
  function SetRoot(lines: Lines, settings: seq<Setting>): Lines {
    SetAll(Root(lines), settings) + Rest(lines)
  }

  function Fresh(settings: seq<Setting>): Lines {
    if settings == [] then [] else [Assignment("", settings[0])] + Fresh(settings[1..])
  }

  /** A new section at the end, after an empty line unless there is one. */
  function NewSection(lines: Lines, settings: seq<Setting>): Lines {
    (if lines != [] && Strip(lines[|lines| - 1]) != "" then ["\n"] else []) + ["[agents]\n"] + Fresh(settings)
  }

  function SetAgents(lines: Lines, settings: seq<Setting>): Lines {
    if HasAgents(lines) then UpToBody(lines) + SetAll(AgentsBody(lines), settings) + AfterBody(lines)
    else lines + NewSection(lines, settings)
  }

  /** The whole update of a file. */
  function Upsert(lines: Lines, v: Values): Lines {
    SetAgents(SetRoot(Closed(lines), RootSettings(v)), AgentSettings(v))
  }

  // ---- Setting a section keeps it a section ----

  lemma {:induction false} SetOpensNothing(section: Lines, s: Setting)
    requires Plain(s.key) && NoneOpen(section, Opens)
    ensures NoneOpen(Set(section, s), Opens)
    ensures Set(section, s) != [] && (Ended(section) ==> Ended(Set(section, s)))
    decreases |section|
  {
    if section == [] {
      WrittenLine("", s);
    } else if Assigns(section[0], s.key) {
      IndentIsSpace(section[0]);
      WrittenLine(Indent(section[0]), s);
    } else {
      SetOpensNothing(section[1..], s);
    }
  }

  lemma {:induction false} SetAllOpensNothing(section: Lines, settings: seq<Setting>)
    requires PlainKeys(settings) && NoneOpen(section, Opens)
    ensures NoneOpen(SetAll(section, settings), Opens)
    ensures Ended(section) ==> Ended(SetAll(section, settings))
    ensures section != [] || settings != [] ==> SetAll(section, settings) != []
    decreases |settings|
  {
    if settings != [] {
      PlainKeysSplit(settings);
      SetOpensNothing(section, settings[0]);
      SetAllOpensNothing(Set(section, settings[0]), settings[1..]);
    }
  }

  lemma EndedJoin(a: Lines, b: Lines)
    ensures Ended(a + b) <==> if b == [] then Ended(a) else Ended(b)
  {
    if b == [] { assert a + b == a; }
  }

  // ---- Setting the root ----

  /** The root has its settings, and all after it is as before. */
  lemma SetRootSets(lines: Lines, settings: seq<Setting>)
    requires PlainKeys(settings)
    ensures Root(SetRoot(lines, settings)) == SetAll(Root(lines), settings)
    ensures Rest(SetRoot(lines, settings)) == Rest(lines)
  {
    Halves(lines, Opens);
    SetAllOpensNothing(Root(lines), settings);
    HalvesOf(SetAll(Root(lines), settings), Rest(lines), Opens);
    assert SetAll(Root(lines), settings) + [] == SetAll(Root(lines), settings);
  }

  lemma SetRootStaysEnded(lines: Lines, settings: seq<Setting>)
    requires PlainKeys(settings) && Ended(lines)
    ensures Ended(SetRoot(lines, settings))
  {
    Halves(lines, Opens);
    EndedJoin(Root(lines), Rest(lines));
    SetAllOpensNothing(Root(lines), settings);
    EndedJoin(SetAll(Root(lines), settings), Rest(lines));
  }

  lemma SetRootIsIdle(lines: Lines, settings: seq<Setting>)
    requires AllSet(Root(lines), settings)
    ensures SetRoot(lines, settings) == lines
  {
    SetAllIsIdle(Root(lines), settings);
    Halves(lines, Opens);
  }

  // ---- Setting the agents section ----

  lemma AgentsParts(lines: Lines)
    requires HasAgents(lines)
    ensures UpToBody(lines) + AgentsBody(lines) + AfterBody(lines) == lines
    ensures NoneOpen(AgentsBody(lines), Opens) && UpToBody(lines) != []
  {
    CutAtName(lines, OpensAgents);
    Halves(After(lines, OpensAgents), Opens);
  }

  /** With the section there, it has its settings, and all around it is as before. */
  lemma SetAgentsSets(lines: Lines, settings: seq<Setting>)
    requires PlainKeys(settings) && HasAgents(lines)
    ensures var after := SetAgents(lines, settings);
            && HasAgents(after) && UpToBody(after) == UpToBody(lines) && AfterBody(after) == AfterBody(lines)
            && AgentsBody(after) == SetAll(AgentsBody(lines), settings) && Root(after) == Root(lines)
  {
    var body, rest := SetAll(AgentsBody(lines), settings), AfterBody(lines);
    AgentsParts(lines);
    SetAllOpensNothing(AgentsBody(lines), settings);
    assert UpToBody(lines) + body + rest == UpToBody(lines) + (body + rest);
    CutAtNameOf(lines, body + rest, OpensAgents);
    Halves(After(lines, OpensAgents), Opens);
    HalvesOf(body, rest, Opens);
    assert body + [] == body;
    StartIsBeforeName(lines, body + rest, Opens, OpensAgents);
  }

  lemma SetAgentsStaysEnded(lines: Lines, settings: seq<Setting>)
    requires PlainKeys(settings) && Ended(lines) && HasAgents(lines)
    ensures Ended(SetAgents(lines, settings))
  {
    AgentsParts(lines);
    var a, b, c, body := UpToBody(lines), AgentsBody(lines), AfterBody(lines), SetAll(AgentsBody(lines), settings);
    SetAllOpensNothing(b, settings);
    EndedJoin(a + b, c);
    EndedJoin(a, b);
    EndedJoin(a + body, c);
    EndedJoin(a, body);
    if settings == [] { assert body == b; }
  }

  lemma SetAgentsIsIdle(lines: Lines, settings: seq<Setting>)
    requires HasAgents(lines) && AllSet(AgentsBody(lines), settings)
    ensures SetAgents(lines, settings) == lines
  {
    SetAllIsIdle(AgentsBody(lines), settings);
    AgentsParts(lines);
  }

  // ---- A new agents section ----

  /** Whatever its value, a written line assigns to no other plain key. */
  lemma WrittenLineIsOther(indent: string, s: Setting, key: string)
    requires Blank(indent) && Plain(s.key) && Plain(key) && key != s.key
    ensures !Assigns(Assignment(indent, s), key)
  {
    var rest := " = " + Literal(s.value) + "\n";
    var line := StripLeft(Assignment(indent, s));
    WrittenStripped(indent, s);
    assert line == s.key + rest && line[..|s.key|] == s.key;
    if StartsWith(line, key) {
      if |key| < |s.key| { KeyGoesOn(line, key, s.key); }
      if |key| > |s.key| { LongerKeyGoesOn(s.key, rest, key); }
    }
  }

  lemma LongerKeyGoesOn(a: string, rest: string, key: string)
    requires rest != "" && |key| > |a| && StartsWith(a + rest, key)
    ensures key[|a|] == rest[0]
  {
    assert key[|a|] == (a + rest)[|a|];
  }

  lemma {:induction false} FreshLast(done: seq<Setting>, s: Setting)
    ensures Fresh(done + [s]) == Fresh(done) + [Assignment("", s)]
    decreases |done|
  {
    if done != [] {
      FreshLast(done[1..], s);
      assert (done + [s])[1..] == done[1..] + [s];
    }
  }

  lemma {:induction false} SetAddsAtTheEnd(done: seq<Setting>, s: Setting)
    requires Plain(s.key) && forall i :: 0 <= i < |done| ==> Plain(done[i].key) && done[i].key != s.key
    ensures Set(Fresh(done), s) == Fresh(done) + [Assignment("", s)]
    decreases |done|
  {
    if done != [] {
      var rest := done[1..];
      assert forall i :: 0 <= i < |rest| ==> rest[i] == done[i + 1];
      SetAddsAtTheEnd(rest, s);
      WrittenLineIsOther("", done[0], s.key);
    }
  }

  lemma {:induction false} SetAllLast(section: Lines, settings: seq<Setting>, s: Setting)
    ensures SetAll(section, settings + [s]) == Set(SetAll(section, settings), s)
    decreases |settings|
  {
    if settings == [] {
      assert [] + [s] == [s] && [s][1..] == [];
    } else {
      assert (settings + [s])[0] == settings[0] && (settings + [s])[1..] == settings[1..] + [s];
      SetAllLast(Set(section, settings[0]), settings[1..], s);
    }
  }

  /** Setting plain keys in an empty section writes one line for each. */
  lemma {:induction false} FreshIsSet(settings: seq<Setting>)
    requires PlainKeys(settings)
    ensures SetAll([], settings) == Fresh(settings)
    decreases |settings|
  {
    if settings != [] {
      var front, last := settings[..|settings| - 1], settings[|settings| - 1];
      assert settings == front + [last];
      FreshIsSet(front);
      SetAllLast([], front, last);
      SetAddsAtTheEnd(front, last);
      FreshLast(front, last);
    }
  }

  lemma {:induction false} UpToBracketOf(name: string, rest: string)
    requires ']' !in name
    ensures UpToBracket(name + "]" + rest) == Some(name)
  {
    var s := name + "]" + rest;
    if name != "" {
      UpToBracketOf(name[1..], rest);
      assert s[1..] == name[1..] + "]" + rest;
      assert [name[0]] + name[1..] == name;
    }
  }

  /** A bracketed name at the start of a line opens that section. */
  lemma BracketsOpen(name: string)
    requires name != "" && Trimmed(name) && ']' !in name
    ensures SectionName("[" + name + "]\n") == Some(name)
  {
    var line := "[" + name + "]\n";
    assert StripLeft(line) == line;
    assert line[1..] == name + "]" + "\n";
    UpToBracketOf(name, "\n");
    assert line[|name| + 2..] == "\n";
    BlankLine();
    StripTrims(name);
  }

  lemma BlankLine()
    ensures StripLeft("\n") == "" && !Opens("\n")
  {
    assert "\n"[1..] == "";
  }

  lemma AgentsLine()
    ensures OpensAgents("[agents]\n") && Ended(["[agents]\n"])
  {
    BracketsOpen(Agents);
    assert "[" + Agents + "]\n" == "[agents]\n";
  }

  lemma {:induction false} FreshOpensNothing(settings: seq<Setting>)
    requires PlainKeys(settings)
    ensures NoneOpen(Fresh(settings), Opens) && Ended(Fresh(settings))
    decreases |settings|
  {
    if settings != [] {
      var rest := settings[1..];
      assert forall i :: 0 <= i < |rest| ==> rest[i] == settings[i + 1];
      FreshOpensNothing(rest);
      WrittenLine("", settings[0]);
    }
  }

  /** Without the section, it is added at the end with its settings; the root gains at most an empty line. */
  lemma NewSectionSets(lines: Lines, settings: seq<Setting>)
    requires PlainKeys(settings) && !HasAgents(lines)
    ensures var after := SetAgents(lines, settings);
            && HasAgents(after) && AgentsBody(after) == SetAll([], settings) && AfterBody(after) == []
            && Ended(after)
            && (Root(after) == Root(lines) || Root(after) == Root(lines) + ["\n"])
  {
    var blank := if lines != [] && Strip(lines[|lines| - 1]) != "" then ["\n"] else [];
    var header, added := ["[agents]\n"], Fresh(settings);
    var tail := blank + header + added;
    AgentsLine();
    BlankLine();
    FreshIsSet(settings);
    FreshOpensNothing(settings);
    assert SetAgents(lines, settings) == lines + tail;
    NewHeaderComesNext(blank, added);
    NameComesLater(lines, tail, OpensAgents);
    HalvesOf(added, [], Opens);
    assert added + [] == added;
    StartGrows(lines, tail, Opens);
    EndedJoin(lines, tail);
    EndedJoin(blank + header, added);
    EndedJoin(blank, header);
    assert Root(lines) + [] == Root(lines);
  }

  lemma NewHeaderComesNext(blank: Lines, added: Lines)
    requires blank == [] || blank == ["\n"]
    ensures var tail := blank + ["[agents]\n"] + added;
            Has(tail, OpensAgents) && After(tail, OpensAgents) == added && Before(tail, Opens) == blank
  {
    AgentsLine();
    BlankLine();
    HeaderComesNext(blank, "[agents]\n", added, Opens, OpensAgents);
  }

  // ---- The file after an update ----

  /** The values hold no newline. */
  predicate OneLineValues(v: Values) {
    && '\n' !in v.orchestratorModel && '\n' !in v.orchestratorEffort
    && '\n' !in v.workerModel && '\n' !in v.workerEffort
  }

  lemma {:induction false} EscapingKeepsNewlines(s: string)
    ensures '\n' in EscapeQuotes(s) <==> '\n' in s
  {
    if s != "" {
      EscapingKeepsNewlines(s[1..]);
      assert s == [s[0]] + s[1..];
    }
  }

  lemma LiteralIsOneLine(v: Scalar)
    ensures '\n' in Literal(v) <==> v.Word? && '\n' in v.s
  {
    match v
    case Flag(_) =>
    case Number(n) => TomlText.ValueIsOneLine(TomlText.Int(n));
    case Word(s) => EscapingKeepsNewlines(s);
  }

  lemma ModelIsPlain() ensures Plain(ModelKey) && |ModelKey| == 5 {}
  lemma EffortIsPlain() ensures Plain(EffortKey) && |EffortKey| == 22 {}
  lemma EnabledIsPlain() ensures Plain(EnabledKey) && |EnabledKey| == 7 {}
  lemma ThreadsIsPlain() ensures Plain(ThreadsKey) && |ThreadsKey| == 34 {}
  lemma WorkerModelIsPlain() ensures Plain(WorkerModelKey) && |WorkerModelKey| == 22 {}
  lemma WorkerEffortIsPlain() ensures Plain(WorkerEffortKey) && |WorkerEffortKey| == 33 {}
  lemma InterruptIsPlain() ensures Plain(InterruptKey) && |InterruptKey| == 17 {}

  lemma OneIsPlain(s: Setting)
    requires Plain(s.key)
    ensures PlainKeys([s])
  {
  }

  lemma OneMoreIsPlain(settings: seq<Setting>, s: Setting)
    requires PlainKeys(settings) && Plain(s.key)
    requires forall i :: 0 <= i < |settings| ==> |settings[i].key| != |s.key|
    ensures PlainKeys(settings + [s])
  {
  }

  lemma RootKeysArePlain(v: Values)
    ensures PlainKeys(RootSettings(v))
  {
    var model := Setting(ModelKey, Word(v.orchestratorModel));
    var effort := Setting(EffortKey, Word(v.orchestratorEffort));
    ModelIsPlain();
    EffortIsPlain();
    OneIsPlain(model);
    OneMoreIsPlain([model], effort);
    assert RootSettings(v) == [model] + [effort];
  }

  lemma AgentKeysArePlain(v: Values)
    ensures PlainKeys(AgentSettings(v))
  {
    var a, b := Setting(EnabledKey, Flag(true)), Setting(ThreadsKey, Number(v.maxThreads));
    var c, d := Setting(WorkerModelKey, Word(v.workerModel)), Setting(WorkerEffortKey, Word(v.workerEffort));
    var e := Setting(InterruptKey, Flag(true));
    EnabledIsPlain();
    ThreadsIsPlain();
    WorkerModelIsPlain();
    WorkerEffortIsPlain();
    InterruptIsPlain();
    OneIsPlain(a);
    OneMoreIsPlain([a], b);
    OneMoreIsPlain([a] + [b], c);
    OneMoreIsPlain([a] + [b] + [c], d);
    OneMoreIsPlain([a] + [b] + [c] + [d], e);
    assert AgentSettings(v) == [a] + [b] + [c] + [d] + [e];
  }

  lemma RootIsManageable(v: Values)
    requires OneLineValues(v)
    ensures Manageable(RootSettings(v))
  {
    RootKeysArePlain(v);
    forall i | 0 <= i < |RootSettings(v)| ensures '\n' !in Literal(RootSettings(v)[i].value) {
      LiteralIsOneLine(RootSettings(v)[i].value);
    }
  }

  lemma AgentsAreManageable(v: Values)
    requires OneLineValues(v)
    ensures Manageable(AgentSettings(v))
  {
    AgentKeysArePlain(v);
    forall i | 0 <= i < |AgentSettings(v)| ensures '\n' !in Literal(AgentSettings(v)[i].value) {
      LiteralIsOneLine(AgentSettings(v)[i].value);
    }
  }

  /** A root that has its settings keeps them when lines come after it. */
  lemma {:induction false} FirstStaysFirst(section: Lines, more: Lines, key: string)
    requires FirstAssignment(section, key).Some?
    ensures FirstAssignment(section + more, key) == FirstAssignment(section, key)
    decreases |section|
  {
    assert (section + more)[0] == section[0];
    if !Assigns(section[0], key) {
      assert (section + more)[1..] == section[1..] + more;
      FirstStaysFirst(section[1..], more, key);
    }
  }

  lemma AllStaySet(section: Lines, more: Lines, settings: seq<Setting>)
    requires AllSet(section, settings)
    ensures AllSet(section + more, settings)
  {
    forall i | 0 <= i < |settings| ensures IsSet(section + more, settings[i]) {
      assert IsSet(section, settings[i]);
      FirstStaysFirst(section, more, settings[i].key);
    }
  }

  lemma SetRootAddsNoSection(lines: Lines, settings: seq<Setting>)
    requires PlainKeys(settings)
    ensures HasAgents(SetRoot(lines, settings)) == HasAgents(lines)
  {
    SetRootSets(lines, settings);
    NameIsInASection(lines, Opens, OpensAgents);
    NameIsInASection(SetRoot(lines, settings), Opens, OpensAgents);
  }

  lemma ClosedIsEnded(lines: Lines)
    ensures Ended(Closed(lines))
  {
  }

  /** Whatever the values, a file ends with a newline after an update, and has the section. */
  lemma UpsertEnds(lines: Lines, v: Values)
    ensures Ended(Upsert(lines, v)) && HasAgents(Upsert(lines, v)) && Upsert(lines, v) != []
  {
    var r, a := RootSettings(v), AgentSettings(v);
    RootKeysArePlain(v);
    AgentKeysArePlain(v);
    var mid := SetRoot(Closed(lines), r);
    ClosedIsEnded(lines);
    SetRootStaysEnded(Closed(lines), r);
    if HasAgents(mid) {
      SetAgentsSets(mid, a);
      SetAgentsStaysEnded(mid, a);
    } else {
      NewSectionSets(mid, a);
    }
  }

  /** After an update every setting is in its place. */
  lemma UpsertSets(lines: Lines, v: Values)
    requires OneLineValues(v)
    ensures var after := Upsert(lines, v);
            AllSet(Root(after), RootSettings(v)) && AllSet(AgentsBody(after), AgentSettings(v))
  {
    var r, a := RootSettings(v), AgentSettings(v);
    RootIsManageable(v);
    AgentsAreManageable(v);
    var c := Closed(lines);
    var mid := SetRoot(c, r);
    SetRootSets(c, r);
    SetAllSets(Root(c), r);
    if HasAgents(mid) {
      SetAgentsSets(mid, a);
      SetAllSets(AgentsBody(mid), a);
    } else {
      NewSectionSets(mid, a);
      SetAllSets([], a);
      AllStaySet(Root(mid), ["\n"], r);
    }
  }

  /** An update changes nothing in a file that has every setting in its place. */
  lemma UpsertIsIdle(lines: Lines, v: Values)
    requires Ended(lines) && HasAgents(lines)
    requires AllSet(Root(lines), RootSettings(v)) && AllSet(AgentsBody(lines), AgentSettings(v))
    ensures Upsert(lines, v) == lines
  {
    SetRootIsIdle(lines, RootSettings(v));
    SetAgentsIsIdle(lines, AgentSettings(v));
  }

  /** Each managed key's first line in its section is the one written for it, at the indent it had. */
  lemma UpsertGivesValues(lines: Lines, v: Values, s: Setting)
    requires OneLineValues(v)
    ensures s in RootSettings(v) ==>
              FirstAssignment(Root(Upsert(lines, v)), s.key)
                  == Some(Assignment(KeptIndent(Root(Closed(lines)), s.key), s))
    ensures s in AgentSettings(v) ==>
              exists indent ::
                Blank(indent) && FirstAssignment(AgentsBody(Upsert(lines, v)), s.key) == Some(Assignment(indent, s))
  {
    var r, a, c := RootSettings(v), AgentSettings(v), Closed(lines);
    var mid := SetRoot(c, r);
    RootIsManageable(v);
    AgentsAreManageable(v);
    SetRootSets(c, r);
    if i :| 0 <= i < |r| && r[i] == s {
      SetAllGives(Root(c), r, i);
      if HasAgents(mid) {
        SetAgentsSets(mid, a);
      } else {
        NewSectionSets(mid, a);
        FirstStaysFirst(Root(mid), ["\n"], s.key);
      }
    }
    if s in a {
      var i :| 0 <= i < |a| && a[i] == s;
      UpsertSets(lines, v);
      var body := AgentsBody(Upsert(lines, v));
      assert IsSet(body, a[i]);
      IndentIsSpace(FirstAssignment(body, s.key).value);
      assert Blank(KeptIndent(body, s.key));
    }
  }

  /**
   * Where a file has the section already: nothing outside the root and that section changes, and inside each, every
   * line stays, in order, but the first assignment to each managed key.
   */
  lemma UpsertKeepsTheRest(lines: Lines, v: Values)
    requires OneLineValues(v) && HasAgents(Closed(lines))
    ensures var before, mid, after := Closed(lines), SetRoot(Closed(lines), RootSettings(v)), Upsert(lines, v);
            && Rest(mid) == Rest(before)
            && Unmanaged(Root(mid), KeysOf(RootSettings(v))) == Unmanaged(Root(before), KeysOf(RootSettings(v)))
            && UpToBody(after) == UpToBody(mid) && AfterBody(after) == AfterBody(mid)
            && Unmanaged(AgentsBody(after), KeysOf(AgentSettings(v)))
                 == Unmanaged(AgentsBody(mid), KeysOf(AgentSettings(v)))
  {
    var r, a, c := RootSettings(v), AgentSettings(v), Closed(lines);
    var mid := SetRoot(c, r);
    RootIsManageable(v);
    AgentsAreManageable(v);
    SetRootSets(c, r);
    SetRootAddsNoSection(c, r);
    SetAgentsSets(mid, a);
    SetAllKeepsTheRest(Root(c), r, KeysOf(r));
    SetAllKeepsTheRest(AgentsBody(mid), a, KeysOf(a));
  }

  /** Where it has not: the file is the one with its root set, and the new section after it. */
  lemma UpsertAppends(lines: Lines, v: Values)
    requires OneLineValues(v) && !HasAgents(Closed(lines))
    ensures var before, mid, after := Closed(lines), SetRoot(Closed(lines), RootSettings(v)), Upsert(lines, v);
            && Rest(mid) == Rest(before)
            && Unmanaged(Root(mid), KeysOf(RootSettings(v))) == Unmanaged(Root(before), KeysOf(RootSettings(v)))
            && after == mid + NewSection(mid, AgentSettings(v))
  {
    var r, c := RootSettings(v), Closed(lines);
    RootIsManageable(v);
    SetRootSets(c, r);
    SetRootAddsNoSection(c, r);
    SetAllKeepsTheRest(Root(c), r, KeysOf(r));
  }

  // ---- The update, step by step ----

  datatype Range = Range(name: string, start: nat, end: nat)

  /** The section each line opens, if any. */
  type Tags = seq<Option<string>>

  function TagsOf(lines: Lines): (r: Tags)
    ensures |r| == |lines| && forall i :: 0 <= i < |r| ==> r[i] == SectionName(lines[i])
  {
    seq(|lines|, i requires 0 <= i < |lines| => SectionName(lines[i]))
  }

  /** No line from `a` up to `b` opens a section. */
  predicate Gap(tags: Tags, a: nat, b: nat) {
    b <= |tags| && forall i :: a <= i < b ==> tags[i].None?
  }

  /** Where the first range starts, or the end. */
  function FirstStart(n: nat, ranges: seq<Range>): nat {
    if ranges == [] then n else ranges[0].start
  }

  /** A range starts at a header, and ends where nothing else has opened. */
  predicate IsSection(tags: Tags, r: Range) {
    && r.start < r.end <= |tags| && tags[r.start] == Some(r.name)
    && Gap(tags, r.start + 1, r.end) && (r.end < |tags| ==> tags[r.end].Some?)
  }

  predicate EndsAtNext(ranges: seq<Range>, k: nat)
    requires k + 1 < |ranges|
  {
    ranges[k].end == ranges[k + 1].start
  }

  /** `ranges` are the sections, in order, and each ends where the next starts. */
  ghost predicate AreSections(tags: Tags, ranges: seq<Range>) {
    && (forall k :: 0 <= k < |ranges| ==> IsSection(tags, ranges[k]))
    && (forall k {:trigger EndsAtNext(ranges, k)} :: 0 <= k < |ranges| - 1 ==> EndsAtNext(ranges, k))
    && (ranges != [] ==> ranges[|ranges| - 1].end == |tags|)
    && Gap(tags, 0, FirstStart(|tags|, ranges))
  }

  predicate NextIsNext(tags: Tags, at: seq<nat>, k: nat)
    requires k + 1 < |at|
  {
    at[k] < at[k + 1] && Gap(tags, at[k] + 1, at[k + 1])
  }

  /** The headers before line `n`, in order. */
  ghost predicate AreHeaders(tags: Tags, names: seq<string>, at: seq<nat>, n: nat) {
    && |names| == |at| && n <= |tags|
    && (forall k :: 0 <= k < |at| ==> at[k] < n && tags[at[k]] == Some(names[k]))
    && (forall k {:trigger NextIsNext(tags, at, k)} :: 0 <= k < |at| - 1 ==> NextIsNext(tags, at, k))
    && Gap(tags, if at == [] then 0 else at[|at| - 1] + 1, n)
    && Gap(tags, 0, if at == [] then n else at[0])
  }

  lemma NoMoreHeaders(tags: Tags, names: seq<string>, at: seq<nat>, n: nat)
    requires AreHeaders(tags, names, at, n) && n < |tags| && tags[n].None?
    ensures AreHeaders(tags, names, at, n + 1)
  {
  }

  lemma OneMoreHeader(tags: Tags, names: seq<string>, at: seq<nat>, n: nat, name: string)
    requires AreHeaders(tags, names, at, n) && n < |tags| && tags[n] == Some(name)
    ensures AreHeaders(tags, names + [name], at + [n], n + 1)
  {
    var at1 := at + [n];
    forall k | 0 <= k < |at1| - 1 ensures NextIsNext(tags, at1, k) {
      if k < |at| - 1 { assert NextIsNext(tags, at, k); }
    }
  }

  /** The headers among the first `n` lines: their names, and where they stand. */
  function HeadersUpTo(tags: Tags, n: nat): (seq<string>, seq<nat>)
    requires n <= |tags|
  {
    if n == 0 then ([], [])
    else
      var (names, at) := HeadersUpTo(tags, n - 1);
      match tags[n - 1]
      case None => (names, at)
      case Some(name) => (names + [name], at + [n - 1])
  }

  lemma {:induction false} HeadersAreHeaders(tags: Tags, n: nat)
    requires n <= |tags|
    ensures AreHeaders(tags, HeadersUpTo(tags, n).0, HeadersUpTo(tags, n).1, n)
  {
    if n > 0 {
      HeadersAreHeaders(tags, n - 1);
      var (names, at) := HeadersUpTo(tags, n - 1);
      match tags[n - 1]
      case None => NoMoreHeaders(tags, names, at, n - 1);
      case Some(name) => OneMoreHeader(tags, names, at, n - 1, name);
    }
  }

  method FindHeaders(lines: Lines) returns (names: seq<string>, at: seq<nat>)
    ensures (names, at) == HeadersUpTo(TagsOf(lines), |lines|)
  {
    names, at := [], [];
    ghost var tags := TagsOf(lines);
    for n := 0 to |lines|
      invariant (names, at) == HeadersUpTo(tags, n)
    {
      var name := SectionName(lines[n]);
      assert name == tags[n];
      if name.Some? {
        names, at := names + [name.value], at + [n];
      }
    }
  }

  method SectionRanges(lines: Lines) returns (ranges: seq<Range>)
    ensures AreSections(TagsOf(lines), ranges)
  {
    var names, at := FindHeaders(lines);
    HeadersAreHeaders(TagsOf(lines), |lines|);
    ranges := SectionsAt(|lines|, names, at);
    SectionsOfHeaders(TagsOf(lines), names, at, ranges);
  }

  function RangeAt(n: nat, names: seq<string>, at: seq<nat>, k: nat): Range
    requires k < |at| == |names|
  {
    Range(names[k], at[k], if k + 1 < |at| then at[k + 1] else n)
  }

  /** The ranges between headers in a file of `n` lines. */
  method SectionsAt(n: nat, names: seq<string>, at: seq<nat>) returns (ranges: seq<Range>)
    requires |names| == |at|
    ensures |ranges| == |at| && forall m :: 0 <= m < |at| ==> ranges[m] == RangeAt(n, names, at, m)
  {
    ranges := [];
    for k := 0 to |at|
      invariant |ranges| == k
      invariant forall m :: 0 <= m < k ==> ranges[m] == RangeAt(n, names, at, m)
    {
      ranges := ranges + [Range(names[k], at[k], if k + 1 < |at| then at[k + 1] else n)];
    }
  }

  lemma SectionsOfHeaders(tags: Tags, names: seq<string>, at: seq<nat>, ranges: seq<Range>)
    requires AreHeaders(tags, names, at, |tags|) && |ranges| == |at|
    requires forall m :: 0 <= m < |at| ==> ranges[m] == RangeAt(|tags|, names, at, m)
    ensures AreSections(tags, ranges)
  {
    forall k | 0 <= k < |ranges| ensures IsSection(tags, ranges[k]) {
      assert ranges[k] == RangeAt(|tags|, names, at, k);
      if k + 1 < |at| { assert NextIsNext(tags, at, k) && tags[at[k + 1]] == Some(names[k + 1]); }
    }
    forall k | 0 <= k < |ranges| - 1 ensures EndsAtNext(ranges, k) {
      assert ranges[k] == RangeAt(|tags|, names, at, k) && ranges[k + 1] == RangeAt(|tags|, names, at, k + 1);
    }
  }

  lemma {:induction false} SetAt(section: Lines, s: Setting, k: nat)
    requires k <= |section| && (forall i :: 0 <= i < k ==> !Assigns(section[i], s.key))
    requires k < |section| ==> Assigns(section[k], s.key)
    ensures Set(section, s) == if k < |section| then section[k := Assignment(Indent(section[k]), s)]
                               else section + [Assignment("", s)]
    decreases |section|
  {
    if section != [] && k > 0 {
      SetAt(section[1..], s, k - 1);
      assert section == [section[0]] + section[1..];
    }
  }

  lemma ReplaceInside(a: Lines, b: Lines, c: Lines, k: nat, x: string)
    requires k < |b|
    ensures (a + b + c)[|a| + k := x] == a + b[k := x] + c
  {
  }

  lemma InsertAfter(a: Lines, b: Lines, c: Lines, x: string)
    ensures (a + b + c)[..|a| + |b|] + [x] + (a + b + c)[|a| + |b|..] == a + (b + [x]) + c
  {
  }

  /** The first assignment to the key in `lines[start..end]`, or the end. */
  method FindAssignment(lines: Lines, start: nat, end: nat, key: string) returns (index: nat)
    requires start <= end <= |lines|
    ensures start <= index <= end && (forall i :: start <= i < index ==> !Assigns(lines[i], key))
    ensures index < end ==> Assigns(lines[index], key)
  {
    index := start;
    while index < end && !Assigns(lines[index], key)
      invariant start <= index <= end && forall i :: start <= i < index ==> !Assigns(lines[i], key)
    {
      index := index + 1;
    }
  }

  /** One setting, in the lines after `before` and ahead of `after`. */
  method UpsertOne(
      lines: Lines, start: nat, end: nat, s: Setting, ghost before: Lines, ghost now: Lines, ghost after: Lines)
      returns (result: Lines, newEnd: nat)
    requires start == |before| && end == start + |now| && lines == before + now + after
    ensures result == before + Set(now, s) + after && newEnd == start + |Set(now, s)|
  {
    var index := FindAssignment(lines, start, end, s.key);
    forall i | 0 <= i < index - start ensures !Assigns(now[i], s.key) { assert now[i] == lines[start + i]; }
    assert index < end ==> now[index - start] == lines[index];
    SetAt(now, s, index - start);
    if index < end {
      result, newEnd := lines[index := Assignment(Indent(lines[index]), s)], end;
      ReplaceInside(before, now, after, index - start, Assignment(Indent(lines[index]), s));
    } else {
      result, newEnd := lines[..end] + [Assignment("", s)] + lines[end..], end + 1;
      InsertAfter(before, now, after, Assignment("", s));
    }
  }

  /** Rewrites or adds the settings within `lines[start..end]`; lines added push the ones after them down. */
  method UpsertInRange(lines: Lines, start: nat, end: nat, settings: seq<Setting>) returns (result: Lines)
    requires start <= end <= |lines|
    ensures result == lines[..start] + SetAll(lines[start..end], settings) + lines[end..]
  {
    result := lines;
    var insertion := end;
    ghost var before, after, section := lines[..start], lines[end..], lines[start..end];
    ghost var now := section;
    assert settings[0..] == settings && lines == before + now + after;
    for n := 0 to |settings|
      invariant insertion == start + |now| && result == before + now + after
      invariant SetAll(now, settings[n..]) == SetAll(section, settings)
    {
      assert settings[n..][0] == settings[n] && settings[n..][1..] == settings[n + 1..];
      result, insertion := UpsertOne(result, start, insertion, settings[n], before, now, after);
      now := Set(now, settings[n]);
    }
  }

  lemma RangesCutTheRoot(lines: Lines, ranges: seq<Range>)
    requires AreSections(TagsOf(lines), ranges)
    ensures var r := FirstStart(|lines|, ranges); r <= |lines| && Root(lines) == lines[..r] && Rest(lines) == lines[r..]
  {
    var tags, r := TagsOf(lines), FirstStart(|lines|, ranges);
    assert ranges != [] ==> IsSection(tags, ranges[0]);
    forall k | 0 <= k < r ensures !Opens(lines[k]) { assert tags[k].None?; }
    assert r < |lines| ==> tags[r].Some?;
    FirstAt(lines, Opens, r);
  }

  /** None of the first `n` lines opens the section. */
  predicate NoAgents(tags: Tags, n: nat) {
    n <= |tags| && forall i :: 0 <= i < n ==> tags[i] != Some(Agents)
  }

  lemma {:induction false} NoAgentsBefore(tags: Tags, ranges: seq<Range>, k: nat)
    requires AreSections(tags, ranges) && k <= |ranges| && forall m :: 0 <= m < k ==> ranges[m].name != Agents
    ensures NoAgents(tags, if k < |ranges| then ranges[k].start else |tags|)
  {
    if k > 0 {
      NoAgentsBefore(tags, ranges, k - 1);
      assert IsSection(tags, ranges[k - 1]);
      if k < |ranges| { assert EndsAtNext(ranges, k - 1); }
    }
  }

  lemma RangesCutAtAgents(lines: Lines, ranges: seq<Range>, k: nat)
    requires AreSections(TagsOf(lines), ranges) && k <= |ranges| && forall m :: 0 <= m < k ==> ranges[m].name != Agents
    requires k < |ranges| ==> ranges[k].name == Agents
    ensures k < |ranges|
        ==> ranges[k].start < ranges[k].end <= |lines| && CutAtAgents(lines, ranges[k].start, ranges[k].end)
    ensures HasAgents(lines) <==> k < |ranges|
  {
    var tags := TagsOf(lines);
    NoAgentsBefore(tags, ranges, k);
    var h := if k < |ranges| then ranges[k].start else |lines|;
    forall i | 0 <= i < h ensures !OpensAgents(lines[i]) { assert tags[i] != Some(Agents); }
    if k == |ranges| {
      NameNowhere(lines, OpensAgents);
    } else {
      assert IsSection(tags, ranges[k]);
      SectionCutsAtAgents(lines, h, ranges[k].end);
    }
  }

  predicate CutAtAgents(lines: Lines, h: nat, e: nat)
    requires h < e <= |lines|
  {
    && HasAgents(lines) && UpToBody(lines) == lines[..h + 1]
    && AgentsBody(lines) == lines[h + 1..e] && AfterBody(lines) == lines[e..]
  }

  lemma SectionCutsAtAgents(lines: Lines, h: nat, e: nat)
    requires h < e <= |lines| && OpensAgents(lines[h]) && (forall i :: 0 <= i < h ==> !OpensAgents(lines[i]))
    requires Gap(TagsOf(lines), h + 1, e) && (e < |lines| ==> TagsOf(lines)[e].Some?)
    ensures CutAtAgents(lines, h, e)
  {
    NameAt(lines, OpensAgents, h);
    var rest, n := lines[h + 1..], e - h - 1;
    GapOpensNothing(lines, h + 1, e, rest, n);
    FirstAt(rest, Opens, n);
    TwoCuts(lines, h + 1, e, rest);
  }

  lemma GapOpensNothing(lines: Lines, a: nat, e: nat, rest: Lines, n: nat)
    requires a <= e <= |lines| && rest == lines[a..] && n == e - a
    requires Gap(TagsOf(lines), a, e) && (e < |lines| ==> TagsOf(lines)[e].Some?)
    ensures forall i :: 0 <= i < n ==> !Opens(rest[i])
    ensures n < |rest| ==> Opens(rest[n])
  {
    forall i | 0 <= i < n ensures !Opens(rest[i]) {
      var m := a + i;
      assert rest[i] == lines[m] && TagsOf(lines)[m].None?;
    }
  }

  lemma TwoCuts(lines: Lines, a: nat, e: nat, rest: Lines)
    requires a <= e <= |lines| && rest == lines[a..]
    ensures rest[..e - a] == lines[a..e] && rest[e - a..] == lines[e..]
  {
  }

  method UpsertRoot(lines: Lines, settings: seq<Setting>) returns (result: Lines)
    ensures result == SetRoot(lines, settings)
  {
    var ranges := SectionRanges(lines);
    var end := if ranges != [] then ranges[0].start else |lines|;
    RangesCutTheRoot(lines, ranges);
    result := UpsertInRange(lines, 0, end, settings);
    ghost var root := Root(lines);
    assert lines[0..end] == root && result == lines[..0] + SetAll(root, settings) + Rest(lines);
    StartsEmpty(lines[..0], SetAll(root, settings), Rest(lines));
  }

  lemma StartsEmpty(none: Lines, a: Lines, b: Lines)
    requires none == []
    ensures none + a + b == a + b
  {
  }

  /** Appends one line for each setting. */
  method AppendSettings(lines: Lines, settings: seq<Setting>) returns (result: Lines)
    ensures result == lines + Fresh(settings)
  {
    result := lines;
    ghost var done: seq<Setting> := [];
    for n := 0 to |settings|
      invariant done == settings[..n] && result == lines + Fresh(done)
    {
      FreshLast(done, settings[n]);
      result, done := result + [Assignment("", settings[n])], done + [settings[n]];
    }
    assert done == settings;
  }

  method AppendSection(lines: Lines, settings: seq<Setting>) returns (result: Lines)
    ensures result == lines + NewSection(lines, settings)
  {
    result := lines;
    if lines != [] && Strip(lines[|lines| - 1]) != "" { result := result + ["\n"]; }
    result := result + ["[agents]\n"];
    result := AppendSettings(result, settings);
  }

  /** The first range of that name, or the number of ranges. */
  method FindRange(ranges: seq<Range>, name: string) returns (k: nat)
    ensures k <= |ranges| && (forall m :: 0 <= m < k ==> ranges[m].name != name)
        && (k < |ranges| ==> ranges[k].name == name)
  {
    k := 0;
    while k < |ranges| && ranges[k].name != name
      invariant 0 <= k <= |ranges| && forall m :: 0 <= m < k ==> ranges[m].name != name
    {
      k := k + 1;
    }
  }

  method UpsertAgents(lines: Lines, settings: seq<Setting>) returns (result: Lines)
    ensures result == SetAgents(lines, settings)
  {
    var ranges := SectionRanges(lines);
    var k := FindRange(ranges, Agents);
    RangesCutAtAgents(lines, ranges, k);
    if k < |ranges| {
      result := UpsertInRange(lines, ranges[k].start + 1, ranges[k].end, settings);
    } else {
      result := AppendSection(lines, settings);
    }
  }

  method UpsertConfig(existing: Lines, v: Values) returns (result: Lines)
    ensures result == Upsert(existing, v)
  {
    var lines := UpsertRoot(Closed(existing), RootSettings(v));
    result := UpsertAgents(lines, AgentSettings(v));
  }
}
