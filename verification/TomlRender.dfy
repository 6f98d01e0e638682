/**
 * Writing a configuration as TOML, and reading it back: nested tables become header and key lines, and reading the
 * lines by the rules of TOML v1.0.0, section "Table", gives the same configuration.
 */
module TomlRender {
  import opened Wrappers
  import opened Text
  import opened TomlText

  type Path = seq<string>

  /** A configuration: the entries of a table, in order, each a value or a table. */
  datatype Node = Leaf(value: Value) | Table(entries: seq<Entry>)
  datatype Entry = Entry(key: string, node: Node)

  /** Keys are distinct within each table. */
  ghost predicate Valid(es: seq<Entry>) {
    && (forall i, j :: 0 <= i < j < |es| ==> es[i].key != es[j].key)
    && forall i :: 0 <= i < |es| && es[i].node.Table? ==> Valid(es[i].node.entries)
  }

  // ---- Writing ----

  /** The key lines of a table: its values, without its tables. */
  function Pairs(es: seq<Entry>): seq<Line> {
    if es == [] then []
    else (if es[0].node.Leaf? then [Pair(es[0].key, es[0].node.value)] else []) + Pairs(es[1..])
  }

  function Headed(lines: seq<Line>, path: Path): seq<Line> {
    lines + (if lines != [] && !lines[|lines| - 1].Blank? then [Blank] else []) + [Header(path)]
  }

  /** `lines` with a table written after them: its header, its values, then its tables. */
  function Written(lines: seq<Line>, path: Path, es: seq<Entry>, header: bool): seq<Line>
    decreases es, 1
  {
    WrittenTables((if header then Headed(lines, path) else lines) + Pairs(es), path, es)
  }

  function WrittenTables(lines: seq<Line>, path: Path, es: seq<Entry>): seq<Line>
    decreases es, 0
  {
    if es == [] then lines
    else
      WrittenTables(
        if es[0].node.Table? then Written(lines, path + [es[0].key], es[0].node.entries, true) else lines,
        path, es[1..])
  }

  function Texts(alnum: Alnum, lines: seq<Line>): (r: seq<string>)
    ensures |r| == |lines| && forall k :: 0 <= k < |lines| ==> r[k] == LineText(alnum, lines[k])
  {
    seq(|lines|, k requires 0 <= k < |lines| => LineText(alnum, lines[k]))
  }

  /** The whole text: lines joined, white space at the end dropped, and a final newline. */
  function Render(alnum: Alnum, es: seq<Entry>): string {
    StripRight(Join(Texts(alnum, Written([], [], es, false)))) + "\n"
  }

  // ---- Meaning ----

  /** What a path leads to. */
  datatype Item = Scalar(value: Value) | SubTable

  /** What the entries of a configuration hold at a path. */
  function Lookup(es: seq<Entry>, path: Path): Option<Item>
    decreases es
  {
    if es == [] || path == [] then None
    else if es[0].key != path[0] then Lookup(es[1..], path)
    else
      match es[0].node
      case Leaf(v) => if |path| == 1 then Some(Scalar(v)) else None
      case Table(inner) => if |path| == 1 then Some(SubTable) else Lookup(inner, path[1..])
  }

  // ---- Reading ----

  /** What has been defined so far, which tables by a header of their own, and the table key lines now belong to. */
  datatype State = State(defs: map<Path, Item>, headed: set<Path>, at: Path)

  /** Whether a part of the way to `path` is a value rather than a table. */
  predicate Blocked(defs: map<Path, Item>, path: Path) {
    exists n :: 0 < n < |path| && path[..n] in defs && defs[path[..n]].Scalar?
  }

  /** The tables a header for `path` brings about besides its own. */
  function Implied(defs: map<Path, Item>, path: Path): map<Path, Item> {
    map n | 0 < n < |path| && path[..n] !in defs :: path[..n] := SubTable
  }

  /** The effect of one line; nothing may be defined twice. */
  function Step(s: State, line: Line): Option<State> {
    match line
    case Blank => Some(s)
    case Pair(key, value) =>
      if s.at + [key] in s.defs then None else Some(s.(defs := s.defs[s.at + [key] := Scalar(value)]))
    case Header(path) =>
      if path == [] || path in s.headed || Blocked(s.defs, path) || (path in s.defs && s.defs[path].Scalar?) then None
      else Some(State((s.defs + Implied(s.defs, path))[path := SubTable], s.headed + {path}, path))
  }

  function Interpret(lines: seq<Line>): Option<State> {
    if lines == [] then Some(State(map[], {}, []))
    else
      match Interpret(lines[..|lines| - 1])
      case None => None
      case Some(s) => Step(s, lines[|lines| - 1])
  }

  function ReadLines(texts: seq<string>): Option<seq<Line>> {
    if texts == [] then Some([])
    else
      match ReadLine(texts[0])
      case None => None
      case Some(line) =>
        match ReadLines(texts[1..])
        case None => None
        case Some(rest) => Some([line] + rest)
  }

  /** What a whole text defines, if it is well formed. */
  function ReadToml(text: string): Option<map<Path, Item>> {
    match ReadLines(Split(text))
    case None => None
    case Some(lines) =>
      match Interpret(lines)
      case None => None
      case Some(s) => Some(s.defs)
  }

  /** An empty configuration is an empty line. */
  lemma NothingIsALine(alnum: Alnum)
    ensures Render(alnum, []) == "\n"
  {
    assert Written([], [], [], false) == [];
  }

  // ---- What a text that is read is like ----

  /** The table the n-th line belongs to: that of the last header before it. */
  function TableAt(lines: seq<Line>, n: nat): Path
    requires n <= |lines|
  {
    if n == 0 then [] else if lines[n - 1].Header? then lines[n - 1].path else TableAt(lines, n - 1)
  }

  /** Every part of the way to a path is a table. */
  ghost predicate Rooted(defs: map<Path, Item>, path: Path) {
    forall n :: 0 < n < |path| ==> path[..n] in defs && defs[path[..n]] == SubTable
  }

  ghost predicate WellBuilt(s: State) {
    && (forall path :: path in s.defs ==> path != [] && Rooted(s.defs, path))
    && (s.at == [] || (s.at in s.defs && s.defs[s.at] == SubTable))
    && (forall path :: path in s.headed ==> path in s.defs)
  }

  lemma PairBuilds(s: State, key: string, value: Value)
    requires WellBuilt(s) && s.at + [key] !in s.defs
    ensures WellBuilt(s.(defs := s.defs[s.at + [key] := Scalar(value)]))
  {
    var path := s.at + [key];
    var defs := s.defs[path := Scalar(value)];
    forall q | q in defs ensures Rooted(defs, q) {
      forall n | 0 < n < |q| ensures q[..n] in defs && defs[q[..n]] == SubTable {
        if q == path {
          assert q[..n] == s.at[..n];
          if n == |s.at| { assert s.at[..n] == s.at; } else { assert Rooted(s.defs, s.at); }
        } else {
          assert Rooted(s.defs, q);
        }
      }
    }
  }

  lemma HeaderBuilds(s: State, path: Path)
    requires WellBuilt(s) && Step(s, Header(path)).Some?
    ensures WellBuilt(Step(s, Header(path)).value)
  {
    var defs := (s.defs + Implied(s.defs, path))[path := SubTable];
    forall q | q in defs ensures Rooted(defs, q) {
      if q in s.defs && q != path {
        assert Rooted(s.defs, q);
      } else {
        var m := |q|;
        assert q == path[..m];
        forall n | 0 < n < |q| ensures q[..n] in defs && defs[q[..n]] == SubTable {
          assert q[..n] == path[..n];
          assert path[..n] in s.defs ==> !s.defs[path[..n]].Scalar?;
        }
      }
    }
  }

  lemma Interpreted(lines: seq<Line>)
    requires lines != [] && Interpret(lines).Some?
    ensures Interpret(lines[..|lines| - 1]).Some?
    ensures Step(Interpret(lines[..|lines| - 1]).value, lines[|lines| - 1]) == Interpret(lines)
  {
  }

  /** Line `i` is in the state: its header, or its key with its value. */
  ghost predicate Done(s: State, lines: seq<Line>, i: nat)
    requires i < |lines|
  {
    match lines[i]
    case Blank => true
    case Header(path) => path in s.headed
    case Pair(key, value) =>
      var path := TableAt(lines, i) + [key];
      path in s.defs && s.defs[path] == Scalar(value)
  }

  lemma DoneStays(s: State, line: Line, front: seq<Line>, lines: seq<Line>, i: nat)
    requires Step(s, line).Some? && i < |front| && i < |lines| && front[i] == lines[i]
    requires TableAt(front, i) == TableAt(lines, i) && Done(s, front, i)
    ensures Done(Step(s, line).value, lines, i)
  {
  }

  /** Of a text that is read, every line is in the state, and the state is well built. */
  lemma {:induction false} ReadTextsAreDone(lines: seq<Line>)
    requires Interpret(lines).Some?
    ensures var s := Interpret(lines).value;
      && WellBuilt(s) && s.at == TableAt(lines, |lines|)
      && forall i :: 0 <= i < |lines| ==> Done(s, lines, i)
    decreases |lines|
  {
    if lines != [] {
      var last := |lines| - 1;
      var front := lines[..last];
      Interpreted(lines);
      ReadTextsAreDone(front);
      var s := Interpret(front).value;
      forall i | 0 <= i < last ensures Done(Interpret(lines).value, lines, i) {
        TableAtUpTo(front, lines, i);
        DoneStays(s, lines[last], front, lines, i);
      }
      TableAtWhole(front, lines);
      match lines[last]
      case Blank =>
      case Pair(key, value) => PairBuilds(s, key, value);
      case Header(path) => HeaderBuilds(s, path);
    }
  }

  lemma TableAtWhole(front: seq<Line>, lines: seq<Line>)
    requires lines != [] && front == lines[..|lines| - 1]
    ensures TableAt(front, |front|) == TableAt(lines, |front|)
  {
    TableAtUpTo(front, lines, |front|);
  }

  lemma {:induction false} TableAtUpTo(front: seq<Line>, lines: seq<Line>, n: nat)
    requires n <= |front| <= |lines| && forall k :: 0 <= k < |front| ==> front[k] == lines[k]
    ensures TableAt(front, n) == TableAt(lines, n)
  {
    if n > 0 { TableAtUpTo(front, lines, n - 1); }
  }

  lemma {:induction false} PrefixIsRead(lines: seq<Line>, n: nat)
    requires Interpret(lines).Some? && n <= |lines|
    ensures Interpret(lines[..n]).Some?
    decreases |lines|
  {
    if n < |lines| {
      Interpreted(lines);
      PrefixIsRead(lines[..|lines| - 1], n);
      assert lines[..|lines| - 1][..n] == lines[..n];
    } else {
      assert lines[..n] == lines;
    }
  }

  /** As TOML asks: in a text that is read no table has two headers, and no table has a key twice. */
  lemma NothingIsReadTwice(lines: seq<Line>, i: nat, j: nat)
    requires Interpret(lines).Some? && i < j < |lines|
    ensures lines[i].Header? && lines[j].Header? ==> lines[i].path != lines[j].path
    ensures lines[i].Pair? && lines[j].Pair? ==> TableAt(lines, i) != TableAt(lines, j) || lines[i].key != lines[j].key
  {
    var upTo, front := lines[..j + 1], lines[..j];
    PrefixIsRead(lines, j + 1);
    assert upTo[..|upTo| - 1] == front;
    Interpreted(upTo);
    ReadTextsAreDone(front);
    TableAtUpTo(front, lines, i);
    TableAtUpTo(front, lines, j);
    assert Done(Interpret(front).value, front, i);
  }

  // ---- The paths of a configuration ----

  /** `q` lies strictly below `path`. */
  predicate Below(q: Path, path: Path) {
    |q| > |path| && q[..|path|] == path
  }

  function Leaves(path: Path, es: seq<Entry>): map<Path, Item> {
    if es == [] then map[]
    else
      var rest := Leaves(path, es[1..]);
      if es[0].node.Leaf? then rest[path + [es[0].key] := Scalar(es[0].node.value)] else rest
  }

  function Tables(path: Path, es: seq<Entry>): map<Path, Item>
    decreases es, 0
  {
    if es == [] then map[]
    else
      var rest := Tables(path, es[1..]);
      if es[0].node.Table? then rest + Whole(path + [es[0].key], es[0].node.entries) else rest
  }

  /** A table at `path` with all below it. */
  function Whole(path: Path, es: seq<Entry>): map<Path, Item>
    decreases es, 1
  {
    (Leaves(path, es) + Tables(path, es))[path := SubTable]
  }

  /** Everything below the top level, by path. */
  function Flat(es: seq<Entry>): map<Path, Item> {
    Leaves([], es) + Tables([], es)
  }

  /** One of the entries has this key, and is a table or not as asked. */
  predicate HasKey(es: seq<Entry>, key: string, table: bool) {
    exists i :: 0 <= i < |es| && es[i].key == key && es[i].node.Table? == table
  }

  lemma {:induction false} LeavesBelow(path: Path, es: seq<Entry>, q: Path)
    requires q in Leaves(path, es)
    ensures Below(q, path) && |q| == |path| + 1 && HasKey(es, q[|path|], false)
  {
    if es[0].node.Leaf? && q == path + [es[0].key] {
    } else {
      LeavesBelow(path, es[1..], q);
      var i :| 0 <= i < |es[1..]| && es[1..][i].key == q[|path|] && !es[1..][i].node.Table?;
      assert es[i + 1] == es[1..][i];
    }
  }

  lemma {:induction false} TablesBelow(path: Path, es: seq<Entry>, q: Path)
    requires q in Tables(path, es)
    ensures Below(q, path) && HasKey(es, q[|path|], true)
    decreases es, 0
  {
    if es[0].node.Table? && q in Whole(path + [es[0].key], es[0].node.entries) {
      WholeBelow(path + [es[0].key], es[0].node.entries, q);
      assert (path + [es[0].key])[..|path|] == path && q[..|path|] == q[..|path| + 1][..|path|];
      assert q[|path|] == q[..|path| + 1][|path|];
    } else {
      TablesBelow(path, es[1..], q);
      var i :| 0 <= i < |es[1..]| && es[1..][i].key == q[|path|] && es[1..][i].node.Table?;
      assert es[i + 1] == es[1..][i];
    }
  }

  lemma {:induction false} WholeBelow(path: Path, es: seq<Entry>, q: Path)
    requires q in Whole(path, es)
    ensures q == path || Below(q, path)
    decreases es, 1
  {
    if q in Leaves(path, es) {
      LeavesBelow(path, es, q);
    } else if q in Tables(path, es) {
      TablesBelow(path, es, q);
    }
  }

  // ---- The paths are what a lookup finds ----

  /** Below one key of one table there is nothing from its other keys. */
  lemma {:induction false} OtherKeysAreElsewhere(path: Path, es: seq<Entry>, q: Path)
    requires Below(q, path) && (forall i :: 0 <= i < |es| ==> es[i].key != q[|path|])
    ensures q !in Leaves(path, es) && q !in Tables(path, es)
  {
    if q in Leaves(path, es) { LeavesBelow(path, es, q); }
    if q in Tables(path, es) { TablesBelow(path, es, q); }
  }

  function At(m: map<Path, Item>, q: Path): Option<Item> {
    if q in m then Some(m[q]) else None
  }

  /** The entries at and below `path` are what a lookup from there finds. */
  lemma {:induction false} PathsAreLookups(path: Path, es: seq<Entry>, r: Path)
    requires Valid(es) && r != []
    ensures At(Leaves(path, es) + Tables(path, es), path + r) == Lookup(es, r)
    decreases es
  {
    var q := path + r;
    assert q[..|path|] == path && q[|path|] == r[0];
    if es != [] {
      var e, rest := es[0], es[1..];
      assert forall i :: 0 <= i < |rest| ==> rest[i] == es[i + 1];
      PathsAreLookups(path, rest, r);
      if e.key == r[0] {
        OtherKeysAreElsewhere(path, rest, q);
        FirstEntry(path, es, r);
      } else {
        OtherEntry(path, es, r);
      }
    }
  }

  lemma OtherEntry(path: Path, es: seq<Entry>, r: Path)
    requires es != [] && r != [] && es[0].key != r[0]
    ensures At(Leaves(path, es) + Tables(path, es), path + r)
            == At(Leaves(path, es[1..]) + Tables(path, es[1..]), path + r)
  {
    var q, own := path + r, path + [es[0].key];
    assert q[|path|] == r[0] && own[|path|] == es[0].key;
    assert |q| >= |own| ==> q[..|own|][|path|] == q[|path|];
    if es[0].node.Table? && q in Whole(own, es[0].node.entries) {
      WholeBelow(own, es[0].node.entries, q);
    }
  }

  lemma {:induction false} FirstEntry(path: Path, es: seq<Entry>, r: Path)
    requires es != [] && Valid(es) && r != [] && es[0].key == r[0]
    requires path + r !in Leaves(path, es[1..]) && path + r !in Tables(path, es[1..])
    ensures At(Leaves(path, es) + Tables(path, es), path + r) == Lookup(es, r)
    decreases es[0]
  {
    var q, own := path + r, path + [es[0].key];
    assert q == own + r[1..];
    match es[0].node
    case Leaf(v) => assert q == own <==> |r| == 1;
    case Table(inner) =>
      if |r| == 1 {
        assert q == own;
      } else {
        PathsAreLookups(own, inner, r[1..]);
      }
  }

  // ---- The lines are read as the configuration ----

  /** One more line. */
  lemma InterpretOneMore(lines: seq<Line>, line: Line)
    ensures Interpret(lines + [line])
            == match Interpret(lines) case None => None case Some(s) => Step(s, line)
  {
    assert (lines + [line])[..|lines|] == lines;
  }

  /** Nothing defined so far lies below `path` under one of the keys of `es` that are tables, or are not. */
  ghost predicate Free(defs: map<Path, Item>, path: Path, es: seq<Entry>, table: bool) {
    forall q :: q in defs && Below(q, path) ==> !HasKey(es, q[|path|], table)
  }

  /** The top level, or a table that has been defined, as have all those around it. */
  predicate Open(defs: map<Path, Item>, path: Path) {
    forall n :: 0 < n <= |path| ==> path[..n] in defs && defs[path[..n]] == SubTable
  }

  lemma HasKeySplit(es: seq<Entry>, key: string, table: bool)
    requires es != []
    ensures HasKey(es, key, table) <==> (es[0].key == key && es[0].node.Table? == table) || HasKey(es[1..], key, table)
  {
    if HasKey(es[1..], key, table) {
      var i :| 0 <= i < |es[1..]| && es[1..][i].key == key && es[1..][i].node.Table? == table;
      assert es[i + 1] == es[1..][i];
    }
    if i :| 0 < i < |es| && es[i].key == key && es[i].node.Table? == table {
      assert es[1..][i - 1] == es[i];
    }
  }

  lemma ValidSplit(es: seq<Entry>, table: bool)
    requires es != [] && Valid(es)
    ensures Valid(es[1..]) && !HasKey(es[1..], es[0].key, table)
  {
    assert forall i :: 0 <= i < |es[1..]| ==> es[1..][i] == es[i + 1];
  }

  lemma FreeSplit(defs: map<Path, Item>, path: Path, es: seq<Entry>, table: bool)
    requires es != [] && Free(defs, path, es, table)
    ensures Free(defs, path, es[1..], table)
    ensures es[0].node.Table? == table ==> forall q :: q in defs && Below(q, path) ==> q[|path|] != es[0].key
  {
    forall q | q in defs && Below(q, path)
      ensures !HasKey(es[1..], q[|path|], table)
      ensures es[0].node.Table? == table ==> q[|path|] != es[0].key
    {
      HasKeySplit(es, q[|path|], table);
    }
  }

  /** The values of a table are defined under it. */
  lemma {:induction false} PairsAreRead(lines: seq<Line>, s: State, es: seq<Entry>)
    requires Interpret(lines) == Some(s) && Valid(es) && Free(s.defs, s.at, es, false)
    ensures Interpret(lines + Pairs(es)) == Some(s.(defs := s.defs + Leaves(s.at, es)))
    decreases |es|
  {
    if es == [] {
      assert lines + [] == lines;
      assert s.defs + map[] == s.defs;
    } else {
      FreeSplit(s.defs, s.at, es, false);
      ValidSplit(es, false);
      if es[0].node.Table? {
        PairsAreRead(lines, s, es[1..]);
        assert lines + ([] + Pairs(es[1..])) == lines + Pairs(es[1..]);
      } else {
        var pair := Pair(es[0].key, es[0].node.value);
        var own := s.at + [es[0].key];
        InterpretOneMore(lines, pair);
        assert own[..|s.at|] == s.at && own[|s.at|] == es[0].key;
        var next := s.(defs := s.defs[own := Scalar(es[0].node.value)]);
        PairsAreRead(lines + [pair], next, es[1..]);
        assert lines + ([pair] + Pairs(es[1..])) == lines + [pair] + Pairs(es[1..]);
        LeafFirst(s.defs, s.at, es);
      }
    }
  }

  lemma LeafFirst(defs: map<Path, Item>, path: Path, es: seq<Entry>)
    requires es != [] && es[0].node.Leaf? && Valid(es)
    ensures defs[path + [es[0].key] := Scalar(es[0].node.value)] + Leaves(path, es[1..]) == defs + Leaves(path, es)
  {
    var own := path + [es[0].key];
    ValidSplit(es, false);
    assert own[|path|] == es[0].key;
    if own in Leaves(path, es[1..]) { LeavesBelow(path, es[1..], own); }
  }

  /** After the lines of a table: what it defines has been added, and only defined tables have headers. */
  ghost predicate Reads(lines: seq<Line>, defs: map<Path, Item>) {
    Interpret(lines).Some? && Interpret(lines).value.defs == defs && Interpret(lines).value.headed <= defs.Keys
  }

  lemma HeadedIsOneMore(lines: seq<Line>, path: Path)
    ensures Interpret(Headed(lines, path))
            == match Interpret(lines) case None => None case Some(s) => Step(s, Header(path))
  {
    if lines != [] && !lines[|lines| - 1].Blank? {
      InterpretOneMore(lines, Blank);
      InterpretOneMore(lines + [Blank], Header(path));
    } else {
      InterpretOneMore(lines, Header(path));
      assert lines + [] + [Header(path)] == lines + [Header(path)];
    }
  }

  lemma NothingImplied(defs: map<Path, Item>, parent: Path, key: string)
    requires Open(defs, parent)
    ensures Implied(defs, parent + [key]) == map[] && !Blocked(defs, parent + [key])
  {
    var path := parent + [key];
    forall n | 0 < n < |path| ensures path[..n] in defs && defs[path[..n]] == SubTable {
      assert path[..n] == parent[..n];
    }
  }

  lemma HeaderStep(s: State, parent: Path, key: string)
    requires s.headed <= s.defs.Keys && Open(s.defs, parent) && parent + [key] !in s.defs
    ensures Step(s, Header(parent + [key]))
            == Some(State(s.defs[parent + [key] := SubTable], s.headed + {parent + [key]}, parent + [key]))
  {
    NothingImplied(s.defs, parent, key);
    assert s.defs + map[] == s.defs;
  }

  lemma HeaderIsRead(lines: seq<Line>, defs: map<Path, Item>, parent: Path, key: string)
    requires Reads(lines, defs) && Open(defs, parent) && parent + [key] !in defs
    ensures var path := parent + [key];
            var s := Interpret(Headed(lines, path));
            s.Some? && s.value.defs == defs[path := SubTable] && s.value.at == path
                && s.value.headed <= s.value.defs.Keys
  {
    HeadedIsOneMore(lines, parent + [key]);
    HeaderStep(Interpret(lines).value, parent, key);
  }

  lemma BelowChild(q: Path, parent: Path, key: string)
    ensures Below(q, parent + [key]) ==> Below(q, parent) && q[|parent|] == key
  {
    var path := parent + [key];
    assert path[..|parent|] == parent && path[|parent|] == key;
    if Below(q, path) {
      assert q[..|parent|] == q[..|path|][..|parent|];
      assert q[|parent|] == q[..|path|][|parent|];
    }
  }

  /** A table just defined is open, and nothing lies below it yet. */
  lemma JustDefined(defs: map<Path, Item>, parent: Path, key: string, es: seq<Entry>)
    requires Open(defs, parent) && forall q :: q in defs && Below(q, parent) ==> q[|parent|] != key
    ensures var path := parent + [key];
            && path !in defs && (forall q :: q in defs[path := SubTable] ==> !Below(q, path))
            && Open(defs[path := SubTable] + Leaves(path, es), path)
  {
    var path := parent + [key];
    var defs1 := defs[path := SubTable];
    assert path[|parent|] == key && Below(path, parent);
    forall q | q in defs1 ensures !Below(q, path) { BelowChild(q, parent, key); }
    var defs2 := defs1 + Leaves(path, es);
    forall n | 0 < n <= |path| ensures path[..n] in defs2 && defs2[path[..n]] == SubTable {
      assert if n < |path| then path[..n] == parent[..n] else path[..n] == path;
      if path[..n] in Leaves(path, es) { LeavesBelow(path, es, path[..n]); }
    }
  }

  lemma {:induction false} WrittenIsRead(
      lines: seq<Line>, defs: map<Path, Item>, parent: Path, key: string, es: seq<Entry>)
    requires Reads(lines, defs) && Open(defs, parent) && Valid(es)
    requires forall q :: q in defs && Below(q, parent) ==> q[|parent|] != key
    ensures Reads(Written(lines, parent + [key], es, true), defs + Whole(parent + [key], es))
    decreases es, 1
  {
    var path := parent + [key];
    JustDefined(defs, parent, key, es);
    HeaderIsRead(lines, defs, parent, key);
    var headed, defs1 := Headed(lines, path), defs[path := SubTable];
    PairsAreRead(headed, Interpret(headed).value, es);
    LeavesLeaveTablesFree(defs1, path, es);
    TablesAreRead(headed + Pairs(es), defs1 + Leaves(path, es), path, es);
    WholeAddsUp(defs, path, es);
  }

  lemma WholeAddsUp(defs: map<Path, Item>, path: Path, es: seq<Entry>)
    ensures defs[path := SubTable] + Leaves(path, es) + Tables(path, es) == defs + Whole(path, es)
  {
    if path in Leaves(path, es) { LeavesBelow(path, es, path); }
    if path in Tables(path, es) { TablesBelow(path, es, path); }
  }

  lemma LeavesLeaveTablesFree(defs: map<Path, Item>, path: Path, es: seq<Entry>)
    requires Valid(es) && forall q :: q in defs ==> !Below(q, path)
    ensures Free(defs + Leaves(path, es), path, es, true)
  {
    forall q | q in defs + Leaves(path, es) && Below(q, path) ensures !HasKey(es, q[|path|], true) {
      LeavesBelow(path, es, q);
      OneEntryPerKey(es, q[|path|]);
    }
  }

  lemma OneEntryPerKey(es: seq<Entry>, key: string)
    requires Valid(es)
    ensures !(HasKey(es, key, true) && HasKey(es, key, false))
  {
  }

  lemma {:induction false} TablesAreRead(lines: seq<Line>, defs: map<Path, Item>, path: Path, es: seq<Entry>)
    requires Reads(lines, defs) && Open(defs, path) && Valid(es) && Free(defs, path, es, true)
    ensures Reads(WrittenTables(lines, path, es), defs + Tables(path, es))
    decreases es, 0
  {
    if es == [] {
      assert defs + map[] == defs;
    } else {
      FreeSplit(defs, path, es, true);
      ValidSplit(es, true);
      if es[0].node.Leaf? {
        TablesAreRead(lines, defs, path, es[1..]);
      } else {
        var own, inner := path + [es[0].key], es[0].node.entries;
        WrittenIsRead(lines, defs, path, es[0].key, inner);
        var defs1 := defs + Whole(own, inner);
        WholeKeepsTheRestFree(defs, path, es);
        TablesAreRead(Written(lines, own, inner, true), defs1, path, es[1..]);
        TableFirst(defs, path, es);
      }
    }
  }

  lemma WholeKeepsTheRestFree(defs: map<Path, Item>, path: Path, es: seq<Entry>)
    requires es != [] && es[0].node.Table? && Valid(es) && Free(defs, path, es[1..], true) && Open(defs, path)
    ensures var defs1 := defs + Whole(path + [es[0].key], es[0].node.entries);
            Open(defs1, path) && Free(defs1, path, es[1..], true)
  {
    var own, inner := path + [es[0].key], es[0].node.entries;
    ValidSplit(es, true);
    forall n | 0 < n <= |path| ensures path[..n] !in Whole(own, inner) {
      if path[..n] in Whole(own, inner) { WholeBelow(own, inner, path[..n]); }
    }
    forall q | q in Whole(own, inner) && Below(q, path) ensures q[|path|] == es[0].key {
      WholeBelow(own, inner, q);
      assert q[|path|] == q[..|own|][|path|];
    }
  }

  lemma TableFirst(defs: map<Path, Item>, path: Path, es: seq<Entry>)
    requires es != [] && es[0].node.Table? && Valid(es)
    ensures defs + Whole(path + [es[0].key], es[0].node.entries) + Tables(path, es[1..]) == defs + Tables(path, es)
  {
    var own, inner, rest := path + [es[0].key], es[0].node.entries, Tables(path, es[1..]);
    ValidSplit(es, true);
    forall q | q in rest ensures q !in Whole(own, inner) {
      TablesBelow(path, es[1..], q);
      assert |q| >= |own| ==> q[|path|] == q[..|own|][|path|];
      if q in Whole(own, inner) { WholeBelow(own, inner, q); }
    }
  }

  /** All the lines written for a configuration define what it holds, and nothing else. */
  lemma ConfigurationIsRead(es: seq<Entry>)
    requires Valid(es)
    ensures Reads(Written([], [], es, false), Flat(es))
  {
    PairsAreRead([], State(map[], {}, []), es);
    assert [] + Pairs(es) == Pairs(es);
    var defs := Leaves([], es);
    assert map[] + defs == defs;
    LeavesLeaveTablesFree(map[], [], es);
    TablesAreRead(Pairs(es), defs, [], es);
  }

  // ---- Which configurations can be read back ----

  /** Every key and every value of a configuration can be read back. */
  ghost predicate Clean(alnum: Alnum, es: seq<Entry>) {
    forall i :: 0 <= i < |es| ==> CleanEntry(alnum, es[i])
  }

  ghost predicate CleanEntry(alnum: Alnum, e: Entry) {
    CleanKey(alnum, e.key) && match e.node case Leaf(v) => CleanValue(v) case Table(inner) => Clean(alnum, inner)
  }

  ghost predicate CleanLines(alnum: Alnum, lines: seq<Line>) {
    forall k :: 0 <= k < |lines| ==> CleanLine(alnum, lines[k])
  }

  /** The values are clean, their keys included; or the tables are. */
  ghost predicate CleanPart(alnum: Alnum, es: seq<Entry>, table: bool) {
    forall i :: 0 <= i < |es| && es[i].node.Table? == table ==> CleanEntry(alnum, es[i])
  }

  lemma CleanPartSplit(alnum: Alnum, es: seq<Entry>, table: bool)
    requires es != []
    ensures CleanPart(alnum, es, table)
            <==> (es[0].node.Table? == table ==> CleanEntry(alnum, es[0])) && CleanPart(alnum, es[1..], table)
  {
    assert forall i :: 0 <= i < |es[1..]| ==> es[1..][i] == es[i + 1];
    assert forall i :: 1 <= i < |es| ==> es[i] == es[1..][i - 1];
  }

  lemma CleanIsBothParts(alnum: Alnum, es: seq<Entry>)
    ensures Clean(alnum, es) <==> CleanPart(alnum, es, false) && CleanPart(alnum, es, true)
  {
  }

  lemma CleanLinesJoin(alnum: Alnum, a: seq<Line>, b: seq<Line>)
    ensures CleanLines(alnum, a + b) <==> CleanLines(alnum, a) && CleanLines(alnum, b)
  {
    if CleanLines(alnum, a + b) {
      assert forall k :: 0 <= k < |a| ==> a[k] == (a + b)[k];
      assert forall k :: 0 <= k < |b| ==> b[k] == (a + b)[|a| + k];
    }
  }

  lemma {:induction false} PairsAreClean(alnum: Alnum, es: seq<Entry>)
    ensures CleanLines(alnum, Pairs(es)) <==> CleanPart(alnum, es, false)
  {
    if es != [] {
      PairsAreClean(alnum, es[1..]);
      CleanPartSplit(alnum, es, false);
      if es[0].node.Leaf? {
        CleanLinesJoin(alnum, [Pair(es[0].key, es[0].node.value)], Pairs(es[1..]));
        assert CleanLines(alnum, [Pair(es[0].key, es[0].node.value)])
            <==> CleanLine(alnum, [Pair(es[0].key, es[0].node.value)][0]);
      } else {
        assert Pairs(es) == Pairs(es[1..]);
      }
    }
  }

  lemma HeadedIsClean(alnum: Alnum, lines: seq<Line>, path: Path)
    ensures CleanLines(alnum, Headed(lines, path)) <==> CleanLines(alnum, lines) && CleanPath(alnum, path)
  {
    var blank := if lines != [] && !lines[|lines| - 1].Blank? then [Blank] else [];
    CleanLinesJoin(alnum, lines + blank, [Header(path)]);
    CleanLinesJoin(alnum, lines, blank);
    assert CleanLines(alnum, [Header(path)]) <==> CleanLine(alnum, [Header(path)][0]);
  }

  lemma CleanPathLast(alnum: Alnum, path: Path, key: string)
    ensures CleanPath(alnum, path + [key]) <==> CleanPath(alnum, path) && CleanKey(alnum, key)
  {
    var p := path + [key];
    assert p[|path|] == key;
    assert forall k :: 0 <= k < |path| ==> path[k] == p[k];
  }

  /** The lines written for a table are clean exactly when its path and its entries are. */
  lemma {:induction false} WrittenIsClean(alnum: Alnum, lines: seq<Line>, path: Path, es: seq<Entry>)
    ensures CleanLines(alnum, Written(lines, path, es, true))
            <==> CleanLines(alnum, lines) && CleanPath(alnum, path) && Clean(alnum, es)
    decreases es, 1
  {
    HeadedIsClean(alnum, lines, path);
    PairsAreClean(alnum, es);
    CleanLinesJoin(alnum, Headed(lines, path), Pairs(es));
    TablesAreClean(alnum, Headed(lines, path) + Pairs(es), path, es);
    CleanIsBothParts(alnum, es);
  }

  lemma {:induction false} TablesAreClean(alnum: Alnum, lines: seq<Line>, path: Path, es: seq<Entry>)
    ensures CleanLines(alnum, WrittenTables(lines, path, es)) ==> CleanLines(alnum, lines)
    ensures CleanPath(alnum, path) ==>
              (CleanLines(alnum, WrittenTables(lines, path, es))
               <==> CleanLines(alnum, lines) && CleanPart(alnum, es, true))
    decreases es, 0
  {
    if es != [] {
      CleanPartSplit(alnum, es, true);
      var e := es[0];
      if e.node.Table? {
        var next := Written(lines, path + [e.key], e.node.entries, true);
        WrittenIsClean(alnum, lines, path + [e.key], e.node.entries);
        CleanPathLast(alnum, path, e.key);
        TablesAreClean(alnum, next, path, es[1..]);
        assert CleanEntry(alnum, e) <==> CleanKey(alnum, e.key) && Clean(alnum, e.node.entries);
      } else {
        TablesAreClean(alnum, lines, path, es[1..]);
      }
    }
  }

  lemma ConfigurationIsClean(alnum: Alnum, es: seq<Entry>)
    ensures CleanLines(alnum, Written([], [], es, false)) <==> Clean(alnum, es)
  {
    PairsAreClean(alnum, es);
    assert [] + Pairs(es) == Pairs(es);
    TablesAreClean(alnum, Pairs(es), [], es);
    CleanIsBothParts(alnum, es);
  }

  // ---- The text ----

  /** Headers name a table, and the last line is not blank. */
  ghost predicate WellFormed(lines: seq<Line>) {
    && (forall k :: 0 <= k < |lines| && lines[k].Header? ==> lines[k].path != [])
    && (lines != [] ==> !lines[|lines| - 1].Blank?)
  }

  lemma {:induction false} PairsAreWellFormed(es: seq<Entry>)
    ensures forall k :: 0 <= k < |Pairs(es)| ==> Pairs(es)[k].Pair?
  {
    if es != [] { PairsAreWellFormed(es[1..]); }
  }

  lemma {:induction false} WrittenIsWellFormed(lines: seq<Line>, path: Path, es: seq<Entry>)
    requires WellFormed(lines) && path != []
    ensures WellFormed(Written(lines, path, es, true))
    decreases es, 1
  {
    PairsAreWellFormed(es);
    assert WellFormed(Headed(lines, path));
    assert WellFormed(Headed(lines, path) + Pairs(es));
    TablesAreWellFormed(Headed(lines, path) + Pairs(es), path, es);
  }

  lemma {:induction false} TablesAreWellFormed(lines: seq<Line>, path: Path, es: seq<Entry>)
    requires WellFormed(lines)
    ensures WellFormed(WrittenTables(lines, path, es))
    decreases es, 0
  {
    if es != [] {
      if es[0].node.Table? {
        WrittenIsWellFormed(lines, path + [es[0].key], es[0].node.entries);
        TablesAreWellFormed(Written(lines, path + [es[0].key], es[0].node.entries, true), path, es[1..]);
      } else {
        TablesAreWellFormed(lines, path, es[1..]);
      }
    }
  }

  lemma ConfigurationIsWellFormed(es: seq<Entry>)
    ensures WellFormed(Written([], [], es, false))
  {
    PairsAreWellFormed(es);
    assert [] + Pairs(es) == Pairs(es);
    TablesAreWellFormed(Pairs(es), [], es);
  }

  lemma ReadOneMore(text: string, rest: seq<string>)
    ensures ReadLines([text] + rest)
            == (var first, more := ReadLine(text), ReadLines(rest);
                if first.None? || more.None? then None else Some([first.value] + more.value))
  {
    assert ([text] + rest)[0] == text && ([text] + rest)[1..] == rest;
  }

  lemma EmptyLineIsRead()
    ensures ReadLines([""]) == Some([Blank]) && ReadLines(["", ""]) == Some([Blank, Blank])
  {
    assert ReadLine("") == Some(Blank);
    ReadOneMore("", []);
    assert [""] + [] == [""] && [Blank] + [] == [Blank];
    ReadOneMore("", [""]);
    assert [""] + [""] == ["", ""] && [Blank] + [Blank] == [Blank, Blank];
  }

  lemma LineFirst(alnum: Alnum, line: Line, text: string, lines: seq<Line>, texts: seq<string>)
    requires ReadLine(text) == if CleanLine(alnum, line) then Some(line) else None
    requires ReadLines(texts) == if CleanLines(alnum, lines) then Some(lines + [Blank]) else None
    ensures ReadLines([text] + texts)
            == if CleanLines(alnum, [line] + lines) then Some([line] + lines + [Blank]) else None
  {
    ReadOneMore(text, texts);
    CleanLinesSplit(alnum, [line] + lines);
    assert ([line] + lines)[1..] == lines;
    assert [line] + (lines + [Blank]) == [line] + lines + [Blank];
  }

  /** Clean lines are read back one by one; one that is not clean spoils the whole. */
  lemma {:induction false} LinesRoundTrip(alnum: Alnum, lines: seq<Line>, texts: seq<string>)
    requires |texts| == |lines|
    requires forall k :: 0 <= k < |lines| ==>
      ReadLine(texts[k]) == if CleanLine(alnum, lines[k]) then Some(lines[k]) else None
    ensures ReadLines(texts + [""]) == if CleanLines(alnum, lines) then Some(lines + [Blank]) else None
    decreases |lines|
  {
    if lines == [] {
      assert texts + [""] == [""] && lines + [Blank] == [Blank];
      EmptyLineIsRead();
    } else {
      forall k | 0 <= k < |lines| - 1
        ensures ReadLine(texts[1..][k]) == if CleanLine(alnum, lines[1..][k]) then Some(lines[1..][k]) else None
      {
        var m := k + 1;
        assert texts[1..][k] == texts[m] && lines[1..][k] == lines[m];
      }
      LinesRoundTrip(alnum, lines[1..], texts[1..]);
      assert texts + [""] == [texts[0]] + (texts[1..] + [""]);
      assert lines == [lines[0]] + lines[1..];
      LineFirst(alnum, lines[0], texts[0], lines[1..], texts[1..] + [""]);
    }
  }

  lemma CleanLinesSplit(alnum: Alnum, lines: seq<Line>)
    requires lines != []
    ensures CleanLines(alnum, lines) <==> CleanLine(alnum, lines[0]) && CleanLines(alnum, lines[1..])
  {
    assert forall k :: 1 <= k < |lines| ==> lines[k] == lines[1..][k - 1];
  }

  /** The written text splits into the written lines, and one empty line at its end. */
  lemma TextSplits(alnum: Alnum, lines: seq<Line>)
    requires WellFormed(lines) && lines != []
    ensures Split(StripRight(Join(Texts(alnum, lines))) + "\n") == Texts(alnum, lines) + [""]
  {
    var texts, last := Texts(alnum, lines), |lines| - 1;
    forall k | 0 <= k < |lines| ensures '\n' !in texts[k] { LineIsOneLine(alnum, lines[k]); }
    LineIsOneLine(alnum, lines[last]);
    JoinEndsWithLastLine(texts);
    SplitJoin(texts);
    StripRightKeeps(Join(texts));
  }

  /** The texts of well-formed lines read back as those lines and an empty one, if they are clean. */
  lemma TextsRoundTrip(alnum: Alnum, lines: seq<Line>)
    requires WellFormed(lines)
    ensures ReadLines(Texts(alnum, lines) + [""]) == if CleanLines(alnum, lines) then Some(lines + [Blank]) else None
  {
    var texts := Texts(alnum, lines);
    forall k | 0 <= k < |lines|
      ensures ReadLine(texts[k]) == if CleanLine(alnum, lines[k]) then Some(lines[k]) else None
    {
      LineRoundTrip(alnum, lines[k]);
    }
    LinesRoundTrip(alnum, lines, texts);
  }

  /** The text of an empty configuration is one newline. */
  lemma EmptyTextIsRead()
    ensures StripRight(Join([])) + "\n" == "\n" && Split("\n") == ["", ""]
    ensures Interpret([Blank, Blank]) == Some(State(map[], {}, []))
  {
    InterpretOneMore([], Blank);
    InterpretOneMore([Blank], Blank);
    assert [] + [Blank] == [Blank] && [Blank] + [Blank] == [Blank, Blank];
  }

  /** The lines of a text, from the lines written. */
  lemma WrittenTextIsRead(alnum: Alnum, lines: seq<Line>)
    requires WellFormed(lines)
    ensures var read := ReadLines(Split(StripRight(Join(Texts(alnum, lines))) + "\n"));
            if !CleanLines(alnum, lines) then read == None
            else read.Some? && Interpret(read.value) == Interpret(lines)
  {
    if lines == [] {
      assert Texts(alnum, lines) == [];
      EmptyTextIsRead();
      EmptyLineIsRead();
    } else {
      TextSplits(alnum, lines);
      TextsRoundTrip(alnum, lines);
      InterpretOneMore(lines, Blank);
    }
  }

  /**
   * A configuration that is written and read back is unchanged exactly when no quoted text holds the delete character
   * and no bare key holds a character outside ASCII; otherwise the text is not TOML at all.
   */
  lemma ReadsBackExactlyWhenClean(alnum: Alnum, es: seq<Entry>)
    requires Valid(es)
    ensures ReadToml(Render(alnum, es)) == if Clean(alnum, es) then Some(Flat(es)) else None
  {
    var lines := Written([], [], es, false);
    ConfigurationIsRead(es);
    ConfigurationIsClean(alnum, es);
    ConfigurationIsWellFormed(es);
    WrittenTextIsRead(alnum, lines);
  }

  /** What is read back answers every lookup as the configuration does. */
  lemma RoundTripAnswersEveryLookup(alnum: Alnum, es: seq<Entry>, path: Path)
    requires Valid(es) && Clean(alnum, es) && path != []
    ensures ReadToml(Render(alnum, es)).Some?
    ensures At(ReadToml(Render(alnum, es)).value, path) == Lookup(es, path)
  {
    ReadsBackExactlyWhenClean(alnum, es);
    PathsAreLookups([], es, path);
    assert [] + path == path;
  }

  /** A text holding the delete character is written as it is, which TOML forbids. */
  lemma DeleteIsLost(alnum: Alnum)
    ensures ReadToml(Render(alnum, [Entry("name", Leaf(Str([Delete])))])) == None
  {
    var es := [Entry("name", Leaf(Str([Delete])))];
    assert !CleanValue(es[0].node.value) by { assert Delete in [Delete]; }
    assert !CleanEntry(alnum, es[0]);
    ReadsBackExactlyWhenClean(alnum, es);
  }

  /** A key of one letter outside ASCII is written bare, which TOML forbids. */
  lemma AccentedKeyIsLost(alnum: Alnum)
    requires alnum('\U{00E9}')
    ensures ReadToml(Render(alnum, [Entry(['\U{00E9}'], Leaf(Bool(true)))])) == None
  {
    var key := ['\U{00E9}'];
    var es := [Entry(key, Leaf(Bool(true)))];
    assert WrittenBare(alnum, key);
    assert key[0] >= '\U{0080}';
    assert !CleanEntry(alnum, es[0]);
    ReadsBackExactlyWhenClean(alnum, es);
  }

  // ---- The writer ----

  class TableWriter {
    const alnum: Alnum
    var lines: seq<string>

    constructor (alnum: Alnum)
      ensures this.alnum == alnum && lines == []
    {
      this.alnum := alnum;
      lines := [];
    }

    /** Appends the values of a table. */
    method RenderPairs(es: seq<Entry>, ghost done: seq<Line>)
      requires lines == Texts(alnum, done)
      modifies this
      ensures lines == Texts(alnum, done + Pairs(es))
    {
      ghost var now := done;
      assert es[0..] == es;
      for i := 0 to |es|
        invariant lines == Texts(alnum, now) && now + Pairs(es[i..]) == done + Pairs(es)
      {
        PairsFirst(es[i..], now);
        assert es[i..][1..] == es[i + 1..];
        if es[i].node.Leaf? {
          lines := lines + [LineText(alnum, Pair(es[i].key, es[i].node.value))];
          now := now + [Pair(es[i].key, es[i].node.value)];
        }
      }
      assert now == done + Pairs(es);
    }

    /** Appends a table; `done` are the lines already written. */
    method RenderTable(path: Path, es: seq<Entry>, header: bool, ghost done: seq<Line>)
      requires lines == Texts(alnum, done)
      modifies this
      ensures lines == Texts(alnum, Written(done, path, es, header))
      decreases es
    {
      ghost var now := done;
      if header {
        if lines != [] && lines[|lines| - 1] != "" { lines := lines + [""]; }
        lines := lines + [LineText(alnum, Header(path))];
        HeadedTexts(alnum, done, path);
        now := Headed(done, path);
      }
      RenderPairs(es, now);
      now := now + Pairs(es);
      ghost var goal := WrittenTables(now, path, es);
      assert es[0..] == es;
      for i := 0 to |es|
        invariant lines == Texts(alnum, now) && WrittenTables(now, path, es[i..]) == goal
      {
        assert es[i..][1..] == es[i + 1..];
        if es[i].node.Table? {
          RenderTable(path + [es[i].key], es[i].node.entries, true, now);
          now := Written(now, path + [es[i].key], es[i].node.entries, true);
        }
      }
    }
  }

  lemma PairsFirst(es: seq<Entry>, now: seq<Line>)
    requires es != []
    ensures now + Pairs(es)
            == (if es[0].node.Leaf? then now + [Pair(es[0].key, es[0].node.value)] else now) + Pairs(es[1..])
  {
    var rest := Pairs(es[1..]);
    if es[0].node.Leaf? {
      OneThenRest(now, Pair(es[0].key, es[0].node.value), rest);
    } else {
      assert [] + rest == rest;
    }
  }

  lemma OneThenRest(now: seq<Line>, line: Line, rest: seq<Line>)
    ensures now + ([line] + rest) == now + [line] + rest
  {
  }

  lemma HeadedTexts(alnum: Alnum, lines: seq<Line>, path: Path)
    ensures var texts := Texts(alnum, lines);
            Texts(alnum, Headed(lines, path))
            == texts + (if texts != [] && texts[|texts| - 1] != "" then [""] else []) + [LineText(alnum, Header(path))]
  {
    if lines != [] { LineIsOneLine(alnum, lines[|lines| - 1]); }
  }

  method RenderToml(alnum: Alnum, es: seq<Entry>) returns (text: string)
    ensures text == Render(alnum, es)
  {
    var writer := new TableWriter(alnum);
    writer.RenderTable([], es, false, []);
    text := StripRight(Join(writer.lines)) + "\n";
  }
}
