/**
 * The dependency tree of one task group, as text lines: each task is drawn once, and every further edge into it
 * becomes a reference back.
 */
module GroupView {
  import opened Wrappers
  import opened Graphs

  type Id = TaskId

  datatype Task = Task(id: Id, dependsOn: seq<Id>)

  /** One drawn line, indented to `depth`: the label of a task with its detail lines, or a reference back to it. */
  datatype Line = Label(id: Id, depth: nat) | Back(id: Id, depth: nat)

  /** What has been drawn, and the tasks labelled so far. */
  datatype Drawing = Drawing(lines: seq<Line>, seen: set<Id>)

  // ---- The graph of a group ----

  predicate Distinct(ids: seq<Id>) {
    forall i, j :: 0 <= i < j < |ids| ==> ids[i] != ids[j]
  }

  /** Ids in the order of their first listing. */
  function Ids(tasks: seq<Task>): (r: seq<Id>)
    ensures Distinct(r)
    ensures forall id :: id in r <==> exists k :: 0 <= k < |tasks| && tasks[k].id == id
  {
    if tasks == [] then []
    else
      var before, id := Ids(tasks[..|tasks| - 1]), tasks[|tasks| - 1].id;
      assert forall k :: 0 <= k < |tasks| - 1 ==> tasks[..|tasks| - 1][k] == tasks[k];
      if id in before then before else before + [id]
  }

  /** The ids among `names` that are listed, in order and with repeats. */
  function Listed(names: seq<Id>, ids: seq<Id>): seq<Id>
  {
    if names == [] then []
    else if names[0] in ids then [names[0]] + Listed(names[1..], ids)
    else Listed(names[1..], ids)
  }

  /** What the last listing of `id` says it depends on. */
  function Latest(tasks: seq<Task>, id: Id): seq<Id> {
    if tasks == [] then []
    else if tasks[|tasks| - 1].id == id then tasks[|tasks| - 1].dependsOn
    else Latest(tasks[..|tasks| - 1], id)
  }

  /** Of several listings the last one counts. */
  lemma {:induction false} LastListingCounts(tasks: seq<Task>, k: nat)
    requires k < |tasks| && forall j :: k < j < |tasks| ==> tasks[j].id != tasks[k].id
    ensures Latest(tasks, tasks[k].id) == tasks[k].dependsOn
  {
    if k < |tasks| - 1 { LastListingCounts(tasks[..|tasks| - 1], k); }
  }

  /** Dependencies by task. */
  type DepsOf = Id -> seq<Id>

  /** The dependencies of each task inside its group. */
  function DepsIn(tasks: seq<Task>): DepsOf {
    var ids := Ids(tasks);
    id => Listed(Latest(tasks, id), ids)
  }

  /** `id` once for each time `deps` names `d`. */
  function Mentions(deps: seq<Id>, d: Id, id: Id): seq<Id>
  {
    if deps == [] then []
    else Mentions(deps[..|deps| - 1], d, id) + if deps[|deps| - 1] == d then [id] else []
  }

  /** The tasks among `ids` that depend on `d`, in listing order. */
  function ChildrenOf(ids: seq<Id>, deps: DepsOf, d: Id): seq<Id>
  {
    if ids == [] then []
    else ChildrenOf(ids[..|ids| - 1], deps, d) + Mentions(deps(ids[|ids| - 1]), d, ids[|ids| - 1])
  }

  function ChildGraph(ids: seq<Id>, deps: DepsOf): Graph<Id> {
    map d | d in ids :: ChildrenOf(ids, deps, d)
  }

  function RootsOf(ids: seq<Id>, deps: DepsOf): seq<Id>
  {
    if ids == [] then []
    else RootsOf(ids[..|ids| - 1], deps) + if deps(ids[|ids| - 1]) == [] then [ids[|ids| - 1]] else []
  }

  lemma {:induction false} ListedMembers(names: seq<Id>, ids: seq<Id>, x: Id)
    ensures x in Listed(names, ids) <==> x in names && x in ids
  {
    if names != [] { ListedMembers(names[1..], ids, x); }
  }

  lemma {:induction false} MentionsMembers(deps: seq<Id>, d: Id, id: Id, x: Id)
    ensures x in Mentions(deps, d, id) <==> x == id && d in deps
  {
    if deps != [] { MentionsMembers(deps[..|deps| - 1], d, id, x); }
  }

  lemma {:induction false} ChildrenMembers(ids: seq<Id>, deps: DepsOf, d: Id, x: Id)
    ensures x in ChildrenOf(ids, deps, d) <==> x in ids && d in deps(x)
  {
    if ids != [] {
      ChildrenMembers(ids[..|ids| - 1], deps, d, x);
      MentionsMembers(deps(ids[|ids| - 1]), d, ids[|ids| - 1], x);
    }
  }

  lemma {:induction false} RootsMembers(ids: seq<Id>, deps: DepsOf, x: Id)
    ensures x in RootsOf(ids, deps) <==> x in ids && deps(x) == []
  {
    if ids != [] { RootsMembers(ids[..|ids| - 1], deps, x); }
  }

  // ---- Drawing ----

  /** Draws `id` and everything below it that has not been drawn. */
  function Emit(g: Graph<Id>, id: Id, depth: nat, seen: set<Id>): (r: Drawing)
    ensures seen + {id} <= r.seen
    decreases |g.Keys - seen|, 0, 0
  {
    if id in seen then Drawing([Back(id, depth)], seen)
    else if id !in g then Drawing([Label(id, depth)], seen + {id})
    else
      assert id in g.Keys - seen && g.Keys - (seen + {id}) == g.Keys - seen - {id};
      var below := EmitEach(g, g[id], 0, depth + 1, seen + {id});
      Drawing([Label(id, depth)] + below.lines, below.seen)
  }

  /** Draws `ids[i..]` in turn. */
  function EmitEach(g: Graph<Id>, ids: seq<Id>, i: nat, depth: nat, seen: set<Id>): (r: Drawing)
    requires i <= |ids|
    ensures seen <= r.seen
    decreases |g.Keys - seen|, 1, |ids| - i
  {
    if i == |ids| then Drawing([], seen)
    else
      var first := Emit(g, ids[i], depth, seen);
      SubsetSize(g.Keys - first.seen, g.Keys - seen);
      var rest := EmitEach(g, ids, i + 1, depth, first.seen);
      Drawing(first.lines + rest.lines, rest.seen)
  }

  /** Draws, as further roots, the tasks among `ids[i..]` that no root led to. */
  function EmitLeftovers(g: Graph<Id>, ids: seq<Id>, i: nat, seen: set<Id>): (r: Drawing)
    requires i <= |ids|
    ensures seen <= r.seen
    decreases |ids| - i
  {
    if i == |ids| then Drawing([], seen)
    else if ids[i] in seen then EmitLeftovers(g, ids, i + 1, seen)
    else
      var first := Emit(g, ids[i], 0, seen);
      var rest := EmitLeftovers(g, ids, i + 1, first.seen);
      Drawing(first.lines + rest.lines, rest.seen)
  }

  lemma {:induction false} EachIsSeen(g: Graph<Id>, ids: seq<Id>, i: nat, depth: nat, seen: set<Id>, k: nat)
    requires i <= k < |ids|
    ensures ids[k] in EmitEach(g, ids, i, depth, seen).seen
    decreases k - i
  {
    if i < k { EachIsSeen(g, ids, i + 1, depth, Emit(g, ids[i], depth, seen).seen, k); }
  }

  lemma {:induction false} LeftoversAreSeen(g: Graph<Id>, ids: seq<Id>, i: nat, seen: set<Id>, k: nat)
    requires i <= k < |ids|
    ensures ids[k] in EmitLeftovers(g, ids, i, seen).seen
    decreases k - i
  {
    if i < k { LeftoversAreSeen(g, ids, i + 1, if ids[i] in seen then seen else Emit(g, ids[i], 0, seen).seen, k); }
  }

  /** How many of `ids[i..]` start a drawing of their own in `EmitLeftovers`. */
  function LeftoverStarts(g: Graph<Id>, ids: seq<Id>, i: nat, seen: set<Id>): nat
    requires i <= |ids|
    decreases |ids| - i
  {
    if i == |ids| then 0
    else if ids[i] in seen then LeftoverStarts(g, ids, i + 1, seen)
    else 1 + LeftoverStarts(g, ids, i + 1, Emit(g, ids[i], 0, seen).seen)
  }

  /** The whole drawing of a group. */
  function Render(ids: seq<Id>, deps: DepsOf): Drawing {
    var g := ChildGraph(ids, deps);
    var fromRoots := EmitEach(g, RootsOf(ids, deps), 0, 0, {});
    var left := EmitLeftovers(g, ids, 0, fromRoots.seen);
    Drawing(fromRoots.lines + left.lines, left.seen)
  }

  function Labels(lines: seq<Line>): seq<Id> {
    if lines == [] then []
    else Labels(lines[..|lines| - 1]) + if lines[|lines| - 1].Label? then [lines[|lines| - 1].id] else []
  }

  function Backs(lines: seq<Line>): (n: nat) {
    if lines == [] then 0 else Backs(lines[..|lines| - 1]) + if lines[|lines| - 1].Back? then 1 else 0
  }

  /** Edges out of the given tasks. */
  function EdgesFrom(g: Graph<Id>, ids: seq<Id>): nat {
    if ids == [] then 0
    else EdgesFrom(g, ids[..|ids| - 1]) + if ids[|ids| - 1] in g then |g[ids[|ids| - 1]]| else 0
  }

  // ---- Every task is labelled once ----

  lemma {:induction false} LabelsAppend(a: seq<Line>, b: seq<Line>)
    ensures Labels(a + b) == Labels(a) + Labels(b)
    ensures |Labels(a)| + Backs(a) == |a|
    decreases |a| + |b|
  {
    if b == [] {
      assert a + b == a;
      if a != [] { LabelsAppend(a[..|a| - 1], []); }
    } else {
      LabelsAppend(a, b[..|b| - 1]);
      assert (a + b)[..|a + b| - 1] == a + b[..|b| - 1];
    }
  }

  lemma {:induction false} EdgesAppend(g: Graph<Id>, a: seq<Id>, b: seq<Id>)
    ensures EdgesFrom(g, a + b) == EdgesFrom(g, a) + EdgesFrom(g, b)
    decreases |b|
  {
    if b == [] {
      assert a + b == a;
    } else {
      EdgesAppend(g, a, b[..|b| - 1]);
      assert (a + b)[..|a + b| - 1] == a + b[..|b| - 1];
    }
  }

  /** `d` labels, each once, exactly the tasks that are new in `d.seen`, and draws one line per start and per edge
      below it. */
  ghost predicate Accounts(g: Graph<Id>, seen: set<Id>, starts: int, d: Drawing) {
    && Distinct(Labels(d.lines))
    && (forall x :: x in Labels(d.lines) <==> x in d.seen && x !in seen)
    && |d.lines| == starts + EdgesFrom(g, Labels(d.lines))
  }

  lemma AccountsJoin(g: Graph<Id>, seen: set<Id>, a: Drawing, s: int, b: Drawing, t: int)
    requires Accounts(g, seen, s, a) && Accounts(g, a.seen, t, b) && seen <= a.seen <= b.seen
    ensures Accounts(g, seen, s + t, Drawing(a.lines + b.lines, b.seen))
  {
    LabelsAppend(a.lines, b.lines);
    EdgesAppend(g, Labels(a.lines), Labels(b.lines));
    var all := Labels(a.lines) + Labels(b.lines);
    forall i, j | 0 <= i < j < |all| ensures all[i] != all[j] {
      if i < |Labels(a.lines)| <= j {
        assert all[i] in Labels(a.lines) && all[j] in Labels(b.lines);
      }
    }
  }

  lemma SingleLabel(lines: seq<Line>, id: Id)
    requires |lines| == 1 && lines[0].Label? && lines[0].id == id
    ensures Labels(lines) == [id]
  {
    assert lines[..0] == [];
  }

  lemma SingleEdges(g: Graph<Id>, ids: seq<Id>)
    requires |ids| == 1
    ensures EdgesFrom(g, ids) == if ids[0] in g then |g[ids[0]]| else 0
  {
    assert ids[..0] == [];
  }

  /** A label alone: one line, for one start, and its edges still to be drawn. */
  lemma LabelAccounts(g: Graph<Id>, id: Id, depth: nat, seen: set<Id>)
    requires id !in seen
    ensures Accounts(g, seen, 1 - if id in g then |g[id]| else 0, Drawing([Label(id, depth)], seen + {id}))
  {
    var lines := [Label(id, depth)];
    SingleLabel(lines, id);
    SingleEdges(g, [id]);
    forall x ensures x in Labels(lines) <==> x in seen + {id} && x !in seen {
      assert x in Labels(lines) <==> x == id;
    }
  }

  lemma NothingAccounts(g: Graph<Id>, seen: set<Id>)
    ensures Accounts(g, seen, 0, Drawing([], seen))
  {
    assert Labels([]) == [];
  }

  lemma BackAccounts(g: Graph<Id>, id: Id, depth: nat, seen: set<Id>)
    ensures Accounts(g, seen, 1, Drawing([Back(id, depth)], seen))
  {
    var lines := [Back(id, depth)];
    assert lines[..0] == [];
    assert Labels(lines) == [];
  }

  lemma {:induction false} EmitAccounts(g: Graph<Id>, id: Id, depth: nat, seen: set<Id>)
    ensures Accounts(g, seen, 1, Emit(g, id, depth, seen))
    decreases |g.Keys - seen|, 0, 0
  {
    if id in seen {
      BackAccounts(g, id, depth, seen);
    } else {
      LabelAccounts(g, id, depth, seen);
      if id in g {
        assert id in g.Keys - seen && g.Keys - (seen + {id}) == g.Keys - seen - {id};
        EachAccounts(g, g[id], 0, depth + 1, seen + {id});
        var below := EmitEach(g, g[id], 0, depth + 1, seen + {id});
        AccountsJoin(g, seen, Drawing([Label(id, depth)], seen + {id}), 1 - |g[id]|, below, |g[id]|);
      }
    }
  }

  lemma {:induction false} EachAccounts(g: Graph<Id>, ids: seq<Id>, i: nat, depth: nat, seen: set<Id>)
    requires i <= |ids|
    ensures Accounts(g, seen, |ids| - i, EmitEach(g, ids, i, depth, seen))
    decreases |g.Keys - seen|, 1, |ids| - i
  {
    if i == |ids| {
      NothingAccounts(g, seen);
    } else {
      var first := Emit(g, ids[i], depth, seen);
      EmitAccounts(g, ids[i], depth, seen);
      SubsetSize(g.Keys - first.seen, g.Keys - seen);
      EachAccounts(g, ids, i + 1, depth, first.seen);
      AccountsJoin(g, seen, first, 1, EmitEach(g, ids, i + 1, depth, first.seen), |ids| - i - 1);
    }
  }

  lemma {:induction false} LeftoversAccount(g: Graph<Id>, ids: seq<Id>, i: nat, seen: set<Id>)
    requires i <= |ids|
    ensures Accounts(g, seen, LeftoverStarts(g, ids, i, seen), EmitLeftovers(g, ids, i, seen))
    decreases |ids| - i
  {
    if i < |ids| {
      if ids[i] in seen {
        LeftoversAccount(g, ids, i + 1, seen);
      } else {
        var first := Emit(g, ids[i], 0, seen);
        EmitAccounts(g, ids[i], 0, seen);
        LeftoversAccount(g, ids, i + 1, first.seen);
        AccountsJoin(g, seen, first, 1, EmitLeftovers(g, ids, i + 1, first.seen),
            LeftoverStarts(g, ids, i + 1, first.seen));
      }
    }
  }

  /** Drawing never leaves the tasks of a closed graph. */
  lemma {:induction false} EmitStaysInside(g: Graph<Id>, id: Id, depth: nat, seen: set<Id>)
    requires id in g && seen <= g.Keys && forall d, x :: Edge(g, d, x) ==> x in g
    ensures Emit(g, id, depth, seen).seen <= g.Keys
    decreases |g.Keys - seen|, 0, 0
  {
    if id !in seen {
      assert id in g.Keys - seen && g.Keys - (seen + {id}) == g.Keys - seen - {id};
      forall k | 0 <= k < |g[id]| ensures g[id][k] in g { assert Edge(g, id, g[id][k]); }
      EachStaysInside(g, g[id], 0, depth + 1, seen + {id});
    }
  }

  lemma {:induction false} EachStaysInside(g: Graph<Id>, ids: seq<Id>, i: nat, depth: nat, seen: set<Id>)
    requires i <= |ids| && seen <= g.Keys
    requires (forall k :: 0 <= k < |ids| ==> ids[k] in g) && forall d, x :: Edge(g, d, x) ==> x in g
    ensures EmitEach(g, ids, i, depth, seen).seen <= g.Keys
    decreases |g.Keys - seen|, 1, |ids| - i
  {
    if i < |ids| {
      EmitStaysInside(g, ids[i], depth, seen);
      var first := Emit(g, ids[i], depth, seen);
      SubsetSize(g.Keys - first.seen, g.Keys - seen);
      EachStaysInside(g, ids, i + 1, depth, first.seen);
    }
  }

  lemma {:induction false} LeftoversStayInside(g: Graph<Id>, ids: seq<Id>, i: nat, seen: set<Id>)
    requires i <= |ids| && seen <= g.Keys
    requires (forall k :: 0 <= k < |ids| ==> ids[k] in g) && forall d, x :: Edge(g, d, x) ==> x in g
    ensures EmitLeftovers(g, ids, i, seen).seen <= g.Keys
    decreases |ids| - i
  {
    if i < |ids| {
      EmitStaysInside(g, ids[i], 0, seen);
      LeftoversStayInside(g, ids, i + 1, if ids[i] in seen then seen else Emit(g, ids[i], 0, seen).seen);
    }
  }

  /** Each dependency of a task of the group is a task of the group. */
  ghost predicate Within(ids: seq<Id>, deps: DepsOf) {
    forall x, d :: x in ids && d in deps(x) ==> d in ids
  }

  /** The starts of a drawing: the roots, and the leftovers. */
  function Leftovers(ids: seq<Id>, deps: DepsOf): nat {
    var g := ChildGraph(ids, deps);
    LeftoverStarts(g, ids, 0, EmitEach(g, RootsOf(ids, deps), 0, 0, {}).seen)
  }

  lemma RenderAccounts(ids: seq<Id>, deps: DepsOf)
    ensures Accounts(ChildGraph(ids, deps), {}, |RootsOf(ids, deps)| + Leftovers(ids, deps), Render(ids, deps))
  {
    var g, roots := ChildGraph(ids, deps), RootsOf(ids, deps);
    var fromRoots := EmitEach(g, roots, 0, 0, {});
    EachAccounts(g, roots, 0, 0, {});
    LeftoversAccount(g, ids, 0, fromRoots.seen);
    AccountsJoin(g, {}, fromRoots, |roots|, EmitLeftovers(g, ids, 0, fromRoots.seen), Leftovers(ids, deps));
  }

  lemma ChildGraphEdges(ids: seq<Id>, deps: DepsOf, d: Id, x: Id)
    ensures Edge(ChildGraph(ids, deps), d, x) <==> d in ids && x in ids && d in deps(x)
  {
    ChildrenMembers(ids, deps, d, x);
  }

  lemma RenderSeesAll(ids: seq<Id>, deps: DepsOf)
    requires Within(ids, deps)
    ensures forall x :: x in Render(ids, deps).seen <==> x in ids
  {
    var g, roots := ChildGraph(ids, deps), RootsOf(ids, deps);
    forall d, x | Edge(g, d, x) ensures x in g { ChildGraphEdges(ids, deps, d, x); }
    forall k | 0 <= k < |roots| ensures roots[k] in g { RootsMembers(ids, deps, roots[k]); }
    EachStaysInside(g, roots, 0, 0, {});
    LeftoversStayInside(g, ids, 0, EmitEach(g, roots, 0, 0, {}).seen);
    forall x | x in ids ensures x in Render(ids, deps).seen {
      var k :| 0 <= k < |ids| && ids[k] == x;
      LeftoversAreSeen(g, ids, 0, EmitEach(g, roots, 0, 0, {}).seen, k);
    }
  }

  /** Every task of the group, and nothing else, gets exactly one label. */
  lemma EveryTaskIsLabelledOnce(ids: seq<Id>, deps: DepsOf)
    requires Within(ids, deps)
    ensures Distinct(Labels(Render(ids, deps).lines))
    ensures forall x :: x in Labels(Render(ids, deps).lines) <==> x in ids
  {
    RenderAccounts(ids, deps);
    RenderSeesAll(ids, deps);
  }

  // ---- Counting the references back ----

  function Without(b: seq<Id>, k: nat): seq<Id>
    requires k < |b|
  {
    b[..k] + b[k + 1..]
  }

  lemma WithoutDrops(g: Graph<Id>, b: seq<Id>, k: nat)
    requires k < |b| && Distinct(b)
    ensures EdgesFrom(g, b) == EdgesFrom(g, Without(b, k)) + if b[k] in g then |g[b[k]]| else 0
  {
    EdgesAppend(g, b[..k], b[k + 1..]);
    EdgesAppend(g, b[..k], [b[k]] + b[k + 1..]);
    EdgesAppend(g, [b[k]], b[k + 1..]);
    assert EdgesFrom(g, [b[k]]) == if b[k] in g then |g[b[k]]| else 0;
    assert b == b[..k] + ([b[k]] + b[k + 1..]);
  }

  lemma WithoutKeepsTheRest(b: seq<Id>, k: nat, x: Id)
    requires k < |b| && Distinct(b)
    ensures Distinct(Without(b, k))
    ensures x in Without(b, k) <==> x in b && x != b[k]
  {
    if x in b && x != b[k] {
      var i :| 0 <= i < |b| && b[i] == x;
      assert Without(b, k)[if i < k then i else i - 1] == x;
    }
  }

  /** Sums over the same tasks agree in any order. */
  lemma {:induction false} EdgesInAnyOrder(g: Graph<Id>, a: seq<Id>, b: seq<Id>)
    requires Distinct(a) && Distinct(b) && forall x :: x in a <==> x in b
    ensures |a| == |b| && EdgesFrom(g, a) == EdgesFrom(g, b)
    decreases |a|
  {
    assert b != [] ==> b[0] in a;
    if a != [] {
      assert a[0] in b;
      var k :| 0 <= k < |b| && b[k] == a[0];
      WithoutDrops(g, a, 0);
      WithoutDrops(g, b, k);
      forall x ensures x in Without(a, 0) <==> x in Without(b, k) {
        WithoutKeepsTheRest(a, 0, x);
        WithoutKeepsTheRest(b, k, x);
      }
      WithoutKeepsTheRest(a, 0, a[0]);
      WithoutKeepsTheRest(b, k, a[0]);
      EdgesInAnyOrder(g, Without(a, 0), Without(b, k));
    }
  }

  /** Dependencies named in the group. */
  function DependencyCount(ids: seq<Id>, deps: DepsOf): nat {
    if ids == [] then 0 else DependencyCount(ids[..|ids| - 1], deps) + |deps(ids[|ids| - 1])|
  }

  /** The lengths of the lists `f(d)` for `d` in `ids`, summed. */
  function Total(ids: seq<Id>, f: DepsOf): nat {
    if ids == [] then 0 else Total(ids[..|ids| - 1], f) + |f(ids[|ids| - 1])|
  }

  lemma {:induction false} TotalAdds(ids: seq<Id>, f: DepsOf, g: DepsOf, h: DepsOf)
    requires forall d :: d in ids ==> |h(d)| == |f(d)| + |g(d)|
    ensures Total(ids, h) == Total(ids, f) + Total(ids, g)
  {
    if ids != [] { TotalAdds(ids[..|ids| - 1], f, g, h); }
  }

  /** A list that is a single entry at `e` and empty elsewhere. */
  lemma {:induction false} TotalOfOne(ids: seq<Id>, e: Id, f: DepsOf)
    requires Distinct(ids) && forall d :: d in ids ==> |f(d)| == if d == e then 1 else 0
    ensures Total(ids, f) == if e in ids then 1 else 0
  {
    if ids != [] {
      var last := |ids| - 1;
      TotalOfOne(ids[..last], e, f);
      assert forall k :: 0 <= k < last ==> ids[k] != ids[last];
    }
  }

  lemma {:induction false} MentionsTotal(ids: seq<Id>, names: seq<Id>, x: Id)
    requires Distinct(ids) && forall d :: d in names ==> d in ids
    ensures Total(ids, d => Mentions(names, d, x)) == |names|
    decreases |names|
  {
    var all: DepsOf := d => Mentions(names, d, x);
    if names == [] {
      TotalAdds(ids, all, all, all);
    } else {
      var last := |names| - 1;
      var before: DepsOf := d => Mentions(names[..last], d, x);
      var one: DepsOf := d => if names[last] == d then [x] else [];
      MentionsTotal(ids, names[..last], x);
      TotalOfOne(ids, names[last], one);
      TotalAdds(ids, before, one, all);
      assert names[last] in ids;
    }
  }

  /** Counted by child or by parent, the edges are the same. */
  lemma {:induction false} ChildrenTotal(ids: seq<Id>, listed: seq<Id>, deps: DepsOf)
    requires Distinct(ids) && forall x, d :: x in listed && d in deps(x) ==> d in ids
    ensures Total(ids, d => ChildrenOf(listed, deps, d)) == DependencyCount(listed, deps)
    decreases |listed|
  {
    var all: DepsOf := d => ChildrenOf(listed, deps, d);
    if listed == [] {
      TotalAdds(ids, all, all, all);
    } else {
      var last := |listed| - 1;
      var x := listed[last];
      var before: DepsOf := d => ChildrenOf(listed[..last], deps, d);
      var mine: DepsOf := d => Mentions(deps(x), d, x);
      ChildrenTotal(ids, listed[..last], deps);
      MentionsTotal(ids, deps(x), x);
      TotalAdds(ids, before, mine, all);
    }
  }

  lemma {:induction false} EdgesAreTotal(g: Graph<Id>, ids: seq<Id>, f: DepsOf)
    requires forall d :: d in ids ==> d in g && g[d] == f(d)
    ensures EdgesFrom(g, ids) == Total(ids, f)
  {
    if ids != [] { EdgesAreTotal(g, ids[..|ids| - 1], f); }
  }

  /** References back number roots, leftover starts and dependencies, less the tasks. */
  lemma BackReferencesAreCounted(ids: seq<Id>, deps: DepsOf)
    requires Distinct(ids) && Within(ids, deps)
    ensures Backs(Render(ids, deps).lines)
            == |RootsOf(ids, deps)| + Leftovers(ids, deps) + DependencyCount(ids, deps) - |ids|
  {
    var g, d := ChildGraph(ids, deps), Render(ids, deps);
    RenderAccounts(ids, deps);
    EveryTaskIsLabelledOnce(ids, deps);
    LabelsAppend(d.lines, []);
    EdgesInAnyOrder(g, Labels(d.lines), ids);
    ChildrenTotal(ids, ids, deps);
    EdgesAreTotal(g, ids, x => ChildrenOf(ids, deps, x));
  }

  // ---- Which tasks are left over ----

  /** What is newly drawn was reached from the start. */
  lemma {:induction false} EmitReaches(g: Graph<Id>, id: Id, depth: nat, seen: set<Id>, x: Id)
    requires x in Emit(g, id, depth, seen).seen && x !in seen
    ensures Reaches(g, id, x)
    decreases |g.Keys - seen|, 0, 0
  {
    assert Walk(g, id, []) && End(g, id, []) == id;
    if x != id {
      assert id in g.Keys - seen && g.Keys - (seen + {id}) == g.Keys - seen - {id};
      var k := EachReaches(g, g[id], 0, depth + 1, seen + {id}, x);
      ReachesInOne(g, id, k);
      ReachesTransitively(g, id, g[id][k], x);
    }
  }

  lemma {:induction false} EachReaches(g: Graph<Id>, ids: seq<Id>, i: nat, depth: nat, seen: set<Id>, x: Id)
      returns (k: nat)
    requires i <= |ids| && x in EmitEach(g, ids, i, depth, seen).seen && x !in seen
    ensures i <= k < |ids| && Reaches(g, ids[k], x)
    decreases |g.Keys - seen|, 1, |ids| - i
  {
    var first := Emit(g, ids[i], depth, seen);
    if x in first.seen {
      EmitReaches(g, ids[i], depth, seen, x);
      k := i;
    } else {
      SubsetSize(g.Keys - first.seen, g.Keys - seen);
      k := EachReaches(g, ids, i + 1, depth, first.seen, x);
    }
  }

  /** Everything below what is newly drawn has been drawn too. */
  ghost predicate ClosedOver(g: Graph<Id>, seen: set<Id>, after: set<Id>) {
    forall x, y :: x in after && x !in seen && Edge(g, x, y) ==> y in after
  }

  lemma {:induction false} EmitCloses(g: Graph<Id>, id: Id, depth: nat, seen: set<Id>)
    ensures ClosedOver(g, seen, Emit(g, id, depth, seen).seen)
    decreases |g.Keys - seen|, 0, 0
  {
    if id !in seen && id in g {
      assert id in g.Keys - seen && g.Keys - (seen + {id}) == g.Keys - seen - {id};
      EachCloses(g, g[id], 0, depth + 1, seen + {id});
      forall k | 0 <= k < |g[id]| ensures g[id][k] in Emit(g, id, depth, seen).seen {
        EachIsSeen(g, g[id], 0, depth + 1, seen + {id}, k);
      }
    }
  }

  lemma {:induction false} EachCloses(g: Graph<Id>, ids: seq<Id>, i: nat, depth: nat, seen: set<Id>)
    requires i <= |ids|
    ensures ClosedOver(g, seen, EmitEach(g, ids, i, depth, seen).seen)
    decreases |g.Keys - seen|, 1, |ids| - i
  {
    if i < |ids| {
      var first := Emit(g, ids[i], depth, seen);
      EmitCloses(g, ids[i], depth, seen);
      SubsetSize(g.Keys - first.seen, g.Keys - seen);
      EachCloses(g, ids, i + 1, depth, first.seen);
    }
  }

  lemma {:induction false} ClosedUnderWalks(g: Graph<Id>, after: set<Id>, a: Id, w: seq<nat>)
    requires ClosedOver(g, {}, after) && a in after && Walk(g, a, w)
    ensures End(g, a, w) in after
    decreases |w|
  {
    if w != [] {
      assert Edge(g, a, g[a][w[0]]);
      ClosedUnderWalks(g, after, g[a][w[0]], w[1..]);
    }
  }

  /** Some root leads to `x`. */
  ghost predicate Rooted(ids: seq<Id>, deps: DepsOf, x: Id) {
    exists a :: a in RootsOf(ids, deps) && Reaches(ChildGraph(ids, deps), a, x)
  }

  lemma RootsDrawTheRooted(ids: seq<Id>, deps: DepsOf, x: Id)
    ensures x in EmitEach(ChildGraph(ids, deps), RootsOf(ids, deps), 0, 0, {}).seen <==> Rooted(ids, deps, x)
  {
    var g, roots := ChildGraph(ids, deps), RootsOf(ids, deps);
    var drawn := EmitEach(g, roots, 0, 0, {}).seen;
    if x in drawn {
      var k := EachReaches(g, roots, 0, 0, {}, x);
    }
    if Rooted(ids, deps, x) {
      var a :| a in roots && Reaches(g, a, x);
      var w :| Walk(g, a, w) && End(g, a, w) == x;
      EachCloses(g, roots, 0, 0, {});
      var k :| 0 <= k < |roots| && roots[k] == a;
      EachIsSeen(g, roots, 0, 0, {}, k);
      ClosedUnderWalks(g, drawn, a, w);
    }
  }

  lemma {:induction false} NoStartsExactlyWhen(g: Graph<Id>, ids: seq<Id>, i: nat, seen: set<Id>)
    requires i <= |ids|
    ensures LeftoverStarts(g, ids, i, seen) == 0 <==> forall k :: i <= k < |ids| ==> ids[k] in seen
    decreases |ids| - i
  {
    if i < |ids| && ids[i] in seen { NoStartsExactlyWhen(g, ids, i + 1, seen); }
  }

  /** No task starts a drawing as a leftover exactly when every task can be reached from a root. */
  lemma NoLeftoversExactlyWhen(ids: seq<Id>, deps: DepsOf)
    ensures Leftovers(ids, deps) == 0 <==> forall x :: x in ids ==> Rooted(ids, deps, x)
  {
    forall x ensures x in EmitEach(ChildGraph(ids, deps), RootsOf(ids, deps), 0, 0, {}).seen <==> Rooted(ids, deps, x) {
      RootsDrawTheRooted(ids, deps, x);
    }
    NoStartsExactlyWhen(ChildGraph(ids, deps), ids, 0,
        EmitEach(ChildGraph(ids, deps), RootsOf(ids, deps), 0, 0, {}).seen);
  }

  /** A task that no root leads to depends on another such task. */
  lemma UnrootedDependsOnUnrooted(ids: seq<Id>, deps: DepsOf, unrooted: set<Id>, x: Id)
    requires Within(ids, deps) && unrooted == (set y | y in ids && !Rooted(ids, deps, y)) && x in unrooted
    ensures Entered(ChildGraph(ids, deps), unrooted, x)
  {
    var g := ChildGraph(ids, deps);
    assert Walk(g, x, []) && End(g, x, []) == x;
    assert Reaches(g, x, x);
    RootsMembers(ids, deps, x);
    assert deps(x) == [] ==> x in RootsOf(ids, deps);
    if deps(x) != [] {
      var d := deps(x)[0];
      ChildGraphEdges(ids, deps, d, x);
      if Rooted(ids, deps, d) {
        var a :| a in RootsOf(ids, deps) && Reaches(g, a, d);
        var k :| 0 <= k < |g[d]| && g[d][k] == x;
        ReachesInOne(g, d, k);
        ReachesTransitively(g, a, d, x);
      }
      assert d in unrooted;
    }
  }

  ghost predicate AcyclicGroup(ids: seq<Id>, deps: DepsOf) {
    forall x :: x in ids ==> !LeadsTo(ChildGraph(ids, deps), x, x)
  }

  lemma AcyclicTasksAreRooted(ids: seq<Id>, deps: DepsOf, x: Id)
    requires Within(ids, deps) && AcyclicGroup(ids, deps) && x in ids
    ensures Rooted(ids, deps, x)
  {
    var g := ChildGraph(ids, deps);
    var unrooted := set y | y in ids && !Rooted(ids, deps, y);
    if !Rooted(ids, deps, x) {
      forall y | y in unrooted ensures Entered(g, unrooted, y) {
        UnrootedDependsOnUnrooted(ids, deps, unrooted, y);
      }
      WalkingBackClosesACycle(g, unrooted, x, {});
    }
  }

  /** A group without dependency cycles has no leftovers, so its references back number roots and edges less tasks. */
  lemma AcyclicGroupsHaveNoLeftovers(ids: seq<Id>, deps: DepsOf)
    requires Distinct(ids) && Within(ids, deps) && AcyclicGroup(ids, deps)
    ensures Leftovers(ids, deps) == 0
    ensures Backs(Render(ids, deps).lines) == |RootsOf(ids, deps)| + DependencyCount(ids, deps) - |ids|
  {
    forall x | x in ids ensures Rooted(ids, deps, x) { AcyclicTasksAreRooted(ids, deps, x); }
    NoLeftoversExactlyWhen(ids, deps);
    BackReferencesAreCounted(ids, deps);
  }

  /** For any list of task records: one label a task, and the references back counted. */
  lemma GroupsAreDrawnWhole(tasks: seq<Task>)
    ensures var lines := Render(Ids(tasks), DepsIn(tasks)).lines;
            && Distinct(Labels(lines))
            && (forall id :: id in Labels(lines) <==> exists k :: 0 <= k < |tasks| && tasks[k].id == id)
            && Backs(lines) == |RootsOf(Ids(tasks), DepsIn(tasks))| + Leftovers(Ids(tasks), DepsIn(tasks))
                               + DependencyCount(Ids(tasks), DepsIn(tasks)) - |Ids(tasks)|
  {
    forall x, d | x in Ids(tasks) && d in DepsIn(tasks)(x) ensures d in Ids(tasks) {
      ListedMembers(Latest(tasks, x), Ids(tasks), d);
    }
    EveryTaskIsLabelledOnce(Ids(tasks), DepsIn(tasks));
    BackReferencesAreCounted(Ids(tasks), DepsIn(tasks));
  }

  // ---- Reading the drawing back ----

  /** Line `j` hangs under line `i`: the nearest line above it that is one level out. */
  predicate HangsUnder(lines: seq<Line>, i: nat, j: nat) {
    && i < j < |lines| && lines[j].depth == lines[i].depth + 1
    && forall k :: i < k < j ==> lines[k].depth > lines[i].depth
  }

  /** Every line below the top level hangs under the label of a task it depends on. */
  ghost predicate HangsRight(g: Graph<Id>, lines: seq<Line>, j: nat)
    requires j < |lines|
  {
    exists i :: 0 <= i < j && HangsUnder(lines, i, j) && lines[i].Label? && Edge(g, lines[i].id, lines[j].id)
  }

  ghost predicate Tree(g: Graph<Id>, depth: nat, lines: seq<Line>) {
    && (forall j :: 0 <= j < |lines| ==> lines[j].depth >= depth)
    && (forall j :: 0 <= j < |lines| && lines[j].depth > depth ==> HangsRight(g, lines, j))
  }

  lemma HangsAfter(g: Graph<Id>, a: seq<Line>, b: seq<Line>, j: nat)
    requires j < |b| && HangsRight(g, b, j)
    ensures HangsRight(g, a + b, |a| + j)
  {
    var all := a + b;
    var i :| 0 <= i < j && HangsUnder(b, i, j) && b[i].Label? && Edge(g, b[i].id, b[j].id);
    assert forall k :: 0 <= k < |b| ==> all[|a| + k] == b[k];
    forall k | |a| + i < k < |a| + j ensures all[k].depth > all[|a| + i].depth { assert all[k] == b[k - |a|]; }
    assert HangsUnder(all, |a| + i, |a| + j);
  }

  lemma TreesJoin(g: Graph<Id>, depth: nat, a: seq<Line>, b: seq<Line>)
    requires Tree(g, depth, a) && Tree(g, depth, b)
    ensures Tree(g, depth, a + b)
  {
    var all := a + b;
    forall j | 0 <= j < |all| && all[j].depth > depth ensures HangsRight(g, all, j) {
      if j < |a| {
        assert HangsRight(g, a, j);
        var i :| 0 <= i < j && HangsUnder(a, i, j) && a[i].Label? && Edge(g, a[i].id, a[j].id);
        assert HangsUnder(all, i, j);
      } else {
        HangsAfter(g, a, b, j - |a|);
      }
    }
  }

  /** The trees drawn for the children of `id`, under its label. */
  lemma TreeUnderLabel(g: Graph<Id>, id: Id, depth: nat, below: seq<Line>)
    requires Tree(g, depth + 1, below)
    requires forall j :: 0 <= j < |below| && below[j].depth == depth + 1 ==> Edge(g, id, below[j].id)
    ensures Tree(g, depth, [Label(id, depth)] + below)
  {
    var all := [Label(id, depth)] + below;
    forall j | 0 <= j < |all| ensures all[j].depth >= depth && (all[j].depth > depth ==> HangsRight(g, all, j)) {
      if j > 0 {
        LineUnderLabel(g, Label(id, depth), below, j - 1);
        assert all[j] == below[j - 1];
      }
    }
  }

  lemma LineUnderLabel(g: Graph<Id>, top: Line, below: seq<Line>, m: nat)
    requires top.Label? && Tree(g, top.depth + 1, below) && m < |below|
    requires below[m].depth == top.depth + 1 ==> Edge(g, top.id, below[m].id)
    ensures HangsRight(g, [top] + below, m + 1)
  {
    if below[m].depth > top.depth + 1 {
      HangsAfter(g, [top], below, m);
    } else {
      HangsUnderLabel(g, top, below, m);
    }
  }

  lemma HangsUnderLabel(g: Graph<Id>, top: Line, below: seq<Line>, m: nat)
    requires top.Label? && m < |below| && (forall k :: 0 <= k < |below| ==> below[k].depth > top.depth)
    requires below[m].depth == top.depth + 1 && Edge(g, top.id, below[m].id)
    ensures HangsRight(g, [top] + below, m + 1)
  {
    var all := [top] + below;
    forall k | 0 < k < m + 1 ensures all[k].depth > top.depth { assert all[k] == below[k - 1]; }
    assert all[m + 1] == below[m] && HangsUnder(all, 0, m + 1);
  }

  lemma {:induction false} EmitDrawsATree(g: Graph<Id>, id: Id, depth: nat, seen: set<Id>)
    ensures var lines := Emit(g, id, depth, seen).lines;
            && Tree(g, depth, lines) && forall j :: 0 <= j < |lines| && lines[j].depth == depth ==> lines[j].id == id
    decreases |g.Keys - seen|, 0, 0
  {
    if id !in seen && id in g {
      assert id in g.Keys - seen && g.Keys - (seen + {id}) == g.Keys - seen - {id};
      EachDrawsTrees(g, g[id], 0, depth + 1, seen + {id});
      TreeUnderLabel(g, id, depth, EmitEach(g, g[id], 0, depth + 1, seen + {id}).lines);
    }
  }

  lemma {:induction false} EachDrawsTrees(g: Graph<Id>, ids: seq<Id>, i: nat, depth: nat, seen: set<Id>)
    requires i <= |ids|
    ensures var lines := EmitEach(g, ids, i, depth, seen).lines;
            && Tree(g, depth, lines) && forall j :: 0 <= j < |lines| && lines[j].depth == depth ==> lines[j].id in ids
    decreases |g.Keys - seen|, 1, |ids| - i
  {
    if i < |ids| {
      var first := Emit(g, ids[i], depth, seen);
      EmitDrawsATree(g, ids[i], depth, seen);
      SubsetSize(g.Keys - first.seen, g.Keys - seen);
      EachDrawsTrees(g, ids, i + 1, depth, first.seen);
      TreesJoin(g, depth, first.lines, EmitEach(g, ids, i + 1, depth, first.seen).lines);
    }
  }

  lemma {:induction false} LeftoversDrawTrees(g: Graph<Id>, ids: seq<Id>, i: nat, seen: set<Id>)
    requires i <= |ids|
    ensures Tree(g, 0, EmitLeftovers(g, ids, i, seen).lines)
    decreases |ids| - i
  {
    if i < |ids| {
      if ids[i] in seen {
        LeftoversDrawTrees(g, ids, i + 1, seen);
      } else {
        var first := Emit(g, ids[i], 0, seen);
        EmitDrawsATree(g, ids[i], 0, seen);
        LeftoversDrawTrees(g, ids, i + 1, first.seen);
        TreesJoin(g, 0, first.lines, EmitLeftovers(g, ids, i + 1, first.seen).lines);
      }
    }
  }

  /** Indentation tells the truth: an indented line hangs under the label of a task that its own task depends on. */
  lemma IndentationIsDependency(ids: seq<Id>, deps: DepsOf, j: nat)
    requires j < |Render(ids, deps).lines| && Render(ids, deps).lines[j].depth > 0
    ensures exists i :: && 0 <= i < j && HangsUnder(Render(ids, deps).lines, i, j) && Render(ids, deps).lines[i].Label?
                        && Render(ids, deps).lines[i].id in deps(Render(ids, deps).lines[j].id)
  {
    var g, roots, lines := ChildGraph(ids, deps), RootsOf(ids, deps), Render(ids, deps).lines;
    var fromRoots := EmitEach(g, roots, 0, 0, {});
    EachDrawsTrees(g, roots, 0, 0, {});
    LeftoversDrawTrees(g, ids, 0, fromRoots.seen);
    TreesJoin(g, 0, fromRoots.lines, EmitLeftovers(g, ids, 0, fromRoots.seen).lines);
    assert HangsRight(g, lines, j);
    var i :| 0 <= i < j && HangsUnder(lines, i, j) && lines[i].Label? && Edge(g, lines[i].id, lines[j].id);
    ChildGraphEdges(ids, deps, lines[i].id, lines[j].id);
  }

  // ---- The renderer ----

  /** Indexes the records by id; a later record replaces an earlier one of the same id but keeps its place. */
  method IndexTasks(tasks: seq<Task>) returns (order: seq<Id>, latest: map<Id, seq<Id>>)
    ensures order == Ids(tasks)
    ensures latest.Keys == (set x | x in order) && forall x :: x in latest ==> latest[x] == Latest(tasks, x)
  {
    order, latest := [], map[];
    for n := 0 to |tasks|
      invariant order == Ids(tasks[..n]) && latest.Keys == (set x | x in order)
      invariant forall x :: x in latest ==> latest[x] == Latest(tasks[..n], x)
    {
      assert tasks[..n + 1][..n] == tasks[..n];
      if tasks[n].id !in latest { order := order + [tasks[n].id]; }
      latest := latest[tasks[n].id := tasks[n].dependsOn];
    }
    assert tasks[..|tasks|] == tasks;
  }

  /** `before` with `id` added to the children of each task in `names`. */
  function Linked(before: Graph<Id>, names: seq<Id>, id: Id): Graph<Id> {
    map d | d in before :: before[d] + Mentions(names, d, id)
  }

  lemma LinkedNone(before: Graph<Id>, id: Id)
    ensures Linked(before, [], id) == before
  {
    forall d | d in before ensures Linked(before, [], id)[d] == before[d] {
      assert before[d] + [] == before[d];
    }
  }

  lemma MentionsGrow(list: seq<Id>, names: seq<Id>, n: Id, d: Id, id: Id)
    ensures list + Mentions(names + [n], d, id) == list + Mentions(names, d, id) + if n == d then [id] else []
  {
    assert (names + [n])[..|names|] == names;
  }

  lemma LinkedGrows(before: Graph<Id>, names: seq<Id>, id: Id, n: Id)
    requires n in before
    ensures Linked(before, names + [n], id) == Linked(before, names, id)[n := Linked(before, names, id)[n] + [id]]
  {
    var g, h := Linked(before, names, id), Linked(before, names + [n], id);
    var k := g[n := g[n] + [id]];
    assert k.Keys == before.Keys && h.Keys == before.Keys;
    forall d | d in before ensures h[d] == k[d] {
      MentionsGrow(before[d], names, n, d, id);
    }
    assert h == k;
  }

  /** Adds `id` to the children of each dependency it names. */
  method LinkTask(before: Graph<Id>, id: Id, names: seq<Id>) returns (children: Graph<Id>)
    requires forall d :: d in names ==> d in before
    ensures children == Linked(before, names, id)
  {
    children := before;
    assert names[..0] == [];
    LinkedNone(before, id);
    for m := 0 to |names|
      invariant children == Linked(before, names[..m], id)
    {
      assert names[..m + 1] == names[..m] + [names[m]];
      LinkedGrows(before, names[..m], id, names[m]);
      children := children[names[m] := children[names[m]] + [id]];
    }
    assert names[..|names|] == names;
  }

  /** The child graph with only the edges into `linked`. */
  function ChildGraphInto(order: seq<Id>, linked: seq<Id>, deps: DepsOf): Graph<Id> {
    map d | d in order :: ChildrenOf(linked, deps, d)
  }

  lemma ChildGraphNone(order: seq<Id>, none: seq<Id>, deps: DepsOf)
    requires none == []
    ensures (map x: Id | x in order :: []) == ChildGraphInto(order, none, deps) && RootsOf(none, deps) == []
  {
  }

  lemma ChildGraphWhole(order: seq<Id>, all: seq<Id>, deps: DepsOf)
    requires all == order
    ensures ChildGraphInto(order, all, deps) == ChildGraph(order, deps)
  {
  }

  lemma ChildGraphGrows(order: seq<Id>, linked: seq<Id>, id: Id, deps: DepsOf)
    ensures Linked(ChildGraphInto(order, linked, deps), deps(id), id) == ChildGraphInto(order, linked + [id], deps)
    ensures RootsOf(linked + [id], deps) == RootsOf(linked, deps) + if deps(id) == [] then [id] else []
  {
    assert (linked + [id])[..|linked|] == linked;
  }

  lemma ListedIsInside(names: seq<Id>, ids: seq<Id>)
    ensures forall d :: d in Listed(names, ids) ==> d in ids
  {
    forall d | d in Listed(names, ids) ensures d in ids { ListedMembers(names, ids, d); }
  }

  /** Turns dependencies around into children, and finds the roots. */
  method LinkTasks(order: seq<Id>, latest: map<Id, seq<Id>>, ghost deps: DepsOf)
      returns (children: Graph<Id>, roots: seq<Id>)
    requires forall x :: x in order ==> x in latest && Listed(latest[x], order) == deps(x)
    ensures children == ChildGraph(order, deps) && roots == RootsOf(order, deps)
  {
    children, roots := map x | x in order :: [], [];
    ChildGraphNone(order, order[..0], deps);
    for n := 0 to |order|
      invariant children == ChildGraphInto(order, order[..n], deps)
      invariant roots == RootsOf(order[..n], deps)
    {
      var id := order[n];
      var inside := Listed(latest[id], order);
      ChildGraphGrows(order, order[..n], id, deps);
      ListedIsInside(latest[id], order);
      if inside == [] { roots := roots + [id]; }
      children := LinkTask(children, id, inside);
      assert order[..n + 1] == order[..n] + [id];
    }
    ChildGraphWhole(order, order[..|order|], deps);
  }

  /** Drawing what is left, after `done`, completes the goal. */
  ghost predicate Completes(base: seq<Line>, done: seq<Line>, left: Drawing, goal: Drawing) {
    done + left.lines == base + goal.lines && left.seen == goal.seen
  }

  lemma CompletesAfter(base: seq<Line>, done: seq<Line>, first: Drawing, rest: Drawing, goal: Drawing)
    requires Completes(base, done, Drawing(first.lines + rest.lines, rest.seen), goal)
    ensures Completes(base, done + first.lines, rest, goal)
  {
    assert done + (first.lines + rest.lines) == (done + first.lines) + rest.lines;
  }

  /** Draws one group over its child graph. */
  class Renderer {
    const g: Graph<Id>
    var seen: set<Id>
    var lines: seq<Line>

    constructor (g: Graph<Id>)
      ensures this.g == g && seen == {} && lines == []
    {
      this.g := g;
      seen, lines := {}, [];
    }

    method EmitTask(id: Id, depth: nat)
      modifies this
      ensures var d := Emit(g, id, depth, old(seen)); seen == d.seen && lines == old(lines) + d.lines
      decreases |g.Keys - seen|, 0
    {
      if id in seen {
        lines := lines + [Back(id, depth)];
        return;
      }
      seen, lines := seen + {id}, lines + [Label(id, depth)];
      if id in g {
        assert id in g.Keys - old(seen) && g.Keys - seen == g.Keys - old(seen) - {id};
        ghost var below := EmitEach(g, g[id], 0, depth + 1, seen);
        EmitAll(g[id], depth + 1);
        assert old(lines) + [Label(id, depth)] + below.lines == old(lines) + ([Label(id, depth)] + below.lines);
      }
    }

    /** Draws a list of tasks in turn: the children of a task, or the roots. */
    method EmitAll(ids: seq<Id>, depth: nat)
      modifies this
      ensures Completes(old(lines), lines, Drawing([], seen), EmitEach(g, ids, 0, depth, old(seen)))
      ensures lines == old(lines) + EmitEach(g, ids, 0, depth, old(seen)).lines
      decreases |g.Keys - seen|, 1
    {
      ghost var goal, base, before := EmitEach(g, ids, 0, depth, seen), lines, seen;
      for i := 0 to |ids|
        invariant before <= seen
        invariant Completes(base, lines, EmitEach(g, ids, i, depth, seen), goal)
      {
        SubsetSize(g.Keys - seen, g.Keys - before);
        ghost var first := Emit(g, ids[i], depth, seen);
        CompletesAfter(base, lines, first, EmitEach(g, ids, i + 1, depth, first.seen), goal);
        EmitTask(ids[i], depth);
      }
    }

    /** Draws, as further roots, the tasks not drawn yet. */
    method EmitRest(order: seq<Id>)
      modifies this
      ensures Completes(old(lines), lines, Drawing([], seen), EmitLeftovers(g, order, 0, old(seen)))
    {
      ghost var goal, base := EmitLeftovers(g, order, 0, seen), lines;
      for i := 0 to |order|
        invariant Completes(base, lines, EmitLeftovers(g, order, i, seen), goal)
      {
        if order[i] !in seen {
          ghost var first := Emit(g, order[i], 0, seen);
          CompletesAfter(base, lines, first, EmitLeftovers(g, order, i + 1, first.seen), goal);
          EmitTask(order[i], 0);
        }
      }
    }
  }

  /** The lines under the heading; a group without tasks has none. */
  method RenderGroup(tasks: seq<Task>) returns (lines: seq<Line>)
    ensures lines == Render(Ids(tasks), DepsIn(tasks)).lines
  {
    var order, latest := IndexTasks(tasks);
    var children, roots := LinkTasks(order, latest, DepsIn(tasks));
    var renderer := new Renderer(children);
    renderer.EmitAll(roots, 0);
    ghost var fromRoots := EmitEach(children, roots, 0, 0, {});
    assert renderer.lines == fromRoots.lines && renderer.seen == fromRoots.seen;
    renderer.EmitRest(order);
    lines := renderer.lines;
  }
}
