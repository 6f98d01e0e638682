/** Collections among what other processes do: sessions that wake, end, start or go between the read and the
    deletions. */
module TreeGcRaces {
  import opened Wrappers
  import opened TreeGc

  // ---- What becomes of one session ----

  /** Whether a session has ended, if it is in the table. */
  function StateOf(rows: Rows, id: Id): Option<bool> {
    if rows == [] then None
    else if rows[|rows| - 1].id == id then Some(rows[|rows| - 1].ended)
    else StateOf(rows[..|rows| - 1], id)
  }

  /** What changes make of the state of one session, without looking at a table. */
  function Fate(was: Option<bool>, cs: seq<Change>, id: Id): Option<bool> {
    if cs == [] then was
    else
      var before := Fate(was, cs[..|cs| - 1], id);
      match cs[|cs| - 1]
      case Started(s) => if s.id == id && before.None? then Some(s.ended) else before
      case Updated(i, ended, _) => if i == id && before.Some? then Some(ended) else before
      case Removed(i) => if i == id then None else before
  }

  lemma {:induction false} StateMembers(rows: Rows, id: Id)
    ensures StateOf(rows, id).None? <==> !Has(rows, id)
  {
    if rows != [] {
      var front := rows[..|rows| - 1];
      StateMembers(front, id);
      if Has(front, id) {
        var k :| 0 <= k < |front| && front[k].id == id;
        assert rows[k].id == id;
      }
      if Has(rows, id) && rows[|rows| - 1].id != id {
        var k :| 0 <= k < |rows| && rows[k].id == id;
        assert front[k].id == id;
      }
    }
  }

  lemma StateLast(rows: Rows, s: Session, id: Id)
    ensures StateOf(rows + [s], id) == if s.id == id then Some(s.ended) else StateOf(rows, id)
    ensures StateOf(rows + [], id) == StateOf(rows, id)
  {
    assert (rows + [s])[..|rows|] == rows && rows + [] == rows;
  }

  lemma {:induction false} UpdateState(rows: Rows, i: Id, ended: bool, stamp: Instant, id: Id)
    ensures StateOf(Update(rows, i, ended, stamp), id)
            == if i == id && StateOf(rows, id).Some? then Some(ended) else StateOf(rows, id)
  {
    if rows != [] {
      var front, last := rows[..|rows| - 1], rows[|rows| - 1];
      UpdateState(front, i, ended, stamp, id);
      var now := if last.id == i then last.(ended := ended, stamp := stamp) else last;
      StateLast(Update(front, i, ended, stamp), now, id);
    }
  }

  lemma {:induction false} RemoveState(rows: Rows, i: Id, id: Id)
    ensures StateOf(Remove(rows, i), id) == if i == id then None else StateOf(rows, id)
  {
    if rows != [] {
      var front, last := rows[..|rows| - 1], rows[|rows| - 1];
      RemoveState(front, i, id);
      StateLast(Remove(front, i), last, id);
    }
  }

  lemma {:induction false} WithoutState(rows: Rows, plan: seq<Entry>, id: Id)
    ensures StateOf(Without(rows, plan), id) == if Named(plan, id) then None else StateOf(rows, id)
  {
    if rows != [] {
      var front, last := rows[..|rows| - 1], rows[|rows| - 1];
      WithoutState(front, plan, id);
      StateLast(Without(front, plan), last, id);
    }
  }

  /** The changes of a table are those of each session's state. */
  lemma {:induction false} ChangesAreFates(rows: Rows, cs: seq<Change>, id: Id)
    ensures StateOf(ChangedAll(rows, cs), id) == Fate(StateOf(rows, id), cs, id)
  {
    if cs != [] {
      var before, c := ChangedAll(rows, cs[..|cs| - 1]), cs[|cs| - 1];
      ChangesAreFates(rows, cs[..|cs| - 1], id);
      match c
      case Started(s) => StateMembers(before, s.id); StateLast(before, s, id);
      case Updated(i, ended, stamp) => UpdateState(before, i, ended, stamp, id);
      case Removed(i) => RemoveState(before, i, id);
    }
  }

  /** All that others do before the n-th deletion is over. */
  function Before(others: Others, n: nat): seq<Change> {
    if n == 0 then [] else Before(others, n - 1) + others(n - 1)
  }

  lemma {:induction false} FateOfBoth(was: Option<bool>, a: seq<Change>, b: seq<Change>, id: Id)
    ensures Fate(was, a + b, id) == Fate(Fate(was, a, id), b, id)
  {
    if b == [] {
      assert a + b == a;
    } else {
      FateOfBoth(was, a, b[..|b| - 1], id);
      assert (a + b)[..|a + b| - 1] == a + b[..|b| - 1] && (a + b)[|a + b| - 1] == b[|b| - 1];
    }
  }

  lemma NamedIn(plan: seq<Entry>, id: Id)
    requires plan != []
    ensures Named(plan, id) <==> Named(plan[..|plan| - 1], id) || id in plan[|plan| - 1].sessions
    ensures Named([plan[|plan| - 1]], id) <==> id in plan[|plan| - 1].sessions
  {
    var front, last := plan[..|plan| - 1], plan[|plan| - 1];
    assert plan == front + [last] && [] + [last] == [last];
    NamedLast(front, last, id);
    NamedLast([], last, id);
  }

  /** A session the plan does not name is, after all deletions, as the others alone have made it. */
  lemma {:induction false} UnnamedAreSpared(rows: Rows, plan: seq<Entry>, others: Others, id: Id)
    requires !Named(plan, id)
    ensures StateOf(Swept(rows, plan, others), id) == Fate(StateOf(rows, id), Before(others, |plan|), id)
  {
    if plan != [] {
      var n := |plan| - 1;
      var front := Swept(rows, plan[..n], others);
      NamedIn(plan, id);
      UnnamedAreSpared(rows, plan[..n], others, id);
      ChangesAreFates(front, others(n), id);
      WithoutState(ChangedAll(front, others(n)), [plan[n]], id);
      FateOfBoth(StateOf(rows, id), Before(others, n), others(n), id);
    }
  }

  // ---- Plans name each session once ----

  /** Entry `k` is that of a doomed tree. */
  ghost predicate OfTree(seen: Rows, e: Entry) {
    Ended(seen, e.root) && e.sessions == Ids(Tree(seen, e.root))
  }

  ghost predicate PlansTrees(seen: Rows, plan: seq<Entry>, n: nat)
    requires n <= |Sorted(seen)|
  {
    && (forall k :: 0 <= k < |plan| ==> OfTree(seen, plan[k]) && plan[k].root in RootsUpTo(Sorted(seen), n))
    && (forall i, k :: 0 <= i < k < |plan| ==> plan[i].root != plan[k].root)
  }

  lemma {:induction false} PlanOfTrees(seen: Rows, n: nat, keep: nat, cutoff: Instant)
    requires n <= |Sorted(seen)|
    ensures PlansTrees(seen, Plan(Sorted(seen), n, keep, cutoff), n)
  {
    if n > 0 {
      var cs := Sorted(seen);
      var c := cs[n - 1];
      PlanOfTrees(seen, n - 1, keep, cutoff);
      CandidateAt(seen, n - 1);
      var e := Entry(c.root, Ids(c.members), c.stamp < cutoff, n - 1 >= keep);
      PlansOneMore(seen, Plan(cs, n - 1, keep, cutoff), e, n);
    }
  }

  lemma PlansOneMore(seen: Rows, plan: seq<Entry>, e: Entry, n: nat)
    requires 0 < n <= |Sorted(seen)| && PlansTrees(seen, plan, n - 1)
    requires OfTree(seen, e) && e.root == Sorted(seen)[n - 1].root
    ensures PlansTrees(seen, plan + [e], n) && PlansTrees(seen, plan + [], n)
  {
    NewPlace(seen, n);
    assert plan + [] == plan;
  }

  /** The tree at a place is not among those before. */
  lemma NewPlace(seen: Rows, n: nat)
    requires 0 < n <= |Sorted(seen)|
    ensures Sorted(seen)[n - 1].root !in RootsUpTo(Sorted(seen), n - 1)
  {
    var cs := Sorted(seen);
    RootsUpToMembers(cs, n - 1, cs[n - 1].root);
    if i :| 0 <= i < n - 1 && cs[i].root == cs[n - 1].root {
      PrecedesByPlace(seen, i, n - 1);
    }
  }

  /** A planned session was read as ended, and is in one entry only. */
  lemma PlannedHadEnded(rows: Rows, workspace: Option<nat>, keep: nat, cutoff: Instant, n: nat, id: Id)
    requires Keyed(rows) && n < |Planned(rows, workspace, keep, cutoff)|
    requires id in Planned(rows, workspace, keep, cutoff)[n].sessions
    ensures StateOf(rows, id) == Some(true)
    ensures !Named(Planned(rows, workspace, keep, cutoff)[..n], id)
  {
    var seen, plan := View(rows, workspace), Planned(rows, workspace, keep, cutoff);
    PlanOfTrees(seen, |Sorted(seen)|, keep, cutoff);
    assert OfTree(seen, plan[n]);
    var s := SessionOf(seen, plan[n].root, id);
    ViewMembers(rows, workspace, s);
    StateOfRow(rows, s);
    if Named(plan[..n], id) {
      var k :| 0 <= k < n && id in plan[..n][k].sessions;
      assert plan[..n][k] == plan[k] && OfTree(seen, plan[k]);
      var t := SessionOf(seen, plan[k].root, id);
      ViewMembers(rows, workspace, t);
      SameIdSameSession(rows, s, t);
    }
  }

  lemma SessionOf(seen: Rows, r: Id, id: Id) returns (s: Session)
    requires Ended(seen, r) && id in Ids(Tree(seen, r))
    ensures s in seen && s.id == id && RootOf(s) == r && s.ended
  {
    var members := Tree(seen, r);
    var k :| 0 <= k < |members| && Ids(members)[k] == id;
    s := members[k];
    TreeMembers(seen, r, s);
  }

  lemma {:induction false} StateOfRow(rows: Rows, s: Session)
    requires Keyed(rows) && s in rows
    ensures StateOf(rows, s.id) == Some(s.ended)
  {
    var last := rows[|rows| - 1];
    assert rows == rows[..|rows| - 1] + [last];
    if s.id == last.id {
      SameIdSameSession(rows, s, last);
    } else {
      StateOfRow(rows[..|rows| - 1], s);
    }
  }

  // ---- Active sessions that are deleted ----

  /** The state of a session in the moment the n-th deletion takes it. */
  function StateAtDeletion(rows: Rows, plan: seq<Entry>, others: Others, n: nat, id: Id): Option<bool>
    requires n < |plan|
  {
    StateOf(ChangedAll(Swept(rows, plan[..n], others), others(n)), id)
  }

  /** The n-th deletion takes the active session `id`. */
  ghost predicate TakesActive(rows: Rows, plan: seq<Entry>, others: Others, n: nat, id: Id)
    requires n < |plan|
  {
    id in plan[n].sessions && StateAtDeletion(rows, plan, others, n, id) == Some(false)
  }

  /** Some change wakes `id`, none after that ends it, and none removes it. */
  ghost predicate Woken(cs: seq<Change>, id: Id) {
    && (forall k :: 0 <= k < |cs| ==> !IsRemoval(cs[k], id))
    && exists j :: Wakes(cs, j, id)
  }

  predicate IsRemoval(c: Change, id: Id) { c == Removed(id) }

  predicate IsUpdate(c: Change, id: Id, ended: bool) { c.Updated? && c.id == id && c.ended == ended }

  ghost predicate Wakes(cs: seq<Change>, j: int, id: Id) {
    0 <= j < |cs| && IsUpdate(cs[j], id, false) && forall k :: j < k < |cs| ==> !IsUpdate(cs[k], id, true)
  }

  /** Ids are not used twice: nobody starts a session under `id`. */
  predicate NotRestarted(cs: seq<Change>, id: Id) {
    forall k :: 0 <= k < |cs| && cs[k].Started? ==> cs[k].session.id != id
  }

  lemma {:induction false} FateIsWoken(cs: seq<Change>, id: Id)
    requires NotRestarted(cs, id)
    ensures Fate(Some(true), cs, id) == Some(false) <==> Woken(cs, id)
    ensures Fate(Some(true), cs, id) == None <==> exists k :: 0 <= k < |cs| && IsRemoval(cs[k], id)
    decreases |cs|
  {
    if cs != [] {
      var front, last := cs[..|cs| - 1], cs[|cs| - 1];
      assert cs == front + [last];
      FateIsWoken(front, id);
      RemovalsMore(front, last, id);
      WokenMore(front, last, id);
    }
  }

  lemma RemovalsMore(front: seq<Change>, last: Change, id: Id)
    ensures (exists k :: 0 <= k < |front + [last]| && IsRemoval((front + [last])[k], id))
            <==> IsRemoval(last, id) || exists k :: 0 <= k < |front| && IsRemoval(front[k], id)
  {
    var cs := front + [last];
    assert cs[|front|] == last;
    if k :| 0 <= k < |front| && IsRemoval(front[k], id) { assert IsRemoval(cs[k], id); }
  }

  lemma WokenMore(front: seq<Change>, last: Change, id: Id)
    ensures Woken(front + [last], id)
            <==> if IsRemoval(last, id) then false
                 else if IsUpdate(last, id, false) then forall k :: 0 <= k < |front| ==> !IsRemoval(front[k], id)
                 else if IsUpdate(last, id, true) then false
                 else Woken(front, id)
  {
    var cs := front + [last];
    assert cs[|front|] == last;
    forall k | 0 <= k < |front| ensures cs[k] == front[k] {}
    if IsUpdate(last, id, false) { assert Wakes(cs, |front|, id); }
    if j :| Wakes(front, j, id) && !IsUpdate(last, id, true) { assert Wakes(cs, j, id); }
    if j :| Wakes(cs, j, id) && j < |front| { assert Wakes(front, j, id); }
  }

  /** A deletion takes an active session exactly when others have woken it since the read, and left it awake. */
  lemma TakesActiveExactlyWhen(
      rows: Rows, workspace: Option<nat>, keep: nat, cutoff: Instant, others: Others, n: nat, id: Id)
    requires Keyed(rows) && n < |Planned(rows, workspace, keep, cutoff)|
    requires id in Planned(rows, workspace, keep, cutoff)[n].sessions && NotRestarted(Before(others, n + 1), id)
    ensures TakesActive(rows, Planned(rows, workspace, keep, cutoff), others, n, id)
        <==> Woken(Before(others, n + 1), id)
  {
    var plan := Planned(rows, workspace, keep, cutoff);
    PlannedHadEnded(rows, workspace, keep, cutoff, n, id);
    UnnamedAreSpared(rows, plan[..n], others, id);
    ChangesAreFates(Swept(rows, plan[..n], others), others(n), id);
    FateOfBoth(Some(true), Before(others, n), others(n), id);
    FateIsWoken(Before(others, n + 1), id);
  }

  /** So a collection takes no active session exactly when no planned session is awake, since the read, at its turn. */
  lemma ActiveSessionsAreSparedExactlyWhen(
      rows: Rows, workspace: Option<nat>, keep: nat, cutoff: Instant, others: Others)
    requires Keyed(rows)
    requires var plan := Planned(rows, workspace, keep, cutoff);
      forall n, id :: 0 <= n < |plan| && id in plan[n].sessions ==> NotRestarted(Before(others, n + 1), id)
    ensures var plan := Planned(rows, workspace, keep, cutoff);
      (forall n, id :: 0 <= n < |plan| && id in plan[n].sessions ==> !TakesActive(rows, plan, others, n, id))
      <==> (forall n, id :: 0 <= n < |plan| && id in plan[n].sessions ==> !Woken(Before(others, n + 1), id))
  {
    var plan := Planned(rows, workspace, keep, cutoff);
    forall n, id | 0 <= n < |plan| && id in plan[n].sessions
      ensures TakesActive(rows, plan, others, n, id) <==> Woken(Before(others, n + 1), id)
    {
      TakesActiveExactlyWhen(rows, workspace, keep, cutoff, others, n, id);
    }
  }

  /** A planned session is gone after its turn, unless it is started again. */
  lemma {:induction false} PlannedAreGone(rows: Rows, plan: seq<Entry>, others: Others, id: Id)
    requires Named(plan, id) && NotRestarted(Before(others, |plan|), id)
    ensures StateOf(Swept(rows, plan, others), id) == None
  {
    var n := |plan| - 1;
    var front := Swept(rows, plan[..n], others);
    NamedIn(plan, id);
    WithoutState(ChangedAll(front, others(n)), [plan[n]], id);
    var all := Before(others, n) + others(n);
    if id !in plan[n].sessions {
      forall k | 0 <= k < |Before(others, n)| ensures all[k] == Before(others, n)[k] {}
      forall k | 0 <= k < |others(n)| ensures all[|Before(others, n)| + k] == others(n)[k] {}
      PlannedAreGone(rows, plan[..n], others, id);
      ChangesAreFates(front, others(n), id);
      NothingComesBack(others(n), id);
    }
  }

  lemma {:induction false} NothingComesBack(cs: seq<Change>, id: Id)
    requires NotRestarted(cs, id)
    ensures Fate(None, cs, id) == None
  {
    if cs != [] {
      assert NotRestarted(cs[..|cs| - 1], id);
      NothingComesBack(cs[..|cs| - 1], id);
    }
  }

  // ---- Newcomers ----

  /** A session that was not there at the read is there after the collection exactly when others alone leave it there,
      even if its parent is planned, and gone. */
  lemma NewcomersStayExactlyWhen(
      rows: Rows, workspace: Option<nat>, keep: nat, cutoff: Instant, others: Others, parent: Id, child: Id)
    requires Keyed(rows) && Named(Planned(rows, workspace, keep, cutoff), parent) && !Has(rows, child)
    requires NotRestarted(Before(others, |Planned(rows, workspace, keep, cutoff)|), parent)
    ensures var plan := Planned(rows, workspace, keep, cutoff);
      && StateOf(Swept(rows, plan, others), parent) == None
      && StateOf(Swept(rows, plan, others), child) == Fate(None, Before(others, |plan|), child)
  {
    var seen, plan := View(rows, workspace), Planned(rows, workspace, keep, cutoff);
    PlannedAreGone(rows, plan, others, parent);
    StateMembers(rows, child);
    PlanNamesTheDoomed(seen, keep, cutoff, child);
    if s :| s in seen && s.id == child && Doomed(seen, RootOf(s), keep, cutoff) {
      ViewMembers(rows, workspace, s);
      assert s in rows && Has(rows, child);
      assert false;
    }
    UnnamedAreSpared(rows, plan, others, child);
  }

  /** So a child that starts under an ended session, as its tree is about to go, loses its parent without any filter. */
  lemma NewcomersAreOrphaned(parent: Session, child: Session, keep: nat, cutoff: Instant, others: Others)
    requires parent.root.None? && parent.parent.None? && parent.ended && (parent.stamp < cutoff || keep == 0)
    requires child.parent == Some(parent.id) && child.root == Some(parent.id) && child.id != parent.id
    requires others(0) == [Started(child)] && forall n: nat :: n > 0 ==> others(n) == []
    ensures FamiliesShareRoots([parent, child])
    ensures var left := Swept([parent], Planned([parent], None, keep, cutoff), others);
            StateOf(left, child.id) == Some(child.ended) && StateOf(left, parent.id) == None
  {
    var rows, plan := [parent], Planned([parent], None, keep, cutoff);
    OneEndedRowIsPlanned(parent, keep, cutoff);
    OneStart(others, [Started(child)], |plan|);
    FateOfStarted(child, parent.id);
    NewcomersStayExactlyWhen(rows, None, keep, cutoff, others, parent.id, child.id);
  }

  lemma OneEndedRowIsPlanned(s: Session, keep: nat, cutoff: Instant)
    requires s.root.None? && s.ended && (s.stamp < cutoff || keep == 0)
    ensures Named(Planned([s], None, keep, cutoff), s.id)
  {
    var rows := [s];
    ViewOfAll(rows, None);
    assert s in rows;
    OneRowIsATree(s);
    assert Doomed(rows, RootOf(s), keep, cutoff);
    PlanNamesTheDoomed(rows, keep, cutoff, s.id);
  }

  lemma OneRowIsATree(s: Session)
    requires s.root.None? && s.ended
    ensures Ended([s], s.id) && Tree([s], s.id) != [] && Latest(Tree([s], s.id)) == s.stamp
  {
    assert [s][..0] == [] && [] + [s] == [s];
    assert Tree([s], s.id) == [s];
    TreeIsNotEmpty([s], s.id);
  }

  lemma {:induction false} OneStart(others: Others, one: seq<Change>, n: nat)
    requires others(0) == one && (forall k: nat :: k > 0 ==> others(k) == []) && n > 0
    ensures Before(others, n) == one
  {
    if n == 1 {
      assert Before(others, 0) == [] && [] + one == one;
    } else {
      OneStart(others, one, n - 1);
      assert others(n - 1) == [] && one + [] == one;
    }
  }

  lemma FateOfStarted(child: Session, id: Id)
    requires id != child.id
    ensures Fate(None, [Started(child)], child.id) == Some(child.ended) && NotRestarted([Started(child)], id)
  {
    assert [Started(child)][..0] == [];
  }
}
