/**
 * Pruning the session table: trees of sessions that have all ended go, whole, when they are old or too many.
 * A collection reads the table once and then deletes tree by tree, each in a transaction of its own.
 */
module TreeGc {
  import opened Wrappers

  type Id = nat

  /** A session row; `root` and `parent` are absent for a session that started a tree. `stamp` is its last change. */
  datatype Session = Session(id: Id, root: Option<Id>, parent: Option<Id>, workspace: nat, ended: bool, stamp: Instant)

  type Rows = seq<Session>

  datatype Candidate = Candidate(stamp: Instant, root: Id, members: Rows)

  datatype Entry = Entry(root: Id, sessions: seq<Id>, expired: bool, overCount: bool)

  /** Ids are the table's key. */
  predicate Keyed(rows: Rows) {
    forall i, j :: 0 <= i < j < |rows| ==> rows[i].id != rows[j].id
  }

  function RootOf(s: Session): Id {
    if s.root.Some? then s.root.value else s.id
  }

  // ---- Grouping ----

  predicate Distinct(ids: seq<Id>) {
    forall i, j :: 0 <= i < j < |ids| ==> ids[i] != ids[j]
  }

  /** The roots, in the order in which the rows name them. */
  function Roots(rows: Rows): seq<Id> {
    if rows == [] then []
    else
      var before, last := Roots(rows[..|rows| - 1]), RootOf(rows[|rows| - 1]);
      if last in before then before else before + [last]
  }

  /** The rows of one tree, in table order. */
  function Tree(rows: Rows, root: Id): Rows {
    if rows == [] then []
    else Tree(rows[..|rows| - 1], root) + if RootOf(rows[|rows| - 1]) == root then [rows[|rows| - 1]] else []
  }

  /** The rows in view: all of them, or those of one workspace. */
  function View(rows: Rows, workspace: Option<nat>): Rows {
    if rows == [] then []
    else
      View(rows[..|rows| - 1], workspace)
      + if workspace.None? || rows[|rows| - 1].workspace == workspace.value then [rows[|rows| - 1]] else []
  }

  predicate AllEnded(members: Rows) {
    forall k :: 0 <= k < |members| ==> members[k].ended
  }

  /** The last change of any member. */
  function Latest(members: Rows): (r: Instant)
    requires members != []
    ensures forall k :: 0 <= k < |members| ==> members[k].stamp <= r
    ensures exists k :: 0 <= k < |members| && members[k].stamp == r
  {
    assert members[|members| - 1] in members;
    var last := members[|members| - 1].stamp;
    if |members| == 1 then last
    else
      var before := Latest(members[..|members| - 1]);
      if last > before then last else before
  }

  lemma {:induction false} RootsMembers(rows: Rows, r: Id)
    ensures r in Roots(rows) <==> exists k :: 0 <= k < |rows| && RootOf(rows[k]) == r
    ensures Distinct(Roots(rows))
  {
    if rows != [] {
      var last := |rows| - 1;
      RootsMembers(rows[..last], r);
      assert forall k :: 0 <= k < last ==> rows[..last][k] == rows[k];
    }
  }

  lemma {:induction false} TreeMembers(rows: Rows, r: Id, s: Session)
    ensures s in Tree(rows, r) <==> s in rows && RootOf(s) == r
  {
    if rows != [] {
      TreeMembers(rows[..|rows| - 1], r, s);
      assert rows == rows[..|rows| - 1] + [rows[|rows| - 1]];
    }
  }

  lemma {:induction false} ViewMembers(rows: Rows, workspace: Option<nat>, s: Session)
    ensures s in View(rows, workspace) <==> s in rows && (workspace.None? || s.workspace == workspace.value)
  {
    if rows != [] {
      ViewMembers(rows[..|rows| - 1], workspace, s);
      assert rows == rows[..|rows| - 1] + [rows[|rows| - 1]];
    }
  }

  /** A tree exists, and all its sessions have ended. */
  predicate Ended(rows: Rows, r: Id) {
    r in Roots(rows) && AllEnded(Tree(rows, r))
  }

  lemma TreeIsNotEmpty(rows: Rows, r: Id)
    ensures r in Roots(rows) <==> Tree(rows, r) != []
  {
    RootsMembers(rows, r);
    if r in Roots(rows) {
      var k :| 0 <= k < |rows| && RootOf(rows[k]) == r;
      TreeMembers(rows, r, rows[k]);
    }
    if Tree(rows, r) != [] {
      TreeMembers(rows, r, Tree(rows, r)[0]);
      assert exists k :: 0 <= k < |rows| && rows[k] == Tree(rows, r)[0];
    }
  }

  /** The candidates among `roots`: the trees that have ended, in that order. */
  function Candidates(rows: Rows, roots: seq<Id>): seq<Candidate> {
    if roots == [] then []
    else
      var r := roots[|roots| - 1];
      Candidates(rows, roots[..|roots| - 1])
      + if Tree(rows, r) != [] && AllEnded(Tree(rows, r)) then [Candidate(Latest(Tree(rows, r)), r, Tree(rows, r))]
          else []
  }

  // ---- Sorting and choosing ----

  /** Puts `c` behind all that are at least as new. */
  function Insert(sorted: seq<Candidate>, c: Candidate): seq<Candidate> {
    if sorted == [] then [c]
    else if sorted[|sorted| - 1].stamp >= c.stamp then sorted + [c]
    else Insert(sorted[..|sorted| - 1], c) + [sorted[|sorted| - 1]]
  }

  /** Newest first; candidates of one age keep their order. */
  function NewestFirst(cs: seq<Candidate>): seq<Candidate> {
    if cs == [] then [] else Insert(NewestFirst(cs[..|cs| - 1]), cs[|cs| - 1])
  }

  function Ids(members: Rows): (r: seq<Id>)
    ensures |r| == |members| && forall k :: 0 <= k < |r| ==> r[k] == members[k].id
  {
    seq(|members|, k requires 0 <= k < |members| => members[k].id)
  }

  /** The entries planned among the first `n` of the sorted candidates. */
  function Plan(sorted: seq<Candidate>, n: nat, keep: nat, cutoff: Instant): seq<Entry>
    requires n <= |sorted|
  {
    if n == 0 then []
    else
      var c := sorted[n - 1];
      Plan(sorted, n - 1, keep, cutoff)
      + if c.stamp < cutoff || n - 1 >= keep then [Entry(c.root, Ids(c.members), c.stamp < cutoff, n - 1 >= keep)]
          else []
  }

  /** The rows without those a plan names. */
  function Without(rows: Rows, plan: seq<Entry>): Rows {
    if rows == [] then []
    else
      Without(rows[..|rows| - 1], plan)
      + if Named(plan, rows[|rows| - 1].id) then [] else [rows[|rows| - 1]]
  }

  predicate Named(plan: seq<Entry>, id: Id) {
    exists k :: 0 <= k < |plan| && id in plan[k].sessions
  }

  /** What one collection plans. */
  function Planned(rows: Rows, workspace: Option<nat>, keep: nat, cutoff: Instant): seq<Entry> {
    var seen := View(rows, workspace);
    var sorted := NewestFirst(Candidates(seen, Roots(seen)));
    Plan(sorted, |sorted|, keep, cutoff)
  }

  function Collected(rows: Rows, workspace: Option<nat>, keep: nat, cutoff: Instant): Rows {
    Without(rows, Planned(rows, workspace, keep, cutoff))
  }

  // ---- What others do meanwhile ----

  /** A change by another process between two transactions of a collection; an id in the table is not started again. */
  datatype Change =
    | Started(session: Session)
    | Updated(id: Id, ended: bool, stamp: Instant)
    | Removed(id: Id)

  predicate Has(rows: Rows, id: Id) {
    exists k :: 0 <= k < |rows| && rows[k].id == id
  }

  function Changed(rows: Rows, c: Change): Rows {
    match c
    case Started(s) => if Has(rows, s.id) then rows else rows + [s]
    case Updated(id, ended, stamp) => Update(rows, id, ended, stamp)
    case Removed(id) => Remove(rows, id)
  }

  function Update(rows: Rows, id: Id, ended: bool, stamp: Instant): Rows {
    if rows == [] then []
    else
      var last := rows[|rows| - 1];
      Update(rows[..|rows| - 1], id, ended, stamp)
      + [if last.id == id then last.(ended := ended, stamp := stamp) else last]
  }

  function Remove(rows: Rows, id: Id): Rows {
    if rows == [] then []
    else Remove(rows[..|rows| - 1], id) + if rows[|rows| - 1].id == id then [] else [rows[|rows| - 1]]
  }

  function ChangedAll(rows: Rows, cs: seq<Change>): Rows {
    if cs == [] then rows else Changed(ChangedAll(rows, cs[..|cs| - 1]), cs[|cs| - 1])
  }

  /** What others do just before the n-th deletion. */
  type Others = nat -> seq<Change>

  /** The table after the deletions of a plan, among what others do. */
  function Swept(rows: Rows, plan: seq<Entry>, others: Others): Rows {
    if plan == [] then rows
    else
      var n := |plan| - 1;
      Without(ChangedAll(Swept(rows, plan[..n], others), others(n)), [plan[n]])
  }

  // ---- The order of candidates ----

  type Rank = Id -> nat

  /** `a` is newer than `b`, or as new and ranked earlier. */
  predicate Newer(rank: Rank, a: Candidate, b: Candidate) {
    a.stamp > b.stamp || (a.stamp == b.stamp && rank(a.root) < rank(b.root))
  }

  ghost predicate InOrder(rank: Rank, cs: seq<Candidate>) {
    forall i, j :: 0 <= i < j < |cs| ==> Newer(rank, cs[i], cs[j])
  }

  ghost predicate Rising(rank: Rank, cs: seq<Candidate>) {
    forall i, j :: 0 <= i < j < |cs| ==> rank(cs[i].root) < rank(cs[j].root)
  }

  lemma {:induction false} InsertKeepsMembers(cs: seq<Candidate>, c: Candidate, x: Candidate)
    ensures x in Insert(cs, c) <==> x in cs || x == c
  {
    if cs != [] {
      assert cs == cs[..|cs| - 1] + [cs[|cs| - 1]];
      if cs[|cs| - 1].stamp < c.stamp { InsertKeepsMembers(cs[..|cs| - 1], c, x); }
    }
  }

  lemma {:induction false} InsertKeepsOrder(rank: Rank, cs: seq<Candidate>, c: Candidate)
    requires InOrder(rank, cs) && forall k :: 0 <= k < |cs| ==> rank(cs[k].root) < rank(c.root)
    ensures InOrder(rank, Insert(cs, c))
  {
    if cs != [] {
      var last := cs[|cs| - 1];
      if last.stamp >= c.stamp {
        forall i | 0 <= i < |cs| ensures Newer(rank, cs[i], c) {
          assert i < |cs| - 1 ==> Newer(rank, cs[i], last);
        }
      } else {
        var front := Insert(cs[..|cs| - 1], c);
        InsertKeepsOrder(rank, cs[..|cs| - 1], c);
        forall i | 0 <= i < |front| ensures Newer(rank, front[i], last) {
          InsertKeepsMembers(cs[..|cs| - 1], c, front[i]);
        }
      }
    }
  }

  lemma {:induction false} SortKeepsMembers(cs: seq<Candidate>, x: Candidate)
    ensures x in NewestFirst(cs) <==> x in cs
  {
    if cs != [] {
      var front, last := cs[..|cs| - 1], cs[|cs| - 1];
      SortKeepsMembers(front, x);
      InsertKeepsMembers(NewestFirst(front), last, x);
      assert cs == front + [last];
    }
  }

  lemma {:induction false} SortOrders(rank: Rank, cs: seq<Candidate>)
    requires Rising(rank, cs)
    ensures InOrder(rank, NewestFirst(cs))
  {
    if cs != [] {
      var front, last := cs[..|cs| - 1], cs[|cs| - 1];
      var sorted := NewestFirst(front);
      SortOrders(rank, front);
      forall k | 0 <= k < |sorted| ensures rank(sorted[k].root) < rank(last.root) {
        SortKeepsMembers(front, sorted[k]);
        var m :| 0 <= m < |front| && front[m] == sorted[k];
        assert cs[m] == front[m];
      }
      InsertKeepsOrder(rank, sorted, last);
    }
  }

  /** One place in an ordered list holds one tree. */
  lemma PlacesDiffer(rank: Rank, cs: seq<Candidate>, i: nat, j: nat)
    requires InOrder(rank, cs) && i < j < |cs|
    ensures cs[i].root != cs[j].root || cs[i].stamp != cs[j].stamp
    ensures !Newer(rank, cs[j], cs[i])
  {
    assert Newer(rank, cs[i], cs[j]);
  }

  function Position(roots: seq<Id>, r: Id): nat {
    if roots == [] then 0 else if roots[0] == r then 0 else 1 + Position(roots[1..], r)
  }

  lemma {:induction false} PositionOf(roots: seq<Id>, k: nat)
    requires k < |roots| && Distinct(roots)
    ensures Position(roots, roots[k]) == k
  {
    if k > 0 { PositionOf(roots[1..], k - 1); }
  }

  /** The candidate of an ended tree. */
  function CandidateOf(rows: Rows, r: Id): Candidate
    requires Tree(rows, r) != []
  {
    Candidate(Latest(Tree(rows, r)), r, Tree(rows, r))
  }

  /** `c` is the candidate of an ended tree. */
  predicate IsCandidate(rows: Rows, c: Candidate) {
    Tree(rows, c.root) != [] && AllEnded(Tree(rows, c.root)) && c == CandidateOf(rows, c.root)
  }

  lemma {:induction false} CandidatesMembers(rows: Rows, roots: seq<Id>, c: Candidate)
    ensures c in Candidates(rows, roots) <==> c.root in roots && IsCandidate(rows, c)
    decreases |roots|
  {
    if roots != [] {
      CandidatesMembers(rows, roots[..|roots| - 1], c);
      assert roots == roots[..|roots| - 1] + [roots[|roots| - 1]];
    }
  }

  lemma {:induction false} CandidatesRise(rows: Rows, roots: seq<Id>, rank: Rank)
    requires forall i, j :: 0 <= i < j < |roots| ==> rank(roots[i]) < rank(roots[j])
    ensures Rising(rank, Candidates(rows, roots))
    decreases |roots|
  {
    if roots != [] {
      var front, r := roots[..|roots| - 1], roots[|roots| - 1];
      var before := Candidates(rows, front);
      CandidatesRise(rows, front, rank);
      forall k | 0 <= k < |before| ensures rank(before[k].root) < rank(r) {
        CandidatesMembers(rows, front, before[k]);
        var m :| 0 <= m < |front| && front[m] == before[k].root;
        assert roots[m] == front[m];
      }
    }
  }

  /** Earlier named roots rank lower. */
  function ByName(rows: Rows): Rank {
    var roots := Roots(rows);
    r => Position(roots, r)
  }

  /** The sorted candidates of a whole table. */
  function Sorted(rows: Rows): seq<Candidate> {
    NewestFirst(Candidates(rows, Roots(rows)))
  }

  lemma SortedIsInOrder(rows: Rows)
    ensures InOrder(ByName(rows), Sorted(rows))
  {
    var roots := Roots(rows);
    RootsMembers(rows, 0);
    forall i, j | 0 <= i < j < |roots| ensures ByName(rows)(roots[i]) < ByName(rows)(roots[j]) {
      PositionOf(roots, i);
      PositionOf(roots, j);
    }
    CandidatesRise(rows, roots, ByName(rows));
    SortOrders(ByName(rows), Candidates(rows, roots));
  }

  lemma SortedMembers(rows: Rows, c: Candidate)
    ensures c in Sorted(rows) <==> IsCandidate(rows, c)
  {
    SortKeepsMembers(Candidates(rows, Roots(rows)), c);
    CandidatesMembers(rows, Roots(rows), c);
    TreeIsNotEmpty(rows, c.root);
  }

  /** The ended tree `a` is newer than `b`, or as new and named earlier. */
  ghost predicate Precedes(rows: Rows, a: Id, b: Id) {
    && Ended(rows, a) && Tree(rows, a) != [] && Tree(rows, b) != []
    && Newer(ByName(rows), CandidateOf(rows, a), CandidateOf(rows, b))
  }

  /** The ended trees that come before `r`. */
  ghost function Ahead(rows: Rows, r: Id): set<Id> {
    set a | a in Roots(rows) && Precedes(rows, a, r)
  }

  /** The trees of the first `k` candidates. */
  ghost function RootsUpTo(cs: seq<Candidate>, k: nat): set<Id>
    requires k <= |cs|
  {
    if k == 0 then {} else RootsUpTo(cs, k - 1) + {cs[k - 1].root}
  }

  lemma {:induction false} RootsUpToMembers(cs: seq<Candidate>, k: nat, r: Id)
    requires k <= |cs|
    ensures r in RootsUpTo(cs, k) <==> exists i :: 0 <= i < k && cs[i].root == r
  {
    if k > 0 { RootsUpToMembers(cs, k - 1, r); }
  }

  /** So many trees are among the first `k` candidates. */
  lemma {:induction false} PlacesAreTrees(rows: Rows, k: nat)
    requires k <= |Sorted(rows)|
    ensures |RootsUpTo(Sorted(rows), k)| == k
  {
    var cs := Sorted(rows);
    if k > 0 {
      PlacesAreTrees(rows, k - 1);
      RootsUpToMembers(cs, k - 1, cs[k - 1].root);
      if i :| 0 <= i < k - 1 && cs[i].root == cs[k - 1].root {
        SortedIsInOrder(rows);
        PlacesDiffer(ByName(rows), cs, i, k - 1);
        SortedMembers(rows, cs[i]);
        SortedMembers(rows, cs[k - 1]);
      }
    }
  }

  lemma PlaceOf(rows: Rows, r: Id) returns (k: nat)
    requires Ended(rows, r)
    ensures k < |Sorted(rows)| && Sorted(rows)[k].root == r && IsCandidate(rows, Sorted(rows)[k])
  {
    TreeIsNotEmpty(rows, r);
    SortedMembers(rows, CandidateOf(rows, r));
    k :| 0 <= k < |Sorted(rows)| && Sorted(rows)[k] == CandidateOf(rows, r);
  }

  lemma CandidateAt(rows: Rows, k: nat)
    requires k < |Sorted(rows)|
    ensures IsCandidate(rows, Sorted(rows)[k]) && Ended(rows, Sorted(rows)[k].root)
  {
    SortedMembers(rows, Sorted(rows)[k]);
    TreeIsNotEmpty(rows, Sorted(rows)[k].root);
  }

  /** The tree at place `i` precedes the one at place `k` exactly when `i < k`. */
  lemma PrecedesByPlace(rows: Rows, i: nat, k: nat)
    requires i < |Sorted(rows)| && k < |Sorted(rows)|
    ensures Precedes(rows, Sorted(rows)[i].root, Sorted(rows)[k].root) <==> i < k
  {
    CandidateAt(rows, i);
    CandidateAt(rows, k);
    SortedIsInOrder(rows);
    if i < k {
      assert Newer(ByName(rows), Sorted(rows)[i], Sorted(rows)[k]);
    } else if k < i {
      PlacesDiffer(ByName(rows), Sorted(rows), k, i);
    }
  }

  /** A tree precedes the one at place `k` exactly when it is at a place before. */
  lemma AheadIsBefore(rows: Rows, k: nat, a: Id)
    requires k < |Sorted(rows)|
    ensures a in Ahead(rows, Sorted(rows)[k].root) <==> a in RootsUpTo(Sorted(rows), k)
  {
    RootsUpToMembers(Sorted(rows), k, a);
    if Ended(rows, a) {
      var i := PlaceOf(rows, a);
      PrecedesByPlace(rows, i, k);
      if j :| 0 <= j < k && Sorted(rows)[j].root == a { PrecedesByPlace(rows, j, k); }
    } else if j :| 0 <= j < k && Sorted(rows)[j].root == a {
      CandidateAt(rows, j);
    }
  }

  /** A place in the sorted list is the number of trees that precede. */
  lemma PlaceIsAhead(rows: Rows, k: nat)
    requires k < |Sorted(rows)|
    ensures |Ahead(rows, Sorted(rows)[k].root)| == k
  {
    PlacesAreTrees(rows, k);
    forall a ensures a in Ahead(rows, Sorted(rows)[k].root) <==> a in RootsUpTo(Sorted(rows), k) {
      AheadIsBefore(rows, k, a);
    }
    assert Ahead(rows, Sorted(rows)[k].root) == RootsUpTo(Sorted(rows), k);
  }

  // ---- Exactly which sessions go ----

  /** An ended tree goes when it is older than the cutoff, or at least `keep` ended trees precede it. */
  ghost predicate Doomed(rows: Rows, r: Id, keep: nat, cutoff: Instant) {
    Ended(rows, r) && Tree(rows, r) != [] && (Latest(Tree(rows, r)) < cutoff || |Ahead(rows, r)| >= keep)
  }

  lemma {:induction false} PlanNames(sorted: seq<Candidate>, n: nat, keep: nat, cutoff: Instant, id: Id)
    requires n <= |sorted|
    ensures Named(Plan(sorted, n, keep, cutoff), id)
            <==> exists k :: 0 <= k < n && (sorted[k].stamp < cutoff || k >= keep) && id in Ids(sorted[k].members)
  {
    if n > 0 {
      PlanNames(sorted, n - 1, keep, cutoff, id);
      var before, c := Plan(sorted, n - 1, keep, cutoff), sorted[n - 1];
      if c.stamp < cutoff || n - 1 >= keep {
        var e := Entry(c.root, Ids(c.members), c.stamp < cutoff, n - 1 >= keep);
        NamedLast(before, e, id);
      } else {
        assert before + [] == before;
      }
    }
  }

  lemma NamedLast(plan: seq<Entry>, e: Entry, id: Id)
    ensures Named(plan + [e], id) <==> Named(plan, id) || id in e.sessions
  {
    if Named(plan, id) {
      var k :| 0 <= k < |plan| && id in plan[k].sessions;
      assert (plan + [e])[k] == plan[k];
    }
    assert (plan + [e])[|plan|] == e;
  }

  lemma PlaceIsDoomed(rows: Rows, keep: nat, cutoff: Instant, k: nat)
    requires k < |Sorted(rows)|
    ensures var c := Sorted(rows)[k];
            && c.members == Tree(rows, c.root)
            && (Doomed(rows, c.root, keep, cutoff) <==> c.stamp < cutoff || k >= keep)
  {
    CandidateAt(rows, k);
    PlaceIsAhead(rows, k);
  }

  lemma IdsOfTree(rows: Rows, r: Id, id: Id)
    ensures id in Ids(Tree(rows, r)) <==> exists s :: s in rows && s.id == id && RootOf(s) == r
  {
    var members := Tree(rows, r);
    if k :| 0 <= k < |members| && members[k].id == id {
      TreeMembers(rows, r, members[k]);
      assert members[k] in members;
    }
    if s :| s in rows && s.id == id && RootOf(s) == r {
      TreeMembers(rows, r, s);
      var k :| 0 <= k < |members| && members[k] == s;
      assert Ids(members)[k] == id;
    }
  }

  /** A plan names the sessions of the doomed trees. */
  lemma PlanNamesTheDoomed(rows: Rows, keep: nat, cutoff: Instant, id: Id)
    ensures Named(Plan(Sorted(rows), |Sorted(rows)|, keep, cutoff), id)
            <==> exists s :: s in rows && s.id == id && Doomed(rows, RootOf(s), keep, cutoff)
  {
    var cs := Sorted(rows);
    PlanNames(cs, |cs|, keep, cutoff, id);
    if k :| 0 <= k < |cs| && (cs[k].stamp < cutoff || k >= keep) && id in Ids(cs[k].members) {
      PlaceIsDoomed(rows, keep, cutoff, k);
      IdsOfTree(rows, cs[k].root, id);
    }
    if s :| s in rows && s.id == id && Doomed(rows, RootOf(s), keep, cutoff) {
      var k := PlaceOf(rows, RootOf(s));
      PlaceIsDoomed(rows, keep, cutoff, k);
      IdsOfTree(rows, cs[k].root, id);
    }
  }

  lemma {:induction false} WithoutMembers(rows: Rows, plan: seq<Entry>, s: Session)
    ensures s in Without(rows, plan) <==> s in rows && !Named(plan, s.id)
  {
    if rows != [] {
      WithoutMembers(rows[..|rows| - 1], plan, s);
      assert rows == rows[..|rows| - 1] + [rows[|rows| - 1]];
    }
  }

  lemma SameIdSameSession(rows: Rows, s: Session, t: Session)
    requires Keyed(rows) && s in rows && t in rows && s.id == t.id
    ensures s == t
  {
    var i :| 0 <= i < |rows| && rows[i] == s;
    var j :| 0 <= j < |rows| && rows[j] == t;
  }

  /** A session survives exactly when it is out of view, or its tree, as far as it is in view, is not doomed. */
  lemma SurvivesExactlyWhen(rows: Rows, workspace: Option<nat>, keep: nat, cutoff: Instant, s: Session)
    requires Keyed(rows) && s in rows
    ensures s in Collected(rows, workspace, keep, cutoff)
            <==> !(s in View(rows, workspace) && Doomed(View(rows, workspace), RootOf(s), keep, cutoff))
  {
    var seen := View(rows, workspace);
    PlanNamesTheDoomed(seen, keep, cutoff, s.id);
    WithoutMembers(rows, Planned(rows, workspace, keep, cutoff), s);
    forall t | t in seen && t.id == s.id ensures t == s {
      ViewMembers(rows, workspace, t);
      SameIdSameSession(rows, s, t);
    }
  }

  /** `m` is in view and in the tree of `r`, by what the row says. */
  ghost predicate Fellow(rows: Rows, workspace: Option<nat>, r: Id, m: Session) {
    && m in rows && (workspace == None || workspace == Some(m.workspace))
    && (m.root == Some(r) || (m.root == None && m.id == r))
  }

  /** All sessions of the tree in view have ended. */
  ghost predicate HasEnded(rows: Rows, workspace: Option<nat>, r: Id) {
    forall m :: Fellow(rows, workspace, r, m) ==> m.ended
  }

  /** None of them has changed since the cutoff. */
  ghost predicate IsOld(rows: Rows, workspace: Option<nat>, r: Id, cutoff: Instant) {
    forall m :: Fellow(rows, workspace, r, m) ==> m.stamp < cutoff
  }

  /**
   * Which sessions a collection takes, by what the rows say: those in view whose tree in view has wholly ended, and has
   * either not changed since the cutoff or at least `keep` ended trees before it.
   */
  lemma GoesExactlyWhen(rows: Rows, workspace: Option<nat>, keep: nat, cutoff: Instant, r: Id, s: Session)
    requires Keyed(rows) && s in rows && (s.root == Some(r) || (s.root == None && s.id == r))
    ensures s !in Collected(rows, workspace, keep, cutoff)
            <==> && Fellow(rows, workspace, r, s)
                 && HasEnded(rows, workspace, r)
                 && (IsOld(rows, workspace, r, cutoff) || |Ahead(View(rows, workspace), r)| >= keep)
  {
    var seen := View(rows, workspace);
    SurvivesExactlyWhen(rows, workspace, keep, cutoff, s);
    ViewMembers(rows, workspace, s);
    if s in seen { DoomedByFellows(rows, workspace, keep, cutoff, r, s); }
  }

  lemma DoomedByFellows(rows: Rows, workspace: Option<nat>, keep: nat, cutoff: Instant, r: Id, s: Session)
    requires s in View(rows, workspace) && RootOf(s) == r
    ensures Doomed(View(rows, workspace), r, keep, cutoff)
            <==> HasEnded(rows, workspace, r)
                 && (IsOld(rows, workspace, r, cutoff) || |Ahead(View(rows, workspace), r)| >= keep)
  {
    var seen := View(rows, workspace);
    FellowsAreTheTree(rows, workspace, r);
    TreeMembers(seen, r, s);
    TreeIsNotEmpty(seen, r);
    AllOfTree(rows, workspace, r, Tree(seen, r), cutoff);
  }

  lemma FellowsAreTheTree(rows: Rows, workspace: Option<nat>, r: Id)
    ensures forall m :: m in Tree(View(rows, workspace), r) <==> Fellow(rows, workspace, r, m)
  {
    forall m ensures m in Tree(View(rows, workspace), r) <==> Fellow(rows, workspace, r, m) {
      ViewMembers(rows, workspace, m);
      TreeMembers(View(rows, workspace), r, m);
    }
  }

  lemma AllOfTree(rows: Rows, workspace: Option<nat>, r: Id, tree: Rows, cutoff: Instant)
    requires tree != [] && forall m :: m in tree <==> Fellow(rows, workspace, r, m)
    ensures AllEnded(tree) <==> HasEnded(rows, workspace, r)
    ensures Latest(tree) < cutoff <==> IsOld(rows, workspace, r, cutoff)
  {
    forall k | 0 <= k < |tree| ensures Fellow(rows, workspace, r, tree[k]) { assert tree[k] in tree; }
  }

  /** Of two ended trees the one with the later last change is ahead; of two that changed last at one time, the one
      whose first row comes first. */
  lemma AheadExactlyWhen(seen: Rows, a: Id, b: Id, i: nat, j: nat)
    requires Ended(seen, a) && Ended(seen, b) && i < |seen| && j < |seen| && RootOf(seen[i]) == a
        && RootOf(seen[j]) == b
    requires (forall k :: 0 <= k < i ==> RootOf(seen[k]) != a) && (forall k :: 0 <= k < j ==> RootOf(seen[k]) != b)
    ensures Tree(seen, a) != [] && Tree(seen, b) != []
    ensures a in Ahead(seen, b)
            <==> Latest(Tree(seen, a)) > Latest(Tree(seen, b))
                 || (Latest(Tree(seen, a)) == Latest(Tree(seen, b)) && i < j)
  {
    TreeIsNotEmpty(seen, a);
    TreeIsNotEmpty(seen, b);
    FirstNamed(seen, a, b, i, j);
  }

  /** Roots are listed in the order of their first rows. */
  lemma {:induction false} FirstNamed(seen: Rows, a: Id, b: Id, i: nat, j: nat)
    requires i < |seen| && j < |seen| && RootOf(seen[i]) == a && RootOf(seen[j]) == b
    requires (forall k :: 0 <= k < i ==> RootOf(seen[k]) != a) && (forall k :: 0 <= k < j ==> RootOf(seen[k]) != b)
    ensures Position(Roots(seen), a) < Position(Roots(seen), b) <==> i < j
    ensures Position(Roots(seen), a) < |Roots(seen)| && Position(Roots(seen), b) < |Roots(seen)|
  {
    var last := |seen| - 1;
    var front := seen[..last];
    PositionInside(Roots(seen), a);
    PositionInside(Roots(seen), b);
    RootsMembers(seen, a);
    RootsMembers(seen, b);
    RootsMembers(front, a);
    RootsMembers(front, b);
    PositionOfMore(Roots(front), a, RootOf(seen[last]));
    PositionOfMore(Roots(front), b, RootOf(seen[last]));
    PositionInside(Roots(front), a);
    PositionInside(Roots(front), b);
    if i < last && j < last {
      FirstNamed(front, a, b, i, j);
    } else if i < last {
      assert front[i] == seen[i];
    } else if j < last {
      assert front[j] == seen[j];
    }
  }

  lemma {:induction false} PositionInside(roots: seq<Id>, r: Id)
    ensures Position(roots, r) < |roots| <==> r in roots
    ensures Position(roots, r) <= |roots|
  {
    if roots != [] && roots[0] != r { PositionInside(roots[1..], r); assert roots == [roots[0]] + roots[1..]; }
  }

  lemma {:induction false} PositionOfMore(roots: seq<Id>, r: Id, more: Id)
    ensures r in roots ==> Position(roots + [more], r) == Position(roots, r)
    ensures r !in roots && r == more ==> Position(roots + [more], r) == |roots|
  {
    if roots != [] {
      assert (roots + [more])[1..] == roots[1..] + [more];
      assert roots == [roots[0]] + roots[1..];
      PositionOfMore(roots[1..], r, more);
    }
  }

  // ---- Whole trees ----

  lemma {:induction false} ViewOfAll(rows: Rows, all: Option<nat>)
    requires all.None?
    ensures View(rows, all) == rows
  {
    if rows != [] {
      ViewOfAll(rows[..|rows| - 1], all);
      assert rows == rows[..|rows| - 1] + [rows[|rows| - 1]];
    }
  }

  /** Without a workspace filter, a session survives exactly when its tree is not doomed: trees go whole or stay
      whole. */
  lemma TreesGoWhole(rows: Rows, keep: nat, cutoff: Instant, s: Session, t: Session)
    requires Keyed(rows) && s in rows && t in rows && RootOf(s) == RootOf(t)
    ensures s in Collected(rows, None, keep, cutoff) <==> !Doomed(rows, RootOf(s), keep, cutoff)
    ensures s in Collected(rows, None, keep, cutoff) <==> t in Collected(rows, None, keep, cutoff)
  {
    ViewOfAll(rows, None);
    SurvivesExactlyWhen(rows, None, keep, cutoff, s);
    SurvivesExactlyWhen(rows, None, keep, cutoff, t);
  }

  /** A session in view whose tree has in view a session that has not ended survives, however old. */
  lemma ActiveTreesSurvive(rows: Rows, workspace: Option<nat>, keep: nat, cutoff: Instant, s: Session, active: Session)
    requires Keyed(rows) && s in rows && active in View(rows, workspace)
    requires !active.ended && RootOf(s) == RootOf(active)
    ensures s in Collected(rows, workspace, keep, cutoff)
  {
    SurvivesExactlyWhen(rows, workspace, keep, cutoff, s);
    TreeMembers(View(rows, workspace), RootOf(s), active);
  }

  /** Children belong to the tree of their parent, wherever the parent is in the table. */
  ghost predicate FamiliesShareRoots(rows: Rows) {
    forall s, p :: s in rows && p in rows && s.parent == Some(p.id) ==> RootOf(s) == RootOf(p)
  }

  /** Without a workspace filter no surviving session loses its parent. */
  lemma NobodyIsOrphaned(rows: Rows, keep: nat, cutoff: Instant, s: Session, p: Session)
    requires Keyed(rows) && FamiliesShareRoots(rows)
    requires s in rows && p in rows && s.parent == Some(p.id)
    requires s in Collected(rows, None, keep, cutoff)
    ensures p in Collected(rows, None, keep, cutoff)
  {
    TreesGoWhole(rows, keep, cutoff, s, p);
  }

  /** With a filter one can: an ended parent goes though its child, in another workspace, is still at work. */
  lemma FilteredCollectionOrphans(parent: Session, child: Session)
    requires parent.root.None? && parent.ended && child.parent == Some(parent.id) && child.root == Some(parent.id)
    requires !child.ended && child.id != parent.id && child.workspace != parent.workspace
    ensures Keyed([parent, child])
    ensures parent.parent.None? ==> FamiliesShareRoots([parent, child])
    ensures var left := Collected([parent, child], Some(parent.workspace), 0, 0); child in left && parent !in left
  {
    var rows, r := [parent, child], parent.id;
    var seen := View(rows, Some(parent.workspace));
    assert rows[0] == parent && rows[1] == child;
    forall s ensures s in seen <==> s == parent { ViewMembers(rows, Some(parent.workspace), s); }
    SurvivesExactlyWhen(rows, Some(parent.workspace), 0, 0, parent);
    SurvivesExactlyWhen(rows, Some(parent.workspace), 0, 0, child);
    RootsMembers(seen, r);
    assert parent in seen;
    TreeIsNotEmpty(seen, r);
    forall k | 0 <= k < |Tree(seen, r)| ensures Tree(seen, r)[k].ended { TreeMembers(seen, r, Tree(seen, r)[k]); }
    assert Doomed(seen, r, 0, 0);
  }

  /** Every session left whose parent was in the table still has it. */
  ghost predicate ParentsStay(rows: Rows, workspace: Option<nat>, keep: nat, cutoff: Instant) {
    var left := Collected(rows, workspace, keep, cutoff);
    forall s, p :: s in left && s in rows && p in rows && s.parent == Some(p.id) ==> p in left
  }

  /** `p` is in view, and its child `s` is not. */
  predicate Cut(rows: Rows, workspace: Option<nat>, s: Session, p: Session) {
    && s in rows && p in rows && s.parent == Some(p.id)
    && p in View(rows, workspace) && s !in View(rows, workspace)
  }

  /** With or without a filter, no session loses its parent exactly when no doomed tree in view has a child out of
      view. */
  lemma NobodyIsOrphanedExactlyWhen(rows: Rows, workspace: Option<nat>, keep: nat, cutoff: Instant)
    requires Keyed(rows) && FamiliesShareRoots(rows)
    ensures ParentsStay(rows, workspace, keep, cutoff)
            <==> forall s, p :: Cut(rows, workspace, s, p) ==> !Doomed(View(rows, workspace), RootOf(p), keep, cutoff)
  {
    var seen, left := View(rows, workspace), Collected(rows, workspace, keep, cutoff);
    forall s | s in rows
      ensures s in left <==> !(s in seen && Doomed(seen, RootOf(s), keep, cutoff))
    {
      SurvivesExactlyWhen(rows, workspace, keep, cutoff, s);
    }
    if ParentsStay(rows, workspace, keep, cutoff) {
      forall s, p | Cut(rows, workspace, s, p) ensures !Doomed(seen, RootOf(p), keep, cutoff) {
        assert s in left;
      }
    } else {
      var s, p :| s in left && s in rows && p in rows && s.parent == Some(p.id) && p !in left;
      assert Cut(rows, workspace, s, p);
    }
  }

  /** Whatever is kept and however old, no session loses its parent exactly when no ended tree in view has a child
      out of view. */
  lemma NobodyIsEverOrphanedExactlyWhen(rows: Rows, workspace: Option<nat>)
    requires Keyed(rows) && FamiliesShareRoots(rows)
    ensures (forall keep: nat, cutoff :: ParentsStay(rows, workspace, keep, cutoff))
            <==> forall s, p :: Cut(rows, workspace, s, p) ==> !Ended(View(rows, workspace), RootOf(p))
  {
    var seen := View(rows, workspace);
    if forall keep: nat, cutoff :: ParentsStay(rows, workspace, keep, cutoff) {
      assert ParentsStay(rows, workspace, 0, 0);
      NobodyIsOrphanedExactlyWhen(rows, workspace, 0, 0);
      forall s, p | Cut(rows, workspace, s, p) ensures !Ended(seen, RootOf(p)) {
        TreeIsNotEmpty(seen, RootOf(p));
      }
    }
    if forall s, p :: Cut(rows, workspace, s, p) ==> !Ended(seen, RootOf(p)) {
      forall keep: nat, cutoff ensures ParentsStay(rows, workspace, keep, cutoff) {
        NobodyIsOrphanedExactlyWhen(rows, workspace, keep, cutoff);
      }
    }
  }

  // ---- The newest stay ----

  /** A session of an ended tree stays exactly when its tree is unexpired and fewer than `keep` ended trees precede
      it. */
  lemma NewestStay(rows: Rows, workspace: Option<nat>, keep: nat, cutoff: Instant, s: Session)
    requires Keyed(rows) && s in View(rows, workspace) && Ended(View(rows, workspace), RootOf(s))
    ensures var seen, r := View(rows, workspace), RootOf(s);
            && Tree(seen, r) != []
            && (s in Collected(rows, workspace, keep, cutoff)
                <==> Latest(Tree(seen, r)) >= cutoff && |Ahead(seen, r)| < keep)
  {
    ViewMembers(rows, workspace, s);
    TreeIsNotEmpty(View(rows, workspace), RootOf(s));
    SurvivesExactlyWhen(rows, workspace, keep, cutoff, s);
  }

  /** The ended trees in view of which a collection leaves a session. */
  ghost function EndedTreesLeft(rows: Rows, workspace: Option<nat>, keep: nat, cutoff: Instant): set<Id> {
    set s | s in Collected(rows, workspace, keep, cutoff) && s in View(rows, workspace)
            && Ended(View(rows, workspace), RootOf(s)) :: RootOf(s)
  }

  /** A collection leaves at most `keep` ended trees in view. */
  lemma AtMostKeepStay(rows: Rows, workspace: Option<nat>, keep: nat, cutoff: Instant)
    requires Keyed(rows)
    ensures |EndedTreesLeft(rows, workspace, keep, cutoff)| <= keep
  {
    var seen := View(rows, workspace);
    var cs := Sorted(seen);
    var n := if keep <= |cs| then keep else |cs|;
    PlacesAreTrees(seen, n);
    forall r | r in EndedTreesLeft(rows, workspace, keep, cutoff) ensures r in RootsUpTo(cs, n) {
      var s :| s in Collected(rows, workspace, keep, cutoff) && s in seen && Ended(seen, RootOf(s)) && RootOf(s) == r;
      NewestStay(rows, workspace, keep, cutoff, s);
      var k := PlaceOf(seen, r);
      PlaceIsAhead(seen, k);
      RootsUpToMembers(cs, n, r);
    }
    SubsetSize(EndedTreesLeft(rows, workspace, keep, cutoff), RootsUpTo(cs, n));
  }

  // ---- The table ----

  datatype Report = Refused | Report(dryRun: bool, plan: seq<Entry>)

  lemma {:induction false} WithoutMore(rows: Rows, plan: seq<Entry>, e: Entry)
    ensures Without(Without(rows, plan), [e]) == Without(rows, plan + [e])
  {
    if rows != [] {
      var front, last := rows[..|rows| - 1], rows[|rows| - 1];
      WithoutMore(front, plan, e);
      NamedLast(plan, e, last.id);
      NamedLast([], e, last.id);
      assert [] + [e] == [e];
      WithoutLast(Without(front, plan), [e], last);
    }
  }

  lemma WithoutLast(rows: Rows, plan: seq<Entry>, last: Session)
    ensures Without(rows + [last], plan) == Without(rows, plan) + if Named(plan, last.id) then [] else [last]
    ensures Without(rows + [], plan) == Without(rows, plan)
  {
    assert (rows + [last])[..|rows|] == rows && rows + [] == rows;
  }

  lemma {:induction false} WithoutNone(rows: Rows)
    ensures Without(rows, []) == rows
  {
    if rows != [] {
      WithoutNone(rows[..|rows| - 1]);
      assert rows == rows[..|rows| - 1] + [rows[|rows| - 1]];
    }
  }

  lemma SweptMore(rows: Rows, plan: seq<Entry>, e: Entry, others: Others)
    ensures Swept(rows, plan + [e], others) == Without(ChangedAll(Swept(rows, plan, others), others(|plan|)), [e])
  {
    assert (plan + [e])[..|plan|] == plan;
  }

  /** When nobody else does anything, the trees go as they would in one step. */
  lemma {:induction false} SweptAlone(rows: Rows, plan: seq<Entry>, others: Others)
    requires forall n :: others(n) == []
    ensures Swept(rows, plan, others) == Without(rows, plan)
  {
    if plan == [] {
      WithoutNone(rows);
    } else {
      var front, last := plan[..|plan| - 1], plan[|plan| - 1];
      assert plan == front + [last];
      SweptAlone(rows, front, others);
      WithoutMore(rows, front, last);
    }
  }

  /** Rows by tree, with the roots in the order in which rows name them. */
  method GroupTrees(rows: Rows) returns (order: seq<Id>, groups: map<Id, Rows>)
    ensures order == Roots(rows)
    ensures groups.Keys == (set r | r in order) && forall r :: r in groups ==> groups[r] == Tree(rows, r)
  {
    order, groups := [], map[];
    for n := 0 to |rows|
      invariant order == Roots(rows[..n]) && groups.Keys == (set r | r in order)
      invariant forall r :: r in groups ==> groups[r] == Tree(rows[..n], r)
    {
      assert rows[..n + 1][..n] == rows[..n];
      var root := RootOf(rows[n]);
      if root !in groups {
        order, groups := order + [root], groups[root := [rows[n]]];
      } else {
        groups := groups[root := groups[root] + [rows[n]]];
      }
      forall r | r in groups ensures groups[r] == Tree(rows[..n + 1], r) { TreeNext(rows, n, r); }
    }
    assert rows[..|rows|] == rows;
  }

  lemma TreeNext(rows: Rows, n: nat, r: Id)
    requires n < |rows|
    ensures Tree(rows[..n + 1], r)
            == if RootOf(rows[n]) == r then Tree(rows[..n], r) + [rows[n]] else Tree(rows[..n], r)
    ensures r !in Roots(rows[..n]) ==> Tree(rows[..n], r) == []
  {
    assert rows[..n + 1][..n] == rows[..n];
    assert Tree(rows[..n], r) + [] == Tree(rows[..n], r);
    TreeIsNotEmpty(rows[..n], r);
  }

  method LatestOf(members: Rows) returns (stamp: Instant)
    requires members != []
    ensures stamp == Latest(members)
  {
    stamp := members[0].stamp;
    assert members[..1] == [members[0]];
    for n := 1 to |members|
      invariant stamp == Latest(members[..n])
    {
      assert members[..n + 1][..n] == members[..n];
      if members[n].stamp > stamp { stamp := members[n].stamp; }
    }
    assert members[..|members|] == members;
  }

  method FindCandidates(rows: Rows) returns (cs: seq<Candidate>)
    ensures cs == Candidates(rows, Roots(rows))
  {
    var order, groups := GroupTrees(rows);
    cs := [];
    for n := 0 to |order|
      invariant cs == Candidates(rows, order[..n])
    {
      CandidatesNext(rows, order, n);
      var members := groups[order[n]];
      if AllEnded(members) {
        var stamp := LatestOf(members);
        cs := cs + [Candidate(stamp, order[n], members)];
      }
    }
    assert order[..|order|] == order;
  }

  lemma CandidatesLast(rows: Rows, roots: seq<Id>, r: Id)
    ensures Candidates(rows, roots + [r])
            == if Tree(rows, r) != [] && AllEnded(Tree(rows, r)) then Candidates(rows, roots) + [CandidateOf(rows, r)]
               else Candidates(rows, roots)
  {
    assert (roots + [r])[..|roots|] == roots;
    assert Candidates(rows, roots) + [] == Candidates(rows, roots);
  }

  lemma CandidatesNext(rows: Rows, order: seq<Id>, n: nat)
    requires order == Roots(rows) && n < |order|
    ensures order[n] in order && Tree(rows, order[n]) != []
    ensures Candidates(rows, order[..n + 1])
            == if AllEnded(Tree(rows, order[n])) then Candidates(rows, order[..n]) + [CandidateOf(rows, order[n])]
               else Candidates(rows, order[..n])
  {
    assert order[..n + 1] == order[..n] + [order[n]];
    CandidatesLast(rows, order[..n], order[n]);
    TreeIsNotEmpty(rows, order[n]);
  }

  const Day: int := 86400

  class AgentTable {
    var rows: Rows

    constructor (rows: Rows)
      ensures this.rows == rows
    {
      this.rows := rows;
    }

    /** One collection; a dry run only says what would go. */
    method Collect(
        workspace: Option<nat>, retentionDays: int, maxRoots: int, dryRun: bool, now: Instant, others: Others)
      returns (r: Report)
      modifies this
      ensures r.Refused? <==> retentionDays < 0 || maxRoots < 0
      ensures !r.Refused? ==> r == Report(dryRun, Planned(old(rows), workspace, maxRoots, now - retentionDays * 86400))
      ensures rows == if r.Refused? || dryRun then old(rows)
                      else Swept(old(rows), Planned(old(rows), workspace, maxRoots, now - retentionDays * 86400),
                          others)
    {
      if retentionDays < 0 || maxRoots < 0 { return Refused; }
      var seen := View(rows, workspace);
      var candidates := FindCandidates(seen);
      var plan := Prune(NewestFirst(candidates), seen, maxRoots, now - retentionDays * Day, dryRun, others);
      r := Report(dryRun, plan);
    }

    /** Plans, and unless it is a dry run deletes, tree after tree. */
    method Prune(sorted: seq<Candidate>, ghost seen: Rows, keep: nat, cutoff: Instant, dryRun: bool, others: Others)
      returns (plan: seq<Entry>)
      requires sorted == Sorted(seen)
      modifies this
      ensures plan == Plan(sorted, |sorted|, keep, cutoff)
      ensures rows == if dryRun then old(rows) else Swept(old(rows), plan, others)
    {
      var kept := set k | 0 <= k < |sorted| && k < keep :: sorted[k].root;
      ghost var was := rows;
      plan := [];
      for n := 0 to |sorted|
        invariant plan == Plan(sorted, n, keep, cutoff)
        invariant rows == if dryRun then was else Swept(was, plan, others)
      {
        KeepIsByPlace(seen, keep, n);
        var expired, overCount := sorted[n].stamp < cutoff, sorted[n].root !in kept;
        assert overCount <==> n >= keep;
        if expired || overCount {
          var entry := Entry(sorted[n].root, Ids(sorted[n].members), expired, overCount);
          SweptMore(was, plan, entry, others);
          if !dryRun {
            rows := ChangedAll(rows, others(|plan|));
            rows := Without(rows, [entry]);
          }
          plan := plan + [entry];
        }
      }
    }
  }

  /** A root is among the first `keep` exactly when its own place is. */
  lemma KeepIsByPlace(rows: Rows, keep: nat, n: nat)
    requires n < |Sorted(rows)|
    ensures Sorted(rows)[n].root in (set k | 0 <= k < |Sorted(rows)| && k < keep :: Sorted(rows)[k].root) <==> n < keep
  {
    if k :| 0 <= k < |Sorted(rows)| && k < keep && Sorted(rows)[k].root == Sorted(rows)[n].root {
      if k < n { PrecedesByPlace(rows, k, n); PrecedesByPlace(rows, n, n); }
    }
  }
}
