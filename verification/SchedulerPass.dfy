/** What one scheduling pass does, whatever the state it starts from. */
module SchedulerPass {
  import opened Wrappers
  import opened Scheduler
  import Slots = Reservations

  /** The jobs still to be visited are distinct and pending, and no pending job holds a slot. */
  ghost predicate Visitable(p: Pass, ids: seq<TaskId>) {
    && Distinct(ids)
    && (forall x :: x in ids ==> x in p.svc.jobs && Pending(p.svc.jobs[x]))
    && SlotsAreLaunched(p.svc)
  }

  ghost predicate SlotsAreLaunched(s: Service) {
    forall t :: t in s.slots && t in s.jobs ==> s.jobs[t].launched
  }

  /** `t` differs from `s` in job and record `id` only, and of these not in specification or dependencies. */
  ghost predicate OnlyTouches(s: Service, t: Service, id: TaskId) {
    && id in s.jobs && id in t.jobs
    && t.order == s.order
    && t.jobs == s.jobs[id := t.jobs[id]]
    && (if id in s.records && id in t.records then t.records == s.records[id := t.records[id]]
        else t.records == s.records)
    && t.jobs[id].spec == s.jobs[id].spec && t.jobs[id].done == s.jobs[id].done
    && (id in s.records && id in t.records ==> t.records[id].dependsOn == s.records[id].dependsOn)
  }

  /** How the visited job ends up. */
  ghost predicate OutcomeIs(p: Pass, q: Pass, id: TaskId, v: Verdict)
    requires id in p.svc.jobs && id in q.svc.jobs && id in q.svc.records
  {
    var was, job, record := p.svc.jobs[id], q.svc.jobs[id], q.svc.records[id];
    match v
    case Skip => q.svc == p.svc
    case Launch => job == was.(launched := true) && record.status == Routing
    case Wait(_) => job == was && record.status == Queued && record.queuePosition == Some(|p.queue| + 1)
    case OverBudget => job == was.(result := Some(BudgetExceeded)) && record.status == BudgetExceeded
    case Block(failed) => job == was.(result := Some(Blocked)) && record.status == Blocked && record.blockedBy == failed
    case NoArtifact => job == was.(result := Some(Blocked)) && record.status == Blocked
  }

  /** A visit touches its own job and record only; a terminal or missing record makes it do nothing. */
  lemma ConsiderFrame(p: Pass, id: TaskId, env: Env)
    requires id in p.svc.jobs
    ensures OnlyTouches(p.svc, Consider(p, id, env).svc, id)
    ensures id !in p.svc.records || Terminal(p.svc.records[id].status) ==> Consider(p, id, env).svc == p.svc
    ensures id in p.svc.records ==>
      (id in Consider(p, id, env).svc.records && OutcomeIs(p, Consider(p, id, env), id, Judge(p, id, env)))
  {
    match Judge(p, id, env)
    case Skip =>
    case Block(failed) =>
    case Wait(reason) =>
    case OverBudget =>
    case NoArtifact =>
    case Launch =>
  }

  lemma QuietVisitKeepsSlots(p: Pass, id: TaskId, env: Env)
    requires id in p.svc.jobs && Pending(p.svc.jobs[id]) && SlotsAreLaunched(p.svc) && !Judge(p, id, env).Launch?
    ensures Consider(p, id, env).svc.slots == p.svc.slots
    ensures SlotsAreLaunched(Consider(p, id, env).svc)
  {
    var q := Consider(p, id, env);
    assert q.svc.slots == p.svc.slots;
    forall t | t in q.svc.slots && t in q.svc.jobs
      ensures q.svc.jobs[t].launched
    {
      assert t != id;
    }
  }

  lemma LaunchTakesSlot(p: Pass, id: TaskId, env: Env)
    requires id in p.svc.jobs && Pending(p.svc.jobs[id]) && SlotsAreLaunched(p.svc) && Judge(p, id, env).Launch?
    ensures var q := Consider(p, id, env);
      && id in q.svc.slots && q.svc.slots[id].owner == env.owner
      && (forall t :: t in q.svc.slots && t != id ==> t in p.svc.slots && q.svc.slots[t] == p.svc.slots[t])
    ensures SlotsAreLaunched(Consider(p, id, env).svc)
  {
    assert id !in p.svc.slots;
  }

  lemma LaunchIsReady(p: Pass, id: TaskId, env: Env)
    requires id in p.svc.jobs && Judge(p, id, env).Launch?
    ensures Ready(p.svc.records, p.svc.records[id].dependsOn) && id !in env.overBudget
  {
    forall d | d in p.svc.records[id].dependsOn
      ensures d in p.svc.records && p.svc.records[d].status.Success?
    {
      assert d !in FailedAmong(p.svc.records, p.svc.records[id].dependsOn);
      assert !Unfinished(p.svc.records, d);
    }
  }

  /** A slot is asked for only by a job that has none, and only a launch takes one. */
  lemma ConsiderSlots(p: Pass, id: TaskId, env: Env)
    requires id in p.svc.jobs && Pending(p.svc.jobs[id]) && SlotsAreLaunched(p.svc)
    ensures var q := Consider(p, id, env);
      && SlotsAreLaunched(q.svc)
      && (!Judge(p, id, env).Launch? ==> q.svc.slots == p.svc.slots)
      && (Judge(p, id, env).Launch? ==>
            (id in q.svc.slots && q.svc.slots[id].owner == env.owner
              && Ready(p.svc.records, p.svc.records[id].dependsOn) && id !in env.overBudget))
      && (forall t :: t in q.svc.slots && t != id ==> t in p.svc.slots && q.svc.slots[t] == p.svc.slots[t])
  {
    if Judge(p, id, env).Launch? {
      LaunchIsReady(p, id, env);
      LaunchTakesSlot(p, id, env);
    } else {
      QuietVisitKeepsSlots(p, id, env);
    }
  }

  /** The visit gets as far as asking the store for a slot. */
  predicate Asks(p: Pass, id: TaskId, env: Env)
    requires id in p.svc.jobs
  {
    Judge(p, id, env).Launch? || Judge(p, id, env) == Wait(SharedCapacity)
  }

  /** The store answers, and raises neither of its exceptions. */
  predicate Answered(p: Pass, id: TaskId, env: Env)
    requires id in p.svc.jobs
  {
    Reservation(p, id, env).1.Granted? || Reservation(p, id, env) == (p.svc.slots, Slots.Refused)
  }

  lemma ReserveNeverRaises(p: Pass, id: TaskId, env: Env)
    requires id in p.svc.jobs && Pending(p.svc.jobs[id]) && SlotsAreLaunched(p.svc) && env.ttl > 0 && Asks(p, id, env)
    ensures Answered(p, id, env)
  {
    assert HasRoom(p.running, env.limits, OfWorkspace(p.svc.jobs[id].spec.workspace));
  }

  lemma VisitablePersists(p: Pass, ids: seq<TaskId>, env: Env)
    requires ids != [] && Visitable(p, ids)
    ensures Visitable(Consider(p, ids[0], env), ids[1..])
  {
    ConsiderFrame(p, ids[0], env);
    ConsiderSlots(p, ids[0], env);
    forall x | x in ids[1..]
      ensures x != ids[0] && x in ids
    {
      var k :| 0 <= k < |ids[1..]| && ids[1..][k] == x;
      assert ids[k + 1] == x;
    }
  }

  // ---------------------------------------------------------------- the whole pass

  /** Visiting `ids` leaves every other job alone, and every record that was already terminal. */
  lemma {:induction false} VisitAllFrame(p: Pass, ids: seq<TaskId>, env: Env)
    requires Visitable(p, ids)
    ensures var q := VisitAll(p, ids, env);
      && q.svc.order == p.svc.order
      && q.svc.jobs.Keys == p.svc.jobs.Keys && q.svc.records.Keys == p.svc.records.Keys
      && SlotsAreLaunched(q.svc)
      && (forall x :: x in p.svc.jobs && x !in ids ==> q.svc.jobs[x] == p.svc.jobs[x])
      && (forall x :: x in p.svc.records && (x !in ids || Terminal(p.svc.records[x].status))
            ==> q.svc.records[x] == p.svc.records[x])
    decreases |ids|
  {
    if ids != [] {
      ConsiderFrame(p, ids[0], env);
      VisitablePersists(p, ids, env);
      VisitAllFrame(Consider(p, ids[0], env), ids[1..], env);
      assert ids == [ids[0]] + ids[1..];
    }
  }

  /** Along a pass the store is never asked anything it answers with an exception. */
  lemma {:induction false} VisitsNeverRaise(p: Pass, ids: seq<TaskId>, env: Env, k: nat)
    requires Visitable(p, ids) && env.ttl > 0 && k < |ids|
    ensures var q := VisitAll(p, ids[..k], env);
      ids[k] in q.svc.jobs && (Asks(q, ids[k], env) ==> Answered(q, ids[k], env))
    decreases k
  {
    if k == 0 {
      if Asks(p, ids[0], env) { ReserveNeverRaises(p, ids[0], env); }
    } else {
      VisitablePersists(p, ids, env);
      VisitsNeverRaise(Consider(p, ids[0], env), ids[1..], env, k - 1);
      assert ids[..k][1..] == ids[1..][..k - 1];
    }
  }

  /** The visits in `ids` that launch, and those that queue, in order. */
  function LaunchedIn(p: Pass, ids: seq<TaskId>, env: Env): seq<TaskId>
    requires Covers(p, ids)
    decreases |ids|
  {
    if ids == [] then [] else
      (if Judge(p, ids[0], env).Launch? then [ids[0]] else []) + LaunchedIn(Consider(p, ids[0], env), ids[1..], env)
  }

  function QueuedIn(p: Pass, ids: seq<TaskId>, env: Env): seq<TaskId>
    requires Covers(p, ids)
    decreases |ids|
  {
    if ids == [] then [] else
      (if Judge(p, ids[0], env).Wait? then [ids[0]] else []) + QueuedIn(Consider(p, ids[0], env), ids[1..], env)
  }

  lemma Regroup(a: seq<TaskId>, b: seq<TaskId>, c: seq<TaskId>)
    ensures (a + b) + c == a + (b + c)
  {
  }

  lemma ConsiderBooks(p: Pass, id: TaskId, env: Env, c: Pass)
    requires id in p.svc.jobs && c == Consider(p, id, env)
    ensures Covers(c, [id])
    ensures c.launched == p.launched + if Judge(p, id, env).Launch? then [id] else []
    ensures c.queue == p.queue + if Judge(p, id, env).Wait? then [id] else []
  {
    ConsiderKeepsBooks(p, id, env);
  }

  lemma {:induction false} VisitAllBooks(p: Pass, ids: seq<TaskId>, env: Env)
    requires Covers(p, ids)
    ensures VisitAll(p, ids, env).launched == p.launched + LaunchedIn(p, ids, env)
    ensures VisitAll(p, ids, env).queue == p.queue + QueuedIn(p, ids, env)
    decreases |ids|
  {
    if ids != [] {
      var c := Consider(p, ids[0], env);
      ConsiderBooks(p, ids[0], env, c);
      VisitAllBooks(c, ids[1..], env);
      Regroup(p.launched, if Judge(p, ids[0], env).Launch? then [ids[0]] else [], LaunchedIn(c, ids[1..], env));
      Regroup(p.queue, if Judge(p, ids[0], env).Wait? then [ids[0]] else [], QueuedIn(c, ids[1..], env));
    }
  }

  /** No visit makes a record successful. */
  lemma SuccessIsOld(p: Pass, id: TaskId, env: Env, deps: seq<TaskId>)
    requires id in p.svc.jobs && Ready(Consider(p, id, env).svc.records, deps)
    ensures Ready(p.svc.records, deps)
  {
    var q := Consider(p, id, env);
    ConsiderFrame(p, id, env);
    forall d | d in deps
      ensures d in p.svc.records && p.svc.records[d].status.Success?
    {
      assert d in q.svc.records;
    }
  }

  /** Launch safety of a pass: it launches distinct pending jobs, each within budget, each with every dependency
      recorded `success` when the pass began, each now holding a slot of this owner. */
  lemma {:induction false} LaunchesAreSafe(p: Pass, ids: seq<TaskId>, env: Env, x: TaskId)
    requires Visitable(p, ids) && x in LaunchedIn(p, ids, env)
    ensures x in ids && x in p.svc.records && Ready(p.svc.records, p.svc.records[x].dependsOn)
    ensures x !in env.overBudget
    ensures x in VisitAll(p, ids, env).svc.jobs
    ensures VisitAll(p, ids, env).svc.jobs[x] == p.svc.jobs[x].(launched := true)
    ensures x in VisitAll(p, ids, env).svc.slots && VisitAll(p, ids, env).svc.slots[x].owner == env.owner
    decreases |ids|
  {
    var q := Consider(p, ids[0], env);
    if x == ids[0] && Judge(p, ids[0], env).Launch? {
      FirstLaunchIsSafe(p, ids, env);
    } else {
      ConsiderFrame(p, ids[0], env);
      VisitablePersists(p, ids, env);
      LaunchesAreSafe(q, ids[1..], env, x);
      SuccessIsOld(p, ids[0], env, p.svc.records[x].dependsOn);
    }
  }

  lemma FirstLaunchIsSafe(p: Pass, ids: seq<TaskId>, env: Env)
    requires ids != [] && Visitable(p, ids) && Judge(p, ids[0], env).Launch?
    ensures var x := ids[0];
      && x in p.svc.records && Ready(p.svc.records, p.svc.records[x].dependsOn) && x !in env.overBudget
      && x in VisitAll(p, ids, env).svc.jobs
      && VisitAll(p, ids, env).svc.jobs[x] == p.svc.jobs[x].(launched := true)
      && x in VisitAll(p, ids, env).svc.slots && VisitAll(p, ids, env).svc.slots[x].owner == env.owner
  {
    LaunchIsReady(p, ids[0], env);
    FirstKeepsSlot(p, ids, env);
    ConsiderFrame(p, ids[0], env);
    VisitablePersists(p, ids, env);
    VisitAllFrame(Consider(p, ids[0], env), ids[1..], env);
  }

  lemma FirstKeepsSlot(p: Pass, ids: seq<TaskId>, env: Env)
    requires ids != [] && Visitable(p, ids) && Judge(p, ids[0], env).Launch?
    ensures var q := VisitAll(p, ids, env); ids[0] in q.svc.slots && q.svc.slots[ids[0]].owner == env.owner
  {
    LaunchTakesSlot(p, ids[0], env);
    VisitablePersists(p, ids, env);
    SlotsKeptByPass(Consider(p, ids[0], env), ids[1..], env, ids[0]);
  }

  /** A launched job that is not visited again keeps its slot to the end of the pass. */
  lemma {:induction false} SlotsKeptByPass(p: Pass, ids: seq<TaskId>, env: Env, x: TaskId)
    requires Visitable(p, ids) && x !in ids
    requires x in p.svc.slots && p.svc.slots[x].expiresAt > env.now
    ensures x in VisitAll(p, ids, env).svc.slots && VisitAll(p, ids, env).svc.slots[x] == p.svc.slots[x]
    decreases |ids|
  {
    if ids != [] {
      VisitablePersists(p, ids, env);
      assert x in Consider(p, ids[0], env).svc.slots;
      SlotsKeptByPass(Consider(p, ids[0], env), ids[1..], env, x);
    }
  }

  lemma {:induction false} LaunchesAreDistinct(p: Pass, ids: seq<TaskId>, env: Env)
    requires Visitable(p, ids)
    ensures Distinct(LaunchedIn(p, ids, env)) && forall x :: x in LaunchedIn(p, ids, env) ==> x in ids
    decreases |ids|
  {
    if ids != [] {
      VisitablePersists(p, ids, env);
      LaunchesAreDistinct(Consider(p, ids[0], env), ids[1..], env);
      assert ids[0] !in ids[1..];
    }
  }

  // ---------------------------------------------------------------- where every pending job ends up

  ghost predicate Unsettled(s: Service, x: TaskId) {
    x in s.jobs && x in s.records && !Terminal(s.records[x].status) && Pending(s.jobs[x])
  }

  ghost predicate LaunchedBy(p: Pass, q: Pass, x: TaskId)
    requires x in p.svc.jobs && x in q.svc.jobs && x in q.svc.records
  {
    q.svc.jobs[x] == p.svc.jobs[x].(launched := true) && q.svc.records[x].status == Routing
  }

  ghost predicate QueuedBy(p: Pass, q: Pass, x: TaskId)
    requires x in p.svc.jobs && x in q.svc.jobs && x in q.svc.records
  {
    q.svc.jobs[x] == p.svc.jobs[x] && q.svc.records[x].status == Queued
  }

  ghost predicate SettledBy(p: Pass, q: Pass, x: TaskId, status: Status)
    requires x in p.svc.jobs && x in q.svc.jobs && x in q.svc.records
  {
    q.svc.jobs[x] == p.svc.jobs[x].(result := Some(status)) && q.svc.records[x].status == status
  }

  ghost predicate EndsUp(p: Pass, q: Pass, x: TaskId, launched: bool, queued: bool) {
    && x in p.svc.jobs && x in q.svc.jobs && x in q.svc.records
    && (launched ==> LaunchedBy(p, q, x))
    && (queued ==> QueuedBy(p, q, x))
    && (launched || queued || SettledBy(p, q, x, Blocked) || SettledBy(p, q, x, BudgetExceeded))
  }

  lemma FirstOutcome(p: Pass, id: TaskId, env: Env)
    requires Unsettled(p.svc, id)
    ensures EndsUp(p, Consider(p, id, env), id, Judge(p, id, env).Launch?, Judge(p, id, env).Wait?)
  {
    ConsiderFrame(p, id, env);
  }

  /** Every visited job is launched, queued, or settled as blocked or over budget, and nothing else. */
  lemma {:induction false} VisitAllOutcome(p: Pass, ids: seq<TaskId>, env: Env, x: TaskId)
    requires Visitable(p, ids) && x in ids && Unsettled(p.svc, x)
    ensures EndsUp(p, VisitAll(p, ids, env), x, x in LaunchedIn(p, ids, env), x in QueuedIn(p, ids, env))
    decreases |ids|
  {
    var c := Consider(p, ids[0], env);
    VisitablePersists(p, ids, env);
    LaunchesAreDistinct(c, ids[1..], env);
    QueuedAreVisited(c, ids[1..], env);
    if x == ids[0] {
      FirstOutcome(p, x, env);
      VisitAllFrame(c, ids[1..], env);
    } else {
      ConsiderFrame(p, ids[0], env);
      VisitAllOutcome(c, ids[1..], env, x);
    }
  }

  lemma {:induction false} QueuedAreVisited(p: Pass, ids: seq<TaskId>, env: Env)
    requires Visitable(p, ids)
    ensures forall x :: x in QueuedIn(p, ids, env) ==> x in ids
    decreases |ids|
  {
    if ids != [] {
      VisitablePersists(p, ids, env);
      QueuedAreVisited(Consider(p, ids[0], env), ids[1..], env);
    }
  }

  /** A failed dependency blocks: the job ends `blocked`, and its record names a failed dependency. */
  lemma {:induction false} FailedDependencyBlocks(p: Pass, ids: seq<TaskId>, env: Env, x: TaskId, d: TaskId)
    requires Visitable(p, ids) && x in ids && Unsettled(p.svc, x)
    requires d in p.svc.records[x].dependsOn && Failed(p.svc.records, d)
    ensures var q := VisitAll(p, ids, env);
      x in q.svc.jobs && x in q.svc.records && SettledBy(p, q, x, Blocked)
        && d in q.svc.records[x].blockedBy && x !in LaunchedIn(p, ids, env)
    decreases |ids|
  {
    var c := Consider(p, ids[0], env);
    ConsiderFrame(p, ids[0], env);
    VisitablePersists(p, ids, env);
    LaunchesAreDistinct(c, ids[1..], env);
    if x == ids[0] {
      assert d in FailedAmong(p.svc.records, p.svc.records[x].dependsOn);
      VisitAllFrame(c, ids[1..], env);
    } else {
      FailedDependencyBlocks(c, ids[1..], env, x, d);
    }
  }

  /** A job whose dependencies are not all successful is queued or blocked, whatever else is true of it. */
  lemma {:induction false} UnreadyIsQueuedOrBlocked(p: Pass, ids: seq<TaskId>, env: Env, x: TaskId)
    requires Visitable(p, ids) && x in ids && Unsettled(p.svc, x)
    requires !Ready(p.svc.records, p.svc.records[x].dependsOn)
    ensures var q := VisitAll(p, ids, env);
      x in q.svc.jobs && x in q.svc.records && (QueuedBy(p, q, x) || SettledBy(p, q, x, Blocked))
    decreases |ids|
  {
    var c := Consider(p, ids[0], env);
    VisitablePersists(p, ids, env);
    ConsiderFrame(p, ids[0], env);
    if x == ids[0] {
      if FailedAmong(p.svc.records, p.svc.records[x].dependsOn) == [] {
        assert AnyUnfinished(p.svc.records, p.svc.records[x].dependsOn) by {
          var d :| d in p.svc.records[x].dependsOn && !(d in p.svc.records && p.svc.records[d].status.Success?);
          assert d !in FailedAmong(p.svc.records, p.svc.records[x].dependsOn);
        }
      }
      VisitAllFrame(c, ids[1..], env);
    } else {
      if Ready(c.svc.records, p.svc.records[x].dependsOn) {
        SuccessIsOld(p, ids[0], env, p.svc.records[x].dependsOn);
      }
      UnreadyIsQueuedOrBlocked(c, ids[1..], env, x);
    }
  }

  // ---------------------------------------------------------------- order and queue positions

  ghost predicate Sorted(s: Service, ids: seq<TaskId>) {
    && (forall x :: x in ids ==> x in s.jobs)
    && (forall i, j :: 0 <= i < j < |ids| ==> Before(s, ids[i], ids[j]))
  }

  lemma {:induction false} InsertKeepsSorted(s: Service, ids: seq<TaskId>, id: TaskId)
    requires Sorted(s, ids) && id in s.jobs && id !in ids
    ensures Sorted(s, Insert(s, ids, id))
    decreases |ids|
  {
    if ids == [] {
    } else if Before(s, id, ids[0]) {
      forall x | x in ids
        ensures Before(s, id, x)
      {
        FirstBeforeAll(s, ids, id, x);
      }
      SortedCons(s, id, ids);
    } else {
      SortedTail(s, ids);
      InsertKeepsSorted(s, ids[1..], id);
      var rest := Insert(s, ids[1..], id);
      forall x | x in rest
        ensures Before(s, ids[0], x)
      {
        if x != id { FirstIsBefore(s, ids, x); } else { BeforeIsTotal(s, ids[0], id); }
      }
      SortedCons(s, ids[0], rest);
    }
  }

  lemma BeforeIsTotal(s: Service, a: TaskId, b: TaskId)
    requires a in s.jobs && b in s.jobs && a != b
    ensures Before(s, a, b) || Before(s, b, a)
  {
  }

  lemma FirstBeforeAll(s: Service, ids: seq<TaskId>, id: TaskId, x: TaskId)
    requires Sorted(s, ids) && ids != [] && id in s.jobs && Before(s, id, ids[0]) && x in ids
    ensures Before(s, id, x)
  {
    if x != ids[0] {
      var k :| 0 <= k < |ids| && ids[k] == x;
      assert Before(s, ids[0], ids[k]);
    }
  }

  /** The head part: something before all of a sorted list. */
  lemma SortedCons(s: Service, id: TaskId, ids: seq<TaskId>)
    requires Sorted(s, ids) && id in s.jobs && forall x :: x in ids ==> Before(s, id, x)
    ensures Sorted(s, [id] + ids)
  {
    var all := [id] + ids;
    forall i, j | 0 <= i < j < |all|
      ensures all[i] in s.jobs && all[j] in s.jobs && Before(s, all[i], all[j])
    {
      assert all[j] == ids[j - 1];
      if i > 0 {
        assert all[i] == ids[i - 1];
      } else {
        assert all[j] in ids;
      }
    }
  }

  /** The tail part. */
  lemma SortedTail(s: Service, ids: seq<TaskId>)
    requires Sorted(s, ids) && ids != []
    ensures Sorted(s, ids[1..])
  {
    var rest := ids[1..];
    forall i, j | 0 <= i < j < |rest|
      ensures rest[i] in s.jobs && rest[j] in s.jobs && Before(s, rest[i], rest[j])
    {
      assert rest[i] == ids[i + 1] && rest[j] == ids[j + 1];
    }
  }

  lemma FirstIsBefore(s: Service, ids: seq<TaskId>, x: TaskId)
    requires ids != [] && Sorted(s, ids) && x in ids[1..]
    ensures Before(s, ids[0], x)
  {
    var k :| 0 <= k < |ids[1..]| && ids[1..][k] == x;
    assert Before(s, ids[0], ids[k + 1]);
  }

  /** A pass visits the pending jobs by descending priority, then start, then id, each once. */
  lemma {:induction false} PendingOrderIsSorted(s: Service, ids: seq<TaskId>)
    requires Distinct(ids) && forall x :: x in ids ==> x in s.jobs
    ensures Sorted(s, PendingOrder(s, ids)) && Distinct(PendingOrder(s, ids))
    decreases |ids|
  {
    if ids != [] {
      var init := ids[..|ids| - 1];
      PendingOrderIsSorted(s, init);
      if Pending(s.jobs[ids[|ids| - 1]]) {
        InsertKeepsSorted(s, PendingOrder(s, init), ids[|ids| - 1]);
      }
    }
    forall i, j | 0 <= i < j < |PendingOrder(s, ids)|
      ensures PendingOrder(s, ids)[i] != PendingOrder(s, ids)[j]
    {
      assert Before(s, PendingOrder(s, ids)[i], PendingOrder(s, ids)[j]);
    }
  }

  lemma {:induction false} QueuedInOrder(s: Service, p: Pass, ids: seq<TaskId>, env: Env)
    requires Covers(p, ids) && Sorted(s, ids)
    ensures Sorted(s, QueuedIn(p, ids, env)) && forall x :: x in QueuedIn(p, ids, env) ==> x in ids
    decreases |ids|
  {
    if ids != [] {
      var c := Consider(p, ids[0], env);
      ConsiderKeepsBooks(p, ids[0], env);
      SortedTail(s, ids);
      QueuedInOrder(s, c, ids[1..], env);
      QueuedInUnfolds(p, ids, env);
      var rest := QueuedIn(c, ids[1..], env);
      forall x | x in rest
        ensures x in ids && Before(s, ids[0], x)
      {
        FirstIsBefore(s, ids, x);
      }
      SortedCons(s, ids[0], rest);
    }
  }

  lemma LaunchedInUnfolds(p: Pass, ids: seq<TaskId>, env: Env, rest: seq<TaskId>)
    requires Covers(p, ids) && ids != [] && Covers(Consider(p, ids[0], env), ids[1..])
    requires rest == LaunchedIn(Consider(p, ids[0], env), ids[1..], env)
    ensures LaunchedIn(p, ids, env) == if Judge(p, ids[0], env).Launch? then [ids[0]] + rest else rest
  {
    assert [] + rest == rest;
  }

  lemma {:induction false} LaunchedInOrder(s: Service, p: Pass, ids: seq<TaskId>, env: Env)
    requires Covers(p, ids) && Sorted(s, ids)
    ensures Sorted(s, LaunchedIn(p, ids, env)) && forall x :: x in LaunchedIn(p, ids, env) ==> x in ids
    decreases |ids|
  {
    if ids != [] {
      var c := Consider(p, ids[0], env);
      ConsiderKeepsBooks(p, ids[0], env);
      SortedTail(s, ids);
      LaunchedInOrder(s, c, ids[1..], env);
      var rest := LaunchedIn(c, ids[1..], env);
      LaunchedInUnfolds(p, ids, env, rest);
      forall x | x in rest
        ensures x in ids && Before(s, ids[0], x)
      {
        FirstIsBefore(s, ids, x);
      }
      SortedCons(s, ids[0], rest);
    }
  }

  /** By what the jobs and their records say, `a` is rightly treated before `b`: its priority is no lower; at one
      priority it has no record, or both have and it did not start later; and at one start its id is smaller. */
  ghost predicate RightlyFirst(s: Service, a: TaskId, b: TaskId)
    requires a in s.jobs && b in s.jobs
  {
    var p, q := s.jobs[a].spec.priority, s.jobs[b].spec.priority;
    && p >= q
    && (p == q && b !in s.records ==> a !in s.records)
    && (p == q && a in s.records && b in s.records ==> s.records[a].startedAt <= s.records[b].startedAt)
    && (p == q && a !in s.records && b !in s.records ==> a < b)
    && (p == q && a in s.records && b in s.records && s.records[a].startedAt == s.records[b].startedAt ==> a < b)
  }

  lemma SortedIsRight(s: Service, ids: seq<TaskId>, i: nat, j: nat)
    requires Sorted(s, ids) && i < j < |ids|
    ensures RightlyFirst(s, ids[i], ids[j])
  {
    assert Before(s, ids[i], ids[j]);
  }

  /** A pass visits exactly the jobs without a future and a result, each once, the most urgent first. */
  lemma VisitsAreByPriority(s: Service)
    requires WellOrdered(s)
    ensures forall x :: x in PendingOrder(s, s.order) <==> x in s.jobs && !s.jobs[x].launched && s.jobs[x].result.None?
    ensures var ids := PendingOrder(s, s.order);
      forall i, j :: 0 <= i < j < |ids| ==> ids[i] != ids[j] && RightlyFirst(s, ids[i], ids[j])
  {
    PendingOrderIsSorted(s, s.order);
    var ids := PendingOrder(s, s.order);
    forall i, j | 0 <= i < j < |ids|
      ensures RightlyFirst(s, ids[i], ids[j])
    {
      SortedIsRight(s, ids, i, j);
    }
  }

  predicate HasPosition(s: Service, x: TaskId, position: nat) {
    x in s.records && s.records[x].queuePosition == Some(position)
  }

  lemma UnsettledPersists(p: Pass, ids: seq<TaskId>, env: Env)
    requires ids != [] && Visitable(p, ids) && forall x :: x in ids ==> Unsettled(p.svc, x)
    ensures forall x :: x in ids[1..] ==> Unsettled(Consider(p, ids[0], env).svc, x)
  {
    ConsiderFrame(p, ids[0], env);
    VisitablePersists(p, ids, env);
    forall x | x in ids[1..]
      ensures Unsettled(Consider(p, ids[0], env).svc, x)
    {
      assert x in ids && x != ids[0];
    }
  }

  lemma QueuedGetsPosition(p: Pass, ids: seq<TaskId>, env: Env)
    requires ids != [] && Visitable(p, ids) && Unsettled(p.svc, ids[0]) && Judge(p, ids[0], env).Wait?
    ensures HasPosition(VisitAll(p, ids, env).svc, ids[0], |p.queue| + 1)
  {
    ConsiderFrame(p, ids[0], env);
    VisitablePersists(p, ids, env);
    assert ids[0] !in ids[1..];
    VisitAllFrame(Consider(p, ids[0], env), ids[1..], env);
  }

  lemma QueuedInUnfolds(p: Pass, ids: seq<TaskId>, env: Env)
    requires Covers(p, ids) && ids != [] && Covers(Consider(p, ids[0], env), ids[1..])
    ensures var rest := QueuedIn(Consider(p, ids[0], env), ids[1..], env);
            && (!Judge(p, ids[0], env).Wait? ==> QueuedIn(p, ids, env) == rest)
            && (Judge(p, ids[0], env).Wait? ==> QueuedIn(p, ids, env) == [ids[0]] + rest)
    ensures VisitAll(p, ids, env) == VisitAll(Consider(p, ids[0], env), ids[1..], env)
  {
    var rest := QueuedIn(Consider(p, ids[0], env), ids[1..], env);
    assert [] + rest == rest;
  }

  /** The k-th job a pass queues is recorded at position k + 1 after those queued before. */
  lemma {:induction false} QueuePositions(p: Pass, ids: seq<TaskId>, env: Env, k: nat)
    requires Visitable(p, ids) && k < |QueuedIn(p, ids, env)|
    requires forall x :: x in ids ==> Unsettled(p.svc, x)
    ensures HasPosition(VisitAll(p, ids, env).svc, QueuedIn(p, ids, env)[k], |p.queue| + k + 1)
    decreases |ids|, 1
  {
    var c, waits := Consider(p, ids[0], env), Judge(p, ids[0], env).Wait?;
    VisitablePersists(p, ids, env);
    var here, rest := QueuedIn(p, ids, env), QueuedIn(c, ids[1..], env);
    QueuedAfterFirst(p, c, ids, env, here, rest);
    if waits && k == 0 {
      QueuedGetsPosition(p, ids, env);
    } else {
      LaterPosition(p, ids, env, if waits then k - 1 else k);
    }
  }

  lemma {:induction false} LaterPosition(p: Pass, ids: seq<TaskId>, env: Env, j: nat)
    requires ids != [] && Visitable(p, ids) && Covers(Consider(p, ids[0], env), ids[1..])
    requires j < |QueuedIn(Consider(p, ids[0], env), ids[1..], env)|
    requires forall x :: x in ids ==> Unsettled(p.svc, x)
    ensures var k := if Judge(p, ids[0], env).Wait? then j + 1 else j;
      && k < |QueuedIn(p, ids, env)|
      && HasPosition(VisitAll(p, ids, env).svc, QueuedIn(p, ids, env)[k], |p.queue| + k + 1)
    decreases |ids|, 0
  {
    var c, waits := Consider(p, ids[0], env), Judge(p, ids[0], env).Wait?;
    var here, rest := QueuedIn(p, ids, env), QueuedIn(c, ids[1..], env);
    VisitablePersists(p, ids, env);
    UnsettledPersists(p, ids, env);
    QueuedAfterFirst(p, c, ids, env, here, rest);
    QueuePositions(c, ids[1..], env, j);
    PositionCarries(VisitAll(c, ids[1..], env).svc, here, rest, ids[0], |p.queue|, |c.queue|, waits, j);
  }

  lemma PositionCarries(t: Service, here: seq<TaskId>, rest: seq<TaskId>, first: TaskId, before: nat, after: nat,
                        waits: bool, j: nat)
    requires here == (if waits then [first] + rest else rest) && after == before + if waits then 1 else 0
    requires j < |rest| && HasPosition(t, rest[j], after + j + 1)
    ensures var k := if waits then j + 1 else j; k < |here| && HasPosition(t, here[k], before + k + 1)
  {
  }

  lemma QueuedAfterFirst(p: Pass, c: Pass, ids: seq<TaskId>, env: Env, here: seq<TaskId>, rest: seq<TaskId>)
    requires ids != [] && Covers(p, ids) && c == Consider(p, ids[0], env) && Covers(c, ids[1..])
    requires here == QueuedIn(p, ids, env) && rest == QueuedIn(c, ids[1..], env)
    ensures here == if Judge(p, ids[0], env).Wait? then [ids[0]] + rest else rest
    ensures VisitAll(p, ids, env) == VisitAll(c, ids[1..], env)
    ensures |c.queue| == |p.queue| + if Judge(p, ids[0], env).Wait? then 1 else 0
  {
    ConsiderKeepsBooks(p, ids[0], env);
    QueuedInUnfolds(p, ids, env);
  }

  // ---------------------------------------------------------------- no passing over

  /** A job with this workspace, provider and profile cannot be launched any more in this pass. */
  ghost predicate Shut(p: Pass, spec: JobSpec, env: Env) {
    !Allows(p.running, env.limits, spec) || SlotsFull(p.svc.slots, spec, env)
  }

  predicate SlotsFull(slots: Slots.Table, spec: JobSpec, env: Env) {
    Slots.Full(Slots.Unexpired(slots, env.now),
           Slots.Row(spec.workspace, spec.provider, spec.profile, env.owner, env.now + env.ttl),
           LimitsFor(env.limits, spec.workspace))
  }

  predicate SameResources(a: JobSpec, b: JobSpec) {
    a.workspace == b.workspace && a.provider == b.provider && a.profile == b.profile
  }

  lemma CountGrows(running: seq<JobSpec>, spec: JobSpec, q: Quota)
    ensures Count(running + [spec], q) == Count(running, q) + if CountsFor(spec, q) then 1 else 0
  {
    assert (running + [spec])[..|running|] == running;
  }

  lemma MoreRowsStayFull(slots: Slots.Table, more: Slots.Table, spec: JobSpec, env: Env)
    requires SlotsFull(slots, spec, env)
    requires forall t :: t in slots && slots[t].expiresAt > env.now ==> t in more && more[t] == slots[t]
    ensures SlotsFull(more, spec, env)
  {
    var a, b := Slots.Unexpired(slots, env.now), Slots.Unexpired(more, env.now);
    SubsetSize(Slots.InWorkspace(a, spec.workspace), Slots.InWorkspace(b, spec.workspace));
    SubsetSize(Slots.WithProvider(a, spec.workspace, spec.provider),
               Slots.WithProvider(b, spec.workspace, spec.provider));
    SubsetSize(Slots.WithProfile(a, spec.workspace, spec.profile), Slots.WithProfile(b, spec.workspace, spec.profile));
  }

  lemma MoreRunningStaysReached(running: seq<JobSpec>, more: JobSpec, limits: map<string, Slots.Limits>, spec: JobSpec)
    requires !Allows(running, limits, spec)
    ensures !Allows(running + [more], limits, spec)
  {
    CountGrows(running, more, OfWorkspace(spec.workspace));
    CountGrows(running, more, OfProvider(spec.workspace, spec.provider));
    CountGrows(running, more, OfProfile(spec.workspace, spec.profile));
  }

  lemma LimitStaysReached(p: Pass, id: TaskId, spec: JobSpec, env: Env)
    requires id in p.svc.jobs && !Allows(p.running, env.limits, spec)
    ensures !Allows(Consider(p, id, env).running, env.limits, spec)
  {
    ConsiderKeepsBooks(p, id, env);
    MoreRunningStaysReached(p.running, p.svc.jobs[id].spec, env.limits, spec);
    assert p.running + [] == p.running;
  }

  lemma SlotsStayFull(p: Pass, id: TaskId, spec: JobSpec, env: Env)
    requires id in p.svc.jobs && Pending(p.svc.jobs[id]) && SlotsAreLaunched(p.svc)
    requires SlotsFull(p.svc.slots, spec, env)
    ensures SlotsFull(Consider(p, id, env).svc.slots, spec, env)
  {
    UnexpiredSlotsKept(p, id, env);
    MoreRowsStayFull(p.svc.slots, Consider(p, id, env).svc.slots, spec, env);
  }

  lemma UnexpiredSlotsKept(p: Pass, id: TaskId, env: Env)
    requires id in p.svc.jobs && Pending(p.svc.jobs[id]) && SlotsAreLaunched(p.svc)
    ensures var more := Consider(p, id, env).svc.slots;
      forall t :: t in p.svc.slots && p.svc.slots[t].expiresAt > env.now ==> t in more && more[t] == p.svc.slots[t]
  {
  }

  lemma ShutJobIsNotLaunched(p: Pass, id: TaskId, spec: JobSpec, env: Env)
    requires id in p.svc.jobs && Pending(p.svc.jobs[id]) && SlotsAreLaunched(p.svc)
    requires Shut(p, spec, env) && SameResources(p.svc.jobs[id].spec, spec)
    ensures !Judge(p, id, env).Launch?
  {
    if SlotsFull(p.svc.slots, spec, env) {
      assert Reservation(p, id, env).1 != Slots.Granted;
    }
  }

  lemma ShutStaysShut(p: Pass, id: TaskId, spec: JobSpec, env: Env)
    requires id in p.svc.jobs && Pending(p.svc.jobs[id]) && SlotsAreLaunched(p.svc)
    requires Shut(p, spec, env)
    ensures Shut(Consider(p, id, env), spec, env)
  {
    if !Allows(p.running, env.limits, spec) {
      LimitStaysReached(p, id, spec, env);
    } else {
      SlotsStayFull(p, id, spec, env);
    }
  }

  lemma {:induction false} ShutAdmitsNobody(p: Pass, ids: seq<TaskId>, spec: JobSpec, env: Env, x: TaskId)
    requires Visitable(p, ids) && Shut(p, spec, env)
    requires x in ids && SameResources(p.svc.jobs[x].spec, spec)
    ensures x !in LaunchedIn(p, ids, env)
    decreases |ids|
  {
    var c := Consider(p, ids[0], env);
    ConsiderFrame(p, ids[0], env);
    ShutStaysShut(p, ids[0], spec, env);
    VisitablePersists(p, ids, env);
    LaunchesAreDistinct(c, ids[1..], env);
    if x == ids[0] {
      ShutJobIsNotLaunched(p, x, spec, env);
    } else {
      ShutAdmitsNobody(c, ids[1..], spec, env, x);
    }
  }

  /** What the configuration and the store demand of every pass. */
  ghost predicate ValidEnv(env: Env) {
    env.ttl > 0 && Slots.ValidLimits(env.limits)
  }

  /** A job that could run except for capacity. */
  ghost predicate Runnable(s: Service, x: TaskId, env: Env) {
    && Unsettled(s, x) && Ready(s.records, s.records[x].dependsOn)
    && x !in env.overBudget && s.jobs[x].spec.inheritFrom.None?
  }

  /** No passing over: within a pass, a job is launched only if every runnable job before it with the same
      workspace, provider and profile is launched too. */
  lemma {:induction false} NobodyIsPassedOver(p: Pass, ids: seq<TaskId>, env: Env, i: nat, j: nat)
    requires ValidEnv(env)
    requires Visitable(p, ids) && i < j < |ids|
    requires Runnable(p.svc, ids[i], env) && SameResources(p.svc.jobs[ids[i]].spec, p.svc.jobs[ids[j]].spec)
    requires ids[j] in LaunchedIn(p, ids, env)
    ensures ids[i] in LaunchedIn(p, ids, env)
    decreases |ids|
  {
    var c := Consider(p, ids[0], env);
    ConsiderFrame(p, ids[0], env);
    VisitablePersists(p, ids, env);
    LaunchesAreDistinct(c, ids[1..], env);
    if i > 0 {
      NobodyIsPassedOver(c, ids[1..], env, i - 1, j - 1);
    } else if !Judge(p, ids[0], env).Launch? {
      HeldBackIsShut(p, ids[0], env);
      ShutAdmitsNobody(p, ids, p.svc.jobs[ids[0]].spec, env, ids[j]);
    }
  }

  lemma HeldBackIsShut(p: Pass, id: TaskId, env: Env)
    requires ValidEnv(env) && Runnable(p.svc, id, env) && SlotsAreLaunched(p.svc) && !Judge(p, id, env).Launch?
    ensures Shut(p, p.svc.jobs[id].spec, env)
  {
    ReadyIsNotHeldBack(p.svc.records, p.svc.records[id].dependsOn);
  }

  lemma ReadyIsNotHeldBack(records: Records, deps: seq<TaskId>)
    requires Ready(records, deps)
    ensures FailedAmong(records, deps) == [] && !AnyUnfinished(records, deps)
  {
    assert forall d :: d !in FailedAmong(records, deps);
  }

  // ---------------------------------------------------------------- what a pass never changes

  /** Specifications, futures already done, cancellation flags and dependency lists survive a pass. */
  ghost predicate SameShape(s: Service, t: Service) {
    && t.order == s.order && t.jobs.Keys == s.jobs.Keys && t.records.Keys == s.records.Keys
    && (forall x :: x in s.jobs ==> t.jobs[x].spec == s.jobs[x].spec && t.jobs[x].done == s.jobs[x].done)
    && (forall x :: x in s.records ==> t.records[x].dependsOn == s.records[x].dependsOn)
  }

  lemma {:induction false} VisitAllKeepsShape(p: Pass, ids: seq<TaskId>, env: Env)
    requires Covers(p, ids)
    ensures SameShape(p.svc, VisitAll(p, ids, env).svc)
    decreases |ids|
  {
    if ids != [] {
      ConsiderFrame(p, ids[0], env);
      VisitAllKeepsShape(Consider(p, ids[0], env), ids[1..], env);
    }
  }

  /** Every slot after a pass was there before, or is a launched job's, in this owner's name. */
  lemma {:induction false} SlotsOfPass(p: Pass, ids: seq<TaskId>, env: Env, t: TaskId)
    requires Visitable(p, ids) && t in VisitAll(p, ids, env).svc.slots
    ensures (t in p.svc.slots && VisitAll(p, ids, env).svc.slots[t] == p.svc.slots[t])
         || (t in LaunchedIn(p, ids, env) && VisitAll(p, ids, env).svc.slots[t].owner == env.owner)
    decreases |ids|
  {
    if ids != [] {
      ConsiderSlots(p, ids[0], env);
      VisitablePersists(p, ids, env);
      SlotsOfPass(Consider(p, ids[0], env), ids[1..], env, t);
      if t in LaunchedIn(Consider(p, ids[0], env), ids[1..], env) {
        LaunchesAreSafe(Consider(p, ids[0], env), ids[1..], env, t);
      }
    }
  }

  /** The running jobs a quota counts. */
  ghost function ActiveOf(s: Service, q: Quota): set<TaskId> {
    set x | x in s.jobs && Active(s.jobs[x]) && CountsFor(s.jobs[x].spec, q)
  }

  ghost predicate WithinQuotas(s: Service, limits: map<string, Slots.Limits>) {
    forall q :: LimitOf(limits, q).Some? ==> |ActiveOf(s, q)| <= LimitOf(limits, q).value
  }

  /** The list of running jobs counts exactly the active ones. */
  ghost predicate CountsActive(p: Pass) {
    forall q :: Count(p.running, q) == |ActiveOf(p.svc, q)|
  }

  lemma ConsiderActive(p: Pass, id: TaskId, env: Env, q: Quota)
    requires id in p.svc.jobs && Pending(p.svc.jobs[id]) && !p.svc.jobs[id].done
    ensures ActiveOf(Consider(p, id, env).svc, q)
         == ActiveOf(p.svc, q)
          + if Judge(p, id, env).Launch? && CountsFor(p.svc.jobs[id].spec, q) then {id} else {}
  {
    var c := Consider(p, id, env);
    ConsiderFrame(p, id, env);
    forall x | x in p.svc.jobs && x != id
      ensures x in ActiveOf(c.svc, q) <==> x in ActiveOf(p.svc, q)
    {
      assert c.svc.jobs[x] == p.svc.jobs[x];
    }
    if id in p.svc.records {
      assert Active(c.svc.jobs[id]) <==> Judge(p, id, env).Launch?;
    } else {
      assert c.svc == p.svc;
    }
  }

  lemma LaunchFitsQuota(p: Pass, id: TaskId, env: Env, q: Quota)
    requires id in p.svc.jobs && Judge(p, id, env).Launch?
    requires CountsFor(p.svc.jobs[id].spec, q) && LimitOf(env.limits, q).Some?
    ensures Count(p.running, q) < LimitOf(env.limits, q).value
  {
    var spec := p.svc.jobs[id].spec;
    assert Allows(p.running, env.limits, spec);
    match q
    case OfWorkspace(ws) => assert q == OfWorkspace(spec.workspace);
    case OfProvider(ws, pr) => assert q == OfProvider(spec.workspace, spec.provider);
    case OfProfile(ws, pr) => assert q == OfProfile(spec.workspace, spec.profile);
  }

  lemma SizeGrows(before: set<TaskId>, after: set<TaskId>, id: TaskId, grew: bool)
    requires id !in before && after == before + if grew then {id} else {}
    ensures |after| == |before| + if grew then 1 else 0
  {
  }

  /** The two counts of a quota after a visit. */
  lemma CountsAfterVisit(p: Pass, id: TaskId, env: Env, q: Quota, grew: bool)
    requires id in p.svc.jobs && Pending(p.svc.jobs[id]) && !p.svc.jobs[id].done
    requires grew == (Judge(p, id, env).Launch? && CountsFor(p.svc.jobs[id].spec, q))
    ensures var c := Consider(p, id, env);
      && Count(c.running, q) == Count(p.running, q) + (if grew then 1 else 0)
      && |ActiveOf(c.svc, q)| == |ActiveOf(p.svc, q)| + (if grew then 1 else 0)
  {
    CountAfterVisit(p, id, env, q, Consider(p, id, env).running, grew);
    ActiveAfterVisit(p, id, env, q, ActiveOf(p.svc, q), ActiveOf(Consider(p, id, env).svc, q), grew);
  }

  lemma CountAfterVisit(p: Pass, id: TaskId, env: Env, q: Quota, running: seq<JobSpec>, grew: bool)
    requires id in p.svc.jobs && running == Consider(p, id, env).running
    requires grew == (Judge(p, id, env).Launch? && CountsFor(p.svc.jobs[id].spec, q))
    ensures Count(running, q) == Count(p.running, q) + if grew then 1 else 0
  {
    ConsiderKeepsBooks(p, id, env);
    if Judge(p, id, env).Launch? {
      CountGrows(p.running, p.svc.jobs[id].spec, q);
    } else {
      assert running == p.running;
    }
  }

  lemma ActiveAfterVisit(p: Pass, id: TaskId, env: Env, q: Quota, before: set<TaskId>, after: set<TaskId>, grew: bool)
    requires id in p.svc.jobs && Pending(p.svc.jobs[id]) && !p.svc.jobs[id].done
    requires grew == (Judge(p, id, env).Launch? && CountsFor(p.svc.jobs[id].spec, q))
    requires before == ActiveOf(p.svc, q) && after == ActiveOf(Consider(p, id, env).svc, q)
    ensures |after| == |before| + if grew then 1 else 0
  {
    ConsiderActive(p, id, env, q);
    assert id !in before;
    SizeGrows(before, after, id, grew);
  }

  lemma ConsiderKeepsQuota(p: Pass, id: TaskId, env: Env, q: Quota)
    requires id in p.svc.jobs && Pending(p.svc.jobs[id]) && !p.svc.jobs[id].done
    requires Count(p.running, q) == |ActiveOf(p.svc, q)|
    requires LimitOf(env.limits, q).Some? ==> |ActiveOf(p.svc, q)| <= LimitOf(env.limits, q).value
    ensures var c := Consider(p, id, env);
      && Count(c.running, q) == |ActiveOf(c.svc, q)|
      && (LimitOf(env.limits, q).Some? ==> |ActiveOf(c.svc, q)| <= LimitOf(env.limits, q).value)
  {
    var grew := Judge(p, id, env).Launch? && CountsFor(p.svc.jobs[id].spec, q);
    CountsAfterVisit(p, id, env, q, grew);
    if grew && LimitOf(env.limits, q).Some? {
      LaunchFitsQuota(p, id, env, q);
    }
  }

  lemma ConsiderKeepsQuotas(p: Pass, id: TaskId, env: Env)
    requires id in p.svc.jobs && Pending(p.svc.jobs[id]) && !p.svc.jobs[id].done
    requires CountsActive(p) && WithinQuotas(p.svc, env.limits)
    ensures CountsActive(Consider(p, id, env)) && WithinQuotas(Consider(p, id, env).svc, env.limits)
  {
    var c := Consider(p, id, env);
    forall q
      ensures Count(c.running, q) == |ActiveOf(c.svc, q)|
      ensures LimitOf(env.limits, q).Some? ==> |ActiveOf(c.svc, q)| <= LimitOf(env.limits, q).value
    {
      assert Count(p.running, q) == |ActiveOf(p.svc, q)|;
      ConsiderKeepsQuota(p, id, env, q);
    }
  }

  lemma {:induction false} VisitAllKeepsQuotas(p: Pass, ids: seq<TaskId>, env: Env)
    requires Visitable(p, ids) && forall x :: x in ids ==> !p.svc.jobs[x].done
    requires CountsActive(p) && WithinQuotas(p.svc, env.limits)
    ensures WithinQuotas(VisitAll(p, ids, env).svc, env.limits)
    decreases |ids|
  {
    if ids != [] {
      var c := Consider(p, ids[0], env);
      ConsiderKeepsQuotas(p, ids[0], env);
      VisitablePersists(p, ids, env);
      ConsiderFrame(p, ids[0], env);
      forall x | x in ids[1..]
        ensures !c.svc.jobs[x].done
      {
        assert x in ids;
      }
      VisitAllKeepsQuotas(c, ids[1..], env);
    }
  }

  ghost function ActiveAmong(s: Service, ids: seq<TaskId>, q: Quota): set<TaskId>
    requires forall x :: x in ids ==> x in s.jobs
  {
    set x | x in ids && Active(s.jobs[x]) && CountsFor(s.jobs[x].spec, q)
  }

  lemma AmongExtends(s: Service, init: seq<TaskId>, last: TaskId, q: Quota)
    requires last in s.jobs && last !in init && forall x :: x in init ==> x in s.jobs
    ensures |ActiveAmong(s, init + [last], q)|
         == |ActiveAmong(s, init, q)| + if Active(s.jobs[last]) && CountsFor(s.jobs[last].spec, q) then 1 else 0
  {
    forall x | x != last
      ensures x in ActiveAmong(s, init + [last], q) <==> x in ActiveAmong(s, init, q)
    {
      assert x in init + [last] <==> x in init;
    }
    if Active(s.jobs[last]) && CountsFor(s.jobs[last].spec, q) {
      assert ActiveAmong(s, init + [last], q) == ActiveAmong(s, init, q) + {last};
    } else {
      assert ActiveAmong(s, init + [last], q) == ActiveAmong(s, init, q);
    }
  }

  /** The list a pass starts with counts every active job once. */
  lemma {:induction false} RunningSpecsCount(s: Service, ids: seq<TaskId>, q: Quota)
    requires Distinct(ids) && forall x :: x in ids ==> x in s.jobs
    ensures Count(RunningSpecs(s, ids), q) == |ActiveAmong(s, ids, q)|
    decreases |ids|
  {
    if ids == [] {
      assert ActiveAmong(s, ids, q) == {};
    } else {
      var init, last := ids[..|ids| - 1], ids[|ids| - 1];
      RunningSpecsCount(s, init, q);
      assert last !in init && ids == init + [last];
      AmongExtends(s, init, last, q);
      if Active(s.jobs[last]) {
        CountGrows(RunningSpecs(s, init), s.jobs[last].spec, q);
      } else {
        assert RunningSpecs(s, ids) == RunningSpecs(s, init);
      }
    }
  }

  lemma FirstPassCountsActive(s: Service)
    requires WellOrdered(s)
    ensures CountsActive(FirstPass(s))
  {
    forall q
      ensures Count(RunningSpecs(s, s.order), q) == |ActiveOf(s, q)|
    {
      RunningSpecsCount(s, s.order, q);
      assert ActiveAmong(s, s.order, q) == ActiveOf(s, q);
    }
  }
}
