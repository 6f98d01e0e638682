/** Safety of scheduling over whole runs: who is launched, when, how often, and who never is. */
module SchedulerSafety {
  import opened Wrappers
  import opened Scheduler
  import opened SchedulerPass
  import opened SchedulerRuns
  import Slots = Reservations

  /** The jobs handed to the executor in the course of a run, in order. */
  ghost function Launches(s: Service, steps: seq<Step>, setup: Setup): seq<TaskId>
    requires WellOrdered(s)
    decreases |steps|
  {
    if steps == [] then []
    else LaunchedBy(s, steps[0], setup) + Launches(Next(s, steps[0], setup), steps[1..], setup)
  }

  ghost function LaunchedBy(s: Service, step: Step, setup: Setup): seq<TaskId>
    requires WellOrdered(s)
  {
    if step.DoPass? && Enabled(s, step, setup) then Launched(s, step.env) else []
  }

  /** One step launches pending jobs only, each once, each within budget and with every dependency recorded
      `success`; each is then running and holds a slot of this owner. */
  lemma StepLaunches(s: Service, step: Step, setup: Setup, x: TaskId)
    requires Inv(s, setup) && x in LaunchedBy(s, step, setup)
    ensures Distinct(LaunchedBy(s, step, setup))
    ensures step.DoPass? && x !in step.env.overBudget
    ensures Unsettled(s, x) && Ready(s.records, s.records[x].dependsOn)
    ensures var t := Next(s, step, setup);
      x in t.jobs && Active(t.jobs[x]) && x in t.slots && t.slots[x].owner == setup.owner
  {
    var p, ids := FirstPass(s), PendingOrder(s, s.order);
    PassIsVisitable(s);
    LaunchesAreDistinct(p, ids, step.env);
    LaunchesAreSafe(p, ids, step.env, x);
    assert JobRecorded(s, x);
  }

  /** Launch safety in every reachable state: whatever happened before, step k launches a job only then. */
  lemma LaunchSafety(s: Service, steps: seq<Step>, setup: Setup, k: nat, x: TaskId)
    requires Inv(s, setup) && k < |steps|
    requires x in LaunchedBy(Run(s, steps[..k], setup), steps[k], setup)
    ensures var w := Run(s, steps[..k], setup);
      Unsettled(w, x) && Ready(w.records, w.records[x].dependsOn) && steps[k].DoPass? && x !in steps[k].env.overBudget
  {
    InvHoldsInEveryRun(s, steps[..k], setup);
    StepLaunches(Run(s, steps[..k], setup), steps[k], setup, x);
  }

  lemma LaunchedStaysLaunched(s: Service, step: Step, setup: Setup, x: TaskId)
    requires Inv(s, setup) && x in s.jobs && s.jobs[x].launched
    ensures var t := Next(s, step, setup); x in t.jobs && t.jobs[x].launched
  {
    if step.DoPass? {
      if Enabled(s, step, setup) {
        PassJobByJob(s, step.env, x);
      }
    } else if !step.DoSubmit? {
      QuietStep(s, step, setup);
      assert QuietEffect(s, Next(s, step, setup), x);
    }
  }

  lemma DistinctConcat(a: seq<TaskId>, b: seq<TaskId>)
    requires Distinct(a) && Distinct(b) && forall x :: x in a ==> x !in b
    ensures Distinct(a + b)
  {
    forall i, j | 0 <= i < j < |a + b|
      ensures (a + b)[i] != (a + b)[j]
    {
      if i < |a| <= j {
        assert (a + b)[i] in a && (a + b)[j] == b[j - |a|];
      }
    }
  }

  lemma LaunchesOfStep(s: Service, step: Step, setup: Setup)
    requires Inv(s, setup)
    ensures Distinct(LaunchedBy(s, step, setup))
    ensures forall x :: x in LaunchedBy(s, step, setup) ==>
      (x in s.jobs && !s.jobs[x].launched && x in Next(s, step, setup).jobs && Next(s, step, setup).jobs[x].launched)
  {
    if LaunchedBy(s, step, setup) != [] {
      StepLaunches(s, step, setup, LaunchedBy(s, step, setup)[0]);
    }
    forall x | x in LaunchedBy(s, step, setup)
      ensures x in s.jobs && !s.jobs[x].launched
      ensures x in Next(s, step, setup).jobs && Next(s, step, setup).jobs[x].launched
    {
      StepLaunches(s, step, setup, x);
    }
  }

  /** A job is launched at most once in any run. */
  lemma {:induction false} LaunchedAtMostOnce(s: Service, steps: seq<Step>, setup: Setup)
    requires Inv(s, setup)
    ensures Distinct(Launches(s, steps, setup))
    ensures forall x :: x in Launches(s, steps, setup) && x in s.jobs ==> !s.jobs[x].launched
    decreases |steps|
  {
    if steps != [] {
      var t := Next(s, steps[0], setup);
      var first, rest := LaunchedBy(s, steps[0], setup), Launches(t, steps[1..], setup);
      StepKeepsInv(s, steps[0], setup);
      LaunchesOfStep(s, steps[0], setup);
      LaunchedAtMostOnce(t, steps[1..], setup);
      DistinctConcat(first, rest);
      forall x | x in rest && x in s.jobs && s.jobs[x].launched
        ensures false
      {
        LaunchedStaysLaunched(s, steps[0], setup, x);
      }
    }
  }

  /** The jobs handed to the executor whose future is not done. */
  ghost function RunningIn(s: Service, ws: string): set<TaskId> {
    set x | x in s.jobs && s.jobs[x].launched && !s.jobs[x].done && s.jobs[x].spec.workspace == ws
  }

  ghost function RunningWith(s: Service, ws: string, provider: string): set<TaskId> {
    set x | x in RunningIn(s, ws) && s.jobs[x].spec.provider == provider
  }

  ghost function RunningAs(s: Service, ws: string, profile: string): set<TaskId> {
    set x | x in RunningIn(s, ws) && s.jobs[x].spec.profile == profile
  }

  /** In every run this service runs no more jobs than configured: at most `max_workers` in a workspace, four if it has
      no configuration, and at most as many on a provider or profile as its own limit says. */
  lemma RunningJobsAreBounded(
      s: Service, steps: seq<Step>, setup: Setup, ws: string, provider: string, profile: string)
    requires Inv(s, setup)
    ensures var t := Run(s, steps, setup);
      && |RunningIn(t, ws)| <= (if ws in setup.limits then setup.limits[ws].maxWorkers else 4)
      && (ws in setup.limits && provider != "" && provider in setup.limits[ws].providers ==>
            |RunningWith(t, ws, provider)| <= setup.limits[ws].providers[provider])
      && (ws in setup.limits && profile != "" && profile in setup.limits[ws].profiles ==>
            |RunningAs(t, ws, profile)| <= setup.limits[ws].profiles[profile])
  {
    InvHoldsInEveryRun(s, steps, setup);
    var t := Run(s, steps, setup);
    RunningAreActive(t, ws, provider, profile);
    assert LimitOf(setup.limits, OfWorkspace(ws)).Some?;
    assert ws in setup.limits && provider != "" && provider in setup.limits[ws].providers ==>
      LimitOf(setup.limits, OfProvider(ws, provider)).Some?;
    assert ws in setup.limits && profile != "" && profile in setup.limits[ws].profiles ==>
      LimitOf(setup.limits, OfProfile(ws, profile)).Some?;
  }

  lemma RunningAreActive(t: Service, ws: string, provider: string, profile: string)
    ensures RunningIn(t, ws) == ActiveOf(t, OfWorkspace(ws))
    ensures RunningWith(t, ws, provider) == ActiveOf(t, OfProvider(ws, provider))
    ensures RunningAs(t, ws, profile) == ActiveOf(t, OfProfile(ws, profile))
  {
  }

  // ---------------------------------------------------------------- failed dependencies

  /** A pending job behind a failure: some dependency failed, or is itself such a job. */
  ghost predicate Doomed(s: Service, i: nat)
    requires i < |s.order|
    decreases i, 2
  {
    var x := s.order[i];
    Unsettled(s, x) && exists d :: Dooms(s, i, d)
  }

  lemma FailureIsForever(s: Service, step: Step, setup: Setup, x: TaskId, d: TaskId)
    requires Inv(s, setup) && Unsettled(s, x) && d in s.records[x].dependsOn && Failed(s.records, d)
    ensures Failed(Next(s, step, setup).records, d)
  {
    if step.DoPass? && Enabled(s, step, setup) {
      PassFrame(s, step.env);
    }
  }

  lemma DoomedIsNotReady(s: Service, i: nat, setup: Setup)
    requires Inv(s, setup) && i < |s.order| && Doomed(s, i)
    ensures !Ready(s.records, s.records[s.order[i]].dependsOn)
  {
    var x := s.order[i];
    var d :| Dooms(s, i, d);
    if !Failed(s.records, d) {
      var j :| 0 <= j < i && s.order[j] == d && Doomed(s, j);
      assert Unsettled(s, d);
    }
  }

  /** What a step can do to a pending job that is not ready: leave it pending, block it, or cancel it. */
  ghost predicate HeldBack(t: Service, x: TaskId, cancelled: bool) {
    x in t.jobs && (Unsettled(t, x)
      || (!t.jobs[x].launched
          && (t.jobs[x].result == Some(Blocked) || (cancelled && t.jobs[x].result == Some(Cancelled)))))
  }

  lemma UnreadyIsHeldBack(s: Service, step: Step, setup: Setup, x: TaskId)
    requires Inv(s, setup) && Unsettled(s, x) && !Ready(s.records, s.records[x].dependsOn)
    ensures HeldBack(Next(s, step, setup), x, step.DoCancel?)
    ensures var t := Next(s, step, setup); x in t.records ==> t.records[x].dependsOn == s.records[x].dependsOn
    ensures x !in LaunchedBy(s, step, setup)
  {
    var t := Next(s, step, setup);
    if x in LaunchedBy(s, step, setup) {
      StepLaunches(s, step, setup, x);
    }
    if step.DoPass? {
      if Enabled(s, step, setup) {
        PassIsVisitable(s);
        PassFrame(s, step.env);
        UnreadyIsQueuedOrBlocked(FirstPass(s), PendingOrder(s, s.order), step.env, x);
      }
    } else if !step.DoSubmit? {
      QuietStep(s, step, setup);
      StepKeepsInv(s, step, setup);
      UnreadyAfterQuiet(s, t, step.DoCancel?, x);
    }
  }

  lemma UnreadyAfterQuiet(s: Service, t: Service, cancelled: bool, x: TaskId)
    requires Unsettled(s, x) && Quiet(s, t) && (cancelled || SameResults(s, t))
    ensures HeldBack(t, x, cancelled)
    ensures x in t.records ==> t.records[x].dependsOn == s.records[x].dependsOn
  {
    assert QuietEffect(s, t, x);
  }

  /** Why job i is doomed. */
  ghost predicate Dooms(s: Service, i: nat, d: TaskId)
    requires i < |s.order| && s.order[i] in s.records
    decreases i, 1
  {
    d in s.records[s.order[i]].dependsOn
      && (Failed(s.records, d) || exists j :: 0 <= j < i && s.order[j] == d && Doomed(s, j))
  }

  /** A cause of doom outlives a step that leaves the job pending. */
  lemma CauseOutlives(s: Service, t: Service, i: nat, d: TaskId)
    requires WellOrdered(t) && ResultsRecorded(t)
    requires i < |s.order| && i < |t.order| && t.order[i] == s.order[i]
    requires s.order[i] in s.records && Dooms(s, i, d)
    requires Unsettled(t, s.order[i])
    requires t.records[s.order[i]].dependsOn == s.records[s.order[i]].dependsOn
    requires Failed(s.records, d) ==> Failed(t.records, d)
    requires forall j :: 0 <= j < i && s.order[j] == d && Doomed(s, j) ==>
      t.order[j] == d && (Doomed(t, j) || Ended(t, d, true))
    ensures Doomed(t, i)
  {
    if !Failed(s.records, d) {
      var j :| 0 <= j < i && s.order[j] == d && Doomed(s, j);
      if Ended(t, d, true) {
        assert JobRecorded(t, d);
        assert Failed(t.records, d);
      }
    }
    assert Dooms(t, i, d);
  }

  /** Doom is forever: whatever step comes, a doomed job stays doomed or ends blocked (or is cancelled). */
  lemma {:induction false} DoomPersists(s: Service, step: Step, setup: Setup, i: nat)
    requires Inv(s, setup) && i < |s.order| && Doomed(s, i)
    ensures var t := Next(s, step, setup);
      && i < |t.order| && t.order[i] == s.order[i]
      && (Doomed(t, i) || Ended(t, s.order[i], step.DoCancel?))
    ensures s.order[i] !in LaunchedBy(s, step, setup)
    decreases i
  {
    var x, t := s.order[i], Next(s, step, setup);
    DoomedIsNotReady(s, i, setup);
    UnreadyIsHeldBack(s, step, setup, x);
    OrderGrows(s, step, setup);
    assert t.order[i] == t.order[..|s.order|][i];
    if Unsettled(t, x) {
      var d :| Dooms(s, i, d);
      if Failed(s.records, d) {
        FailureIsForever(s, step, setup, x, d);
      }
      forall j | 0 <= j < i && s.order[j] == d && Doomed(s, j)
        ensures t.order[j] == d && (Doomed(t, j) || Ended(t, d, true))
      {
        DoomPersists(s, step, setup, j);
      }
      StepKeepsInv(s, step, setup);
      CauseOutlives(s, t, i, d);
    }
  }

  ghost predicate Ended(t: Service, x: TaskId, cancelled: bool) {
    x in t.jobs && !t.jobs[x].launched
      && (t.jobs[x].result == Some(Blocked) || (cancelled && t.jobs[x].result == Some(Cancelled)))
  }

  lemma OrderGrows(s: Service, step: Step, setup: Setup)
    requires Inv(s, setup)
    ensures var t := Next(s, step, setup); |s.order| <= |t.order| && t.order[..|s.order|] == s.order
  {
    if step.DoPass? {
      if Enabled(s, step, setup) {
        PassFrame(s, step.env);
      }
    } else if !step.DoSubmit? {
      QuietStep(s, step, setup);
    }
  }

  /** A settled job keeps its result. */
  lemma EndedStaysEnded(s: Service, step: Step, setup: Setup, x: TaskId, cancelled: bool)
    requires Inv(s, setup) && Ended(s, x, cancelled)
    ensures Ended(Next(s, step, setup), x, cancelled) && x !in LaunchedBy(s, step, setup)
  {
    if x in LaunchedBy(s, step, setup) {
      StepLaunches(s, step, setup, x);
    }
    if step.DoPass? {
      if Enabled(s, step, setup) {
        PassJobByJob(s, step.env, x);
      }
    } else if !step.DoSubmit? {
      QuietStep(s, step, setup);
      assert QuietEffect(s, Next(s, step, setup), x);
    }
  }

  ghost predicate Cancels(steps: seq<Step>) {
    exists k :: 0 <= k < |steps| && steps[k].DoCancel?
  }

  lemma {:induction false} EndedForever(s: Service, steps: seq<Step>, setup: Setup, x: TaskId, cancelled: bool)
    requires Inv(s, setup) && Ended(s, x, cancelled)
    ensures Ended(Run(s, steps, setup), x, cancelled) && x !in Launches(s, steps, setup)
    decreases |steps|
  {
    if steps != [] {
      StepKeepsInv(s, steps[0], setup);
      EndedStaysEnded(s, steps[0], setup, x, cancelled);
      EndedForever(Next(s, steps[0], setup), steps[1..], setup, x, cancelled);
    }
  }

  /** A job behind a failed dependency, however far up the chain, is never launched in any run; it stays
      pending or ends blocked, and ends otherwise only by cancellation. */
  lemma {:induction false} DoomedNeverLaunches(s: Service, steps: seq<Step>, setup: Setup, i: nat)
    requires Inv(s, setup) && i < |s.order| && Doomed(s, i)
    ensures s.order[i] !in Launches(s, steps, setup)
    ensures var t := Run(s, steps, setup);
      && i < |t.order| && t.order[i] == s.order[i]
      && (Doomed(t, i) || Ended(t, s.order[i], Cancels(steps)))
    decreases |steps|
  {
    if steps != [] {
      var t, x := Next(s, steps[0], setup), s.order[i];
      StepKeepsInv(s, steps[0], setup);
      DoomPersists(s, steps[0], setup, i);
      if Doomed(t, i) {
        DoomedNeverLaunches(t, steps[1..], setup, i);
        assert Cancels(steps[1..]) ==> Cancels(steps) by {
          if Cancels(steps[1..]) {
            var k :| 0 <= k < |steps[1..]| && steps[1..][k].DoCancel?;
            assert steps[k + 1].DoCancel?;
          }
        }
      } else {
        EndedForever(t, steps[1..], setup, x, Cancels(steps));
        RunKeepsOrder(t, steps[1..], setup);
      }
    }
  }

  lemma {:induction false} RunKeepsOrder(s: Service, steps: seq<Step>, setup: Setup)
    requires Inv(s, setup)
    ensures var t := Run(s, steps, setup); |s.order| <= |t.order| && t.order[..|s.order|] == s.order
    decreases |steps|
  {
    if steps != [] {
      var t := Next(s, steps[0], setup);
      StepKeepsInv(s, steps[0], setup);
      OrderGrows(s, steps[0], setup);
      RunKeepsOrder(t, steps[1..], setup);
      var u := Run(t, steps[1..], setup);
      assert u.order[..|s.order|] == u.order[..|t.order|][..|s.order|];
    }
  }

  /** The next pass blocks a job with a failed dependency and records which one. */
  lemma PassBlocksFailed(s: Service, env: Env, setup: Setup, x: TaskId, d: TaskId)
    requires Inv(s, setup) && Unsettled(s, x) && d in s.records[x].dependsOn && Failed(s.records, d)
    ensures var t := Schedule(s, env).svc;
      && x in t.jobs && t.jobs[x].result == Some(Blocked) && !t.jobs[x].launched
      && x in t.records && t.records[x].status == Blocked && d in t.records[x].blockedBy
  {
    PassIsVisitable(s);
    FailedDependencyBlocks(FirstPass(s), PendingOrder(s, s.order), env, x, d);
  }

  // ---------------------------------------------------------------- fairness and queue positions

  lemma SortedIndices(s: Service, ids: seq<TaskId>, x: TaskId, y: TaskId) returns (i: nat, j: nat)
    requires Sorted(s, ids) && x in ids && y in ids && Before(s, x, y)
    ensures i < j < |ids| && ids[i] == x && ids[j] == y
  {
    i :| i < |ids| && ids[i] == x;
    j :| j < |ids| && ids[j] == y;
  }

  lemma VisitsAreFair(p: Pass, ids: seq<TaskId>, env: Env, x: TaskId, y: TaskId)
    requires ValidEnv(env) && Visitable(p, ids) && Sorted(p.svc, ids) && x in ids && y in ids
    requires y in LaunchedIn(p, ids, env) && Runnable(p.svc, x, env) && Before(p.svc, x, y)
    requires SameResources(p.svc.jobs[x].spec, p.svc.jobs[y].spec)
    ensures x in LaunchedIn(p, ids, env)
  {
    var i, j := SortedIndices(p.svc, ids, x, y);
    NobodyIsPassedOver(p, ids, env, i, j);
  }

  /** No passing over, for the pass as a whole: if `y` is launched, every runnable `x` that comes before it and
      needs the same workspace, provider and profile is launched as well. */
  lemma PassIsFair(s: Service, env: Env, setup: Setup, x: TaskId, y: TaskId)
    requires Inv(s, setup) && ValidEnv(env) && y in s.jobs
    requires y in Launched(s, env) && Runnable(s, x, env) && Before(s, x, y)
    requires SameResources(s.jobs[x].spec, s.jobs[y].spec)
    ensures x in Launched(s, env)
  {
    PassIsVisitable(s);
    PendingOrderIsSorted(s, s.order);
    LaunchesAreDistinct(FirstPass(s), PendingOrder(s, s.order), env);
    VisitsAreFair(FirstPass(s), PendingOrder(s, s.order), env, x, y);
  }

  function Queue(s: Service, env: Env): seq<TaskId>
    requires forall x :: x in s.order ==> x in s.jobs
  {
    QueuedIn(FirstPass(s), PendingOrder(s, s.order), env)
  }

  /** The launches and the queue spoken of here are those of the pass itself. */
  lemma PassKeepsBooks(s: Service, env: Env)
    requires WellOrdered(s)
    ensures Schedule(s, env).launched == Launched(s, env)
    ensures Schedule(s, env).queue == Queue(s, env)
  {
    VisitAllBooks(FirstPass(s), PendingOrder(s, s.order), env);
  }

  /** After a pass the jobs still pending are exactly its queue. */
  lemma QueueIsWhatIsLeft(s: Service, env: Env, setup: Setup, x: TaskId)
    requires Inv(s, setup) && x in s.jobs
    ensures x in Schedule(s, env).svc.jobs
    ensures x in Queue(s, env) <==> Pending(Schedule(s, env).svc.jobs[x])
  {
    var p, ids := FirstPass(s), PendingOrder(s, s.order);
    PassIsVisitable(s);
    PassJobByJob(s, env, x);
    QueuedAreVisited(p, ids, env);
    if x in ids {
      VisitAllOutcome(p, ids, env, x);
    }
  }

  /** Launches and queue are in order of urgency, by what jobs and records said when the pass began. */
  lemma PassIsByPriority(s: Service, env: Env)
    requires WellOrdered(s)
    ensures var ids := Schedule(s, env).launched;
      && (forall x :: x in ids ==> x in s.jobs)
      && (forall i, j :: 0 <= i < j < |ids| ==> RightlyFirst(s, ids[i], ids[j]))
    ensures var ids := Schedule(s, env).queue;
      && (forall x :: x in ids ==> x in s.jobs)
      && (forall i, j :: 0 <= i < j < |ids| ==> RightlyFirst(s, ids[i], ids[j]))
  {
    var launched, queue := Launched(s, env), Queue(s, env);
    PassKeepsBooks(s, env);
    QueueIsSorted(s, env);
    PendingOrderIsSorted(s, s.order);
    LaunchedInOrder(s, FirstPass(s), PendingOrder(s, s.order), env);
    forall i, j | 0 <= i < j < |launched| ensures RightlyFirst(s, launched[i], launched[j]) {
      SortedIsRight(s, launched, i, j);
    }
    forall i, j | 0 <= i < j < |queue| ensures RightlyFirst(s, queue[i], queue[j]) {
      SortedIsRight(s, queue, i, j);
    }
  }

  /** No launched job passes over a more urgent one: of two that need the same workspace, provider and profile, if the
      less urgent is launched and the more urgent could run, that one is launched as well. */
  lemma UrgentJobsAreNotPassedOver(s: Service, env: Env, setup: Setup, x: TaskId, y: TaskId)
    requires Inv(s, setup) && ValidEnv(env) && x != y && y in s.jobs && y in Schedule(s, env).launched
    requires Runnable(s, x, env) && RightlyFirst(s, x, y) && SameResources(s.jobs[x].spec, s.jobs[y].spec)
    ensures x in Schedule(s, env).launched
  {
    PassKeepsBooks(s, env);
    PassIsVisitable(s);
    LaunchesAreDistinct(FirstPass(s), PendingOrder(s, s.order), env);
    PassIsFair(s, env, setup, x, y);
  }

  /** The queue is in scheduling order. */
  lemma QueueIsSorted(s: Service, env: Env)
    requires WellOrdered(s)
    ensures Sorted(s, Queue(s, env))
  {
    PendingOrderIsSorted(s, s.order);
    QueuedInOrder(s, FirstPass(s), PendingOrder(s, s.order), env);
  }

  lemma PendingAreUnsettled(s: Service)
    requires WellOrdered(s) && PendingOpen(s)
    ensures forall x :: x in PendingOrder(s, s.order) ==> Unsettled(s, x)
  {
  }

  lemma FirstPositions(p: Pass, ids: seq<TaskId>, env: Env, k: nat)
    requires p.queue == [] && Visitable(p, ids) && k < |QueuedIn(p, ids, env)|
    requires forall x :: x in ids ==> Unsettled(p.svc, x)
    ensures HasPosition(VisitAll(p, ids, env).svc, QueuedIn(p, ids, env)[k], k + 1)
  {
    QueuePositions(p, ids, env, k);
  }

  /** Its k-th job is recorded at position k + 1. */
  lemma QueueIsNumbered(s: Service, env: Env, k: nat)
    requires WellOrdered(s) && SlotsAreLaunched(s) && PendingOpen(s) && k < |Queue(s, env)|
    ensures HasPosition(Schedule(s, env).svc, Queue(s, env)[k], k + 1)
  {
    PassIsVisitable(s);
    PendingAreUnsettled(s);
    FirstPositions(FirstPass(s), PendingOrder(s, s.order), env, k);
  }
}
