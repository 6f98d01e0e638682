/** Runs of the scheduler: every interleaving of submissions, passes, worker progress, cancellations, garbage
    collection and other processes, and what stays true in all of them. */
module SchedulerRuns {
  import opened Wrappers
  import opened Scheduler
  import opened SchedulerPass
  import Slots = Reservations

  /** `DoPublish` stores a terminal status for a launched job, `DoFinish` completes its future and `DoRelease` is
      the finished future's callback; `DoRenew` is the heartbeat of a running job, which tells a job that has lost
      its slot to stop; the `Foreign` steps are other processes. */
  datatype Step =
    | DoSubmit(id: TaskId, spec: JobSpec, deps: seq<TaskId>, startedAt: nat)
    | DoPass(env: Env)
    | DoProgress(id: TaskId, status: Status)
    | DoPublish(id: TaskId, status: Status)
    | DoFinish(id: TaskId)
    | DoRelease(id: TaskId)
    | DoRenew(id: TaskId, ttl: int, now: Instant)
    | DoCancel(id: TaskId, stopped: bool)
    | DoForget(id: TaskId)
    | DoForeignRecord(id: TaskId, record: Record)
    | DoForeignSlots(slots: Slots.Table)

  /** The service's identity and configuration, fixed for a run. */
  datatype Setup = Setup(owner: string, limits: map<string, Slots.Limits>)

  /** Ids are generated unique: no record, slot or dependency mentions a fresh one. */
  predicate FreshId(s: Service, id: TaskId) {
    && id !in s.jobs && id !in s.records && id !in s.slots
    && forall x :: x in s.jobs && x in s.records ==> id !in s.records[x].dependsOn
  }

  /** A published status is final, except that quality gates may still turn success into `failed_gate`. */
  predicate CanBecome(was: Status, now: Status) {
    !Terminal(was) || was == now || (was.Success? && now.FailedGate?)
  }

  predicate Enabled(s: Service, step: Step, setup: Setup) {
    match step
    case DoSubmit(id, _, _, _) => FreshId(s, id)
    case DoPass(env) => env.owner == setup.owner && env.limits == setup.limits && ValidPass(env)
    case DoProgress(id, status) =>
      id in s.jobs && Active(s.jobs[id]) && id in s.records && !Terminal(s.records[id].status) && !Terminal(status)
    case DoPublish(id, status) =>
      && id in s.jobs && Active(s.jobs[id]) && id in s.records
      && CanBecome(s.records[id].status, status) && Terminal(status)
    case DoFinish(id) =>
      id in s.jobs && Active(s.jobs[id]) && (id in s.records ==> Terminal(s.records[id].status))
    case DoRelease(id) => true
    case DoRenew(id, ttl, _) => id in s.jobs && Active(s.jobs[id]) && ttl > 0
    case DoCancel(id, _) => true
    case DoForget(id) => id in s.records && Terminal(s.records[id].status)
    case DoForeignRecord(id, record) =>
      id !in s.jobs && if id in s.records then CanBecome(s.records[id].status, record.status) else FreshId(s, id)
    case DoForeignSlots(slots) => forall t :: t in slots && t in s.jobs ==> t in s.slots && slots[t] == s.slots[t]
  }

  predicate ValidPass(env: Env) {
    env.ttl > 0
  }

  function SetStatus(s: Service, id: TaskId, status: Status): Service
    requires id in s.records
  {
    s.(records := s.records[id := s.records[id].(status := status)])
  }

  /** A step that is not enabled does nothing. */
  ghost function Next(s: Service, step: Step, setup: Setup): (t: Service)
    requires WellOrdered(s)
    ensures WellOrdered(t)
  {
    if !Enabled(s, step, setup) then s else
      match step
      case DoSubmit(id, spec, deps, startedAt) =>
        SubmitKeepsOrder(s, id, spec, deps, startedAt);
        Submit(s, id, spec, deps, startedAt)
      case DoPass(env) => ScheduleKeepsOrder(s, env); Schedule(s, env).svc
      case DoProgress(id, status) => SetStatus(s, id, status)
      case DoPublish(id, status) => SetStatus(s, id, status)
      case DoFinish(id) => s.(jobs := s.jobs[id := s.jobs[id].(done := true)])
      case DoRelease(id) => s.(slots := Slots.Release(s.slots, id, setup.owner))
      case DoRenew(id, ttl, now) =>
        if Slots.Renewable(s.slots, id, setup.owner, now)
        then s.(slots := Slots.Renew(s.slots, id, setup.owner, now + ttl, now))
        else s.(jobs := s.jobs[id := s.jobs[id].(cancelRequested := true)])
      case DoCancel(id, stopped) => Cancel(s, id, stopped)
      case DoForget(id) => s.(records := s.records - {id})
      case DoForeignRecord(id, record) => s.(records := s.records[id := record])
      case DoForeignSlots(slots) => s.(slots := slots)
  }

  ghost function Run(s: Service, steps: seq<Step>, setup: Setup): (t: Service)
    requires WellOrdered(s)
    ensures WellOrdered(t)
    decreases |steps|
  {
    if steps == [] then s else Run(Next(s, steps[0], setup), steps[1..], setup)
  }

  // ---------------------------------------------------------------- what a pass starts from

  lemma PassIsVisitable(s: Service)
    requires WellOrdered(s) && SlotsAreLaunched(s)
    ensures Visitable(FirstPass(s), PendingOrder(s, s.order))
  {
    PendingOrderIsSorted(s, s.order);
  }

  /** Even without the other invariants a pass keeps the job list. */
  lemma ScheduleKeepsOrder(s: Service, env: Env)
    requires WellOrdered(s)
    ensures WellOrdered(Schedule(s, env).svc)
  {
    VisitAllKeepsOrder(FirstPass(s), PendingOrder(s, s.order), env);
  }

  lemma {:induction false} VisitAllKeepsOrder(p: Pass, ids: seq<TaskId>, env: Env)
    requires Covers(p, ids)
    ensures VisitAll(p, ids, env).svc.order == p.svc.order
    ensures VisitAll(p, ids, env).svc.jobs.Keys == p.svc.jobs.Keys
    decreases |ids|
  {
    if ids != [] {
      ConsiderFrame(p, ids[0], env);
      VisitAllKeepsOrder(Consider(p, ids[0], env), ids[1..], env);
    }
  }

  // ---------------------------------------------------------------- invariant

  ghost predicate PendingOpen(s: Service) {
    forall x :: x in s.jobs && Pending(s.jobs[x]) ==> x in s.records && !Terminal(s.records[x].status)
  }

  /** A job of this service depends, within the service, only on jobs submitted before it. */
  ghost predicate Acyclic(s: Service) {
    forall i, d :: 0 <= i < |s.order| && s.order[i] in s.records && d in s.records[s.order[i]].dependsOn && d in s.jobs
      ==> d in s.order[..i]
  }

  ghost predicate SlotsOurs(s: Service, owner: string) {
    forall t :: t in s.slots && t in s.jobs ==> s.jobs[t].launched && s.slots[t].owner == owner
  }

  ghost predicate JobRecorded(s: Service, x: TaskId)
    requires x in s.jobs
  {
    var job := s.jobs[x];
    && (job.result.Some? ==>
          (Terminal(job.result.value) && !job.result.value.Success? && !Active(job)
            && (x in s.records ==> s.records[x].status == job.result.value)))
    && (job.done ==> job.launched && (x in s.records ==> Terminal(s.records[x].status)))
  }

  ghost predicate ResultsRecorded(s: Service) {
    forall x :: x in s.jobs ==> JobRecorded(s, x)
  }

  ghost predicate Inv(s: Service, setup: Setup) {
    && WellOrdered(s) && PendingOpen(s) && Acyclic(s) && SlotsOurs(s, setup.owner) && ResultsRecorded(s)
    && WithinQuotas(s, setup.limits)
  }

  /** The pass step, seen job by job: what a job was decides what it can be afterwards. */
  ghost predicate PassEffect(s: Service, t: Service, x: TaskId, launched: bool)
    requires x in s.jobs && x in t.jobs
  {
    if !Pending(s.jobs[x]) then
      && t.jobs[x] == s.jobs[x] && !launched
      && (x in s.records ==> x in t.records && t.records[x] == s.records[x])
    else
      && x in t.records
      && (launched ==> t.jobs[x] == s.jobs[x].(launched := true) && t.records[x].status == Routing)
      && (!launched ==>
            ((t.jobs[x] == s.jobs[x] && t.records[x].status == Queued)
              || (t.jobs[x] == s.jobs[x].(result := Some(Blocked)) && t.records[x].status == Blocked)
              || (t.jobs[x] == s.jobs[x].(result := Some(BudgetExceeded)) && t.records[x].status == BudgetExceeded)))
  }

  function Launched(s: Service, env: Env): seq<TaskId>
    requires forall x :: x in s.order ==> x in s.jobs
  {
    LaunchedIn(FirstPass(s), PendingOrder(s, s.order), env)
  }

  lemma PassJobByJob(s: Service, env: Env, x: TaskId)
    requires WellOrdered(s) && SlotsAreLaunched(s) && PendingOpen(s) && x in s.jobs
    ensures x in Schedule(s, env).svc.jobs
    ensures PassEffect(s, Schedule(s, env).svc, x, x in Launched(s, env))
  {
    var p, ids := FirstPass(s), PendingOrder(s, s.order);
    PassIsVisitable(s);
    LaunchesAreDistinct(p, ids, env);
    VisitAllFrame(p, ids, env);
    if x in ids {
      VisitAllOutcome(p, ids, env, x);
    }
  }

  lemma PassFrame(s: Service, env: Env)
    requires WellOrdered(s) && SlotsAreLaunched(s)
    ensures SameShape(s, Schedule(s, env).svc)
    ensures forall x :: x in s.records && (x !in s.jobs || Terminal(s.records[x].status)) ==>
      Schedule(s, env).svc.records[x] == s.records[x]
  {
    PassIsVisitable(s);
    VisitAllKeepsShape(FirstPass(s), PendingOrder(s, s.order), env);
    VisitAllFrame(FirstPass(s), PendingOrder(s, s.order), env);
  }

  // ---------------------------------------------------------------- the other steps, seen job by job

  /** What a step other than a submission or a pass may do to a job and its record. */
  ghost predicate QuietEffect(s: Service, t: Service, x: TaskId)
    requires x in s.jobs && x in t.jobs
  {
    var a, b := s.jobs[x], t.jobs[x];
    && b.spec == a.spec && b.launched == a.launched && (a.done ==> b.done)
    && (b.done && !a.done ==> a.launched && (x in t.records ==> Terminal(t.records[x].status)))
    && (b.result == a.result
        || (a.result.None? && b.result == Some(Cancelled) && (b.launched ==> b.done)
              && x in t.records && t.records[x].status == Cancelled))
    && (x in t.records ==> x in s.records && t.records[x].dependsOn == s.records[x].dependsOn
                           && CanBecome(s.records[x].status, t.records[x].status))
    && (x in s.records && x !in t.records ==> Terminal(s.records[x].status))
    && (x in t.records && (Pending(b) || a.result.Some? || a.done) ==> t.records[x] == s.records[x])
  }

  ghost predicate Quiet(s: Service, t: Service) {
    && t.order == s.order && t.jobs.Keys == s.jobs.Keys
    && (forall x :: x in s.jobs ==> QuietEffect(s, t, x))
    && (forall r :: r in t.slots && r in s.jobs ==> r in s.slots && t.slots[r].owner == s.slots[r].owner)
  }

  ghost predicate SameResults(s: Service, t: Service) {
    forall x :: x in s.jobs && x in t.jobs ==> t.jobs[x].result == s.jobs[x].result
  }

  lemma CancelIsQuiet(s: Service, id: TaskId, stopped: bool)
    requires ResultsRecorded(s)
    ensures Quiet(s, Cancel(s, id, stopped))
  {
    if Cancellable(s, id) {
      OwnCancelIsQuiet(s, id, stopped);
    } else {
      OthersCancelIsQuiet(s, id, stopped);
    }
  }

  lemma OwnCancelIsQuiet(s: Service, id: TaskId, stopped: bool)
    requires ResultsRecorded(s) && Cancellable(s, id)
    ensures Quiet(s, Cancel(s, id, stopped))
  {
    var t := Cancel(s, id, stopped);
    forall x | x in s.jobs
      ensures QuietEffect(s, t, x)
    {
      assert JobRecorded(s, x);
    }
  }

  lemma OthersCancelIsQuiet(s: Service, id: TaskId, stopped: bool)
    requires !Cancellable(s, id)
    ensures Quiet(s, Cancel(s, id, stopped))
  {
  }

  lemma ProgressIsQuiet(s: Service, id: TaskId, status: Status)
    requires ResultsRecorded(s) && id in s.jobs && Active(s.jobs[id]) && id in s.records
    requires CanBecome(s.records[id].status, status)
    ensures Quiet(s, SetStatus(s, id, status))
  {
    var t := SetStatus(s, id, status);
    forall x | x in s.jobs
      ensures QuietEffect(s, t, x)
    {
      assert JobRecorded(s, x);
    }
  }

  lemma FinishIsQuiet(s: Service, id: TaskId)
    requires ResultsRecorded(s) && id in s.jobs && Active(s.jobs[id])
    requires id in s.records ==> Terminal(s.records[id].status)
    ensures Quiet(s, s.(jobs := s.jobs[id := s.jobs[id].(done := true)]))
  {
    var t := s.(jobs := s.jobs[id := s.jobs[id].(done := true)]);
    forall x | x in s.jobs
      ensures QuietEffect(s, t, x)
    {
      assert JobRecorded(s, x);
    }
  }

  lemma RenewIsQuiet(s: Service, id: TaskId, ttl: int, now: Instant, setup: Setup)
    requires WellOrdered(s) && ResultsRecorded(s)
    ensures var t := Next(s, DoRenew(id, ttl, now), setup); Quiet(s, t) && SameResults(s, t)
  {
    if Enabled(s, DoRenew(id, ttl, now), setup) {
      if Slots.Renewable(s.slots, id, setup.owner, now) {
        SlotsAreQuiet(s, Slots.Renew(s.slots, id, setup.owner, now + ttl, now));
      } else {
        TellingIsQuiet(s, id);
      }
    } else {
      NothingIsQuiet(s);
    }
  }

  lemma SlotsAreQuiet(s: Service, slots: Slots.Table)
    requires forall r :: r in slots && r in s.jobs ==> r in s.slots && slots[r].owner == s.slots[r].owner
    ensures Quiet(s, s.(slots := slots)) && SameResults(s, s.(slots := slots))
  {
  }

  lemma TellingIsQuiet(s: Service, id: TaskId)
    requires id in s.jobs
    ensures var t := s.(jobs := s.jobs[id := s.jobs[id].(cancelRequested := true)]); Quiet(s, t) && SameResults(s, t)
  {
  }

  lemma NothingIsQuiet(s: Service)
    ensures Quiet(s, s) && SameResults(s, s)
  {
  }

  lemma WorkerStepsAreQuiet(s: Service, step: Step, setup: Setup)
    requires WellOrdered(s) && ResultsRecorded(s)
    requires step.DoProgress? || step.DoPublish? || step.DoFinish?
    ensures Quiet(s, Next(s, step, setup)) && SameResults(s, Next(s, step, setup))
  {
    if Enabled(s, step, setup) {
      match step
      case DoProgress(id, status) => ProgressIsQuiet(s, id, status);
      case DoPublish(id, status) => ProgressIsQuiet(s, id, status);
      case DoFinish(id) => FinishIsQuiet(s, id);
    } else {
      NothingIsQuiet(s);
    }
  }

  lemma OutsideStepsAreQuiet(s: Service, step: Step, setup: Setup)
    requires WellOrdered(s) && ResultsRecorded(s)
    requires step.DoRelease? || step.DoForget? || step.DoForeignRecord? || step.DoForeignSlots?
    ensures Quiet(s, Next(s, step, setup)) && SameResults(s, Next(s, step, setup))
  {
    if !Enabled(s, step, setup) {
      NothingIsQuiet(s);
    } else {
      match step
      case DoRelease(id) => SlotsAreQuiet(s, Slots.Release(s.slots, id, setup.owner));
      case DoForeignSlots(slots) => SlotsAreQuiet(s, slots);
      case DoForget(id) => ForgettingIsQuiet(s, id);
      case DoForeignRecord(id, record) => ForeignRecordsAreQuiet(s, id, record);
    }
  }

  lemma ForgettingIsQuiet(s: Service, id: TaskId)
    requires ResultsRecorded(s) && id in s.records && Terminal(s.records[id].status)
    ensures var t := s.(records := s.records - {id}); Quiet(s, t) && SameResults(s, t)
  {
    var t := s.(records := s.records - {id});
    forall x | x in s.jobs
      ensures QuietEffect(s, t, x)
    {
      assert JobRecorded(s, x);
    }
  }

  lemma ForeignRecordsAreQuiet(s: Service, id: TaskId, record: Record)
    requires id !in s.jobs
    ensures var t := s.(records := s.records[id := record]); Quiet(s, t) && SameResults(s, t)
  {
  }

  lemma QuietStep(s: Service, step: Step, setup: Setup)
    requires WellOrdered(s) && ResultsRecorded(s) && !step.DoSubmit? && !step.DoPass?
    ensures Quiet(s, Next(s, step, setup))
    ensures !step.DoCancel? ==> SameResults(s, Next(s, step, setup))
  {
    if step.DoCancel? {
      CancelIsQuiet(s, step.id, step.stopped);
    } else if step.DoRenew? {
      RenewIsQuiet(s, step.id, step.ttl, step.now, setup);
    } else if step.DoProgress? || step.DoPublish? || step.DoFinish? {
      WorkerStepsAreQuiet(s, step, setup);
    } else {
      OutsideStepsAreQuiet(s, step, setup);
    }
  }

  /** Quiet steps keep the invariant. */
  lemma QuietKeepsInv(s: Service, t: Service, setup: Setup)
    requires Inv(s, setup) && Quiet(s, t)
    ensures Inv(t, setup)
  {
    forall x | x in t.jobs
      ensures JobRecorded(t, x)
      ensures Pending(t.jobs[x]) ==> x in t.records && !Terminal(t.records[x].status)
    {
      assert JobRecorded(s, x) && QuietEffect(s, t, x);
    }
    QuietKeepsAcyclic(s, t);
    QuietKeepsQuotas(s, t, setup.limits);
    forall r | r in t.slots && r in t.jobs
      ensures t.jobs[r].launched && t.slots[r].owner == setup.owner
    {
      assert QuietEffect(s, t, r);
    }
  }

  lemma QuietKeepsAcyclic(s: Service, t: Service)
    requires Acyclic(s) && WellOrdered(s) && Quiet(s, t)
    ensures Acyclic(t)
  {
    forall x | x in s.jobs && x in t.records
      ensures x in s.records && t.records[x].dependsOn == s.records[x].dependsOn
    {
      assert QuietEffect(s, t, x);
    }
    KeptDepsStayAcyclic(s, t);
  }

  lemma QuietKeepsQuotas(s: Service, t: Service, limits: map<string, Slots.Limits>)
    requires WithinQuotas(s, limits) && Quiet(s, t)
    ensures WithinQuotas(t, limits)
  {
    forall q | LimitOf(limits, q).Some?
      ensures |ActiveOf(t, q)| <= LimitOf(limits, q).value
    {
      forall x | x in ActiveOf(t, q)
        ensures x in ActiveOf(s, q)
      {
        assert QuietEffect(s, t, x);
      }
      SubsetSize(ActiveOf(t, q), ActiveOf(s, q));
    }
  }

  /** Steps other than submissions keep the dependency lists of the service's own jobs. */
  ghost predicate KeepsDeps(s: Service, t: Service) {
    && t.order == s.order && t.jobs.Keys == s.jobs.Keys
    && (forall x :: x in s.jobs && x in t.records ==>
          x in s.records && t.records[x].dependsOn == s.records[x].dependsOn)
  }

  lemma KeptDepsStayAcyclic(s: Service, t: Service)
    requires Acyclic(s) && WellOrdered(s) && KeepsDeps(s, t)
    ensures Acyclic(t)
  {
    forall i, d | 0 <= i < |t.order| && t.order[i] in t.records && d in t.records[t.order[i]].dependsOn && d in t.jobs
      ensures d in t.order[..i]
    {
      assert t.order[i] in s.jobs;
    }
  }

  // ---------------------------------------------------------------- passes and submissions keep the invariant

  lemma PassKeepsPendingOpen(s: Service, env: Env)
    requires WellOrdered(s) && SlotsAreLaunched(s) && PendingOpen(s)
    ensures PendingOpen(Schedule(s, env).svc)
  {
    PassFrame(s, env);
    forall x | x in s.jobs && Pending(Schedule(s, env).svc.jobs[x])
      ensures x in Schedule(s, env).svc.records && !Terminal(Schedule(s, env).svc.records[x].status)
    {
      PassJobByJob(s, env, x);
    }
  }

  lemma SubmitKeepsAcyclic(s: Service, id: TaskId, spec: JobSpec, deps: seq<TaskId>, startedAt: nat)
    requires WellOrdered(s) && Acyclic(s) && FreshId(s, id)
    ensures Acyclic(Submit(s, id, spec, deps, startedAt))
  {
    var t := Submit(s, id, spec, deps, startedAt);
    if SubmitFault(s, spec, deps).None? {
      forall i, d | 0 <= i < |t.order| && t.order[i] in t.records && d in t.records[t.order[i]].dependsOn && d in t.jobs
        ensures d in t.order[..i]
      {
        if i < |s.order| {
          assert t.order[i] == s.order[i] && t.order[..i] == s.order[..i];
          assert t.order[i] in s.jobs;
        } else {
          assert t.order[..i] == s.order;
          assert d in s.records;
        }
      }
    }
  }

  lemma PassKeepsSlotsOurs(s: Service, env: Env)
    requires WellOrdered(s) && PendingOpen(s) && SlotsOurs(s, env.owner)
    ensures SlotsOurs(Schedule(s, env).svc, env.owner)
  {
    var p, ids, t := FirstPass(s), PendingOrder(s, s.order), Schedule(s, env).svc;
    PassIsVisitable(s);
    PassFrame(s, env);
    forall x | x in t.slots && x in t.jobs
      ensures t.jobs[x].launched && t.slots[x].owner == env.owner
    {
      SlotsOfPass(p, ids, env, x);
      PassJobByJob(s, env, x);
    }
  }

  lemma PassKeepsResultsRecorded(s: Service, env: Env)
    requires WellOrdered(s) && SlotsAreLaunched(s) && PendingOpen(s) && ResultsRecorded(s)
    ensures ResultsRecorded(Schedule(s, env).svc)
  {
    PassFrame(s, env);
    forall x | x in s.jobs
      ensures JobRecorded(Schedule(s, env).svc, x)
    {
      PassJobByJob(s, env, x);
      assert JobRecorded(s, x);
    }
  }

  lemma PassKeepsQuotas(s: Service, env: Env)
    requires WellOrdered(s) && SlotsAreLaunched(s) && ResultsRecorded(s) && WithinQuotas(s, env.limits)
    ensures WithinQuotas(Schedule(s, env).svc, env.limits)
  {
    PassIsVisitable(s);
    FirstPassCountsActive(s);
    forall x | x in PendingOrder(s, s.order)
      ensures !s.jobs[x].done
    {
      assert JobRecorded(s, x);
    }
    VisitAllKeepsQuotas(FirstPass(s), PendingOrder(s, s.order), env);
  }

  lemma PassKeepsInv(s: Service, env: Env, setup: Setup)
    requires Inv(s, setup) && env.owner == setup.owner && env.limits == setup.limits
    ensures Inv(Schedule(s, env).svc, setup)
  {
    ScheduleKeepsOrder(s, env);
    PassKeepsPendingOpen(s, env);
    PassFrame(s, env);
    KeptDepsStayAcyclic(s, Schedule(s, env).svc);
    PassKeepsSlotsOurs(s, env);
    PassKeepsResultsRecorded(s, env);
    PassKeepsQuotas(s, env);
  }

  lemma SubmitKeepsInv(s: Service, id: TaskId, spec: JobSpec, deps: seq<TaskId>, startedAt: nat, setup: Setup)
    requires Inv(s, setup) && FreshId(s, id)
    ensures Inv(Submit(s, id, spec, deps, startedAt), setup)
  {
    SubmitKeepsOrder(s, id, spec, deps, startedAt);
    SubmitKeepsAcyclic(s, id, spec, deps, startedAt);
    SubmitKeepsResults(s, id, spec, deps, startedAt);
    SubmitKeepsQuotas(s, id, spec, deps, startedAt, setup.limits);
  }

  lemma SubmitKeepsResults(s: Service, id: TaskId, spec: JobSpec, deps: seq<TaskId>, startedAt: nat)
    requires ResultsRecorded(s) && FreshId(s, id)
    ensures ResultsRecorded(Submit(s, id, spec, deps, startedAt))
  {
    var t := Submit(s, id, spec, deps, startedAt);
    forall x | x in t.jobs
      ensures JobRecorded(t, x)
    {
      assert x in s.jobs ==> JobRecorded(s, x);
    }
  }

  lemma SubmitKeepsQuotas(s: Service, id: TaskId, spec: JobSpec, deps: seq<TaskId>, startedAt: nat,
                          limits: map<string, Slots.Limits>)
    requires WithinQuotas(s, limits) && FreshId(s, id)
    ensures WithinQuotas(Submit(s, id, spec, deps, startedAt), limits)
  {
    var t := Submit(s, id, spec, deps, startedAt);
    forall q | LimitOf(limits, q).Some?
      ensures |ActiveOf(t, q)| <= LimitOf(limits, q).value
    {
      assert ActiveOf(t, q) == ActiveOf(s, q);
    }
  }

  lemma StepKeepsInv(s: Service, step: Step, setup: Setup)
    requires Inv(s, setup)
    ensures Inv(Next(s, step, setup), setup)
  {
    if step.DoPass? {
      if Enabled(s, step, setup) {
        PassKeepsInv(s, step.env, setup);
      }
    } else if step.DoSubmit? {
      if Enabled(s, step, setup) {
        SubmitKeepsInv(s, step.id, step.spec, step.deps, step.startedAt, setup);
      }
    } else {
      QuietStep(s, step, setup);
      QuietKeepsInv(s, Next(s, step, setup), setup);
    }
  }

  lemma {:induction false} InvHoldsInEveryRun(s: Service, steps: seq<Step>, setup: Setup)
    requires Inv(s, setup)
    ensures Inv(Run(s, steps, setup), setup)
    decreases |steps|
  {
    if steps != [] {
      StepKeepsInv(s, steps[0], setup);
      InvHoldsInEveryRun(Next(s, steps[0], setup), steps[1..], setup);
    }
  }

  /** In every run, no pass meets an exception of the slot store: at its k-th visit the store answers if asked. */
  lemma NoPassRaises(s: Service, steps: seq<Step>, setup: Setup, env: Env, k: nat)
    requires Inv(s, setup) && ValidPass(env)
    requires var w := Run(s, steps, setup); k < |PendingOrder(w, w.order)|
    ensures var w := Run(s, steps, setup);
      var ids := PendingOrder(w, w.order);
      var p := VisitAll(FirstPass(w), ids[..k], env);
      ids[k] in p.svc.jobs && (Asks(p, ids[k], env) ==> Answered(p, ids[k], env))
  {
    InvHoldsInEveryRun(s, steps, setup);
    var w := Run(s, steps, setup);
    PassIsVisitable(w);
    VisitsNeverRaise(FirstPass(w), PendingOrder(w, w.order), env, k);
  }

  /** What runs leave open: cancelling and releasing anything, renewing any running job, and of other processes new
      records, gates that reject a success, and slots for jobs that are not of this service. */
  lemma RunsAllow(s: Service, id: TaskId, stopped: bool, ttl: int, now: Instant, record: Record, slots: Slots.Table,
                  setup: Setup)
    ensures Enabled(s, DoCancel(id, stopped), setup) && Enabled(s, DoRelease(id), setup)
    ensures id in s.jobs && Active(s.jobs[id]) && ttl == 1 ==> Enabled(s, DoRenew(id, ttl, now), setup)
    ensures id !in s.jobs && id in s.records && s.records[id].status == Success && record.status == FailedGate ==>
      Enabled(s, DoForeignRecord(id, record), setup)
    ensures id !in s.jobs && id in s.records && record.status == s.records[id].status ==>
      Enabled(s, DoForeignRecord(id, record), setup)
    ensures FreshId(s, id) ==> Enabled(s, DoForeignRecord(id, record), setup)
    ensures (forall t :: t in slots ==> t !in s.jobs) ==> Enabled(s, DoForeignSlots(slots), setup)
  {
  }

  /** A new service, whatever other processes have already stored. */
  lemma FreshServiceIsFine(records: Records, slots: Slots.Table, setup: Setup)
    requires Slots.ValidLimits(setup.limits)
    ensures Inv(Service(map[], [], records, slots), setup)
  {
    forall q | LimitOf(setup.limits, q).Some?
      ensures |ActiveOf(Service(map[], [], records, slots), q)| <= LimitOf(setup.limits, q).value
    {
      assert ActiveOf(Service(map[], [], records, slots), q) == {};
    }
  }
}
