/** What single calls and visits of the scheduler come to, said of records, specifications and configuration alone. */
module SchedulerCalls {
  import opened Wrappers
  import opened Scheduler
  import opened SchedulerPass
  import opened SchedulerRuns
  import opened SchedulerSafety
  import Slots = Reservations

  // ---------------------------------------------------------------- submitting

  /** Task `d` is on record as an asynchronous task of this workspace. */
  predicate Resolves(s: Service, workspace: string, d: TaskId) {
    d in s.records && s.records[d].workspace == workspace && s.records[d].isAsync
  }

  /** When a submission is accepted, and what it is refused for otherwise: the first of four things wrong. */
  lemma SubmitsExactlyWhen(s: Service, spec: JobSpec, deps: seq<TaskId>)
    ensures var repeated := exists i, j :: 0 <= i < j < |deps| && deps[i] == deps[j];
      var priority := spec.priority < -100 || spec.priority > 100;
      var inheritance := spec.inheritFrom != None && spec.inheritFrom.value !in deps;
      var unresolved := exists d :: d in deps && !Resolves(s, spec.workspace, d);
      SubmitFault(s, spec, deps)
      == if repeated then Some(DuplicateDependency)
         else if priority then Some(BadPriority)
         else if inheritance then Some(BadInheritance)
         else if unresolved then Some(BadDependency)
         else None
  {
    forall d | d in deps
      ensures Resolves(s, spec.workspace, d)
          <==> d in s.records && s.records[d].workspace == spec.workspace && s.records[d].isAsync
    {
    }
  }

  /** An accepted task is on record and last in the list of jobs: routing if it depends on nothing, and queued if
      not. */
  lemma SubmittedTasksAreOnRecord(s: Service, id: TaskId, spec: JobSpec, deps: seq<TaskId>, startedAt: nat)
    requires id !in s.jobs && id !in s.records
    ensures SubmitFault(s, spec, deps) != None ==> Submit(s, id, spec, deps, startedAt) == s
    ensures SubmitFault(s, spec, deps) == None ==>
      var t := Submit(s, id, spec, deps, startedAt);
      && t.order == s.order + [id] && t.slots == s.slots
      && t.jobs.Keys == s.jobs.Keys + {id} && t.records.Keys == s.records.Keys + {id}
      && (forall x :: x in s.jobs ==> t.jobs[x] == s.jobs[x])
      && (forall x :: x in s.records ==> t.records[x] == s.records[x])
      && (var job := t.jobs[id];
          job.spec == spec && !job.launched && !job.done && job.result == None && !job.cancelRequested)
      && (var record := t.records[id];
          && record.workspace == spec.workspace && record.isAsync && record.dependsOn == deps
          && record.startedAt == startedAt && record.queuePosition == None && record.blockedBy == []
          && !record.cancelRequested
          && (deps == [] ==> record.status == Routing && record.queuedReason == NoReason)
          && (deps != [] ==> record.status == Queued && record.queuedReason == WaitingForDependencies))
  {
  }

  // ---------------------------------------------------------------- cancelling

  /** The statuses of a task that is not over. */
  predicate StillOpen(status: Status) {
    status == Routing || status == Queued || status == Preparing || status == Status.Running || status == Fallback
  }

  /** What a cancellation does to the task and its job; every other job and record stays as it is. */
  lemma CancelsExactly(s: Service, id: TaskId, stopped: bool)
    ensures var t := Cancel(s, id, stopped);
      && t.jobs.Keys == s.jobs.Keys && t.records.Keys == s.records.Keys && t.order == s.order && t.slots == s.slots
      && (forall x :: x in s.jobs && x != id ==> t.jobs[x] == s.jobs[x])
      && (forall x :: x in s.records && x != id ==> t.records[x] == s.records[x])
    ensures var t := Cancel(s, id, stopped);
      var open := id in s.records && StillOpen(s.records[id].status);
      && (open && id !in s.jobs && s.records[id].isAsync ==>
            t.records[id] == s.records[id].(cancelRequested := true))
      && (open && id in s.jobs && !s.jobs[id].done ==>
            && t.jobs[id].cancelRequested
            && var ends := !s.jobs[id].launched || stopped;
            && t.records[id] == (if ends then s.records[id].(status := Cancelled) else s.records[id])
            && t.jobs[id]
               == Job(s.jobs[id].spec, s.jobs[id].launched, s.jobs[id].launched && stopped,
                      if ends then Some(Cancelled) else s.jobs[id].result, true))
      && (!open || (id in s.jobs && s.jobs[id].done) || (id !in s.jobs && !s.records[id].isAsync) ==> t == s)
  {
  }

  // ---------------------------------------------------------------- visiting

  /** The limits of a workspace; without a configuration four jobs may run, on anything. */
  function Configured(limits: map<string, Slots.Limits>, ws: string): Slots.Limits {
    if ws in limits then limits[ws] else Slots.Limits(4, map[], map[])
  }

  /** This service runs fewer jobs than each limit configured for such a job. */
  ghost predicate HasCapacity(s: Service, limits: map<string, Slots.Limits>, spec: JobSpec) {
    var l := Configured(limits, spec.workspace);
    && |RunningIn(s, spec.workspace)| < l.maxWorkers
    && (spec.provider != "" && spec.provider in l.providers ==>
          |RunningWith(s, spec.workspace, spec.provider)| < l.providers[spec.provider])
    && (spec.profile != "" && spec.profile in l.profiles ==>
          |RunningAs(s, spec.workspace, spec.profile)| < l.profiles[spec.profile])
  }

  lemma AllowsExactlyWhen(p: Pass, limits: map<string, Slots.Limits>, spec: JobSpec)
    requires CountsActive(p)
    ensures Allows(p.running, limits, spec) <==> HasCapacity(p.svc, limits, spec)
  {
    RunningAreActive(p.svc, spec.workspace, spec.provider, spec.profile);
    assert Count(p.running, OfWorkspace(spec.workspace)) == |ActiveOf(p.svc, OfWorkspace(spec.workspace))|;
    assert Count(p.running, OfProvider(spec.workspace, spec.provider))
        == |ActiveOf(p.svc, OfProvider(spec.workspace, spec.provider))|;
    assert Count(p.running, OfProfile(spec.workspace, spec.profile))
        == |ActiveOf(p.svc, OfProfile(spec.workspace, spec.profile))|;
  }

  /** The store has a slot for the job, or holds one for it already. */
  ghost predicate SlotFree(s: Service, id: TaskId, spec: JobSpec, env: Env) {
    var row := Slots.Row(spec.workspace, spec.provider, spec.profile, env.owner, env.now + env.ttl);
    || Slots.HeldBy(s.slots, id, env.now, env.owner, spec.workspace)
    || ((id in s.slots ==> s.slots[id].expiresAt <= env.now)
        && Slots.HasSlot(s.slots, row, Configured(env.limits, spec.workspace), env.now))
  }

  /** Task `d` has failed, as far as is known: it is over without success, or not on record at all. */
  predicate IsLost(records: Records, d: TaskId) {
    d !in records || (!StillOpen(records[d].status) && records[d].status != Success)
  }

  ghost predicate SomeLost(records: Records, deps: seq<TaskId>) {
    exists d :: d in deps && IsLost(records, d)
  }

  ghost predicate AllSucceeded(records: Records, deps: seq<TaskId>) {
    forall d :: d in deps ==> d in records && records[d].status == Success
  }

  lemma DependenciesByRecord(records: Records, deps: seq<TaskId>)
    ensures FailedAmong(records, deps) != [] <==> SomeLost(records, deps)
    ensures FailedAmong(records, deps) == [] ==>
      (AnyUnfinished(records, deps) <==> !AllSucceeded(records, deps))
  {
    if FailedAmong(records, deps) != [] {
      assert FailedAmong(records, deps)[0] in FailedAmong(records, deps);
      assert IsLost(records, FailedAmong(records, deps)[0]);
    }
    if SomeLost(records, deps) {
      var d :| d in deps && IsLost(records, d);
      assert d in FailedAmong(records, deps);
    } else {
      forall d | d in deps
        ensures d in records && (records[d].status == Success || Unfinished(records, d))
      {
        assert !IsLost(records, d);
      }
    }
  }

  /** Failed dependencies are named in the order in which they were declared. */
  lemma FailedInOrder(records: Records, deps: seq<TaskId>, last: TaskId)
    ensures FailedAmong(records, []) == []
    ensures FailedAmong(records, deps + [last])
            == if IsLost(records, last) then FailedAmong(records, deps) + [last] else FailedAmong(records, deps)
  {
    assert (deps + [last])[..|deps|] == deps;
    assert FailedAmong(records, deps) + [] == FailedAmong(records, deps);
  }

  /** A job with a record that is not over. */
  predicate HasOpenRecord(s: Service, id: TaskId) {
    id in s.records && StillOpen(s.records[id].status)
  }

  /** What becomes of a job at its visit: blocked by a lost dependency, waiting for one, over budget, waiting for
      capacity here, blocked for want of an artifact, waiting for a slot of the store, or launched; the first that
      applies. */
  lemma VisitsExactly(p: Pass, id: TaskId, env: Env)
    requires id in p.svc.jobs && CountsActive(p) && env.ttl > 0
    requires Configured(env.limits, p.svc.jobs[id].spec.workspace).maxWorkers >= 1
    ensures var s, spec, v := p.svc, p.svc.jobs[id].spec, Judge(p, id, env);
      if !HasOpenRecord(s, id) then v == Skip
      else if SomeLost(s.records, s.records[id].dependsOn) then
        v.Block? && forall d :: d in v.failed <==> d in s.records[id].dependsOn && IsLost(s.records, d)
      else if !AllSucceeded(s.records, s.records[id].dependsOn) then v == Wait(WaitingForDependencies)
      else if id in env.overBudget then v == OverBudget
      else if !HasCapacity(s, env.limits, spec) then v == Wait(AtLimit)
      else if spec.inheritFrom != None && spec.inheritFrom.value !in env.artifacts then v == NoArtifact
      else v == if SlotFree(s, id, spec, env) then Launch else Wait(SharedCapacity)
  {
    var s, spec := p.svc, p.svc.jobs[id].spec;
    VisitsByRecord(p, id, env);
    AllowsExactlyWhen(p, env.limits, spec);
    SlotByStore(p, id, env);
  }

  /** The part of a visit that goes by the records. */
  lemma VisitsByRecord(p: Pass, id: TaskId, env: Env)
    requires id in p.svc.jobs
    ensures var s, spec, v := p.svc, p.svc.jobs[id].spec, Judge(p, id, env);
      if !HasOpenRecord(s, id) then v == Skip
      else if SomeLost(s.records, s.records[id].dependsOn) then
        v.Block? && forall d :: d in v.failed <==> d in s.records[id].dependsOn && IsLost(s.records, d)
      else if !AllSucceeded(s.records, s.records[id].dependsOn) then v == Wait(WaitingForDependencies)
      else if id in env.overBudget then v == OverBudget
      else if !Allows(p.running, env.limits, spec) then v == Wait(AtLimit)
      else if spec.inheritFrom != None && spec.inheritFrom.value !in env.artifacts then v == NoArtifact
      else v == if Reservation(p, id, env).1.Granted? then Launch else Wait(SharedCapacity)
  {
    if HasOpenRecord(p.svc, id) {
      DependenciesByRecord(p.svc.records, p.svc.records[id].dependsOn);
    }
  }

  lemma SlotByStore(p: Pass, id: TaskId, env: Env)
    requires id in p.svc.jobs && env.ttl > 0
    requires Configured(env.limits, p.svc.jobs[id].spec.workspace).maxWorkers >= 1
    ensures Reservation(p, id, env).1.Granted? <==> SlotFree(p.svc, id, p.svc.jobs[id].spec, env)
  {
    var spec := p.svc.jobs[id].spec;
    assert LimitsFor(env.limits, spec.workspace) == Configured(env.limits, spec.workspace);
    Slots.GrantedExactlyWhen(
      p.svc.slots, id, Slots.Row(spec.workspace, spec.provider, spec.profile, env.owner, env.now + env.ttl),
      Configured(env.limits, spec.workspace), env.now);
  }

  /** And what the visit writes into the record and the job; all others stay as they are. */
  lemma VisitsWrite(p: Pass, id: TaskId, env: Env)
    requires id in p.svc.jobs && HasOpenRecord(p.svc, id)
    ensures var s, t := p.svc, Consider(p, id, env).svc;
      var was := s.records[id];
      && OnlyTouches(s, t, id) && id in t.records
      && match Judge(p, id, env)
         case Skip => t == s
         case Block(failed) =>
           t.records[id] == was.(status := Blocked, blockedBy := failed)
           && t.jobs[id] == s.jobs[id].(result := Some(Blocked)) && t.slots == s.slots
         case Wait(reason) =>
           t.records[id] == was.(status := Queued, queuedReason := reason, queuePosition := Some(|p.queue| + 1))
           && t.jobs[id] == s.jobs[id]
           && t.slots == if reason == SharedCapacity then Reservation(p, id, env).0 else s.slots
         case OverBudget =>
           t.records[id] == was.(status := BudgetExceeded)
           && t.jobs[id] == s.jobs[id].(result := Some(BudgetExceeded)) && t.slots == s.slots
         case NoArtifact =>
           t.records[id] == was.(status := Blocked)
           && t.jobs[id] == s.jobs[id].(result := Some(Blocked)) && t.slots == s.slots
         case Launch =>
           t.records[id] == was.(status := Routing, queuedReason := NoReason, queuePosition := None)
           && t.jobs[id] == s.jobs[id].(launched := true)
           && id in t.slots && t.slots[id].expiresAt > env.now && t.slots[id].owner == env.owner
  {
    ConsiderFrame(p, id, env);
  }

  lemma {:induction false} VisitsCount(p: Pass, ids: seq<TaskId>, env: Env, k: nat)
    requires Visitable(p, ids) && (forall x :: x in ids ==> !p.svc.jobs[x].done)
    requires CountsActive(p) && WithinQuotas(p.svc, env.limits) && k <= |ids|
    ensures CountsActive(VisitAll(p, ids[..k], env))
    decreases k
  {
    if k > 0 {
      var c := Consider(p, ids[0], env);
      ConsiderKeepsQuotas(p, ids[0], env);
      VisitablePersists(p, ids, env);
      ConsiderFrame(p, ids[0], env);
      forall x | x in ids[1..]
        ensures !c.svc.jobs[x].done
      {
        assert x in ids;
      }
      VisitsCount(c, ids[1..], env, k - 1);
      assert ids[..k][1..] == ids[1..][..k - 1];
    }
  }

  /** In every run, at each visit of a pass the list of running jobs counts exactly those that run, as the above
      needs. */
  lemma EachVisitCounts(s: Service, steps: seq<Step>, setup: Setup, env: Env, k: nat)
    requires Inv(s, setup) && env.limits == setup.limits
    requires k <= |PendingOrder(Run(s, steps, setup), Run(s, steps, setup).order)|
    ensures var w := Run(s, steps, setup); CountsActive(VisitAll(FirstPass(w), PendingOrder(w, w.order)[..k], env))
  {
    InvHoldsInEveryRun(s, steps, setup);
    var w := Run(s, steps, setup);
    PassIsVisitable(w);
    FirstPassCountsActive(w);
    forall x | x in PendingOrder(w, w.order)
      ensures !w.jobs[x].done
    {
      assert JobRecorded(w, x);
    }
    VisitsCount(FirstPass(w), PendingOrder(w, w.order), env, k);
  }
}
