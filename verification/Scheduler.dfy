/** The task service's scheduler: a job map with dependencies, priorities and three concurrency limits, and the pass
    that launches, queues or settles every pending job in turn. */
module Scheduler {
  import opened Wrappers
  import Slots = Reservations

  datatype Status =
    | Routing | Queued | Preparing | Running | Fallback
    | Success | Error | Timeout | Unavailable | Cancelled | Blocked | Interrupted | FailedGate | BudgetExceeded

  predicate Terminal(status: Status) {
    !(status.Routing? || status.Queued? || status.Preparing? || status.Running? || status.Fallback?)
  }

  datatype Reason = NoReason | WaitingForDependencies | AtLimit | SharedCapacity

  /** The stored task record, as far as scheduling reads and writes it. */
  datatype Record = Record(workspace: string, isAsync: bool, status: Status, dependsOn: seq<TaskId>, startedAt: nat,
                           queuePosition: Option<nat>, queuedReason: Reason, blockedBy: seq<TaskId>,
                           cancelRequested: bool)

  /** What a job needs; the provider and profile it resolves to are "" when there is none. */
  datatype JobSpec = JobSpec(workspace: string, provider: string, profile: string, priority: int,
                             inheritFrom: Option<TaskId>)

  /** A submitted job: `launched` is that it has a future, `done` that the future is done, `result` the result the
      scheduler or a cancellation gave it. */
  datatype Job = Job(spec: JobSpec, launched: bool, done: bool, result: Option<Status>, cancelRequested: bool)

  type Records = map<TaskId, Record>

  /** The service's jobs in submission order, the records of all processes, and the shared slot table. */
  datatype Service = Service(jobs: map<TaskId, Job>, order: seq<TaskId>, records: Records, slots: Slots.Table)

  /** What a pass is given: configuration, owner id, clock, and the outcomes it cannot see inside of. */
  datatype Env = Env(limits: map<string, Slots.Limits>, owner: string, now: Instant, ttl: int,
                     overBudget: set<TaskId>, artifacts: set<TaskId>)

  /** A workspace without configuration gets the default scheduler section. */
  function LimitsFor(limits: map<string, Slots.Limits>, workspace: string): Slots.Limits {
    if workspace in limits then limits[workspace] else Slots.Limits(4, map[], map[])
  }

  predicate Pending(job: Job) {
    !job.launched && job.result.None?
  }

  predicate Active(job: Job) {
    job.launched && !job.done
  }

  // ---------------------------------------------------------------- order of a pass

  /** Higher priority first, then the earlier start, then the smaller id; a missing record counts as earliest. */
  predicate Before(s: Service, a: TaskId, b: TaskId)
    requires a in s.jobs && b in s.jobs
  {
    var p, q := s.jobs[a].spec.priority, s.jobs[b].spec.priority;
    var x, y := StartKey(s.records, a), StartKey(s.records, b);
    p > q || (p == q && (x < y || (x == y && a < b)))
  }

  function StartKey(records: Records, id: TaskId): nat {
    if id in records then records[id].startedAt + 1 else 0
  }

  function Insert(s: Service, sorted: seq<TaskId>, id: TaskId): (r: seq<TaskId>)
    requires id in s.jobs && forall x :: x in sorted ==> x in s.jobs
    ensures multiset(r) == multiset(sorted) + multiset{id}
    ensures forall x :: x in r <==> x in sorted || x == id
  {
    if sorted == [] then [id]
    else if Before(s, id, sorted[0]) then [id] + sorted
    else
      var rest := Insert(s, sorted[1..], id);
      assert sorted == [sorted[0]] + sorted[1..];
      [sorted[0]] + rest
  }

  /** The pending jobs among `ids`, in the order a pass visits them. */
  function PendingOrder(s: Service, ids: seq<TaskId>): (r: seq<TaskId>)
    requires forall x :: x in ids ==> x in s.jobs
    ensures forall x :: x in r <==> x in ids && Pending(s.jobs[x])
    decreases |ids|
  {
    if ids == [] then [] else
      var last := ids[|ids| - 1];
      var sorted := PendingOrder(s, ids[..|ids| - 1]);
      assert ids == ids[..|ids| - 1] + [last];
      if Pending(s.jobs[last]) then Insert(s, sorted, last) else sorted
  }

  function RunningSpecs(s: Service, ids: seq<TaskId>): seq<JobSpec>
    requires forall x :: x in ids ==> x in s.jobs
    decreases |ids|
  {
    if ids == [] then [] else
      var last := ids[|ids| - 1];
      RunningSpecs(s, ids[..|ids| - 1]) + if Active(s.jobs[last]) then [s.jobs[last].spec] else []
  }

  // ---------------------------------------------------------------- limits

  datatype Quota = OfWorkspace(workspace: string) | OfProvider(workspace: string, provider: string)
                 | OfProfile(workspace: string, profile: string)

  predicate CountsFor(spec: JobSpec, q: Quota) {
    spec.workspace == q.workspace && (q.OfProvider? ==> spec.provider == q.provider)
      && (q.OfProfile? ==> spec.profile == q.profile)
  }

  function Count(running: seq<JobSpec>, q: Quota): nat
    decreases |running|
  {
    if running == [] then 0 else
      Count(running[..|running| - 1], q) + if CountsFor(running[|running| - 1], q) then 1 else 0
  }

  function LimitOf(limits: map<string, Slots.Limits>, q: Quota): Option<int> {
    var l := LimitsFor(limits, q.workspace);
    match q
    case OfWorkspace(_) => Some(l.maxWorkers)
    case OfProvider(_, p) => l.ProviderLimit(p)
    case OfProfile(_, p) => l.ProfileLimit(p)
  }

  predicate HasRoom(running: seq<JobSpec>, limits: map<string, Slots.Limits>, q: Quota) {
    !Slots.Reached(LimitOf(limits, q), Count(running, q))
  }

  predicate Allows(running: seq<JobSpec>, limits: map<string, Slots.Limits>, spec: JobSpec) {
    && HasRoom(running, limits, OfWorkspace(spec.workspace))
    && HasRoom(running, limits, OfProvider(spec.workspace, spec.provider))
    && HasRoom(running, limits, OfProfile(spec.workspace, spec.profile))
  }

  // ---------------------------------------------------------------- one pass

  predicate Failed(records: Records, dep: TaskId) {
    dep !in records || (Terminal(records[dep].status) && !records[dep].status.Success?)
  }

  predicate Unfinished(records: Records, dep: TaskId) {
    dep in records && !Terminal(records[dep].status)
  }

  /** The failed dependencies, in the order they were declared; one that no longer resolves counts as failed. */
  function FailedAmong(records: Records, deps: seq<TaskId>): (r: seq<TaskId>)
    ensures forall d :: d in r <==> d in deps && Failed(records, d)
    decreases |deps|
  {
    if deps == [] then [] else
      var last := deps[|deps| - 1];
      assert deps == deps[..|deps| - 1] + [last];
      FailedAmong(records, deps[..|deps| - 1]) + if Failed(records, last) then [last] else []
  }

  predicate AnyUnfinished(records: Records, deps: seq<TaskId>): (r: bool)
    ensures r <==> exists d :: d in deps && Unfinished(records, d)
    decreases |deps|
  {
    deps != [] && (
      var last := deps[|deps| - 1];
      assert deps == deps[..|deps| - 1] + [last];
      AnyUnfinished(records, deps[..|deps| - 1]) || Unfinished(records, last))
  }

  predicate Ready(records: Records, deps: seq<TaskId>) {
    forall d :: d in deps ==> d in records && records[d].status.Success?
  }

  /** A pass in progress: the service so far, the running jobs, and the jobs queued and launched so far. */
  datatype Pass = Pass(svc: Service, running: seq<JobSpec>, queue: seq<TaskId>, launched: seq<TaskId>)

  datatype Verdict = Skip | Block(failed: seq<TaskId>) | Wait(reason: Reason) | OverBudget | NoArtifact | Launch

  function Reservation(p: Pass, id: TaskId, env: Env): (Slots.Table, Slots.Reply)
    requires id in p.svc.jobs
  {
    var spec := p.svc.jobs[id].spec;
    Slots.Reserve(p.svc.slots, id, Slots.Row(spec.workspace, spec.provider, spec.profile, env.owner, env.now + env.ttl),
              LimitsFor(env.limits, spec.workspace), env.now)
  }

  function Judge(p: Pass, id: TaskId, env: Env): Verdict
    requires id in p.svc.jobs
  {
    var spec, records := p.svc.jobs[id].spec, p.svc.records;
    if id !in records || Terminal(records[id].status) then Skip
    else if FailedAmong(records, records[id].dependsOn) != [] then Block(FailedAmong(records, records[id].dependsOn))
    else if AnyUnfinished(records, records[id].dependsOn) then Wait(WaitingForDependencies)
    else if id in env.overBudget then OverBudget
    else if !Allows(p.running, env.limits, spec) then Wait(AtLimit)
    else if spec.inheritFrom.Some? && spec.inheritFrom.value !in env.artifacts then NoArtifact
    else if !Reservation(p, id, env).1.Granted? then Wait(SharedCapacity)
    else Launch
  }

  function Settle(s: Service, id: TaskId, status: Status): Service
    requires id in s.jobs && id in s.records
  {
    s.(jobs := s.jobs[id := s.jobs[id].(result := Some(status))],
       records := s.records[id := s.records[id].(status := status)])
  }

  /** Visit one pending job. */
  function Consider(p: Pass, id: TaskId, env: Env): Pass
    requires id in p.svc.jobs
  {
    var s := p.svc;
    match Judge(p, id, env)
    case Skip => p
    case Block(failed) =>
      p.(svc := Settle(s.(records := s.records[id := s.records[id].(blockedBy := failed)]), id, Blocked))
    case Wait(reason) =>
      var slots := if reason.SharedCapacity? then Reservation(p, id, env).0 else s.slots;
      p.(svc := s.(slots := slots,
                   records := s.records[id := s.records[id].(status := Queued, queuedReason := reason,
                                                             queuePosition := Some(|p.queue| + 1))]),
         queue := p.queue + [id])
    case OverBudget => p.(svc := Settle(s, id, BudgetExceeded))
    case NoArtifact => p.(svc := Settle(s, id, Blocked))
    case Launch =>
      p.(svc := s.(slots := Reservation(p, id, env).0,
                   jobs := s.jobs[id := s.jobs[id].(launched := true)],
                   records := s.records[id := s.records[id].(status := Routing, queuedReason := NoReason,
                                                             queuePosition := None)]),
         running := p.running + [s.jobs[id].spec],
         launched := p.launched + [id])
  }

  predicate Covers(p: Pass, ids: seq<TaskId>) {
    forall x :: x in ids ==> x in p.svc.jobs
  }

  function VisitAll(p: Pass, ids: seq<TaskId>, env: Env): Pass
    requires Covers(p, ids)
    decreases |ids|
  {
    if ids == [] then p else VisitAll(Consider(p, ids[0], env), ids[1..], env)
  }

  ghost predicate WellOrdered(s: Service) {
    && (forall i, j :: 0 <= i < j < |s.order| ==> s.order[i] != s.order[j])
    && (forall x :: x in s.order <==> x in s.jobs)
  }

  function FirstPass(s: Service): Pass
    requires forall x :: x in s.order ==> x in s.jobs
  {
    Pass(s, RunningSpecs(s, s.order), [], [])
  }

  function Schedule(s: Service, env: Env): Pass
    requires WellOrdered(s)
  {
    VisitAll(FirstPass(s), PendingOrder(s, s.order), env)
  }

  // ---------------------------------------------------------------- submit and cancel

  datatype Fault = DuplicateDependency | BadPriority | BadInheritance | BadDependency

  predicate Distinct(ids: seq<TaskId>) {
    forall i, j :: 0 <= i < j < |ids| ==> ids[i] != ids[j]
  }

  /** Why a submission is refused, if it is: every dependency must resolve to an asynchronous task of the workspace. */
  function SubmitFault(s: Service, spec: JobSpec, deps: seq<TaskId>): Option<Fault> {
    if !Distinct(deps) then Some(DuplicateDependency)
    else if !(-100 <= spec.priority <= 100) then Some(BadPriority)
    else if spec.inheritFrom.Some? && spec.inheritFrom.value !in deps then Some(BadInheritance)
    else if exists d ::
      d in deps && !(d in s.records && s.records[d].workspace == spec.workspace && s.records[d].isAsync)
    then Some(BadDependency)
    else None
  }

  /** The record starts as routing, or queued behind its dependencies. */
  function Submit(s: Service, id: TaskId, spec: JobSpec, deps: seq<TaskId>, startedAt: nat): Service {
    if SubmitFault(s, spec, deps).Some? then s
    else
      var record := Record(spec.workspace, true, if deps == [] then Routing else Queued, deps, startedAt, None,
                           if deps == [] then NoReason else WaitingForDependencies, [], false);
      s.(jobs := s.jobs[id := Job(spec, false, false, None, false)],
         order := s.order + [id],
         records := s.records[id := record])
  }

  predicate Cancellable(s: Service, id: TaskId) {
    id in s.records && !Terminal(s.records[id].status) && id in s.jobs && !s.jobs[id].done
  }

  /** An unfinished task of another process, which is asked to cancel it. */
  predicate Requestable(s: Service, id: TaskId) {
    id in s.records && !Terminal(s.records[id].status) && id !in s.jobs && s.records[id].isAsync
  }

  /** Cancelling: a pending job ends here; a launched one is only told, unless its future could still be `stopped`; for
      a task of another process the request is put on record. */
  function Cancel(s: Service, id: TaskId, stopped: bool): Service {
    if Requestable(s, id) then s.(records := s.records[id := s.records[id].(cancelRequested := true)])
    else if !Cancellable(s, id) then s
    else
      var told := s.(jobs := s.jobs[id := s.jobs[id].(cancelRequested := true)]);
      if !s.jobs[id].launched then Settle(told, id, Cancelled)
      else if stopped then
        var ended := Settle(told, id, Cancelled);
        ended.(jobs := ended.jobs[id := ended.jobs[id].(done := true)])
      else told
  }

  /** What became of a visited job. */
  datatype Visit = Settled | InQueue | Submitted

  function VisitOf(v: Verdict): Visit {
    match v
    case Wait(_) => InQueue
    case Launch => Submitted
    case _ => Settled
  }

  /** What a visit does to the bookkeeping of the pass. */
  lemma ConsiderKeepsBooks(p: Pass, id: TaskId, env: Env)
    requires id in p.svc.jobs
    ensures var q, v := Consider(p, id, env), VisitOf(Judge(p, id, env));
      && q.svc.jobs.Keys == p.svc.jobs.Keys && q.svc.order == p.svc.order
      && q.running == p.running + (if v.Submitted? then [p.svc.jobs[id].spec] else [])
      && q.launched == p.launched + (if v.Submitted? then [id] else [])
      && q.queue == p.queue + (if v.InQueue? then [id] else [])
  {
  }

  lemma VisitAllUnfolds(p: Pass, ids: seq<TaskId>, i: nat, env: Env)
    requires Covers(p, ids) && i < |ids|
    ensures ids[i..][1..] == ids[i + 1..]
    ensures Covers(p, ids[i..]) && Covers(Consider(p, ids[i], env), ids)
    ensures VisitAll(p, ids[i..], env) == VisitAll(Consider(p, ids[i], env), ids[i + 1..], env)
  {
    ConsiderKeepsBooks(p, ids[i], env);
    assert ids[i..][0] == ids[i] && ids[i..][1..] == ids[i + 1..];
  }

  predicate PastDependencies(v: Verdict) {
    v.NoArtifact? || v.Launch? || v == Wait(AtLimit) || v == Wait(SharedCapacity)
  }

  lemma SubmitKeepsOrder(s: Service, id: TaskId, spec: JobSpec, deps: seq<TaskId>, startedAt: nat)
    requires WellOrdered(s) && id !in s.jobs
    ensures WellOrdered(Submit(s, id, spec, deps, startedAt))
  {
  }

  /** The service object. `records` is the run store's view of all tasks, `store` the shared slot table. */
  class TaskService {
    const store: Slots.ReservationStore
    var jobs: map<TaskId, Job>
    var order: seq<TaskId>
    var records: Records

    constructor (store: Slots.ReservationStore, records: Records)
      ensures this.store == store && State() == Service(map[], [], records, store.rows)
      ensures Valid()
    {
      this.store, this.records := store, records;
      jobs, order := map[], [];
    }

    function State(): Service
      reads this, store
    {
      Service(jobs, order, records, store.rows)
    }

    ghost predicate Valid()
      reads this, store
    {
      WellOrdered(State())
    }

    /** The dependency loop of a pass. */
    method CheckDependencies(deps: seq<TaskId>) returns (failed: seq<TaskId>, waiting: bool)
      ensures failed == FailedAmong(records, deps)
      ensures waiting == AnyUnfinished(records, deps)
    {
      failed, waiting := [], false;
      for i := 0 to |deps|
        invariant failed == FailedAmong(records, deps[..i])
        invariant waiting == AnyUnfinished(records, deps[..i])
      {
        var dep := deps[i];
        assert deps[..i + 1][..i] == deps[..i];
        var status := if dep in records then records[dep].status else Unavailable;
        if status != Success {
          if Terminal(status) {
            failed := failed + [dep];
          } else {
            waiting := true;
          }
        }
      }
      assert deps[..|deps|] == deps;
    }

    method SchedulerAllows(spec: JobSpec, running: seq<JobSpec>, env: Env) returns (allowed: bool)
      ensures allowed == Allows(running, env.limits, spec)
    {
      var limits := LimitsFor(env.limits, spec.workspace);
      if Count(running, OfWorkspace(spec.workspace)) >= limits.maxWorkers {
        return false;
      }
      if spec.provider != "" {
        var active := Count(running, OfProvider(spec.workspace, spec.provider));
        if Slots.Reached(limits.ProviderLimit(spec.provider), active) {
          return false;
        }
      }
      if spec.profile != "" {
        var active := Count(running, OfProfile(spec.workspace, spec.profile));
        if Slots.Reached(limits.ProfileLimit(spec.profile), active) {
          return false;
        }
      }
      return true;
    }

    method CompleteTask(id: TaskId, status: Status)
      requires id in jobs && id in records
      modifies this
      ensures State() == Settle(old(State()), id, status)
    {
      records := records[id := records[id].(status := status)];
      jobs := jobs[id := jobs[id].(result := Some(status))];
    }

    /** The body of a pass for one pending job; `p` is the pass as it stands before it. */
    method VisitJob(id: TaskId, running: seq<JobSpec>, position: nat, env: Env, ghost p: Pass) returns (visit: Visit)
      requires id in jobs
      requires p.svc == State() && p.running == running && |p.queue| + 1 == position
      modifies this, store
      ensures State() == Consider(p, id, env).svc
      ensures visit == VisitOf(Judge(p, id, env))
    {
      if id !in records || Terminal(records[id].status) {
        return Settled;
      }
      var failed, waiting := CheckDependencies(records[id].dependsOn);
      if failed != [] {
        records := records[id := records[id].(blockedBy := failed)];
        CompleteTask(id, Blocked);
        return Settled;
      }
      if waiting {
        Enqueue(id, position, WaitingForDependencies);
        return InQueue;
      }
      if id in env.overBudget {
        CompleteTask(id, BudgetExceeded);
        return Settled;
      }
      visit := TryLaunch(id, running, position, env, p);
    }

    /** The second half: the dependencies are met and the budget is not spent. */
    method TryLaunch(id: TaskId, running: seq<JobSpec>, position: nat, env: Env, ghost p: Pass) returns (visit: Visit)
      requires id in jobs
      requires p.svc == State() && p.running == running && |p.queue| + 1 == position
      requires id in records && PastDependencies(Judge(p, id, env))
      modifies this, store
      ensures State() == Consider(p, id, env).svc
      ensures visit == VisitOf(Judge(p, id, env))
    {
      var spec := jobs[id].spec;
      var allowed := SchedulerAllows(spec, running, env);
      if !allowed {
        Enqueue(id, position, AtLimit);
        return InQueue;
      }
      if spec.inheritFrom.Some? && spec.inheritFrom.value !in env.artifacts {
        CompleteTask(id, Blocked);
        return Settled;
      }
      visit := Launch(id, position, env, p);
    }

    /** The last part: a slot is asked for, and with it the job is launched. */
    method Launch(id: TaskId, position: nat, env: Env, ghost p: Pass) returns (visit: Visit)
      requires id in jobs
      requires p.svc == State() && |p.queue| + 1 == position
      requires id in records && (Judge(p, id, env).Launch? || Judge(p, id, env) == Wait(SharedCapacity))
      modifies this, store
      ensures State() == Consider(p, id, env).svc
      ensures visit == VisitOf(Judge(p, id, env))
    {
      var spec := jobs[id].spec;
      var reply := store.ReserveSlot(id, spec.workspace, env.owner, spec.provider, spec.profile,
                                     LimitsFor(env.limits, spec.workspace), env.ttl, env.now);
      assert (store.rows, reply) == Reservation(p, id, env);
      if !reply.Granted? {
        Enqueue(id, position, SharedCapacity);
        return InQueue;
      }
      assert Judge(p, id, env) == Verdict.Launch;
      records := records[id := records[id].(status := Routing, queuedReason := NoReason, queuePosition := None)];
      jobs := jobs[id := jobs[id].(launched := true)];
      return Submitted;
    }

    method Enqueue(id: TaskId, position: nat, reason: Reason)
      requires id in records
      modifies this
      ensures records == old(records)[id := old(records)[id].(status := Queued, queuedReason := reason,
                                                              queuePosition := Some(position))]
      ensures jobs == old(jobs) && order == old(order)
    {
      records := records[id := records[id].(status := Queued, queuedReason := reason,
                                            queuePosition := Some(position))];
    }

    /** One scheduling pass; the result is the list of jobs handed to the executor, in order. */
    method ScheduleReady(env: Env) returns (launched: seq<TaskId>)
      requires Valid()
      modifies this, store
      ensures State() == Schedule(old(State()), env).svc
      ensures launched == Schedule(old(State()), env).launched
    {
      var pending := PendingOrder(State(), order);
      var running := RunningSpecs(State(), order);
      var queuePosition := 0;
      launched := [];
      ghost var p := Pass(State(), running, [], []);
      ghost var goal := Schedule(State(), env);
      assert pending[0..] == pending;
      for i := 0 to |pending|
        invariant Covers(p, pending)
        invariant p.svc == State() && p.running == running && p.launched == launched && |p.queue| == queuePosition
        invariant VisitAll(p, pending[i..], env) == goal
      {
        var id := pending[i];
        VisitAllUnfolds(p, pending, i, env);
        ConsiderKeepsBooks(p, id, env);
        ghost var before := p;
        p := Consider(p, id, env);
        var spec := jobs[id].spec;
        var visit := VisitJob(id, running, queuePosition + 1, env, before);
        if visit.InQueue? {
          queuePosition := queuePosition + 1;
        } else if visit.Submitted? {
          running := running + [spec];
          launched := launched + [id];
        }
      }
    }

    /** Submit a task under a fresh id, then run a pass. */
    method SubmitTask(id: TaskId, spec: JobSpec, deps: seq<TaskId>, startedAt: nat, env: Env)
      returns (fault: Option<Fault>)
      requires Valid() && id !in jobs && id !in records
      modifies this, store
      ensures fault == SubmitFault(old(State()), spec, deps)
      ensures fault.Some? ==> State() == old(State())
      ensures fault.None? ==>
        WellOrdered(Submit(old(State()), id, spec, deps, startedAt))
          && State() == Schedule(Submit(old(State()), id, spec, deps, startedAt), env).svc
    {
      fault := SubmitFault(State(), spec, deps);
      if fault.Some? {
        return;
      }
      ghost var submitted := Submit(State(), id, spec, deps, startedAt);
      SubmitKeepsOrder(State(), id, spec, deps, startedAt);
      records := records[id := Record(spec.workspace, true, Routing, deps, startedAt, None, NoReason, [], false)];
      if deps != [] {
        records := records[id := records[id].(status := Queued, queuedReason := WaitingForDependencies)];
      }
      jobs := jobs[id := Job(spec, false, false, None, false)];
      order := order + [id];
      assert State() == submitted;
      var _ := ScheduleReady(env);
    }

    /** Cancel a task; a pass follows if it is a job of this service that is not done. */
    method CancelTask(id: TaskId, stopped: bool, env: Env)
      requires Valid()
      modifies this, store
      ensures !Cancellable(old(State()), id) ==> State() == Cancel(old(State()), id, stopped)
      ensures Cancellable(old(State()), id) ==>
        WellOrdered(Cancel(old(State()), id, stopped))
          && State() == Schedule(Cancel(old(State()), id, stopped), env).svc
    {
      if id !in records || Terminal(records[id].status) {
        return;
      }
      if id !in jobs {
        if records[id].isAsync {
          records := records[id := records[id].(cancelRequested := true)];
        }
        return;
      }
      if jobs[id].done {
        return;
      }
      ghost var cancelled := Cancel(State(), id, stopped);
      jobs := jobs[id := jobs[id].(cancelRequested := true)];
      if !jobs[id].launched {
        CompleteTask(id, Cancelled);
      } else if stopped {
        CompleteTask(id, Cancelled);
        jobs := jobs[id := jobs[id].(done := true)];
      }
      assert State() == cancelled;
      var _ := ScheduleReady(env);
    }

    /** A finished future gives its slot back, then runs a pass. */
    method TaskFinished(id: TaskId, env: Env)
      requires Valid()
      modifies this, store
      ensures var freed := old(State()).(slots := Slots.Release(old(store.rows), id, env.owner));
        State() == Schedule(freed, env).svc
    {
      var _ := store.ReleaseSlot(id, env.owner);
      assert State() == old(State()).(slots := Slots.Release(old(store.rows), id, env.owner));
      var _ := ScheduleReady(env);
    }
  }
}
