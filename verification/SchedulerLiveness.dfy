/** Progress of scheduling: an idle service with pending jobs never gets stuck, and if launched jobs finish, every
    submitted job reaches a terminal status within as many rounds as there are pending jobs. */
module SchedulerLiveness {
  import opened Wrappers
  import opened Scheduler
  import opened SchedulerPass
  import opened SchedulerRuns
  import opened SchedulerSafety
  import Slots = Reservations

  /** A pending job waits for `d`. */
  predicate NeedsFrom(s: Service, x: TaskId, d: TaskId) {
    x in s.jobs && Pending(s.jobs[x]) && x in s.records && d in s.records[x].dependsOn && Unfinished(s.records, d)
  }

  /** An unfinished dependency of a pending job is a job of this service. */
  ghost predicate Closed(s: Service) {
    forall x, d :: NeedsFrom(s, x, d) ==> d in s.jobs
  }

  ghost predicate NothingRuns(s: Service) {
    forall x :: x in s.jobs ==> !Active(s.jobs[x])
  }

  ghost function PendingSet(s: Service): set<TaskId> {
    set x | x in s.jobs && Pending(s.jobs[x])
  }

  ghost predicate NotWaiting(records: Records, deps: seq<TaskId>) {
    forall d :: d in deps ==> !Unfinished(records, d)
  }

  /** The first pending job in submission order waits for nobody. */
  lemma EarliestIsNotWaiting(s: Service, setup: Setup) returns (x: TaskId)
    requires Inv(s, setup) && Closed(s) && NothingRuns(s) && PendingSet(s) != {}
    ensures Unsettled(s, x) && NotWaiting(s.records, s.records[x].dependsOn)
  {
    var i := EarliestPending(s, |s.order|);
    x := s.order[i];
    forall d | d in s.records[x].dependsOn
      ensures !Unfinished(s.records, d)
    {
      assert NeedsFrom(s, x, d) ==> d in s.jobs;
      if d in s.jobs {
        assert JobRecorded(s, d);
      }
    }
  }

  lemma {:induction false} EarliestPending(s: Service, n: nat) returns (i: nat)
    requires WellOrdered(s) && n <= |s.order|
    requires exists k :: 0 <= k < n && Pending(s.jobs[s.order[k]])
    ensures i < n && s.order[i] in s.jobs && Pending(s.jobs[s.order[i]])
    ensures forall d :: d in s.order[..i] ==> d in s.jobs && !Pending(s.jobs[d])
    decreases n
  {
    if exists k :: 0 <= k < n - 1 && Pending(s.jobs[s.order[k]]) {
      i := EarliestPending(s, n - 1);
    } else {
      i := n - 1;
    }
  }

  lemma EmptyHasRoom(limits: map<string, Slots.Limits>, spec: JobSpec)
    requires Slots.ValidLimits(limits)
    ensures Allows([], limits, spec)
  {
  }

  lemma EmptyTableGrants(p: Pass, id: TaskId, env: Env)
    requires ValidEnv(env) && id in p.svc.jobs && Slots.Unexpired(p.svc.slots, env.now) == map[]
    ensures Reservation(p, id, env).1.Granted?
  {
    var spec := p.svc.jobs[id].spec;
    var none := Slots.Unexpired(p.svc.slots, env.now);
    assert Slots.InWorkspace(none, spec.workspace) == {};
    assert Slots.WithProvider(none, spec.workspace, spec.provider) == {};
    assert Slots.WithProfile(none, spec.workspace, spec.profile) == {};
  }

  /** With nothing running and no slot taken, a job that waits for nobody does not stay pending. */
  lemma FirstComerSettles(p: Pass, id: TaskId, env: Env)
    requires ValidEnv(env) && Unsettled(p.svc, id) && NotWaiting(p.svc.records, p.svc.records[id].dependsOn)
    requires p.running == [] && Slots.Unexpired(p.svc.slots, env.now) == map[]
    ensures !Judge(p, id, env).Wait? && !Judge(p, id, env).Skip?
  {
    EmptyHasRoom(env.limits, p.svc.jobs[id].spec);
    EmptyTableGrants(p, id, env);
  }

  /** A pass over an idle service settles or launches somebody. */
  lemma {:induction false} SomebodyMoves(p: Pass, ids: seq<TaskId>, env: Env, x: TaskId) returns (y: TaskId)
    requires ValidEnv(env) && Visitable(p, ids) && (forall z :: z in ids ==> Unsettled(p.svc, z))
    requires p.running == [] && Slots.Unexpired(p.svc.slots, env.now) == map[]
    requires x in ids && x in p.svc.records && NotWaiting(p.svc.records, p.svc.records[x].dependsOn)
    ensures y in ids && y in VisitAll(p, ids, env).svc.jobs && !Pending(VisitAll(p, ids, env).svc.jobs[y])
    decreases |ids|
  {
    var c := Consider(p, ids[0], env);
    VisitablePersists(p, ids, env);
    UnsettledPersists(p, ids, env);
    FirstOutcome(p, ids[0], env);
    if x == ids[0] {
      FirstComerSettles(p, x, env);
    }
    if Judge(p, ids[0], env).Wait? {
      ConsiderFrame(p, ids[0], env);
      ConsiderSlots(p, ids[0], env);
      ConsiderKeepsBooks(p, ids[0], env);
      y := SomebodyMoves(c, ids[1..], env, x);
    } else {
      y := ids[0];
      VisitAllFrame(c, ids[1..], env);
    }
  }

  lemma PassOnlyShrinksPending(s: Service, env: Env, setup: Setup)
    requires Inv(s, setup)
    ensures PendingSet(Schedule(s, env).svc) <= PendingSet(s)
  {
    PassFrame(s, env);
    forall x | x in PendingSet(Schedule(s, env).svc)
      ensures x in PendingSet(s)
    {
      PassJobByJob(s, env, x);
    }
  }

  /** No deadlock: with positive limits, nothing running, no slot held, and every unfinished dependency a job of this
      service, one pass launches or settles at least one pending job. */
  lemma NoDeadlock(s: Service, env: Env, setup: Setup)
    requires Inv(s, setup) && ValidEnv(env) && Closed(s) && NothingRuns(s)
    requires Slots.Unexpired(s.slots, env.now) == map[] && PendingSet(s) != {}
    ensures PendingSet(Schedule(s, env).svc) < PendingSet(s)
  {
    var p, ids := FirstPass(s), PendingOrder(s, s.order);
    PassIsVisitable(s);
    PendingAreUnsettled(s);
    NothingRunsMeansNoSpecs(s, s.order);
    var x := EarliestIsNotWaiting(s, setup);
    var y := SomebodyMoves(p, ids, env, x);
    PassOnlyShrinksPending(s, env, setup);
    assert y in PendingSet(s) && y !in PendingSet(Schedule(s, env).svc);
  }

  lemma {:induction false} NothingRunsMeansNoSpecs(s: Service, ids: seq<TaskId>)
    requires NothingRuns(s) && forall x :: x in ids ==> x in s.jobs
    ensures RunningSpecs(s, ids) == []
    decreases |ids|
  {
    if ids != [] {
      NothingRunsMeansNoSpecs(s, ids[..|ids| - 1]);
    }
  }

  // ---------------------------------------------------------------- rounds

  /** A round: every running job finishes with some outcome, its slot is released, and a pass follows. */
  datatype Round = Round(outcomes: map<TaskId, Status>, env: Env)

  function OutcomeFor(outcomes: map<TaskId, Status>, id: TaskId): Status {
    if id in outcomes && Terminal(outcomes[id]) then outcomes[id] else Error
  }

  function DrainSteps(ids: seq<TaskId>, outcomes: map<TaskId, Status>): seq<Step>
    decreases |ids|
  {
    if ids == [] then [] else
      [DoPublish(ids[0], OutcomeFor(outcomes, ids[0])), DoFinish(ids[0]), DoRelease(ids[0])]
      + DrainSteps(ids[1..], outcomes)
  }

  function RoundSteps(ids: seq<TaskId>, rounds: seq<Round>): seq<Step>
    decreases |rounds|
  {
    if rounds == [] then []
    else DrainSteps(ids, rounds[0].outcomes) + ([DoPass(rounds[0].env)] + RoundSteps(ids, rounds[1..]))
  }

  lemma {:induction false} RunConcat(s: Service, a: seq<Step>, b: seq<Step>, setup: Setup)
    requires WellOrdered(s)
    ensures Run(s, a + b, setup) == Run(Run(s, a, setup), b, setup)
    decreases |a|
  {
    if a == [] {
      assert a + b == b;
    } else {
      assert (a + b)[0] == a[0] && (a + b)[1..] == a[1..] + b;
      RunConcat(Next(s, a[0], setup), a[1..], b, setup);
    }
  }

  ghost function DrainOne(s: Service, id: TaskId, status: Status, setup: Setup): Service
    requires WellOrdered(s)
  {
    Next(Next(Next(s, DoPublish(id, status), setup), DoFinish(id), setup), DoRelease(id), setup)
  }

  /** What draining may change: running jobs stop, records only get more final, slots only disappear. */
  ghost predicate Calmer(s: Service, t: Service) {
    && t.order == s.order && t.jobs.Keys == s.jobs.Keys && t.records.Keys == s.records.Keys
    && PendingSet(t) == PendingSet(s)
    && (forall x :: x in s.jobs && !Active(s.jobs[x]) ==> !Active(t.jobs[x]))
    && (forall x :: x in s.records ==> t.records[x].dependsOn == s.records[x].dependsOn)
    && (forall x :: x in s.records && Terminal(s.records[x].status) ==> Terminal(t.records[x].status))
    && t.slots.Keys <= s.slots.Keys
  }

  lemma PublishCalms(s: Service, id: TaskId, status: Status, setup: Setup)
    requires WellOrdered(s) && id in s.jobs && Terminal(status)
    ensures var t := Next(s, DoPublish(id, status), setup);
      && t.jobs == s.jobs && t.slots == s.slots && Calmer(s, t)
      && (Active(s.jobs[id]) && id in s.records && CanBecome(s.records[id].status, status)
          ==> Terminal(t.records[id].status))
  {
  }

  lemma FinishCalms(s: Service, id: TaskId, setup: Setup)
    requires WellOrdered(s) && id in s.jobs
    requires Active(s.jobs[id]) && id in s.records ==> Terminal(s.records[id].status)
    ensures var t := Next(s, DoFinish(id), setup);
      && t.slots == s.slots && Calmer(s, t) && id in t.jobs && !Active(t.jobs[id])
  {
    var t := Next(s, DoFinish(id), setup);
    assert forall x :: x in s.jobs && x != id ==> t.jobs[x] == s.jobs[x];
    assert PendingSet(t) == PendingSet(s);
  }

  lemma PublishAndFinish(s: Service, id: TaskId, status: Status, setup: Setup)
    requires Inv(s, setup) && id in s.jobs && Terminal(status)
    ensures var t := Next(Next(s, DoPublish(id, status), setup), DoFinish(id), setup);
      Calmer(s, t) && id in t.jobs && !Active(t.jobs[id]) && t.slots == s.slots
  {
    var t1 := Next(s, DoPublish(id, status), setup);
    PublishCalms(s, id, status, setup);
    FinishCalms(t1, id, setup);
    CalmerTrans(s, t1, Next(t1, DoFinish(id), setup));
  }

  lemma DrainOneCalms(s: Service, id: TaskId, status: Status, setup: Setup)
    requires Inv(s, setup) && id in s.jobs && Terminal(status)
    ensures var t := DrainOne(s, id, status, setup);
      && Inv(t, setup) && Calmer(s, t) && id in t.jobs && !Active(t.jobs[id]) && id !in t.slots
  {
    var t1 := Next(s, DoPublish(id, status), setup);
    var t2 := Next(t1, DoFinish(id), setup);
    StepKeepsInv(s, DoPublish(id, status), setup);
    StepKeepsInv(t1, DoFinish(id), setup);
    StepKeepsInv(t2, DoRelease(id), setup);
    PublishAndFinish(s, id, status, setup);
    var t := Next(t2, DoRelease(id), setup);
    assert t == t2.(slots := Slots.Release(t2.slots, id, setup.owner));
    assert PendingSet(t) == PendingSet(t2);
  }

  lemma CalmerTrans(s: Service, t: Service, u: Service)
    requires Calmer(s, t) && Calmer(t, u)
    ensures Calmer(s, u)
  {
  }

  lemma DrainStepsUnfold(s: Service, ids: seq<TaskId>, outcomes: map<TaskId, Status>, setup: Setup)
    requires WellOrdered(s) && ids != []
    ensures Run(s, DrainSteps(ids, outcomes), setup)
         == Run(DrainOne(s, ids[0], OutcomeFor(outcomes, ids[0]), setup), DrainSteps(ids[1..], outcomes), setup)
  {
    var id, status := ids[0], OutcomeFor(outcomes, ids[0]);
    RunThree(s, DoPublish(id, status), DoFinish(id), DoRelease(id), setup);
    RunConcat(s, [DoPublish(id, status), DoFinish(id), DoRelease(id)], DrainSteps(ids[1..], outcomes), setup);
  }

  /** Nothing of `ids` runs or holds a slot. */
  ghost predicate Drained(t: Service, ids: seq<TaskId>) {
    forall x :: x in ids ==> x in t.jobs && !Active(t.jobs[x]) && x !in t.slots
  }

  lemma DrainedMore(t: Service, u: Service, ids: seq<TaskId>)
    requires ids != [] && ids[0] in t.jobs && !Active(t.jobs[ids[0]]) && ids[0] !in t.slots
    requires Calmer(t, u) && Drained(u, ids[1..])
    ensures Drained(u, ids)
  {
    assert ids == [ids[0]] + ids[1..];
  }

  /** Draining all jobs: nothing of `ids` runs or holds a slot afterwards. */
  lemma {:induction false} DrainAll(s: Service, ids: seq<TaskId>, outcomes: map<TaskId, Status>, setup: Setup)
    requires Inv(s, setup) && forall x :: x in ids ==> x in s.jobs
    ensures var t := Run(s, DrainSteps(ids, outcomes), setup);
      Inv(t, setup) && Calmer(s, t) && Drained(t, ids)
    decreases |ids|
  {
    if ids != [] {
      var t := DrainOne(s, ids[0], OutcomeFor(outcomes, ids[0]), setup);
      DrainOneCalms(s, ids[0], OutcomeFor(outcomes, ids[0]), setup);
      DrainStepsUnfold(s, ids, outcomes, setup);
      DrainAll(t, ids[1..], outcomes, setup);
      var u := Run(t, DrainSteps(ids[1..], outcomes), setup);
      CalmerTrans(s, t, u);
      DrainedMore(t, u, ids);
    }
  }

  lemma RunThree(s: Service, a: Step, b: Step, c: Step, setup: Setup)
    requires WellOrdered(s)
    ensures Run(s, [a, b, c], setup) == Next(Next(Next(s, a, setup), b, setup), c, setup)
  {
    assert [a, b, c][1..] == [b, c] && [b, c][1..] == [c] && [c][1..] == [];
    var t := Next(Next(s, a, setup), b, setup);
    assert Run(t, [c], setup) == Run(Next(t, c, setup), [], setup);
    assert Run(Next(s, a, setup), [b, c], setup) == Run(t, [c], setup);
  }

  /** Every slot in the table is held for a job of this service. */
  ghost predicate OnlyOurs(s: Service) {
    forall t :: t in s.slots ==> t in s.jobs
  }

  lemma CalmerKeepsClosed(s: Service, t: Service)
    requires Calmer(s, t) && Closed(s)
    ensures Closed(t)
  {
    forall x, d | NeedsFrom(t, x, d)
      ensures d in t.jobs
    {
      assert x in PendingSet(t);
      assert NeedsFrom(s, x, d);
    }
  }

  lemma PassKeepsClosed(s: Service, env: Env, setup: Setup)
    requires Inv(s, setup) && Closed(s)
    ensures Closed(Schedule(s, env).svc)
  {
    var t := Schedule(s, env).svc;
    PassFrame(s, env);
    PassOnlyShrinksPending(s, env, setup);
    forall x, d | NeedsFrom(t, x, d)
      ensures d in t.jobs
    {
      assert x in PendingSet(t) && x in PendingSet(s);
      assert d in s.jobs || NeedsFrom(s, x, d);
    }
  }

  lemma PassKeepsOnlyOurs(s: Service, env: Env, setup: Setup)
    requires Inv(s, setup) && OnlyOurs(s)
    ensures OnlyOurs(Schedule(s, env).svc)
  {
    PassIsVisitable(s);
    PassFrame(s, env);
    var p, ids, t := FirstPass(s), PendingOrder(s, s.order), Schedule(s, env).svc;
    LaunchesAreDistinct(p, ids, env);
    forall x | x in t.slots
      ensures x in t.jobs
    {
      SlotsOfPass(p, ids, env, x);
    }
  }

  ghost predicate ValidRound(r: Round, setup: Setup) {
    ValidEnv(r.env) && r.env.owner == setup.owner && r.env.limits == setup.limits
  }

  lemma RoundKeepsInv(s: Service, r: Round, setup: Setup)
    requires Inv(s, setup) && OnlyOurs(s) && Closed(s) && ValidRound(r, setup)
    ensures var m := Run(s, DrainSteps(s.order, r.outcomes), setup);
      && Inv(m, setup) && OnlyOurs(m) && Closed(m) && m.order == s.order && PendingSet(m) == PendingSet(s)
      && NothingRuns(m) && m.slots == map[]
  {
    var m := Run(s, DrainSteps(s.order, r.outcomes), setup);
    DrainAll(s, s.order, r.outcomes, setup);
    CalmerKeepsClosed(s, m);
    assert m.slots.Keys == {};
  }

  lemma PassKeepsAssumptions(m: Service, env: Env, setup: Setup)
    requires Inv(m, setup) && OnlyOurs(m) && Closed(m) && env.owner == setup.owner && env.limits == setup.limits
    ensures var t := Schedule(m, env).svc; Inv(t, setup) && OnlyOurs(t) && Closed(t) && t.order == m.order
  {
    PassKeepsInv(m, env, setup);
    PassKeepsClosed(m, env, setup);
    PassKeepsOnlyOurs(m, env, setup);
    PassFrame(m, env);
  }

  lemma IdlePassMakesProgress(m: Service, env: Env, setup: Setup)
    requires Inv(m, setup) && ValidEnv(env) && Closed(m) && NothingRuns(m) && m.slots == map[]
    ensures var t := Schedule(m, env).svc;
      && |PendingSet(t)| <= |PendingSet(m)|
      && (PendingSet(m) != {} ==> |PendingSet(t)| < |PendingSet(m)|)
  {
    PassOnlyShrinksPending(m, env, setup);
    SubsetSize(PendingSet(Schedule(m, env).svc), PendingSet(m));
    if PendingSet(m) != {} {
      NoDeadlock(m, env, setup);
      ProperSubsetSize(PendingSet(Schedule(m, env).svc), PendingSet(m));
    }
  }

  lemma ProperSubsetSize(small: set<TaskId>, big: set<TaskId>)
    requires small < big
    ensures |small| < |big|
  {
    var x :| x in big && x !in small;
    SubsetSize(small, big - {x});
  }

  /** Bounded termination: after as many rounds as there are pending jobs, none is pending. */
  lemma {:induction false} RoundsTerminate(s: Service, rounds: seq<Round>, setup: Setup)
    requires Inv(s, setup) && OnlyOurs(s) && Closed(s)
    requires forall k :: 0 <= k < |rounds| ==> ValidRound(rounds[k], setup)
    requires |rounds| >= |PendingSet(s)|
    ensures var t := Run(s, RoundSteps(s.order, rounds), setup);
      Inv(t, setup) && t.order == s.order && PendingSet(t) == {}
    decreases |rounds|
  {
    if rounds == [] {
      assert PendingSet(s) == {};
      assert Run(s, RoundSteps(s.order, []), setup) == s;
    } else {
      var drain, pass := DrainSteps(s.order, rounds[0].outcomes), DoPass(rounds[0].env);
      var rest := RoundSteps(s.order, rounds[1..]);
      var m := Run(s, drain, setup);
      var t := Next(m, pass, setup);
      RoundKeepsInv(s, rounds[0], setup);
      PassKeepsAssumptions(m, rounds[0].env, setup);
      IdlePassMakesProgress(m, rounds[0].env, setup);
      RunConcat(s, drain, [pass] + rest, setup);
      assert ([pass] + rest)[1..] == rest;
      RoundsTerminate(t, rounds[1..], setup);
    }
  }

  /** The steps of all rounds, with the jobs launched last finishing as well. */
  function AllSteps(ids: seq<TaskId>, rounds: seq<Round>, last: map<TaskId, Status>): seq<Step> {
    RoundSteps(ids, rounds) + DrainSteps(ids, last)
  }

  lemma AllStepsDrain(s: Service, rounds: seq<Round>, last: map<TaskId, Status>, setup: Setup)
    requires Inv(s, setup) && OnlyOurs(s) && Closed(s)
    requires forall k :: 0 <= k < |rounds| ==> ValidRound(rounds[k], setup)
    requires |rounds| >= |PendingSet(s)|
    ensures var t := Run(s, AllSteps(s.order, rounds, last), setup);
      Inv(t, setup) && t.order == s.order && PendingSet(t) == {} && NothingRuns(t)
  {
    var m := Run(s, RoundSteps(s.order, rounds), setup);
    RoundsTerminate(s, rounds, setup);
    DrainAll(m, s.order, last, setup);
    RunConcat(s, RoundSteps(s.order, rounds), DrainSteps(s.order, last), setup);
  }

  /** Whole-run termination: once the last launched jobs finish too, every submitted job has ended, with a terminal
      record unless garbage collection has removed it. */
  lemma EveryJobEnds(s: Service, rounds: seq<Round>, last: map<TaskId, Status>, setup: Setup, x: TaskId)
    requires Inv(s, setup) && OnlyOurs(s) && Closed(s)
    requires forall k :: 0 <= k < |rounds| ==> ValidRound(rounds[k], setup)
    requires |rounds| >= |PendingSet(s)| && x in s.jobs
    ensures var t := Run(s, AllSteps(s.order, rounds, last), setup);
      && x in t.jobs && (t.jobs[x].done || t.jobs[x].result.Some?)
      && (x in t.records ==> Terminal(t.records[x].status))
  {
    AllStepsDrain(s, rounds, last, setup);
    var t := Run(s, AllSteps(s.order, rounds, last), setup);
    assert x in t.order;
    assert JobRecorded(t, x) && x !in PendingSet(t);
  }

  /** And the jobs behind a failed dependency, however far up the chain, have ended blocked, unlaunched. */
  lemma DoomedJobsEndBlocked(s: Service, rounds: seq<Round>, last: map<TaskId, Status>, setup: Setup, i: nat)
    requires Inv(s, setup) && OnlyOurs(s) && Closed(s)
    requires forall k :: 0 <= k < |rounds| ==> ValidRound(rounds[k], setup)
    requires |rounds| >= |PendingSet(s)| && i < |s.order| && Doomed(s, i)
    ensures var t, x := Run(s, AllSteps(s.order, rounds, last), setup), s.order[i];
      x in t.jobs && !t.jobs[x].launched && t.jobs[x].result == Some(Blocked)
  {
    AllStepsDrain(s, rounds, last, setup);
    NoCancelsInRounds(s.order, rounds);
    NoCancelsInDrain(s.order, last);
    DoomedNeverLaunches(s, AllSteps(s.order, rounds, last), setup, i);
    assert s.order[i] !in PendingSet(Run(s, AllSteps(s.order, rounds, last), setup));
  }

  lemma {:induction false} NoCancelsInDrain(ids: seq<TaskId>, outcomes: map<TaskId, Status>)
    ensures forall k :: 0 <= k < |DrainSteps(ids, outcomes)| ==> !DrainSteps(ids, outcomes)[k].DoCancel?
    decreases |ids|
  {
    if ids != [] {
      NoCancelsInDrain(ids[1..], outcomes);
    }
  }

  lemma {:induction false} NoCancelsInRounds(ids: seq<TaskId>, rounds: seq<Round>)
    ensures forall k :: 0 <= k < |RoundSteps(ids, rounds)| ==> !RoundSteps(ids, rounds)[k].DoCancel?
    decreases |rounds|
  {
    if rounds != [] {
      NoCancelsInDrain(ids, rounds[0].outcomes);
      NoCancelsInRounds(ids, rounds[1..]);
    }
  }

  // ---------------------------------------------------------------- any run at all

  ghost function ActiveSet(s: Service): set<TaskId> {
    set x | x in s.jobs && Active(s.jobs[x])
  }

  /** What is left to do: a pending job may still be launched and finish, a running one finish. */
  ghost function Weight(s: Service): nat {
    2 * |PendingSet(s)| + |ActiveSet(s)|
  }

  /** A step that counts: a running job finishes, or a pass finds nothing running and every slot lapsed. */
  ghost predicate Counts(s: Service, step: Step, setup: Setup) {
    && Enabled(s, step, setup)
    && (|| step.DoFinish?
        || (step.DoPass? && ValidEnv(step.env) && NothingRuns(s) && Slots.Unexpired(s.slots, step.env.now) == map[]))
  }

  /** How many steps of a run count. */
  ghost function Moves(s: Service, steps: seq<Step>, setup: Setup): nat
    requires WellOrdered(s)
    decreases |steps|
  {
    if steps == [] then 0
    else (if Counts(s, steps[0], setup) then 1 else 0) + Moves(Next(s, steps[0], setup), steps[1..], setup)
  }

  predicate NoSubmits(steps: seq<Step>) {
    forall k :: 0 <= k < |steps| ==> !steps[k].DoSubmit?
  }

  lemma QuietLightens(s: Service, t: Service)
    requires Quiet(s, t)
    ensures PendingSet(t) <= PendingSet(s) && ActiveSet(t) <= ActiveSet(s) && Weight(t) <= Weight(s)
  {
    forall x | x in t.jobs
      ensures Pending(t.jobs[x]) ==> Pending(s.jobs[x])
      ensures Active(t.jobs[x]) ==> Active(s.jobs[x])
    {
      assert QuietEffect(s, t, x);
    }
    SubsetSize(PendingSet(t), PendingSet(s));
    SubsetSize(ActiveSet(t), ActiveSet(s));
  }

  lemma FinishLightens(s: Service, id: TaskId)
    requires id in s.jobs && Active(s.jobs[id])
    ensures Weight(s.(jobs := s.jobs[id := s.jobs[id].(done := true)])) < Weight(s)
  {
    var t := s.(jobs := s.jobs[id := s.jobs[id].(done := true)]);
    assert PendingSet(t) == PendingSet(s);
    assert id in ActiveSet(s) && id !in ActiveSet(t);
    ProperSubsetSize(ActiveSet(t), ActiveSet(s));
  }

  /** What a pass makes running was pending. */
  lemma PassLightens(s: Service, env: Env, setup: Setup)
    requires Inv(s, setup)
    ensures var t := Schedule(s, env).svc;
      Weight(t) <= Weight(s) && (PendingSet(t) < PendingSet(s) ==> Weight(t) < Weight(s))
  {
    var t := Schedule(s, env).svc;
    PassFrame(s, env);
    PassOnlyShrinksPending(s, env, setup);
    forall x | x in ActiveSet(t)
      ensures x in ActiveSet(s) || x in PendingSet(s) - PendingSet(t)
    {
      PassJobByJob(s, env, x);
    }
    TwoForOne(PendingSet(s), PendingSet(t), ActiveSet(s), ActiveSet(t));
  }

  lemma TwoForOne(pending: set<TaskId>, left: set<TaskId>, active: set<TaskId>, now: set<TaskId>)
    requires left <= pending && now <= active + (pending - left)
    ensures 2 * |left| + |now| <= 2 * |pending| + |active|
    ensures left < pending ==> 2 * |left| + |now| < 2 * |pending| + |active|
  {
    SubsetSize(now, active + (pending - left));
    assert |active + (pending - left)| <= |active| + |pending - left|;
    assert pending == left + (pending - left);
    if left < pending { ProperSubsetSize(left, pending); }
  }

  /** Nothing but a submission makes more to do, and a step that counts makes less. */
  lemma StepLightens(s: Service, step: Step, setup: Setup)
    requires Inv(s, setup) && Closed(s) && !step.DoSubmit?
    ensures Weight(Next(s, step, setup)) <= Weight(s)
    ensures Counts(s, step, setup) && Weight(s) > 0 ==> Weight(Next(s, step, setup)) < Weight(s)
  {
    if step.DoPass? {
      if Enabled(s, step, setup) {
        PassLightens(s, step.env, setup);
        if Counts(s, step, setup) && Weight(s) > 0 {
          assert ActiveSet(s) == {};
          NoDeadlock(s, step.env, setup);
        }
      }
    } else {
      QuietStep(s, step, setup);
      QuietLightens(s, Next(s, step, setup));
      if Counts(s, step, setup) { FinishLightens(s, step.id); }
    }
  }

  /** A task of another process that this service depends on does not become unfinished. */
  lemma OthersStayFinished(s: Service, step: Step, setup: Setup, x: TaskId, d: TaskId)
    requires WellOrdered(s) && !step.DoSubmit? && !step.DoPass?
    requires x in s.jobs && x in s.records && d in s.records[x].dependsOn && d !in s.jobs
    ensures Unfinished(Next(s, step, setup).records, d) ==> Unfinished(s.records, d)
  {
  }

  /** An unfinished dependency after a quiet step was there before it. */
  lemma QuietKeepsClosed(s: Service, step: Step, setup: Setup)
    requires Inv(s, setup) && Closed(s) && !step.DoSubmit? && !step.DoPass?
    ensures Closed(Next(s, step, setup))
  {
    var t := Next(s, step, setup);
    QuietStep(s, step, setup);
    forall x, d | NeedsFrom(t, x, d)
      ensures d in t.jobs
    {
      QuietNeeds(s, t, x, d);
      if d !in s.jobs {
        OthersStayFinished(s, step, setup, x, d);
        assert NeedsFrom(s, x, d);
      }
    }
  }

  lemma QuietNeeds(s: Service, t: Service, x: TaskId, d: TaskId)
    requires Quiet(s, t) && NeedsFrom(t, x, d)
    ensures x in s.jobs && Pending(s.jobs[x]) && x in s.records && d in s.records[x].dependsOn
  {
    assert QuietEffect(s, t, x);
  }

  lemma StepKeepsClosed(s: Service, step: Step, setup: Setup)
    requires Inv(s, setup) && Closed(s) && !step.DoSubmit?
    ensures Closed(Next(s, step, setup))
  {
    if !step.DoPass? {
      QuietKeepsClosed(s, step, setup);
    } else if Enabled(s, step, setup) {
      PassKeepsClosed(s, step.env, setup);
    }
  }

  /** Along any run without submissions, every step that counts is paid for by what was left to do. */
  lemma {:induction false} MovesAreBounded(s: Service, steps: seq<Step>, setup: Setup)
    requires Inv(s, setup) && Closed(s) && NoSubmits(steps)
    ensures var t := Run(s, steps, setup);
      Weight(t) <= Weight(s) && (Weight(t) > 0 ==> Weight(t) + Moves(s, steps, setup) <= Weight(s))
    decreases |steps|
  {
    if steps != [] {
      var u := Next(s, steps[0], setup);
      StepKeepsInv(s, steps[0], setup);
      StepKeepsClosed(s, steps[0], setup);
      StepLightens(s, steps[0], setup);
      MovesAreBounded(u, steps[1..], setup);
    }
  }

  /** So in any run, however its steps interleave, with as many that count as there was left to do, every job ends:
      jobs may finish one by one, in any order, among passes, renewals, cancellations and other processes. */
  lemma EveryJobEndsInEveryBusyRun(s: Service, steps: seq<Step>, setup: Setup, x: TaskId)
    requires Inv(s, setup) && Closed(s) && NoSubmits(steps) && x in s.jobs
    requires Moves(s, steps, setup) >= Weight(s)
    ensures var t := Run(s, steps, setup);
      && x in t.jobs && (t.jobs[x].done || t.jobs[x].result.Some?)
      && (x in t.records ==> Terminal(t.records[x].status))
  {
    var t := Run(s, steps, setup);
    MovesAreBounded(s, steps, setup);
    InvHoldsInEveryRun(s, steps, setup);
    RunKeepsOrder(s, steps, setup);
    assert x in s.order && s.order == t.order[..|s.order|];
    assert x in t.order;
    NothingIsLeft(t, x);
    assert JobRecorded(t, x);
  }

  lemma NothingIsLeft(t: Service, x: TaskId)
    requires Weight(t) == 0 && x in t.jobs
    ensures !Pending(t.jobs[x]) && !Active(t.jobs[x])
  {
    assert x !in PendingSet(t) && x !in ActiveSet(t);
  }

  /** A running job can always be brought to finish, which counts. */
  lemma RunningJobsCanFinish(s: Service, id: TaskId, setup: Setup)
    requires Inv(s, setup) && id in s.jobs && Active(s.jobs[id])
    ensures Counts(Next(s, DoPublish(id, Error), setup), DoFinish(id), setup)
  {
  }

  /** By some time every slot has lapsed. */
  lemma {:induction false} SlotsLapse(slots: Slots.Table) returns (now: Instant)
    ensures Slots.Unexpired(slots, now) == map[]
    decreases |slots.Keys|
  {
    if slots == map[] {
      now := 0;
    } else {
      var t :| t in slots;
      var less := slots - {t};
      assert less.Keys == slots.Keys - {t};
      var before := SlotsLapse(less);
      now := if before >= slots[t].expiresAt then before else slots[t].expiresAt;
      forall x | x in slots ensures slots[x].expiresAt <= now {
        assert x != t && slots[x].expiresAt > before ==> x in Slots.Unexpired(less, before);
      }
    }
  }

  /** The pass of an idle service, late enough for every slot to have lapsed, counts. */
  lemma IdlePassCounts(s: Service, setup: Setup, now: Instant)
    requires NothingRuns(s) && Slots.ValidLimits(setup.limits) && Slots.Unexpired(s.slots, now) == map[]
    ensures Counts(s, DoPass(Env(setup.limits, setup.owner, now, 1, {}, {})), setup)
  {
  }

  lemma PublishAndFinishMoves(s: Service, id: TaskId, rest: seq<Step>, setup: Setup)
    requires Inv(s, setup) && id in s.jobs && Active(s.jobs[id]) && NoSubmits(rest)
    ensures var steps := [DoPublish(id, Error), DoFinish(id)] + rest;
      var t := Next(Next(s, DoPublish(id, Error), setup), DoFinish(id), setup);
      NoSubmits(steps) && Moves(s, steps, setup) >= 1 + Moves(t, rest, setup)
  {
    var publish, finish := DoPublish(id, Error), DoFinish(id);
    RunningJobsCanFinish(s, id, setup);
    var u := Next(s, publish, setup);
    var steps := [publish, finish] + rest;
    assert steps[1..] == [finish] + rest && ([finish] + rest)[1..] == rest;
    assert Moves(u, [finish] + rest, setup) == 1 + Moves(Next(u, finish, setup), rest, setup);
  }

  lemma PassMoves(s: Service, pass: Step, rest: seq<Step>, setup: Setup)
    requires WellOrdered(s) && pass.DoPass? && Counts(s, pass, setup) && NoSubmits(rest)
    ensures NoSubmits([pass] + rest) && Moves(s, [pass] + rest, setup) == 1 + Moves(Next(s, pass, setup), rest, setup)
  {
    assert ([pass] + rest)[1..] == rest;
  }

  /** There is always a run with as many steps that count as one likes. */
  lemma {:induction false} BusyRunsExist(s: Service, n: nat, setup: Setup) returns (steps: seq<Step>)
    requires Inv(s, setup) && Slots.ValidLimits(setup.limits)
    ensures NoSubmits(steps) && Moves(s, steps, setup) >= n
    decreases n
  {
    if n == 0 {
      steps := [];
    } else if x :| x in s.jobs && Active(s.jobs[x]) {
      StepKeepsInv(s, DoPublish(x, Error), setup);
      var u := Next(s, DoPublish(x, Error), setup);
      StepKeepsInv(u, DoFinish(x), setup);
      var rest := BusyRunsExist(Next(u, DoFinish(x), setup), n - 1, setup);
      PublishAndFinishMoves(s, x, rest, setup);
      steps := [DoPublish(x, Error), DoFinish(x)] + rest;
    } else {
      var now := SlotsLapse(s.slots);
      var pass := DoPass(Env(setup.limits, setup.owner, now, 1, {}, {}));
      IdlePassCounts(s, setup, now);
      StepKeepsInv(s, pass, setup);
      var rest := BusyRunsExist(Next(s, pass, setup), n - 1, setup);
      PassMoves(s, pass, rest, setup);
      steps := [pass] + rest;
    }
  }

  /** So wherever a service stands, some run without submissions brings every one of its jobs to an end. */
  lemma EverythingCanEnd(s: Service, setup: Setup) returns (steps: seq<Step>)
    requires Inv(s, setup) && Closed(s) && Slots.ValidLimits(setup.limits)
    ensures NoSubmits(steps) && Moves(s, steps, setup) >= Weight(s) && Weight(Run(s, steps, setup)) == 0
  {
    steps := BusyRunsExist(s, Weight(s), setup);
    MovesAreBounded(s, steps, setup);
  }
}
