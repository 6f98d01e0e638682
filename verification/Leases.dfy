/** Agent leases: which process may run a turn on a session. The table part is the agent store; `LeaseKeeper` is
    the bookkeeping one agent service does around it. */
module Leases {
  import opened Wrappers

  datatype Activity = Starting | Running | Idle | Interrupted | Failed | Closed

  datatype Session = Session(workspace: string, state: Activity)

  datatype Lease = Lease(owner: string, heartbeatAt: Instant, expiresAt: Instant)

  datatype Db = Db(sessions: map<string, Session>, leases: map<string, Lease>)

  /** `Rejected` is the ValueError of a bad argument or an unknown session. */
  datatype Reply = Held | Denied | Rejected

  predicate HeldByOther(db: Db, session: string, owner: string, now: Instant) {
    session in db.leases && db.leases[session].expiresAt > now && db.leases[session].owner != owner
  }

  function Acquire(db: Db, session: string, owner: string, ttl: int, now: Instant): (Db, Reply) {
    if ttl <= 0 || session !in db.sessions then (db, Rejected)
    else if HeldByOther(db, session, owner, now) then (db, Denied)
    else (db.(leases := db.leases[session := Lease(owner, now, now + ttl)]), Held)
  }

  predicate Owns(db: Db, session: string, owner: string) {
    session in db.leases && db.leases[session].owner == owner
  }

  /** A heartbeat renews even a lapsed lease, as long as nobody else took the row. */
  function Heartbeat(db: Db, session: string, owner: string, ttl: int, now: Instant): (Db, Reply) {
    if ttl <= 0 then (db, Rejected)
    else if !Owns(db, session, owner) then (db, Denied)
    else (db.(leases := db.leases[session := Lease(owner, now, now + ttl)]), Held)
  }

  function Release(db: Db, session: string, owner: string): (Db, Reply) {
    if Owns(db, session, owner) then (db.(leases := db.leases - {session}), Held) else (db, Denied)
  }

  /** The turns of one agent service: the owner id it handed to the turn it is running on each session. */
  type Turns = map<string, string>

  /** A turn starts only with the durable lease, and only if this service runs no other turn on the session; the lease
      just taken is given back otherwise. */
  function Begin(db: Db, turns: Turns, session: string, owner: string, ttl: int, now: Instant): (Db, Turns, bool) {
    var (held, reply) := Acquire(db, session, owner, ttl, now);
    if reply != Held then (db, turns, false)
    else if session in turns && turns[session] != owner then (Release(held, session, owner).0, turns, false)
    else (held, turns[session := owner], true)
  }

  function Forget(turns: Turns, session: string, owner: string): Turns {
    if session in turns && turns[session] == owner then turns - {session} else turns
  }

  function End(db: Db, turns: Turns, session: string, owner: string): (Db, Turns) {
    (Release(db, session, owner).0, Forget(turns, session, owner))
  }

  /** The heartbeat of one turn; a turn that has lost its lease is forgotten. */
  function BeatTurn(db: Db, turns: Turns, session: string, owner: string, ttl: int, now: Instant): (Db, Turns) {
    var (after, reply) := Heartbeat(db, session, owner, ttl, now);
    (after, if reply.Held? then turns else Forget(turns, session, owner))
  }

  predicate Active(state: Activity) {
    state == Starting || state == Running
  }

  /** The sessions whose turn has lost its owner, seen at time `current`. */
  function Lapsed(db: Db, workspace: Option<string>, current: Instant): set<string> {
    set s | s in db.leases && s in db.sessions && Active(db.sessions[s].state)
            && db.leases[s].expiresAt <= current
            && (workspace.Some? ==> db.sessions[s].workspace == workspace.value)
  }

  function Reconcile(db: Db, workspace: Option<string>, current: Instant): Db {
    InterruptAll(db, Lapsed(db, workspace, current))
  }

  /** The sessions in `gone` interrupted, and their leases dropped. */
  function InterruptAll(db: Db, gone: set<string>): Db {
    Db(map s | s in db.sessions :: if s in gone then db.sessions[s].(state := Interrupted) else db.sessions[s],
       db.leases - gone)
  }

  lemma InterruptOneMore(db: Db, gone: set<string>, s: string)
    requires s in db.sessions && s !in gone
    ensures var so := InterruptAll(db, gone);
            InterruptAll(db, gone + {s}) == Db(so.sessions[s := so.sessions[s].(state := Interrupted)], so.leases - {s})
  {
    assert db.leases - (gone + {s}) == db.leases - gone - {s};
  }

  lemma InterruptNone(db: Db)
    ensures InterruptAll(db, {}) == db
  {
  }

  /** Session `s`, by the tables alone, is in a turn whose lease has run out at time `current`, and in scope. */
  ghost predicate Abandoned(db: Db, workspace: Option<string>, current: Instant, s: string) {
    && s in db.sessions && s in db.leases && db.leases[s].expiresAt <= current
    && (db.sessions[s].state == Starting || db.sessions[s].state == Running)
    && (workspace == None || workspace == Some(db.sessions[s].workspace))
  }

  /** From `db` to `after`, exactly the abandoned sessions have been interrupted and have lost their leases. */
  ghost predicate OnlyAbandonedGo(db: Db, after: Db, workspace: Option<string>, current: Instant) {
    && after.sessions.Keys == db.sessions.Keys
    && (forall s :: s in db.sessions ==>
          after.sessions[s].workspace == db.sessions[s].workspace
          && after.sessions[s].state
             == if Abandoned(db, workspace, current, s) then Interrupted else db.sessions[s].state)
    && (forall s :: s in after.leases <==> s in db.leases && !Abandoned(db, workspace, current, s))
    && (forall s :: s in after.leases ==> after.leases[s] == db.leases[s])
  }

  lemma ReconcileTakesTheAbandoned(db: Db, workspace: Option<string>, current: Instant)
    ensures OnlyAbandonedGo(db, Reconcile(db, workspace, current), workspace, current)
  {
    forall s
      ensures s in Lapsed(db, workspace, current) <==> Abandoned(db, workspace, current, s)
    {
    }
  }

  /** Who gets a lease, and what each call leaves: by the tables alone. */
  lemma AcquiresExactlyWhen(db: Db, session: string, owner: string, ttl: int, now: Instant)
    ensures var (after, reply) := Acquire(db, session, owner, ttl, now);
      && (reply == Held <==>
            && ttl > 0 && session in db.sessions
            && (session in db.leases && db.leases[session].owner != owner ==> db.leases[session].expiresAt <= now))
      && (reply == Rejected <==> ttl <= 0 || session !in db.sessions)
      && after.sessions == db.sessions
      && after.leases == if reply == Held then db.leases[session := Lease(owner, now, now + ttl)] else db.leases
  {
  }

  lemma RenewsExactlyWhen(db: Db, session: string, owner: string, ttl: int, now: Instant)
    ensures var (after, reply) := Heartbeat(db, session, owner, ttl, now);
      && (reply == Held <==> ttl > 0 && session in db.leases && db.leases[session].owner == owner)
      && (reply == Rejected <==> ttl <= 0)
      && after.sessions == db.sessions
      && after.leases == if reply == Held then db.leases[session := Lease(owner, now, now + ttl)] else db.leases
  {
  }

  lemma ReleasesExactlyWhen(db: Db, session: string, owner: string)
    ensures var (after, reply) := Release(db, session, owner);
      && (reply == Held <==> session in db.leases && db.leases[session].owner == owner) && reply != Rejected
      && after.sessions == db.sessions
      && after.leases == if reply == Held then db.leases - {session} else db.leases
  {
  }

  /** A turn begins exactly when its lease is free and the service runs no other on the session; then both say so. An
      end, or a beat that finds the lease lost, takes it off the books, and nothing else does. */
  lemma TurnsByTheBooks(db: Db, turns: Turns, session: string, owner: string, ttl: int, now: Instant)
    ensures var (after, books, begun) := Begin(db, turns, session, owner, ttl, now);
      && (begun <==>
            && ttl > 0 && session in db.sessions
            && (session in db.leases && db.leases[session].owner != owner ==> db.leases[session].expiresAt <= now)
            && (session in turns ==> turns[session] == owner))
      && (begun ==> books == turns[session := owner]
                    && after == Db(db.sessions, db.leases[session := Lease(owner, now, now + ttl)]))
      && (!begun ==> books == turns && (after == db || after == Db(db.sessions, db.leases - {session})))
    ensures var (after, books) := End(db, turns, session, owner);
      && books == (if session in turns && turns[session] == owner then turns - {session} else turns)
      && after == if session in db.leases && db.leases[session].owner == owner
                  then Db(db.sessions, db.leases - {session}) else db
    ensures var (after, books) := BeatTurn(db, turns, session, owner, ttl, now);
      var kept := ttl > 0 && session in db.leases && db.leases[session].owner == owner;
      && after == (if kept then Db(db.sessions, db.leases[session := Lease(owner, now, now + ttl)]) else db)
      && books == if !kept && session in turns && turns[session] == owner then turns - {session} else turns
  {
  }

  class LeaseStore {
    var sessions: map<string, Session>
    var leases: map<string, Lease>

    constructor ()
      ensures Table() == Db(map[], map[])
    {
      sessions, leases := map[], map[];
    }

    function Table(): Db
      reads this
    {
      Db(sessions, leases)
    }

    method AcquireLease(session: string, owner: string, ttl: int, now: Instant) returns (reply: Reply)
      modifies this
      ensures (Table(), reply) == Acquire(old(Table()), session, owner, ttl, now)
    {
      if ttl <= 0 || session !in sessions {
        return Rejected;
      }
      if session in leases && leases[session].expiresAt > now && leases[session].owner != owner {
        return Denied;
      }
      leases := leases[session := Lease(owner, now, now + ttl)];
      return Held;
    }

    method Beat(session: string, owner: string, ttl: int, now: Instant) returns (reply: Reply)
      modifies this
      ensures (Table(), reply) == Heartbeat(old(Table()), session, owner, ttl, now)
    {
      if ttl <= 0 {
        return Rejected;
      }
      if session in leases && leases[session].owner == owner {
        leases := leases[session := Lease(owner, now, now + ttl)];
        return Held;
      }
      return Denied;
    }

    method ReleaseLease(session: string, owner: string) returns (reply: Reply)
      modifies this
      ensures (Table(), reply) == Release(old(Table()), session, owner)
    {
      if session in leases && leases[session].owner == owner {
        leases := leases - {session};
        return Held;
      }
      return Denied;
    }

    /** One pass over the rows the query returned, interrupting the session and dropping the lease of each. */
    method ReconcileExpired(workspace: Option<string>, current: Instant) returns (ids: seq<string>)
      modifies this
      ensures Table() == Reconcile(old(Table()), workspace, current)
      ensures OnlyAbandonedGo(old(Table()), Table(), workspace, current)
      ensures forall s :: s in ids <==> s in Lapsed(old(Table()), workspace, current)
      ensures |ids| == |Lapsed(old(Table()), workspace, current)|
    {
      ids := [];
      ghost var before := Table();
      var lapsed := Lapsed(Table(), workspace, current);
      var todo := lapsed;
      InterruptNone(before);
      assert lapsed - todo == {};
      while todo != {}
        invariant todo <= lapsed <= before.sessions.Keys
        invariant forall s :: s in ids <==> s in lapsed - todo
        invariant |ids| + |todo| == |lapsed|
        invariant Table() == InterruptAll(before, lapsed - todo)
        decreases |todo|
      {
        var session :| session in todo;
        InterruptOneMore(before, lapsed - todo, session);
        assert lapsed - (todo - {session}) == lapsed - todo + {session};
        sessions := sessions[session := sessions[session].(state := Interrupted)];
        leases := leases - {session};
        ids := ids + [session];
        todo := todo - {session};
      }
      assert lapsed - todo == lapsed;
      ReconcileTakesTheAbandoned(before, workspace, current);
    }
  }

  /** A tick of the heartbeat in progress: of the turns `leased` at its start, those in `todo` are still to be
      beaten. */
  ghost predicate Ticked(before: Db, leased: Turns, todo: set<string>, db: Db, turns: Turns, ttl: int, now: Instant) {
    && db.sessions == before.sessions && db.leases.Keys == before.leases.Keys
    && turns == (map s | s in leased && (s in todo || Owns(before, s, leased[s])) :: leased[s])
    && forall s :: s in before.leases ==>
         db.leases[s] == if s in turns && s !in todo then Lease(leased[s], now, now + ttl) else before.leases[s]
  }

  lemma TickOne(
      before: Db, leased: Turns, todo: set<string>, session: string, db: Db, turns: Turns, ttl: int, now: Instant)
    requires ttl > 0 && session in todo && todo <= leased.Keys && Ticked(before, leased, todo, db, turns, ttl, now)
    ensures var (db1, turns1) := BeatTurn(db, turns, session, leased[session], ttl, now);
            Ticked(before, leased, todo - {session}, db1, turns1, ttl, now)
  {
    assert session in before.leases ==> db.leases[session] == before.leases[session];
    assert Owns(db, session, leased[session]) <==> Owns(before, session, leased[session]);
  }

  /** The lease side of one agent service: which owner id it handed to the turn it is running on each session. */
  class LeaseKeeper {
    const store: LeaseStore
    const ttl: int
    var leaseOwners: Turns

    constructor (store: LeaseStore, ttl: int)
      ensures this.store == store && this.ttl == ttl && leaseOwners == map[]
    {
      this.store, this.ttl := store, ttl;
      leaseOwners := map[];
    }

    /** A refused turn leaves nobody's lease but, at most, a lapsed one behind. */
    method BeginLease(session: string, owner: string, now: Instant) returns (begun: bool)
      modifies this, store
      ensures (store.Table(), leaseOwners, begun)
           == Begin(old(store.Table()), old(leaseOwners), session, owner, ttl, now)
      ensures !begun ==> leaseOwners == old(leaseOwners)
                         && (store.Table() == old(store.Table())
                             || (old(Acquire(store.Table(), session, owner, ttl, now)).1.Held?
                                 && !old(HeldByOther(store.Table(), session, owner, now))
                                 && store.Table() == Db(old(store.sessions), old(store.leases) - {session})))
    {
      var reply := store.AcquireLease(session, owner, ttl, now);
      if reply != Held {
        return false;
      }
      if session in leaseOwners && leaseOwners[session] != owner {
        reply := store.ReleaseLease(session, owner);
        return false;
      }
      leaseOwners := leaseOwners[session := owner];
      return true;
    }

    /** The durable lease goes first; the in-process marker goes only if it is still this turn's. */
    method EndLease(session: string, owner: string)
      modifies this, store
      ensures (store.Table(), leaseOwners) == End(old(store.Table()), old(leaseOwners), session, owner)
      ensures !Owns(store.Table(), session, owner)
    {
      var _ := store.ReleaseLease(session, owner);
      if session in leaseOwners && leaseOwners[session] == owner {
        leaseOwners := leaseOwners - {session};
      }
    }

    /** One tick of the heartbeat thread: every turn still named in its row is renewed, every other is dropped. */
    method HeartbeatAll(now: Instant)
      requires ttl > 0
      modifies this, store
      ensures leaseOwners == map s | s in old(leaseOwners) && Owns(old(store.Table()), s, old(leaseOwners)[s])
                                   :: old(leaseOwners)[s]
      ensures store.sessions == old(store.sessions) && store.leases.Keys == old(store.leases).Keys
      ensures forall s :: s in store.leases ==>
        store.leases[s] == if s in leaseOwners then Lease(leaseOwners[s], now, now + ttl) else old(store.leases)[s]
    {
      var leased := leaseOwners;
      ghost var before := store.Table();
      var todo := leased.Keys;
      assert leased == map s | s in leased && (s in todo || Owns(before, s, leased[s])) :: leased[s];
      while todo != {}
        invariant todo <= leased.Keys && Ticked(before, leased, todo, store.Table(), leaseOwners, ttl, now)
        decreases |todo|
      {
        var session :| session in todo;
        TickOne(before, leased, todo, session, store.Table(), leaseOwners, ttl, now);
        BeatOne(session, leased[session], now);
        todo := todo - {session};
      }
    }

    /** The heartbeat of one session; a lease that is lost is forgotten. */
    method BeatOne(session: string, owner: string, now: Instant)
      modifies this, store
      ensures (store.Table(), leaseOwners) == BeatTurn(old(store.Table()), old(leaseOwners), session, owner, ttl, now)
    {
      var reply := store.Beat(session, owner, ttl, now);
      if reply != Held {
        if session in leaseOwners && leaseOwners[session] == owner {
          leaseOwners := leaseOwners - {session};
        }
      }
    }
  }

  // ---------------------------------------------------------------- runs

  datatype Step =
    | DoCreate(session: string, workspace: string)
    | DoSetState(session: string, state: Activity)
    | DoAcquire(session: string, owner: string, ttl: int)
    | DoHeartbeat(session: string, owner: string, ttl: int)
    | DoRelease(session: string, owner: string)
    | DoReconcile(scope: Option<string>, lag: nat)
    | Elapse(ticks: nat)

  /** The tables, the clock, and the expiry of the last grant each owner got and has not released. */
  datatype World = World(db: Db, clock: Instant, grants: map<(string, string), Instant>)

  const Start := World(Db(map[], map[]), 0, map[])

  function Granting(w: World, session: string, owner: string, ttl: int, answer: (Db, Reply)): World {
    if answer.1.Held? then w.(db := answer.0, grants := w.grants[(session, owner) := w.clock + ttl])
    else w.(db := answer.0)
  }

  /** `lag` keeps a reconcile pass from looking ahead of the clock. */
  function Next(w: World, s: Step): World {
    match s
    case DoCreate(session, workspace) =>
      if session in w.db.sessions then w
      else w.(db := w.db.(sessions := w.db.sessions[session := Session(workspace, Starting)]))
    case DoSetState(session, state) =>
      if session !in w.db.sessions then w
      else w.(db := w.db.(sessions := w.db.sessions[session := w.db.sessions[session].(state := state)]))
    case DoAcquire(session, owner, ttl) => Granting(w, session, owner, ttl, Acquire(w.db, session, owner, ttl, w.clock))
    case DoHeartbeat(session, owner, ttl) =>
      Granting(w, session, owner, ttl, Heartbeat(w.db, session, owner, ttl, w.clock))
    case DoRelease(session, owner) =>
      w.(db := Release(w.db, session, owner).0, grants := w.grants - {(session, owner)})
    case DoReconcile(scope, lag) => w.(db := Reconcile(w.db, scope, w.clock - lag))
    case Elapse(ticks) => w.(clock := w.clock + ticks)
  }

  function Run(w: World, steps: seq<Step>): World
    decreases |steps|
  {
    if steps == [] then w else Run(Next(w, steps[0]), steps[1..])
  }

  predicate Unexpired(w: World, session: string, owner: string) {
    (session, owner) in w.grants && w.grants[(session, owner)] > w.clock
  }

  /** An owner whose grant has not run out is the owner in the row, with that very expiry. */
  ghost predicate GrantsBacked(w: World) {
    forall session, owner :: Unexpired(w, session, owner) ==>
      Owns(w.db, session, owner) && w.db.leases[session].expiresAt == w.grants[(session, owner)]
  }

  lemma {:induction false} GrantsBackedInEveryRun(w: World, steps: seq<Step>)
    requires GrantsBacked(w)
    ensures GrantsBacked(Run(w, steps))
    decreases |steps|
  {
    if steps != [] {
      StepKeepsGrantsBacked(w, steps[0]);
      GrantsBackedInEveryRun(Next(w, steps[0]), steps[1..]);
    }
  }

  lemma StepKeepsGrantsBacked(w: World, s: Step)
    requires GrantsBacked(w)
    ensures GrantsBacked(Next(w, s))
  {
    var after := Next(w, s);
    forall session, owner | Unexpired(after, session, owner)
      ensures Owns(after.db, session, owner) && after.db.leases[session].expiresAt == after.grants[(session, owner)]
    {
      if Unexpired(w, session, owner) {
        assert Owns(w.db, session, owner);
      }
    }
  }

  /** Lease exclusivity over every interleaving: two owners never both hold an unexpired grant on one session. */
  lemma LeasesAreExclusive(steps: seq<Step>, session: string, one: string, other: string)
    requires Unexpired(Run(Start, steps), session, one) && Unexpired(Run(Start, steps), session, other)
    ensures one == other
  {
    GrantsBackedInEveryRun(Start, steps);
  }

  /** While someone holds an unexpired grant, every other owner is denied by all three calls, none of which
      touches the row; and a reconcile pass does not interrupt the session. */
  lemma DisplacedOwnerIsShutOut(steps: seq<Step>, session: string, holder: string, stale: string, ttl: int,
                                workspace: Option<string>, lag: nat)
    requires Unexpired(Run(Start, steps), session, holder) && stale != holder
    ensures var w := Run(Start, steps);
      && Acquire(w.db, session, stale, ttl, w.clock).0 == w.db && !Acquire(w.db, session, stale, ttl, w.clock).1.Held?
      && Heartbeat(w.db, session, stale, ttl, w.clock).0 == w.db
      && !Heartbeat(w.db, session, stale, ttl, w.clock).1.Held?
      && Release(w.db, session, stale) == (w.db, Denied)
      && session !in Lapsed(w.db, workspace, w.clock - lag)
      && Owns(Reconcile(w.db, workspace, w.clock - lag), session, holder)
  {
    GrantsBackedInEveryRun(Start, steps);
    assert Owns(Run(Start, steps).db, session, holder);
  }

  ghost predicate InScope(w: World, s: string, workspace: Option<string>) {
    && s in w.db.sessions && Active(w.db.sessions[s].state)
    && (workspace.Some? ==> w.db.sessions[s].workspace == workspace.value)
  }

  /** A reconcile pass may be given any time. It respects every unexpired grant exactly when that time has not
      reached the expiry of one on an active session of the workspace; looking ahead of the clock can break this. */
  lemma ReconcileRespectsGrantsExactlyWhen(w: World, workspace: Option<string>, current: Instant)
    requires GrantsBacked(w)
    ensures GrantsBacked(w.(db := Reconcile(w.db, workspace, current)))
       <==> forall s, o :: Unexpired(w, s, o) && InScope(w, s, workspace) ==> w.grants[(s, o)] > current
  {
    var after := w.(db := Reconcile(w.db, workspace, current));
    var lapsed := Lapsed(w.db, workspace, current);
    forall s, o | Unexpired(w, s, o)
      ensures Owns(after.db, s, o) <==> s !in lapsed
    {
      assert Owns(w.db, s, o);
      assert s in after.db.leases <==> s !in lapsed;
    }
    if GrantsBacked(after) {
      forall s, o | Unexpired(w, s, o) && InScope(w, s, workspace)
        ensures w.grants[(s, o)] > current
      {
        assert Unexpired(after, s, o);
      }
    }
  }

  /** A call can look ahead: thirty seconds on, a grant just given for thirty is gone and its session interrupted. */
  lemma LookingAheadInterrupts()
    ensures var w := Run(Start, [DoCreate("s", "w"), DoAcquire("s", "o", 30)]);
      var after := Reconcile(w.db, None, 30);
      && w.clock == 0 && Unexpired(w, "s", "o")
      && "s" in after.sessions && after.sessions["s"].state == Interrupted && "s" !in after.leases
      && !GrantsBacked(w.(db := after))
  {
    var create, acquire := DoCreate("s", "w"), DoAcquire("s", "o", 30);
    var w := Next(Next(Start, create), acquire);
    assert [create, acquire][1..] == [acquire] && [acquire][1..] == [];
    assert Run(Next(Start, create), [acquire]) == Run(w, []) == w;
    var after := w.(db := Reconcile(w.db, None, 30));
    assert "s" in Lapsed(w.db, None, 30);
    assert Unexpired(after, "s", "o") && !Owns(after.db, "s", "o");
  }
}
