/** Runs of several agent services on one store: who is in a turn on a session, from its begin to its end or the death
    of its process. */
module LeaseTurns {
  import opened Wrappers
  import opened Leases

  /** A turn in progress, and when its lease was last taken or renewed. */
  datatype Turn = Turn(service: string, session: string, beaten: Instant)

  /** The store, the clock, what each service has on its books, and the turns in progress by owner id; ids are fresh. */
  datatype Fleet = Fleet(db: Db, clock: Instant, books: map<string, Turns>, turns: map<string, Turn>, used: set<string>)

  const Start := Fleet(Db(map[], map[]), 0, map[], map[], {})

  /** How long the leases of a service last. */
  type Ttls = string -> int

  /** `LeaseBeat` is one heartbeat of the lease thread, `ProgressBeat` one on behalf of a provider that reports
      progress. */
  datatype Step =
    | NewSession(session: string, workspace: string)
    | StateChange(session: string, state: Activity)
    | TurnBegins(service: string, session: string, owner: string)
    | TurnEnds(owner: string)
    | LeaseBeat(owner: string)
    | ProgressBeat(owner: string)
    | ServiceDies(service: string)
    | ReconcilePass(scope: Option<string>, lag: nat)
    | TimePasses(ticks: nat)

  function BooksOf(w: Fleet, service: string): Turns {
    if service in w.books then w.books[service] else map[]
  }

  /** The turn is on the books of its service. */
  predicate Booked(w: Fleet, owner: string) {
    owner in w.turns
    && (var t := w.turns[owner]; t.session in BooksOf(w, t.service) && BooksOf(w, t.service)[t.session] == owner)
  }

  function BeginStep(w: Fleet, service: string, session: string, owner: string, ttl: int): Fleet {
    var (db, books, begun) := Begin(w.db, BooksOf(w, service), session, owner, ttl, w.clock);
    w.(db := db, books := w.books[service := books], used := w.used + {owner},
       turns := if begun then w.turns[owner := Turn(service, session, w.clock)] else w.turns)
  }

  function EndStep(w: Fleet, owner: string): Fleet
    requires owner in w.turns
  {
    var t := w.turns[owner];
    var (db, books) := End(w.db, BooksOf(w, t.service), t.session, owner);
    w.(db := db, books := w.books[t.service := books], turns := w.turns - {owner})
  }

  function BeatStep(w: Fleet, owner: string, ttl: int): Fleet
    requires owner in w.turns
  {
    var t := w.turns[owner];
    var (db, books) := BeatTurn(w.db, BooksOf(w, t.service), t.session, owner, ttl, w.clock);
    w.(db := db, books := w.books[t.service := books], turns := w.turns[owner := t.(beaten := w.clock)])
  }

  function ProgressStep(w: Fleet, owner: string, ttl: int): Fleet
    requires owner in w.turns
  {
    var t := w.turns[owner];
    w.(db := Heartbeat(w.db, t.session, owner, ttl, w.clock).0, turns := w.turns[owner := t.(beaten := w.clock)])
  }

  /** Only turns on the books are renewed. `lag` keeps a reconcile pass from looking ahead of the clock. */
  function Next(w: Fleet, s: Step, ttl: Ttls): Fleet {
    match s
    case NewSession(session, workspace) =>
      if session in w.db.sessions then w
      else w.(db := w.db.(sessions := w.db.sessions[session := Session(workspace, Starting)]))
    case StateChange(session, state) =>
      if session !in w.db.sessions then w
      else w.(db := w.db.(sessions := w.db.sessions[session := w.db.sessions[session].(state := state)]))
    case TurnBegins(service, session, owner) =>
      if owner in w.used then w else BeginStep(w, service, session, owner, ttl(service))
    case TurnEnds(owner) => if owner in w.turns then EndStep(w, owner) else w
    case LeaseBeat(owner) => if Booked(w, owner) then BeatStep(w, owner, ttl(w.turns[owner].service)) else w
    case ProgressBeat(owner) => if Booked(w, owner) then ProgressStep(w, owner, ttl(w.turns[owner].service)) else w
    case ServiceDies(service) =>
      w.(books := w.books - {service}, turns := map o | o in w.turns && w.turns[o].service != service :: w.turns[o])
    case ReconcilePass(scope, lag) => w.(db := Reconcile(w.db, scope, w.clock - lag))
    case TimePasses(ticks) => w.(clock := w.clock + ticks)
  }

  function Run(w: Fleet, steps: seq<Step>, ttl: Ttls): Fleet
    decreases |steps|
  {
    if steps == [] then w else Run(Next(w, steps[0], ttl), steps[1..], ttl)
  }

  // ---------------------------------------------------------------- prompt heartbeats

  /** So much time may pass before some turn in progress is beaten again. */
  predicate InTime(w: Fleet, ticks: nat, ttl: Ttls) {
    forall o :: o in w.turns ==> w.clock + ticks < w.turns[o].beaten + ttl(w.turns[o].service)
  }

  /** Along the run every turn is beaten again before its lease runs out. */
  ghost predicate Prompt(w: Fleet, steps: seq<Step>, ttl: Ttls)
    decreases |steps|
  {
    steps != [] ==>
      && (steps[0].TimePasses? ==> InTime(w, steps[0].ticks, ttl))
      && Prompt(Next(w, steps[0], ttl), steps[1..], ttl)
  }

  /** The turn is the owner in the row, until a lease's time after its last beat, and is on the books. */
  ghost predicate Keeps(w: Fleet, o: string, ttl: Ttls)
    requires o in w.turns
  {
    var t := w.turns[o];
    && o in w.used && Booked(w, o) && Owns(w.db, t.session, o)
    && w.db.leases[t.session].expiresAt == t.beaten + ttl(t.service) > w.clock
  }

  ghost predicate AllKeep(w: Fleet, ttl: Ttls) {
    forall o :: o in w.turns ==> Keeps(w, o, ttl)
  }

  /** Two turns that keep their leases on one session are one. */
  lemma KeepersAreOne(w: Fleet, ttl: Ttls, one: string, other: string)
    requires AllKeep(w, ttl) && one in w.turns && other in w.turns && w.turns[one].session == w.turns[other].session
    ensures one == other
  {
    assert Keeps(w, one, ttl) && Keeps(w, other, ttl);
  }

  /** Another's turn is left as it is: its row, its entry on the books and itself. */
  ghost predicate Untouched(w: Fleet, w1: Fleet, o: string)
    requires o in w.turns
  {
    var t := w.turns[o];
    && o in w1.turns && w1.turns[o] == t && w1.clock == w.clock && w.used <= w1.used
    && (Owns(w.db, t.session, o) ==> t.session in w1.db.leases && w1.db.leases[t.session] == w.db.leases[t.session])
    && (Booked(w, o) ==> Booked(w1, o))
  }

  lemma BeginKeeps(w: Fleet, service: string, session: string, owner: string, ttl: Ttls)
    requires AllKeep(w, ttl) && owner !in w.used && ttl(service) > 0
    ensures AllKeep(BeginStep(w, service, session, owner, ttl(service)), ttl)
  {
    var w1 := BeginStep(w, service, session, owner, ttl(service));
    forall o | o in w1.turns ensures Keeps(w1, o, ttl) {
      if o != owner {
        assert Keeps(w, o, ttl);
        if w.turns[o].session == session {
          assert HeldByOther(w.db, session, owner, w.clock);
        }
        assert Untouched(w, w1, o);
      }
    }
  }

  lemma EndKeeps(w: Fleet, owner: string, ttl: Ttls)
    requires AllKeep(w, ttl) && owner in w.turns
    ensures AllKeep(EndStep(w, owner), ttl)
  {
    var w1 := EndStep(w, owner);
    forall o | o in w1.turns ensures Keeps(w1, o, ttl) {
      assert Keeps(w, o, ttl);
      assert Untouched(w, w1, o);
    }
  }

  lemma RenewalKeeps(w: Fleet, owner: string, ttl: Ttls)
    requires AllKeep(w, ttl) && owner in w.turns && ttl(w.turns[owner].service) > 0
    ensures AllKeep(BeatStep(w, owner, ttl(w.turns[owner].service)), ttl)
    ensures AllKeep(ProgressStep(w, owner, ttl(w.turns[owner].service)), ttl)
  {
    var t := w.turns[owner];
    var beat, progress := BeatStep(w, owner, ttl(t.service)), ProgressStep(w, owner, ttl(t.service));
    assert Keeps(w, owner, ttl);
    forall o | o in w.turns ensures Keeps(beat, o, ttl) && Keeps(progress, o, ttl) {
      assert Keeps(w, o, ttl);
      if o != owner { assert Untouched(w, beat, o) && Untouched(w, progress, o); }
    }
  }

  lemma DeathKeeps(w: Fleet, service: string, ttl: Ttls)
    requires AllKeep(w, ttl)
    ensures AllKeep(Next(w, ServiceDies(service), ttl), ttl)
  {
    var w1 := Next(w, ServiceDies(service), ttl);
    forall o | o in w1.turns ensures Keeps(w1, o, ttl) {
      assert Keeps(w, o, ttl);
      assert Untouched(w, w1, o);
    }
  }

  /** What happens to the store alone spares unexpired rows. */
  lemma StoreStepKeeps(w: Fleet, s: Step, ttl: Ttls)
    requires AllKeep(w, ttl) && (s.NewSession? || s.StateChange? || s.ReconcilePass?)
    ensures AllKeep(Next(w, s, ttl), ttl)
  {
    var w1 := Next(w, s, ttl);
    forall o | o in w1.turns ensures Keeps(w1, o, ttl) {
      assert Keeps(w, o, ttl);
      assert Untouched(w, w1, o);
    }
  }

  lemma ElapseKeeps(w: Fleet, ticks: nat, ttl: Ttls)
    requires AllKeep(w, ttl) && InTime(w, ticks, ttl)
    ensures AllKeep(Next(w, TimePasses(ticks), ttl), ttl)
  {
    var w1 := Next(w, TimePasses(ticks), ttl);
    forall o | o in w1.turns ensures Keeps(w1, o, ttl) {
      assert Keeps(w, o, ttl);
    }
  }

  lemma StepKeeps(w: Fleet, s: Step, ttl: Ttls)
    requires AllKeep(w, ttl) && (forall service :: ttl(service) > 0)
    requires s.TimePasses? ==> InTime(w, s.ticks, ttl)
    ensures AllKeep(Next(w, s, ttl), ttl)
  {
    match s
    case TurnBegins(service, session, owner) => if owner !in w.used { BeginKeeps(w, service, session, owner, ttl); }
    case TurnEnds(owner) => if owner in w.turns { EndKeeps(w, owner, ttl); }
    case LeaseBeat(owner) => if Booked(w, owner) { RenewalKeeps(w, owner, ttl); }
    case ProgressBeat(owner) => if Booked(w, owner) { RenewalKeeps(w, owner, ttl); }
    case ServiceDies(service) => DeathKeeps(w, service, ttl);
    case TimePasses(ticks) => ElapseKeeps(w, ticks, ttl);
    case _ => StoreStepKeeps(w, s, ttl);
  }

  lemma {:induction false} RunKeeps(w: Fleet, steps: seq<Step>, ttl: Ttls)
    requires AllKeep(w, ttl) && (forall service :: ttl(service) > 0) && Prompt(w, steps, ttl)
    ensures AllKeep(Run(w, steps, ttl), ttl)
    decreases |steps|
  {
    if steps != [] {
      StepKeeps(w, steps[0], ttl);
      RunKeeps(Next(w, steps[0], ttl), steps[1..], ttl);
    }
  }

  /**
   * As long as every turn is beaten again before its lease runs out: no two turns are in progress on one session at
   * once, in one service or in two; every turn is named in its row and on the books, so its next beat succeeds; and
   * nobody else can begin one there.
   */
  lemma OneTurnAtATime(steps: seq<Step>, ttl: Ttls, one: string, other: string)
    requires (forall service :: ttl(service) > 0) && Prompt(Start, steps, ttl)
    requires one in Run(Start, steps, ttl).turns
    ensures var w := Run(Start, steps, ttl);
      var t := w.turns[one];
      && (other in w.turns && w.turns[other].session == t.session ==> one == other)
      && Booked(w, one) && Heartbeat(w.db, t.session, one, ttl(t.service), w.clock).1.Held?
      && forall service :: other != one ==> !Begin(w.db, BooksOf(w, service), t.session, other, ttl(service), w.clock).2
  {
    var w := Run(Start, steps, ttl);
    RunKeeps(Start, steps, ttl);
    assert Keeps(w, one, ttl);
    if other in w.turns && w.turns[other].session == w.turns[one].session { KeepersAreOne(w, ttl, one, other); }
  }

  /** What the steps of a turn that keeps its lease do: a beat of either kind prolongs it from now on, and its end frees
      the session, in the store and on the books, for whoever comes next. */
  lemma StepsOfATurn(w: Fleet, o: string, ttl: Ttls, other: string, next: string)
    requires o in w.turns && Keeps(w, o, ttl) && ttl(w.turns[o].service) > 0
    ensures var t := w.turns[o];
      && Next(w, LeaseBeat(o), ttl).turns == w.turns[o := t.(beaten := w.clock)]
      && Next(w, ProgressBeat(o), ttl).turns == w.turns[o := t.(beaten := w.clock)]
      && t.session in Next(w, LeaseBeat(o), ttl).db.leases
      && Next(w, LeaseBeat(o), ttl).db.leases[t.session].expiresAt == w.clock + ttl(t.service)
      && Next(w, ProgressBeat(o), ttl).db == Next(w, LeaseBeat(o), ttl).db
    ensures var t, e := w.turns[o], Next(w, TurnEnds(o), ttl);
      && e.turns == w.turns - {o} && t.session !in e.db.leases && t.session !in BooksOf(e, t.service)
      && (next !in w.used && ttl(other) > 0 && t.session in w.db.sessions && t.session !in BooksOf(e, other) ==>
            next in Next(e, TurnBegins(other, t.session, next), ttl).turns)
  {
  }

  /** A session is created once, starting; and only a session that is there changes its state. */
  lemma SessionsOfARun(w: Fleet, session: string, workspace: string, state: Activity, ttl: Ttls)
    ensures Next(w, NewSession(session, workspace), ttl).db.sessions
            == if session in w.db.sessions then w.db.sessions
               else w.db.sessions[session := Session(workspace, Starting)]
    ensures Next(w, StateChange(session, state), ttl).db.sessions
            == if session in w.db.sessions
               then w.db.sessions[session := Session(w.db.sessions[session].workspace, state)] else w.db.sessions
  {
  }

  // ---------------------------------------------------------------- late heartbeats

  /** Whether a turn's beat is late. */
  predicate Late(w: Fleet, owner: string, ttl: Ttls) {
    owner in w.turns && w.turns[owner].beaten + ttl(w.turns[owner].service) <= w.clock
  }

  /** Two turns at once take a late one: in any run that ends with two on a session, some turn was late on the way. */
  lemma {:induction false} TwoTurnsTakeALateOne(w: Fleet, steps: seq<Step>, ttl: Ttls, one: string, other: string)
      returns (k: nat, late: string)
    requires AllKeep(w, ttl) && (forall service :: ttl(service) > 0)
    requires var e := Run(w, steps, ttl);
             one != other && one in e.turns && other in e.turns && e.turns[one].session == e.turns[other].session
    ensures k <= |steps| && Late(Run(w, steps[..k], ttl), late, ttl)
    decreases |steps|
  {
    if steps == [] {
      KeepersAreOne(w, ttl, one, other);
      assert false;
    } else if steps[0].TimePasses? && !InTime(w, steps[0].ticks, ttl) {
      late :| late in w.turns && w.clock + steps[0].ticks >= w.turns[late].beaten + ttl(w.turns[late].service);
      k := 1;
      assert steps[..1] == [steps[0]] && [steps[0]][1..] == [];
    } else {
      StepKeeps(w, steps[0], ttl);
      k, late := TwoTurnsTakeALateOne(Next(w, steps[0], ttl), steps[1..], ttl, one, other);
      k := k + 1;
      assert steps[..k][1..] == steps[1..][..k - 1];
    }
  }

  /** And one beat that comes as late as that is enough: another service begins a turn on the session. */
  lemma LateBeatLetsAnotherIn(ttl: Ttls, a: string, b: string)
    requires a != b && ttl(a) > 0 && ttl(b) > 0
    ensures var steps := [NewSession("s", "w"), TurnBegins(a, "s", "1"), TimePasses(ttl(a)), TurnBegins(b, "s", "2")];
            var w := Run(Start, steps, ttl);
            && "1" in w.turns && "2" in w.turns && w.turns["1"].session == w.turns["2"].session == "s"
            && w.turns["1"].service == a && w.turns["2"].service == b
  {
    var s1, s2, s3, s4 := NewSession("s", "w"), TurnBegins(a, "s", "1"), TimePasses(ttl(a)), TurnBegins(b, "s", "2");
    var w1 := Next(Start, s1, ttl);
    var w2 := Next(w1, s2, ttl);
    var w3 := Next(w2, s3, ttl);
    var w4 := Next(w3, s4, ttl);
    assert "1" in w2.turns && w2.turns["1"] == Turn(a, "s", 0);
    assert "2" in w4.turns && w4.turns["2"] == Turn(b, "s", ttl(a));
    RunFour(s1, s2, s3, s4, ttl);
  }

  lemma RunFour(s1: Step, s2: Step, s3: Step, s4: Step, ttl: Ttls)
    ensures Run(Start, [s1, s2, s3, s4], ttl) == Next(Next(Next(Next(Start, s1, ttl), s2, ttl), s3, ttl), s4, ttl)
  {
    assert [s1, s2, s3, s4][1..] == [s2, s3, s4] && [s2, s3, s4][1..] == [s3, s4] && [s3, s4][1..] == [s4];
    var w := Next(Next(Start, s1, ttl), s2, ttl);
    assert Run(w, [s3, s4], ttl) == Run(Next(w, s3, ttl), [s4], ttl);
    var v := Next(Next(w, s3, ttl), s4, ttl);
    assert [s4][1..] == [] && Run(v, [], ttl) == v;
    assert Run(Next(w, s3, ttl), [s4], ttl) == v;
    assert Run(Next(Start, s1, ttl), [s2, s3, s4], ttl) == Run(w, [s3, s4], ttl);
  }
}
