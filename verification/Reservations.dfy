/** Scheduler slots shared by several processes: the `scheduler_reservations` table of the agent store.
    Every call is one transaction and reads the clock inside it. */
module Reservations {
  import opened Wrappers

  datatype Row = Row(workspace: string, provider: string, profile: string, owner: string, expiresAt: Instant)

  type Table = map<TaskId, Row>

  /** The limits a workspace configuration gives; `None` is an absent limit. */
  datatype Limits = Limits(maxWorkers: int, providers: map<string, int>, profiles: map<string, int>) {
    /** What the task service passes on: no limit at all for an unnamed provider. */
    function ProviderLimit(provider: string): Option<int> {
      if provider != "" && provider in providers then Some(providers[provider]) else None
    }

    function ProfileLimit(profile: string): Option<int> {
      if profile != "" && profile in profiles then Some(profiles[profile]) else None
    }
  }

  /** `Invalid` and `Conflict` are the two exceptions: a bad argument, and a task id held in another workspace. */
  datatype Reply = Granted | Refused | Conflict | Invalid

  function Unexpired(rows: Table, now: Instant): Table {
    map t | t in rows && rows[t].expiresAt > now :: rows[t]
  }

  function InWorkspace(rows: Table, workspace: string): set<TaskId> {
    set t | t in rows && rows[t].workspace == workspace
  }

  function WithProvider(rows: Table, workspace: string, provider: string): set<TaskId> {
    set t | t in rows && rows[t].workspace == workspace && rows[t].provider == provider
  }

  function WithProfile(rows: Table, workspace: string, profile: string): set<TaskId> {
    set t | t in rows && rows[t].workspace == workspace && rows[t].profile == profile
  }

  predicate Reached(limit: Option<int>, count: nat) {
    limit.Some? && count >= limit.value
  }

  /** No slot is left for another row like `row`. */
  predicate Full(rows: Table, row: Row, limits: Limits) {
    || |InWorkspace(rows, row.workspace)| >= limits.maxWorkers
    || Reached(limits.ProviderLimit(row.provider), |WithProvider(rows, row.workspace, row.provider)|)
    || Reached(limits.ProfileLimit(row.profile), |WithProfile(rows, row.workspace, row.profile)|)
  }

  /** One reservation call; `row` carries the request and the expiry it would get. */
  function Reserve(rows: Table, task: TaskId, row: Row, limits: Limits, now: Instant): (Table, Reply) {
    var live := Unexpired(rows, now);
    if limits.maxWorkers < 1 || row.expiresAt <= now then (rows, Invalid)
    else if task in live && live[task].workspace == row.workspace then
      (live, if live[task].owner == row.owner then Granted else Refused)
    else if Full(live, row, limits) then (rows, Refused)
    else if task in live then (rows, Conflict)
    else (live[task := row], Granted)
  }

  predicate Renewable(rows: Table, task: TaskId, owner: string, now: Instant) {
    task in rows && rows[task].owner == owner && rows[task].expiresAt > now
  }

  function Renew(rows: Table, task: TaskId, owner: string, expiresAt: Instant, now: Instant): Table {
    if Renewable(rows, task, owner, now) then rows[task := rows[task].(expiresAt := expiresAt)] else rows
  }

  predicate OwnedBy(rows: Table, task: TaskId, owner: string) {
    task in rows && rows[task].owner == owner
  }

  function Release(rows: Table, task: TaskId, owner: string): Table {
    if OwnedBy(rows, task, owner) then rows - {task} else rows
  }

  /** The database table behind `reserve_scheduler_slot`, `renew_scheduler_slot` and `release_scheduler_slot`. */
  class ReservationStore {
    var rows: Table

    constructor ()
      ensures rows == map[]
    {
      rows := map[];
    }

    method ReserveSlot(task: TaskId, workspace: string, owner: string, provider: string, profile: string,
                       limits: Limits, ttl: int, now: Instant)
      returns (reply: Reply)
      modifies this
      ensures (rows, reply)
           == Reserve(old(rows), task, Row(workspace, provider, profile, owner, now + ttl), limits, now)
      ensures reply.Granted? ==> Renewable(rows, task, owner, now) && rows[task].workspace == workspace
    {
      if limits.maxWorkers < 1 || ttl <= 0 {
        return Invalid;
      }
      var before := rows;
      rows := Unexpired(rows, now);
      var mine := InWorkspace(rows, workspace);
      if task in mine {
        return if rows[task].owner == owner then Granted else Refused;
      }
      var limited :=
        || |mine| >= limits.maxWorkers
        || Reached(limits.ProviderLimit(provider), |WithProvider(rows, workspace, provider)|)
        || Reached(limits.ProfileLimit(profile), |WithProfile(rows, workspace, profile)|);
      if limited {
        rows := before;
        return Refused;
      }
      if task in rows {
        rows := before;
        return Conflict;
      }
      rows := rows[task := Row(workspace, provider, profile, owner, now + ttl)];
      return Granted;
    }

    method RenewSlot(task: TaskId, owner: string, ttl: int, now: Instant) returns (renewed: bool)
      modifies this
      ensures renewed == Renewable(old(rows), task, owner, now)
      ensures rows == Renew(old(rows), task, owner, now + ttl, now)
    {
      renewed := task in rows && rows[task].owner == owner && rows[task].expiresAt > now;
      if renewed {
        rows := rows[task := rows[task].(expiresAt := now + ttl)];
      }
    }

    method ReleaseSlot(task: TaskId, owner: string) returns (removed: bool)
      modifies this
      ensures removed == OwnedBy(old(rows), task, owner)
      ensures rows == Release(old(rows), task, owner)
    {
      removed := task in rows && rows[task].owner == owner;
      if removed {
        rows := map t | t in rows && t != task :: rows[t];
      }
    }
  }

  // ---------------------------------------------------------------- runs

  /** A step of some process, or of time. */
  datatype Step =
    | DoReserve(task: TaskId, workspace: string, owner: string, provider: string, profile: string, ttl: int)
    | DoRenew(task: TaskId, owner: string, ttl: int)
    | DoRelease(task: TaskId, owner: string)
    | Elapse(ticks: nat)

  /** The table, the clock, and what each process believes: the row it was last granted and has not released. */
  datatype World = World(rows: Table, clock: Instant, grants: map<(TaskId, string), Row>)

  const Start := World(map[], 0, map[])

  function Next(w: World, s: Step, limits: map<string, Limits>): World {
    match s
    case DoReserve(task, workspace, owner, provider, profile, ttl) =>
      if workspace !in limits then w else
        var (rows, reply) := Reserve(w.rows, task, Row(workspace, provider, profile, owner, w.clock + ttl),
                                     limits[workspace], w.clock);
        w.(rows := rows,
           grants := if reply.Granted? && task in rows then w.grants[(task, owner) := rows[task]] else w.grants)
    case DoRenew(task, owner, ttl) =>
      var rows := Renew(w.rows, task, owner, w.clock + ttl, w.clock);
      w.(rows := rows,
         grants := if Renewable(w.rows, task, owner, w.clock) then w.grants[(task, owner) := rows[task]] else w.grants)
    case DoRelease(task, owner) =>
      w.(rows := Release(w.rows, task, owner), grants := w.grants - {(task, owner)})
    case Elapse(ticks) => w.(clock := w.clock + ticks)
  }

  function Run(w: World, steps: seq<Step>, limits: map<string, Limits>): World
    decreases |steps|
  {
    if steps == [] then w else Run(Next(w, steps[0], limits), steps[1..], limits)
  }

  ghost predicate WorkspaceQuotas(rows: Table, limits: map<string, Limits>) {
    forall ws :: ws in limits ==> |InWorkspace(rows, ws)| <= limits[ws].maxWorkers
  }

  ghost predicate ProviderQuotas(rows: Table, limits: map<string, Limits>) {
    forall ws, p :: ws in limits && p != "" && p in limits[ws].providers ==>
      |WithProvider(rows, ws, p)| <= limits[ws].providers[p]
  }

  ghost predicate ProfileQuotas(rows: Table, limits: map<string, Limits>) {
    forall ws, p :: ws in limits && p != "" && p in limits[ws].profiles ==>
      |WithProfile(rows, ws, p)| <= limits[ws].profiles[p]
  }

  /** No quota is exceeded, counting expired rows too. */
  ghost predicate WithinQuotas(rows: Table, limits: map<string, Limits>) {
    WorkspaceQuotas(rows, limits) && ProviderQuotas(rows, limits) && ProfileQuotas(rows, limits)
  }

  /** Every unexpired grant is backed by its row. */
  ghost predicate GrantsBacked(w: World) {
    forall g :: g in w.grants && w.grants[g].expiresAt > w.clock ==>
      g.0 in w.rows && w.rows[g.0] == w.grants[g] && w.rows[g.0].owner == g.1
  }

  /** What a configuration can hold: `SchedulerConfig` refuses any limit below one. */
  ghost predicate ValidLimits(limits: map<string, Limits>) {
    forall ws :: ws in limits ==>
      && limits[ws].maxWorkers >= 1
      && (forall p :: p in limits[ws].providers ==> limits[ws].providers[p] >= 1)
      && (forall p :: p in limits[ws].profiles ==> limits[ws].profiles[p] >= 1)
  }

  /** `fewer` has some of the rows, with nothing but owners and expiries changed. */
  ghost predicate SubTable(fewer: Table, rows: Table) {
    forall t :: t in fewer ==>
      (t in rows && fewer[t].workspace == rows[t].workspace
        && fewer[t].provider == rows[t].provider && fewer[t].profile == rows[t].profile)
  }

  lemma FewerRowsKeepQuotas(rows: Table, fewer: Table, limits: map<string, Limits>)
    requires WithinQuotas(rows, limits) && SubTable(fewer, rows)
    ensures WithinQuotas(fewer, limits)
  {
    forall ws | ws in limits
      ensures |InWorkspace(fewer, ws)| <= limits[ws].maxWorkers
    {
      SubsetSize(InWorkspace(fewer, ws), InWorkspace(rows, ws));
    }
    forall ws, p | ws in limits && p != "" && p in limits[ws].providers
      ensures |WithProvider(fewer, ws, p)| <= limits[ws].providers[p]
    {
      SubsetSize(WithProvider(fewer, ws, p), WithProvider(rows, ws, p));
    }
    forall ws, p | ws in limits && p != "" && p in limits[ws].profiles
      ensures |WithProfile(fewer, ws, p)| <= limits[ws].profiles[p]
    {
      SubsetSize(WithProfile(fewer, ws, p), WithProfile(rows, ws, p));
    }
  }

  lemma InsertIntoWorkspace(rows: Table, task: TaskId, row: Row, ws: string)
    requires task !in rows
    ensures |InWorkspace(rows[task := row], ws)| == |InWorkspace(rows, ws)| + if ws == row.workspace then 1 else 0
  {
    var more := rows[task := row];
    forall t | t != task
      ensures t in InWorkspace(more, ws) <==> t in InWorkspace(rows, ws)
    {
      assert t in more <==> t in rows;
    }
    if ws == row.workspace {
      assert InWorkspace(more, ws) == InWorkspace(rows, ws) + {task};
    } else {
      assert InWorkspace(more, ws) == InWorkspace(rows, ws);
    }
  }

  lemma InsertIntoProvider(rows: Table, task: TaskId, row: Row, ws: string, p: string)
    requires task !in rows
    ensures |WithProvider(rows[task := row], ws, p)|
            == |WithProvider(rows, ws, p)| + if ws == row.workspace && p == row.provider then 1 else 0
  {
    var more := rows[task := row];
    forall t | t != task
      ensures t in WithProvider(more, ws, p) <==> t in WithProvider(rows, ws, p)
    {
      assert t in more <==> t in rows;
    }
    if ws == row.workspace && p == row.provider {
      assert WithProvider(more, ws, p) == WithProvider(rows, ws, p) + {task};
    } else {
      assert WithProvider(more, ws, p) == WithProvider(rows, ws, p);
    }
  }

  lemma InsertIntoProfile(rows: Table, task: TaskId, row: Row, ws: string, p: string)
    requires task !in rows
    ensures |WithProfile(rows[task := row], ws, p)|
            == |WithProfile(rows, ws, p)| + if ws == row.workspace && p == row.profile then 1 else 0
  {
    var more := rows[task := row];
    forall t | t != task
      ensures t in WithProfile(more, ws, p) <==> t in WithProfile(rows, ws, p)
    {
      assert t in more <==> t in rows;
    }
    if ws == row.workspace && p == row.profile {
      assert WithProfile(more, ws, p) == WithProfile(rows, ws, p) + {task};
    } else {
      assert WithProfile(more, ws, p) == WithProfile(rows, ws, p);
    }
  }

  lemma InsertKeepsQuotas(rows: Table, task: TaskId, row: Row, limits: map<string, Limits>)
    requires WithinQuotas(rows, limits) && row.workspace in limits
    requires task !in rows && !Full(rows, row, limits[row.workspace])
    ensures WithinQuotas(rows[task := row], limits)
  {
    forall ws | ws in limits
      ensures |InWorkspace(rows[task := row], ws)| <= limits[ws].maxWorkers
    {
      InsertIntoWorkspace(rows, task, row, ws);
    }
    forall ws, p | ws in limits && p != "" && p in limits[ws].providers
      ensures |WithProvider(rows[task := row], ws, p)| <= limits[ws].providers[p]
    {
      InsertIntoProvider(rows, task, row, ws, p);
    }
    forall ws, p | ws in limits && p != "" && p in limits[ws].profiles
      ensures |WithProfile(rows[task := row], ws, p)| <= limits[ws].profiles[p]
    {
      InsertIntoProfile(rows, task, row, ws, p);
    }
  }

  /** The unexpired rows of a workspace, and those of one provider or profile there. */
  ghost function Live(rows: Table, now: Instant, ws: string): set<TaskId> {
    set t | t in rows && rows[t].expiresAt > now && rows[t].workspace == ws
  }

  ghost function LiveWith(rows: Table, now: Instant, ws: string, provider: string): set<TaskId> {
    set t | t in Live(rows, now, ws) && rows[t].provider == provider
  }

  ghost function LiveAs(rows: Table, now: Instant, ws: string, profile: string): set<TaskId> {
    set t | t in Live(rows, now, ws) && rows[t].profile == profile
  }

  /** There is room for one more row like `row`: fewer unexpired rows than each limit configured for it. */
  ghost predicate HasSlot(rows: Table, row: Row, limits: Limits, now: Instant) {
    && |Live(rows, now, row.workspace)| < limits.maxWorkers
    && (row.provider != "" && row.provider in limits.providers ==>
          |LiveWith(rows, now, row.workspace, row.provider)| < limits.providers[row.provider])
    && (row.profile != "" && row.profile in limits.profiles ==>
          |LiveAs(rows, now, row.workspace, row.profile)| < limits.profiles[row.profile])
  }

  lemma HasSlotExactlyWhen(rows: Table, row: Row, limits: Limits, now: Instant)
    ensures HasSlot(rows, row, limits, now) <==> !Full(Unexpired(rows, now), row, limits)
  {
    var live, ws := Unexpired(rows, now), row.workspace;
    assert InWorkspace(live, ws) == Live(rows, now, ws);
    assert WithProvider(live, ws, row.provider) == LiveWith(rows, now, ws, row.provider);
    assert WithProfile(live, ws, row.profile) == LiveAs(rows, now, ws, row.profile);
  }

  /** The row with which a task is held at this time, if any. */
  ghost predicate HeldBy(rows: Table, task: TaskId, now: Instant, owner: string, ws: string) {
    task in rows && rows[task].expiresAt > now && rows[task].owner == owner && rows[task].workspace == ws
  }

  /** The answer to a well-formed request: yes when the asker holds the task there already, or when nobody holds it and
      there is room by every configured limit. */
  lemma GrantedExactlyWhen(rows: Table, task: TaskId, row: Row, limits: Limits, now: Instant)
    requires limits.maxWorkers >= 1 && row.expiresAt > now
    ensures Reserve(rows, task, row, limits, now).1 == Granted
            <==> || HeldBy(rows, task, now, row.owner, row.workspace)
                 || ((task in rows ==> rows[task].expiresAt <= now) && HasSlot(rows, row, limits, now))
    ensures Reserve(rows, task, row, limits, now).1 == Conflict
            <==> (&& task in rows && rows[task].expiresAt > now && rows[task].workspace != row.workspace
                  && HasSlot(rows, row, limits, now))
    ensures Reserve(rows, task, row, limits, now).1 != Invalid
  {
    HasSlotExactlyWhen(rows, row, limits, now);
  }

  /** And the table after it: a yes drops the expired rows and adds the asked one if it was missing; a no
      because another holds the task drops the expired rows too; any other no leaves everything. */
  lemma TableAfterReserve(rows: Table, task: TaskId, row: Row, limits: Limits, now: Instant, t: TaskId)
    ensures var (after, reply) := Reserve(rows, task, row, limits, now);
      && (reply == Invalid <==> limits.maxWorkers < 1 || row.expiresAt <= now)
      && (t in after <==>
            || (t in rows && rows[t].expiresAt > now)
            || (reply == Granted && t == task)
            || (t in rows && (reply in {Invalid, Conflict}
                              || (reply == Refused && !(task in rows && rows[task].expiresAt > now
                                                        && rows[task].workspace == row.workspace)))))
      && (t in after ==>
            after[t] == if t in rows && (rows[t].expiresAt > now || reply != Granted) then rows[t] else row)
  {
  }

  /** Only the named owner of an unexpired row moves its expiry, and only the named owner removes a row. */
  lemma OnlyOwnersRenewAndRelease(
      rows: Table, task: TaskId, owner: string, expires: Instant, now: Instant, t: TaskId)
    ensures var after := Renew(rows, task, owner, expires, now);
      && after.Keys == rows.Keys
      && (t in rows ==>
            after[t] == if t == task && rows[t].owner == owner && rows[t].expiresAt > now
                        then Row(rows[t].workspace, rows[t].provider, rows[t].profile, owner, expires) else rows[t])
    ensures var after := Release(rows, task, owner);
      && (t in after <==> t in rows && !(t == task && rows[t].owner == owner))
      && (t in after ==> after[t] == rows[t])
  {
  }

  lemma ReserveKeepsQuotas(rows: Table, task: TaskId, row: Row, limits: map<string, Limits>, now: Instant)
    requires WithinQuotas(rows, limits) && row.workspace in limits
    ensures WithinQuotas(Reserve(rows, task, row, limits[row.workspace], now).0, limits)
  {
    var live := Unexpired(rows, now);
    FewerRowsKeepQuotas(rows, live, limits);
    if task !in live && !Full(live, row, limits[row.workspace]) {
      InsertKeepsQuotas(live, task, row, limits);
    }
  }

  lemma RenewKeepsQuotas(
      rows: Table, task: TaskId, owner: string, expires: Instant, now: Instant, limits: map<string, Limits>)
    requires WithinQuotas(rows, limits)
    ensures WithinQuotas(Renew(rows, task, owner, expires, now), limits)
  {
    FewerRowsKeepQuotas(rows, Renew(rows, task, owner, expires, now), limits);
  }

  lemma ReleaseKeepsQuotas(rows: Table, task: TaskId, owner: string, limits: map<string, Limits>)
    requires WithinQuotas(rows, limits)
    ensures WithinQuotas(Release(rows, task, owner), limits)
  {
    FewerRowsKeepQuotas(rows, Release(rows, task, owner), limits);
  }

  lemma StepKeepsQuotas(w: World, s: Step, limits: map<string, Limits>)
    requires WithinQuotas(w.rows, limits)
    ensures WithinQuotas(Next(w, s, limits).rows, limits)
  {
    match s
    case DoReserve(task, workspace, owner, provider, profile, ttl) =>
      if workspace in limits {
        ReserveKeepsQuotas(w.rows, task, Row(workspace, provider, profile, owner, w.clock + ttl), limits, w.clock);
      }
    case DoRenew(task, owner, ttl) => RenewKeepsQuotas(w.rows, task, owner, w.clock + ttl, w.clock, limits);
    case DoRelease(task, owner) => ReleaseKeepsQuotas(w.rows, task, owner, limits);
    case Elapse(ticks) =>
  }

  lemma StepKeepsGrants(w: World, s: Step, limits: map<string, Limits>)
    requires GrantsBacked(w)
    ensures GrantsBacked(Next(w, s, limits))
  {
    var after := Next(w, s, limits);
    forall g | g in after.grants && after.grants[g].expiresAt > after.clock
      ensures g.0 in after.rows && after.rows[g.0] == after.grants[g] && after.rows[g.0].owner == g.1
    {
      if g in w.grants && w.grants[g].expiresAt > w.clock {
        assert g.0 in w.rows && w.rows[g.0] == w.grants[g] && w.rows[g.0].owner == g.1;
      }
    }
  }

  /** Cross-process quotas: after any interleaving of calls and delays the table is within every quota and
      every process that holds an unexpired, unreleased grant still has its row. */
  lemma {:induction false} QuotasHoldInEveryRun(w: World, steps: seq<Step>, limits: map<string, Limits>)
    requires WithinQuotas(w.rows, limits) && GrantsBacked(w)
    ensures WithinQuotas(Run(w, steps, limits).rows, limits) && GrantsBacked(Run(w, steps, limits))
    decreases |steps|
  {
    if steps != [] {
      StepKeepsQuotas(w, steps[0], limits);
      StepKeepsGrants(w, steps[0], limits);
      QuotasHoldInEveryRun(Next(w, steps[0], limits), steps[1..], limits);
    }
  }

  /** The tasks some process may still be running in a workspace: granted, unexpired, unreleased. */
  function LiveTasks(w: World, workspace: string): set<TaskId> {
    set g | g in w.grants && w.grants[g].expiresAt > w.clock && w.grants[g].workspace == workspace :: g.0
  }

  function LiveOnProvider(w: World, workspace: string, provider: string): set<TaskId> {
    set g | g in w.grants && w.grants[g].expiresAt > w.clock && w.grants[g].workspace == workspace
            && w.grants[g].provider == provider :: g.0
  }

  function LiveOnProfile(w: World, workspace: string, profile: string): set<TaskId> {
    set g | g in w.grants && w.grants[g].expiresAt > w.clock && w.grants[g].workspace == workspace
            && w.grants[g].profile == profile :: g.0
  }

  lemma StartIsWithinQuotas(limits: map<string, Limits>)
    requires ValidLimits(limits)
    ensures WithinQuotas(Start.rows, limits) && GrantsBacked(Start)
  {
    assert forall ws :: InWorkspace(map[], ws) == {};
    assert forall ws, p :: WithProvider(map[], ws, p) == {};
    assert forall ws, p :: WithProfile(map[], ws, p) == {};
  }

  /** From an empty table, at most `max_workers` tasks of a workspace hold a live slot at once, with as many on one
      provider or profile as its limit allows, and no task is held by two processes. */
  lemma LiveSlotsAreBounded(
      steps: seq<Step>, limits: map<string, Limits>, ws: string, provider: string, profile: string)
    requires ValidLimits(limits) && ws in limits
    ensures |LiveTasks(Run(Start, steps, limits), ws)| <= limits[ws].maxWorkers
    ensures provider != "" && provider in limits[ws].providers ==>
      |LiveOnProvider(Run(Start, steps, limits), ws, provider)| <= limits[ws].providers[provider]
    ensures profile != "" && profile in limits[ws].profiles ==>
      |LiveOnProfile(Run(Start, steps, limits), ws, profile)| <= limits[ws].profiles[profile]
  {
    StartIsWithinQuotas(limits);
    QuotasHoldInEveryRun(Start, steps, limits);
    var w := Run(Start, steps, limits);
    SubsetSize(LiveTasks(w, ws), InWorkspace(w.rows, ws));
    SubsetSize(LiveOnProvider(w, ws, provider), WithProvider(w.rows, ws, provider));
    SubsetSize(LiveOnProfile(w, ws, profile), WithProfile(w.rows, ws, profile));
  }

  /** A run is its steps one after the other. */
  lemma {:induction false} RunsAreSteps(w: World, steps: seq<Step>, s: Step, limits: map<string, Limits>)
    ensures Run(w, steps + [s], limits) == Next(Run(w, steps, limits), s, limits)
    decreases |steps|
  {
    if steps == [] {
      assert [s][1..] == [] && [] + [s] == [s];
      assert Run(Next(w, s, limits), [], limits) == Next(w, s, limits);
    } else {
      assert (steps + [s])[1..] == steps[1..] + [s];
      RunsAreSteps(Next(w, steps[0], limits), steps[1..], s, limits);
    }
  }

  /** A workspace with a limit of one on provider `p`, and none on profiles. */
  ghost predicate OneOn(limits: map<string, Limits>, ws: string, p: string) {
    && ws in limits && limits[ws].maxWorkers == 4 && p != ""
    && limits[ws].providers == map[p := 1] && limits[ws].profiles == map[]
  }

  lemma FirstOnProvider(
      w: World, limits: map<string, Limits>, ws: string, p: string, task: TaskId, owner: string, ttl: int)
    requires OneOn(limits, ws, p) && ttl > 0 && forall t :: t in w.rows ==> w.rows[t].expiresAt <= w.clock
    ensures var row := Row(ws, p, "", owner, w.clock + ttl);
            Next(w, DoReserve(task, ws, owner, p, "", ttl), limits)
            == World(map[task := row], w.clock, w.grants[(task, owner) := row])
  {
    var row := Row(ws, p, "", owner, w.clock + ttl);
    assert Unexpired(w.rows, w.clock) == map[];
    assert Live(w.rows, w.clock, ws) == {} && LiveWith(w.rows, w.clock, ws, p) == {};
    GrantedExactlyWhen(w.rows, task, row, limits[ws], w.clock);
    assert map[][task := row] == map[task := row];
  }

  lemma SecondOnProvider(w: World, limits: map<string, Limits>, ws: string, p: string, row: Row, ttl: int)
    requires OneOn(limits, ws, p) && ttl > 0 && w.rows == map[1 := row] && row.expiresAt > w.clock
    requires row.workspace == ws && row.provider == p
    ensures Next(w, DoReserve(2, ws, "b", p, "", ttl), limits) == w
  {
    assert LiveWith(w.rows, w.clock, ws, p) == {1};
    GrantedExactlyWhen(w.rows, 2, Row(ws, p, "", "b", w.clock + ttl), limits[ws], w.clock);
    assert !HasSlot(w.rows, Row(ws, p, "", "b", w.clock + ttl), limits[ws], w.clock);
  }

  /** Of two tasks the first gets the slot and the second does not; once the first has run out without being renewed,
      the second does. */
  lemma LimitOfOne(limits: map<string, Limits>, ws: string, p: string, ttl: int)
    requires OneOn(limits, ws, p) && ttl > 0
    ensures var ask := DoReserve(2, ws, "b", p, "", ttl);
      var w := Next(Next(Start, DoReserve(1, ws, "a", p, "", ttl), limits), ask, limits);
      && LiveOnProvider(w, ws, p) == {1}
      && LiveOnProvider(Next(Next(w, DoRenew(1, "a", ttl + 1), limits), Elapse(ttl), limits), ws, p) == {1}
      && LiveOnProvider(Next(Next(w, Elapse(ttl), limits), ask, limits), ws, p) == {2}
  {
    var ask, r1 := DoReserve(2, ws, "b", p, "", ttl), Row(ws, p, "", "a", ttl);
    FirstOnProvider(Start, limits, ws, p, 1, "a", ttl);
    var w := World(map[1 := r1], 0, map[(1, "a") := r1]);
    assert map[][(1, "a") := r1] == map[(1, "a") := r1];
    SecondOnProvider(w, limits, ws, p, r1, ttl);
    AfterRenewal(w, limits, r1, ttl);
    FirstOnProvider(Next(w, Elapse(ttl), limits), limits, ws, p, 2, "b", ttl);
    LiveAlone(w, ws, p, 1, "a");
    LiveAlone(Next(Next(w, DoRenew(1, "a", ttl + 1), limits), Elapse(ttl), limits), ws, p, 1, "a");
    LiveAlone(Next(Next(w, Elapse(ttl), limits), ask, limits), ws, p, 2, "b");
  }

  lemma AfterRenewal(w: World, limits: map<string, Limits>, row: Row, ttl: int)
    requires w == World(map[1 := row], 0, map[(1, "a") := row]) && row.owner == "a" && row.expiresAt == ttl > 0
    ensures Next(Next(w, DoRenew(1, "a", ttl + 1), limits), Elapse(ttl), limits)
            == World(map[1 := row.(expiresAt := ttl + 1)], ttl, map[(1, "a") := row.(expiresAt := ttl + 1)])
  {
    var later := row.(expiresAt := ttl + 1);
    assert map[1 := row][1 := later] == map[1 := later];
    assert map[(1, "a") := row][(1, "a") := later] == map[(1, "a") := later];
  }

  lemma LiveAlone(w: World, ws: string, p: string, task: TaskId, owner: string)
    requires (task, owner) in w.grants && w.grants[(task, owner)].expiresAt > w.clock
    requires w.grants[(task, owner)].workspace == ws && w.grants[(task, owner)].provider == p
    requires forall g :: g in w.grants && g != (task, owner) ==> w.grants[g].expiresAt <= w.clock
    ensures LiveOnProvider(w, ws, p) == {task}
  {
    assert (task, owner).0 in LiveOnProvider(w, ws, p);
  }

  lemma NoTaskIsHeldTwice(steps: seq<Step>, limits: map<string, Limits>, task: TaskId, one: string, other: string)
    requires ValidLimits(limits)
    requires var w := Run(Start, steps, limits);
      && (task, one) in w.grants && w.grants[(task, one)].expiresAt > w.clock
      && (task, other) in w.grants && w.grants[(task, other)].expiresAt > w.clock
    ensures one == other
  {
    StartIsWithinQuotas(limits);
    QuotasHoldInEveryRun(Start, steps, limits);
    var w := Run(Start, steps, limits);
    assert w.rows[(task, one).0].owner == one && w.rows[(task, other).0].owner == other;
  }
}
