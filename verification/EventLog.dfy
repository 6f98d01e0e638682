/**
 * The event and message logs of agent sessions: one table of numbered rows each, appended to under a lock and read
 * page by page with a cursor. Every call is one step over the store.
 */
module EventLog {
  import opened Wrappers

  type Session = nat
  type Payload = int

  datatype Row = Row(session: Session, sequence: nat, payload: Payload)

  /** Rows in order of insertion. */
  type Table = seq<Row>

  datatype State = Starting | Running | Idle | Interrupted | Failed | Closed

  datatype Store = Store(states: map<Session, State>, events: Table, messages: Table)

  datatype Page = Page(rows: seq<Row>, next: nat)

  // ---- Queries ----

  /** The rows of one session, in order of insertion. */
  function Of(t: Table, s: Session): Table {
    if t == [] then []
    else Of(t[..|t| - 1], s) + if t[|t| - 1].session == s then [t[|t| - 1]] else []
  }

  /** The largest sequence of a session, or 0. */
  function MaxSequence(t: Table, s: Session): (r: nat)
    ensures forall k :: 0 <= k < |t| && t[k].session == s ==> t[k].sequence <= r
    ensures r > 0 ==> exists k :: 0 <= k < |t| && t[k].session == s && t[k].sequence == r
  {
    if t == [] then 0
    else
      assert forall k :: 0 <= k < |t| - 1 ==> t[..|t| - 1][k] == t[k];
      var before, last := MaxSequence(t[..|t| - 1], s), t[|t| - 1];
      if last.session == s && last.sequence > before then last.sequence else before
  }

  /** The rows with a larger sequence. */
  function After(rows: Table, after: int): Table {
    if rows == [] then []
    else After(rows[..|rows| - 1], after) + if rows[|rows| - 1].sequence > after then [rows[|rows| - 1]] else []
  }

  function InsertRow(sorted: Table, r: Row): Table {
    if sorted == [] then [r]
    else if sorted[|sorted| - 1].sequence <= r.sequence then sorted + [r]
    else InsertRow(sorted[..|sorted| - 1], r) + [sorted[|sorted| - 1]]
  }

  /** Rows by ascending sequence. */
  function BySequence(rows: Table): Table {
    if rows == [] then [] else InsertRow(BySequence(rows[..|rows| - 1]), rows[|rows| - 1])
  }

  function Take(rows: Table, limit: nat): Table {
    if limit < |rows| then rows[..limit] else rows
  }

  function Reversed(rows: Table): (r: Table)
    ensures |r| == |rows| && forall k :: 0 <= k < |r| ==> r[k] == rows[|rows| - 1 - k]
  {
    seq(|rows|, k requires 0 <= k < |rows| => rows[|rows| - 1 - k])
  }

  /** The rows after a cursor, in order, at most `limit` of them, and the cursor for the next page. */
  function PageAfter(t: Table, s: Session, after: nat, limit: nat): Page {
    var rows := Take(BySequence(After(Of(t, s), after)), limit);
    Page(rows, if rows == [] then after else rows[|rows| - 1].sequence)
  }

  /** The latest rows, taken by descending sequence and turned around. */
  function LatestRows(t: Table, s: Session, limit: nat): Table {
    Reversed(Take(Reversed(BySequence(Of(t, s))), limit))
  }

  /** Appends a payload under the next sequence. */
  function Append(t: Table, s: Session, p: Payload): Table {
    t + [Row(s, MaxSequence(t, s) + 1, p)]
  }

  // ---- Steps ----

  /** Deleting sessions deletes their rows. */
  function Purged(t: Table, gone: set<Session>): Table {
    if t == [] then []
    else Purged(t[..|t| - 1], gone) + if t[|t| - 1].session in gone then [] else [t[|t| - 1]]
  }

  datatype Step =
    | Create(session: Session)
    | Event(session: Session, payload: Payload)
    | Message(session: Session, payload: Payload)
    | Update(session: Session, state: State)
    | Delete(gone: set<Session>)

  /** The state after an event: a session that was starting is now running. */
  function Woken(state: State): State {
    if state == Starting then Running else state
  }

  /** One call; a call that names an unknown session raises and changes nothing. A new session's id is new. */
  function Next(d: Store, step: Step): Store {
    match step
    case Create(s) => if s in d.states then d else d.(states := d.states[s := Starting])
    case Event(s, p) =>
      if s !in d.states then d
      else d.(states := d.states[s := Woken(d.states[s])], events := Append(d.events, s, p))
    case Message(s, p) =>
      if s !in d.states then d else d.(messages := Append(d.messages, s, p))
    case Update(s, state) => if s !in d.states then d else d.(states := d.states[s := state])
    case Delete(gone) => Store(d.states - gone, Purged(d.events, gone), Purged(d.messages, gone))
  }

  // ---- Sequences are 1..n ----

  /** The k-th row of a session carries sequence k, and only known sessions have rows. */
  ghost predicate Numbered(t: Table, s: Session) {
    forall k :: 0 <= k < |Of(t, s)| ==> Of(t, s)[k].sequence == k + 1 && Of(t, s)[k].session == s
  }

  ghost predicate Kept(d: Store, t: Table) {
    forall s :: Numbered(t, s) && (Of(t, s) != [] ==> s in d.states)
  }

  ghost predicate Inv(d: Store) {
    Kept(d, d.events) && Kept(d, d.messages)
  }

  lemma OfLast(t: Table, r: Row, s: Session)
    ensures Of(t + [r], s) == if r.session == s then Of(t, s) + [r] else Of(t, s)
  {
    assert (t + [r])[..|t|] == t;
    assert Of(t, s) + [] == Of(t, s);
  }

  lemma {:induction false} MaxIsCount(t: Table, s: Session)
    requires Numbered(t, s)
    ensures MaxSequence(t, s) == |Of(t, s)|
  {
    if t != [] {
      var front, last := t[..|t| - 1], t[|t| - 1];
      assert t == front + [last];
      OfLast(front, last, s);
      forall k | 0 <= k < |Of(front, s)| ensures Of(front, s)[k].sequence == k + 1 && Of(front, s)[k].session == s {
        assert Of(t, s)[k] == Of(front, s)[k];
      }
      MaxIsCount(front, s);
      if last.session == s { assert Of(t, s)[|Of(front, s)|] == last; }
    }
  }

  /** An append gives the session one more row, numbered next, and leaves the others alone. */
  lemma AppendAddsNext(t: Table, s: Session, p: Payload, other: Session)
    requires Numbered(t, s)
    ensures Of(Append(t, s, p), s) == Of(t, s) + [Row(s, |Of(t, s)| + 1, p)] && Numbered(Append(t, s, p), s)
    ensures other != s ==> Of(Append(t, s, p), other) == Of(t, other)
  {
    MaxIsCount(t, s);
    OfLast(t, Row(s, MaxSequence(t, s) + 1, p), s);
    OfLast(t, Row(s, MaxSequence(t, s) + 1, p), other);
  }

  lemma {:induction false} PurgeKeepsOthers(t: Table, gone: set<Session>, s: Session)
    ensures Of(Purged(t, gone), s) == if s in gone then [] else Of(t, s)
  {
    if t != [] {
      var front, last := t[..|t| - 1], t[|t| - 1];
      PurgeKeepsOthers(front, gone, s);
      OfLast(Purged(front, gone), last, s);
      assert Purged(front, gone) + [] == Purged(front, gone);
    }
  }

  lemma KeptByAppend(d: Store, t: Table, s: Session, p: Payload)
    requires Kept(d, t) && s in d.states
    ensures Kept(d, Append(t, s, p))
  {
    forall other ensures Numbered(Append(t, s, p), other) && (Of(Append(t, s, p), other) != [] ==> other in d.states) {
      assert Numbered(t, other) && Numbered(t, s);
      AppendAddsNext(t, s, p, other);
    }
  }

  lemma KeptByPurge(d: Store, t: Table, gone: set<Session>, after: Store)
    requires Kept(d, t) && after.states == d.states - gone
    ensures Kept(after, Purged(t, gone))
  {
    forall s ensures Numbered(Purged(t, gone), s) && (Of(Purged(t, gone), s) != [] ==> s in after.states) {
      assert Numbered(t, s);
      PurgeKeepsOthers(t, gone, s);
    }
  }

  lemma KeptByStates(d: Store, t: Table, after: Store)
    requires Kept(d, t) && d.states.Keys <= after.states.Keys
    ensures Kept(after, t)
  {
    forall s ensures Numbered(t, s) && (Of(t, s) != [] ==> s in after.states) { assert Numbered(t, s); }
  }

  lemma StepKeepsInv(d: Store, step: Step)
    requires Inv(d)
    ensures Inv(Next(d, step))
  {
    var after := Next(d, step);
    match step
    case Delete(gone) =>
      KeptByPurge(d, d.events, gone, after);
      KeptByPurge(d, d.messages, gone, after);
    case Event(s, p) =>
      if s in d.states { KeptByAppend(d, d.events, s, p); }
      KeptByStates(d, after.events, after);
      KeptByStates(d, d.messages, after);
    case Message(s, p) =>
      if s in d.states { KeptByAppend(d, d.messages, s, p); }
    case _ =>
      KeptByStates(d, d.events, after);
      KeptByStates(d, d.messages, after);
  }

  function Run(d: Store, steps: seq<Step>): Store
    decreases |steps|
  {
    if steps == [] then d else Run(Next(d, steps[0]), steps[1..])
  }

  const Empty: Store := Store(map[], [], [])

  lemma {:induction false} RunKeepsInv(d: Store, steps: seq<Step>)
    requires Inv(d)
    ensures Inv(Run(d, steps))
    decreases |steps|
  {
    if steps != [] {
      StepKeepsInv(d, steps[0]);
      RunKeepsInv(Next(d, steps[0]), steps[1..]);
    }
  }

  /** After any run, the sequences of each session are exactly 1..n, in order of insertion, in both logs. */
  lemma SequencesHaveNoGapsInEveryRun(steps: seq<Step>, s: Session)
    ensures var d := Run(Empty, steps); Numbered(d.events, s) && Numbered(d.messages, s)
  {
    RunKeepsInv(Empty, steps);
  }

  // ---- A page is a stretch of the log ----

  lemma {:induction false} SortedStaysPut(rows: Table)
    requires forall i, j :: 0 <= i < j < |rows| ==> rows[i].sequence <= rows[j].sequence
    ensures BySequence(rows) == rows
  {
    if rows != [] {
      SortedStaysPut(rows[..|rows| - 1]);
      assert rows == rows[..|rows| - 1] + [rows[|rows| - 1]];
    }
  }

  lemma AfterLast(front: Table, last: Row, after: nat)
    ensures After(front + [last], after) == After(front, after) + if last.sequence > after then [last] else []
  {
    assert (front + [last])[..|front|] == front;
  }

  lemma DropLast(front: Table, last: Row, after: nat)
    requires after <= |front|
    ensures (front + [last])[after..] == front[after..] + [last]
  {
  }

  lemma {:induction false} AfterCursor(rows: Table, after: nat)
    requires forall k :: 0 <= k < |rows| ==> rows[k].sequence == k + 1
    ensures After(rows, after) == if after <= |rows| then rows[after..] else []
    decreases |rows|
  {
    if rows != [] {
      var front, last := rows[..|rows| - 1], rows[|rows| - 1];
      assert rows == front + [last];
      AfterCursor(front, after);
      AfterLast(front, last, after);
      if after <= |front| { DropLast(front, last, after); }
    }
  }

  function Min(a: nat, b: nat): nat { if a <= b then a else b }

  /** What is left of a numbered log after a cursor, sorted. */
  function LeftAfter(log: Table, after: nat): Table {
    if after <= |log| then log[after..] else []
  }

  lemma LeftIsSorted(log: Table, after: nat)
    requires forall k :: 0 <= k < |log| ==> log[k].sequence == k + 1
    ensures BySequence(After(log, after)) == LeftAfter(log, after)
  {
    AfterCursor(log, after);
    var rest := LeftAfter(log, after);
    forall i, j | 0 <= i < j < |rest| ensures rest[i].sequence <= rest[j].sequence {
      assert rest[i] == log[after + i] && rest[j] == log[after + j];
    }
    SortedStaysPut(rest);
  }

  lemma TakeIsAStretch(log: Table, after: nat, limit: nat)
    requires after <= |log|
    ensures Take(LeftAfter(log, after), limit) == log[after..Min(after + limit, |log|)]
  {
  }

  /** A page is the next stretch of the log after the cursor, and the next cursor is where it ends. */
  lemma PageIsAStretch(t: Table, s: Session, after: nat, limit: nat)
    requires Numbered(t, s) && limit >= 1
    ensures after <= |Of(t, s)| ==>
              PageAfter(t, s, after, limit)
              == (var end := Min(after + limit, |Of(t, s)|); Page(Of(t, s)[after..end], end))
    ensures after > |Of(t, s)| ==> PageAfter(t, s, after, limit) == Page([], after)
  {
    var log := Of(t, s);
    LeftIsSorted(log, after);
    if after <= |log| {
      TakeIsAStretch(log, after, limit);
      var end := Min(after + limit, |log|);
      var rows := log[after..end];
      if rows != [] { assert rows[|rows| - 1] == log[end - 1]; }
    }
  }

  lemma LastOf(log: Table, limit: nat)
    ensures Reversed(Take(Reversed(log), limit)) == log[|log| - Min(limit, |log|)..]
  {
    var taken, n := Take(Reversed(log), limit), Min(limit, |log|);
    assert |taken| == n && forall k :: 0 <= k < n ==> taken[k] == log[|log| - 1 - k];
    assert |Reversed(taken)| == |log[|log| - n..]|;
    forall k | 0 <= k < n ensures Reversed(taken)[k] == log[|log| - n..][k] {
      assert Reversed(taken)[k] == taken[n - 1 - k];
    }
  }

  /** The recent rows are the end of the log, in order. */
  lemma RecentIsTheEnd(t: Table, s: Session, limit: nat)
    requires Numbered(t, s)
    ensures var log := Of(t, s); LatestRows(t, s, limit) == log[|log| - Min(limit, |log|)..]
  {
    LeftIsSorted(Of(t, s), 0);
    AfterCursor(Of(t, s), 0);
    assert Of(t, s)[0..] == Of(t, s);
    LastOf(Of(t, s), limit);
  }

  /** Whatever order rows are in, a query takes them by ascending sequence. */
  lemma {:induction false} QueriesSort(rows: Table, x: Row)
    ensures var sorted := BySequence(rows);
      forall i, j :: 0 <= i < j < |sorted| ==> sorted[i].sequence <= sorted[j].sequence
    ensures x in BySequence(rows) <==> x in rows
  {
    if rows != [] {
      var front, last := rows[..|rows| - 1], rows[|rows| - 1];
      assert rows == front + [last];
      QueriesSort(front, x);
      InsertSorts(BySequence(front), last, x);
    }
  }

  lemma {:induction false} InsertSorts(sorted: Table, r: Row, x: Row)
    requires forall i, j :: 0 <= i < j < |sorted| ==> sorted[i].sequence <= sorted[j].sequence
    ensures var more := InsertRow(sorted, r);
      forall i, j :: 0 <= i < j < |more| ==> more[i].sequence <= more[j].sequence
    ensures x in InsertRow(sorted, r) <==> x in sorted || x == r
    ensures var more := InsertRow(sorted, r); forall k :: 0 <= k < |more| ==> more[k] in sorted || more[k] == r
  {
    if sorted != [] && sorted[|sorted| - 1].sequence > r.sequence {
      var front, last := sorted[..|sorted| - 1], sorted[|sorted| - 1];
      assert sorted == front + [last];
      InsertSorts(front, r, x);
    }
  }

  // ---- What a call does ----

  /** What each call does to the state and the two logs of session `s`: a call that names an unknown session does
      nothing, an event wakes a session that was starting, and nothing else touches another session. */
  lemma CallsDo(d: Store, step: Step, s: Session)
    requires Inv(d)
    ensures var e := Next(d, step);
      var known := s in d.states;
      && (s in e.states <==> if step.Delete? then known && s !in step.gone else known || step == Create(s))
      && (!known && step == Create(s) ==> e.states[s] == Starting)
      && (known && s in e.states ==>
            e.states[s] == if step.Update? && step.session == s then step.state
                           else if step.Event? && step.session == s && d.states[s] == Starting then Running
                           else d.states[s])
      && Of(e.events, s)
         == (if step.Delete? && s in step.gone then []
             else if step.Event? && step.session == s && known
             then Of(d.events, s) + [Row(s, |Of(d.events, s)| + 1, step.payload)]
             else Of(d.events, s))
      && Of(e.messages, s)
         == (if step.Delete? && s in step.gone then []
             else if step.Message? && step.session == s && known
             then Of(d.messages, s) + [Row(s, |Of(d.messages, s)| + 1, step.payload)]
             else Of(d.messages, s))
  {
    LogsDo(d, step, s);
  }

  lemma LogsDo(d: Store, step: Step, s: Session)
    requires Inv(d)
    ensures Of(Next(d, step).events, s)
            == if step.Delete? && s in step.gone then []
               else if step.Event? && step.session == s && s in d.states
               then Of(d.events, s) + [Row(s, |Of(d.events, s)| + 1, step.payload)]
               else Of(d.events, s)
    ensures Of(Next(d, step).messages, s)
            == if step.Delete? && s in step.gone then []
               else if step.Message? && step.session == s && s in d.states
               then Of(d.messages, s) + [Row(s, |Of(d.messages, s)| + 1, step.payload)]
               else Of(d.messages, s)
  {
    match step
    case Event(w, p) => if w in d.states { NumberedIn(d, w); AppendAddsNext(d.events, w, p, s); }
    case Message(w, p) => if w in d.states { NumberedIn(d, w); AppendAddsNext(d.messages, w, p, s); }
    case Delete(gone) =>
      PurgeKeepsOthers(d.events, gone, s);
      PurgeKeepsOthers(d.messages, gone, s);
    case _ =>
  }

  lemma NumberedIn(d: Store, w: Session)
    requires Inv(d)
    ensures Numbered(d.events, w) && Numbered(d.messages, w)
  {
  }

  /** A run is its steps one after the other. */
  lemma {:induction false} RunsAreSteps(d: Store, steps: seq<Step>, step: Step)
    ensures Run(d, steps + [step]) == Next(Run(d, steps), step)
    decreases |steps|
  {
    if steps == [] {
      assert [step][1..] == [] && [] + [step] == [step];
      assert Run(Next(d, step), []) == Next(d, step);
    } else {
      assert (steps + [step])[1..] == steps[1..] + [step];
      RunsAreSteps(Next(d, steps[0]), steps[1..], step);
    }
  }

  // ---- A reader among writers ----

  /** Which of the two logs a reader follows. */
  datatype Which = Events | Messages

  function TableOf(d: Store, which: Which): Table {
    if which == Events then d.events else d.messages
  }

  /** A reader of one log: its cursor, and all it has been given. */
  datatype Reader = Reader(session: Session, which: Which, cursor: nat, got: Table)

  datatype Move = Write(step: Step) | Read(limit: nat)

  /** The reader asks for a page after its cursor and takes over the cursor it is given. */
  function Reading(d: Store, r: Reader, limit: nat): Reader {
    var page := PageAfter(TableOf(d, r.which), r.session, r.cursor, limit);
    r.(cursor := page.next, got := r.got + page.rows)
  }

  function Moved(d: Store, r: Reader, move: Move): (Store, Reader) {
    match move
    case Write(step) => (Next(d, step), r)
    case Read(limit) => (d, if r.session in d.states && limit >= 1 then Reading(d, r, limit) else r)
  }

  function Follow(d: Store, r: Reader, moves: seq<Move>): (Store, Reader)
    decreases |moves|
  {
    if moves == [] then (d, r)
    else var (d1, r1) := Moved(d, r, moves[0]); Follow(d1, r1, moves[1..])
  }

  /** No step deletes the session. */
  ghost predicate Spares(moves: seq<Move>, s: Session) {
    forall k :: 0 <= k < |moves| && moves[k].Write? && moves[k].step.Delete? ==> s !in moves[k].step.gone
  }

  /** The reader holds exactly the log up to its cursor. */
  ghost predicate UpToCursor(d: Store, r: Reader) {
    var log := Of(TableOf(d, r.which), r.session);
    r.cursor <= |log| && r.got == log[..r.cursor]
  }

  predicate Grows(before: Table, after: Table) {
    |before| <= |after| && after[..|before|] == before
  }

  lemma AppendGrows(t: Table, w: Session, p: Payload, s: Session)
    requires Numbered(t, w)
    ensures Grows(Of(t, s), Of(Append(t, w, p), s))
  {
    AppendAddsNext(t, w, p, s);
  }

  lemma InvNumbers(d: Store, which: Which, s: Session)
    requires Inv(d)
    ensures Numbered(TableOf(d, which), s)
  {
  }

  /** A step that spares a session only ever adds to its log. */
  lemma LogsOnlyGrow(d: Store, step: Step, s: Session, which: Which)
    requires step.Delete? ==> s !in step.gone
    requires step.Event? ==> Numbered(d.events, step.session)
    requires step.Message? ==> Numbered(d.messages, step.session)
    ensures Grows(Of(TableOf(d, which), s), Of(TableOf(Next(d, step), which), s))
  {
    var before := Of(TableOf(d, which), s);
    assert Grows(before, before);
    match step
    case Delete(gone) => PurgeKeepsOthers(TableOf(d, which), gone, s);
    case Event(w, p) => if which == Events { AppendGrows(d.events, w, p, s); }
    case Message(w, p) => if which == Messages { AppendGrows(d.messages, w, p, s); }
    case _ =>
  }

  lemma Stretches(log: Table, i: nat, j: nat)
    requires i <= j <= |log|
    ensures log[..j] == log[..i] + log[i..j]
  {
  }

  lemma ReadKeepsUpToCursor(d: Store, r: Reader, limit: nat)
    requires Numbered(TableOf(d, r.which), r.session) && UpToCursor(d, r) && limit >= 1
    ensures UpToCursor(d, Reading(d, r, limit))
  {
    var log := Of(TableOf(d, r.which), r.session);
    PageIsAStretch(TableOf(d, r.which), r.session, r.cursor, limit);
    Stretches(log, r.cursor, Min(r.cursor + limit, |log|));
  }

  /** However appends and other calls fall between its reads, a reader has the log's prefix up to its cursor: all of
      it, once, in order. */
  lemma {:induction false} ReaderMissesNothing(d: Store, r: Reader, moves: seq<Move>)
    requires Inv(d) && UpToCursor(d, r) && Spares(moves, r.session)
    ensures var (d1, r1) := Follow(d, r, moves);
            Inv(d1) && UpToCursor(d1, r1) && r1.session == r.session && r1.which == r.which
    decreases |moves|
  {
    if moves != [] {
      var (d1, r1) := Moved(d, r, moves[0]);
      match moves[0] {
        case Write(step) =>
          StepKeepsInv(d, step);
          if step.Event? { InvNumbers(d, Events, step.session); }
          if step.Message? { InvNumbers(d, Messages, step.session); }
          LogsOnlyGrow(d, step, r.session, r.which);
        case Read(limit) =>
          InvNumbers(d, r.which, r.session);
          if r.session in d.states && limit >= 1 { ReadKeepsUpToCursor(d, r, limit); }
      }
      assert Spares(moves[1..], r.session);
      ReaderMissesNothing(d1, r1, moves[1..]);
    }
  }

  /** A page shorter than its limit says that the reader had caught up. */
  lemma ShortPageMeansCaughtUp(d: Store, r: Reader, limit: nat)
    requires Inv(d) && UpToCursor(d, r) && limit >= 1
    ensures |PageAfter(TableOf(d, r.which), r.session, r.cursor, limit).rows| < limit ==>
              (var log := Of(TableOf(d, r.which), r.session);
               Reading(d, r, limit).cursor == |log| && Reading(d, r, limit).got == log)
  {
    InvNumbers(d, r.which, r.session);
    PageIsAStretch(TableOf(d, r.which), r.session, r.cursor, limit);
    ReadKeepsUpToCursor(d, r, limit);
  }

  function Times(n: nat, limit: nat): nat {
    if n == 0 then 0 else limit + Times(n - 1, limit)
  }

  function Reads(n: nat, limit: nat): seq<Move> {
    if n == 0 then [] else [Read(limit)] + Reads(n - 1, limit)
  }

  /** A reader of a known session, whose log has `size` rows, holds it up to its cursor. */
  ghost predicate HoldsUpTo(d: Store, r: Reader, size: nat) {
    Inv(d) && UpToCursor(d, r) && r.session in d.states && size == |Of(TableOf(d, r.which), r.session)|
  }

  lemma ReadAdvances(d: Store, r: Reader, limit: nat, size: nat)
    requires HoldsUpTo(d, r, size) && limit >= 1
    ensures HoldsUpTo(d, Reading(d, r, limit), size)
    ensures Reading(d, r, limit).cursor == Min(r.cursor + limit, size)
    ensures Moved(d, r, Read(limit)) == (d, Reading(d, r, limit))
  {
    InvNumbers(d, r.which, r.session);
    PageIsAStretch(TableOf(d, r.which), r.session, r.cursor, limit);
    ReadKeepsUpToCursor(d, r, limit);
  }

  lemma {:induction false} ReadsAdvance(d: Store, r: Reader, n: nat, limit: nat, size: nat)
    requires HoldsUpTo(d, r, size) && limit >= 1
    ensures Follow(d, r, Reads(n, limit)).1.cursor == Min(r.cursor + Times(n, limit), size)
    decreases n
  {
    if n > 0 {
      ReadAdvances(d, r, limit, size);
      FollowFirst(d, r, Read(limit), Reads(n - 1, limit));
      ReadsAdvance(d, Reading(d, r, limit), n - 1, limit, size);
    } else {
      assert r.cursor <= size;
    }
  }

  /** A reader catches up: each read takes it as many rows further as it asks for, up to the end of its log. */
  lemma ReadersCatchUp(d: Store, r: Reader, n: nat, limit: nat, log: Table)
    requires Inv(d) && UpToCursor(d, r) && limit >= 1 && r.session in d.states
    requires log == Of(if r.which.Events? then d.events else d.messages, r.session)
    ensures Follow(d, r, Reads(n, limit)).1.cursor
            == if r.cursor + Times(n, limit) < |log| then r.cursor + Times(n, limit) else |log|
  {
    assert HoldsUpTo(d, r, |log|);
    ReadsAdvance(d, r, n, limit, |log|);
  }

  lemma FollowFirst(d: Store, r: Reader, move: Move, rest: seq<Move>)
    ensures Follow(d, r, [move] + rest) == Follow(Moved(d, r, move).0, Moved(d, r, move).1, rest)
  {
    assert ([move] + rest)[1..] == rest;
  }

  // ---- The store ----

  class AgentLog {
    var states: map<Session, State>
    var events: Table
    var messages: Table

    function Contents(): Store
      reads this
    {
      Store(states, events, messages)
    }

    constructor ()
      ensures Contents() == Empty
    {
      states, events, messages := map[], [], [];
    }

    /** Appends an event and gives its sequence; nothing for an unknown session. */
    method RecordEvent(session: Session, payload: Payload) returns (sequence: Option<nat>)
      requires Inv(Contents())
      modifies this
      ensures Contents() == Next(old(Contents()), Event(session, payload)) && Inv(Contents())
      ensures sequence == if session in old(states) then Some(|Of(events, session)|) else None
    {
      StepKeepsInv(Contents(), Event(session, payload));
      if session !in states { return None; }
      assert Numbered(events, session);
      AppendAddsNext(events, session, payload, session);
      MaxIsCount(events, session);
      var next := MaxSequence(events, session) + 1;
      events := events + [Row(session, next, payload)];
      states := states[session := Woken(states[session])];
      sequence := Some(next);
    }

    method AddMessage(session: Session, payload: Payload) returns (sequence: Option<nat>)
      requires Inv(Contents())
      modifies this
      ensures Contents() == Next(old(Contents()), Message(session, payload)) && Inv(Contents())
      ensures sequence == if session in old(states) then Some(|Of(messages, session)|) else None
    {
      StepKeepsInv(Contents(), Message(session, payload));
      if session !in states { return None; }
      assert Numbered(messages, session);
      AppendAddsNext(messages, session, payload, session);
      MaxIsCount(messages, session);
      var next := MaxSequence(messages, session) + 1;
      messages := messages + [Row(session, next, payload)];
      sequence := Some(next);
    }

    /** A page of events; nothing for an unknown session, a negative cursor, or a limit outside 1..200. */
    method EventPage(session: Session, after: int, limit: int) returns (page: Option<Page>)
      requires Inv(Contents())
      ensures page.Some? <==> session in states && after >= 0 && 1 <= limit <= 200
      ensures page.Some? && after <= |Of(events, session)| ==>
                page.value == (var end := Min(after + limit, |Of(events, session)|);
                               Page(Of(events, session)[after..end], end))
      ensures page.Some? && after > |Of(events, session)| ==> page.value == Page([], after)
    {
      if session !in states || after < 0 || !(1 <= limit <= 200) { return None; }
      assert Numbered(events, session);
      PageIsAStretch(events, session, after, limit);
      page := Some(PageAfter(events, session, after, limit));
    }

    /** A page of messages, under limits 1..500. */
    method MessagePage(session: Session, after: int, limit: int) returns (page: Option<Page>)
      requires Inv(Contents())
      ensures page.Some? <==> session in states && after >= 0 && 1 <= limit <= 500
      ensures page.Some? && after <= |Of(messages, session)| ==>
                page.value == (var end := Min(after + limit, |Of(messages, session)|);
                               Page(Of(messages, session)[after..end], end))
      ensures page.Some? && after > |Of(messages, session)| ==> page.value == Page([], after)
    {
      if session !in states || after < 0 || !(1 <= limit <= 500) { return None; }
      assert Numbered(messages, session);
      PageIsAStretch(messages, session, after, limit);
      page := Some(PageAfter(messages, session, after, limit));
    }

    /** The latest events, oldest first, under limits 1..50. */
    method RecentEvents(session: Session, limit: int) returns (rows: Option<Table>)
      requires Inv(Contents())
      ensures rows.Some? <==> session in states && 1 <= limit <= 50
      ensures rows.Some? ==> (var log := Of(events, session); rows.value == log[|log| - Min(limit, |log|)..])
    {
      if session !in states || !(1 <= limit <= 50) { return None; }
      assert Numbered(events, session);
      RecentIsTheEnd(events, session, limit);
      rows := Some(LatestRows(events, session, limit));
    }
  }
}
