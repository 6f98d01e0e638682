/** Semantic budgets of one worker turn, checked event by event: tool calls, repeated calls, child agents and tokens. */
module Supervision {
  import opened Wrappers

  datatype Budget = Budget(
    maxTokens: Option<int>, maxToolCalls: Option<int>, maxRepeatedCalls: Option<int>, maxChildAgents: Option<int>)

  datatype Fingerprint = Fingerprint(tool: string, command: string, path: string)

  /** An entry of an event's list of subagents; missing ids are empty. */
  datatype Child = Other | Child(providerSession: string, session: string, id: string)

  /** A progress event: whether it is an active tool call, and what it reports. */
  datatype Event = Event(
    activeTool: bool, fingerprint: Fingerprint, subagents: seq<Child>,
    total: Option<int>, input: Option<int>, output: Option<int>)

  datatype Violation = ToolCallBudget | RepeatedToolStall | ChildAgentBudget | TokenBudget

  predicate Over(n: int, limit: Option<int>) {
    limit.Some? && n > limit.value
  }

  // ---- One event ----

  datatype Counts = Counts(toolCalls: nat, last: Option<Fingerprint>, repeated: nat, children: set<string>)

  /** The first id that is not empty. */
  function IdOf(c: Child): string {
    match c
    case Other => ""
    case Child(p, s, i) => if p != "" then p else if s != "" then s else i
  }

  function IdsOf(children: seq<Child>): set<string> {
    set k | 0 <= k < |children| && IdOf(children[k]) != "" :: IdOf(children[k])
  }

  function CountTool(c: Counts, e: Event): Counts {
    if !e.activeTool then c
    else
      var same := c.last == Some(e.fingerprint);
      c.(toolCalls := c.toolCalls + 1, last := Some(e.fingerprint), repeated := if same then c.repeated + 1 else 1)
  }

  function ToolViolation(b: Budget, c: Counts, e: Event): Option<Violation> {
    if !e.activeTool then None
    else if Over(c.toolCalls, b.maxToolCalls) then Some(ToolCallBudget)
    else if Over(c.repeated, b.maxRepeatedCalls) then Some(RepeatedToolStall)
    else None
  }

  /** The tokens an event reports: a total, or else what is known of input and output. */
  function TokensOf(e: Event): Option<int> {
    if e.total.Some? then e.total
    else if e.input.None? && e.output.None? then None
    else Some((if e.input.Some? then e.input.value else 0) + (if e.output.Some? then e.output.value else 0))
  }

  predicate TokensOver(b: Budget, e: Event) {
    TokensOf(e).Some? && Over(TokensOf(e).value, b.maxTokens)
  }

  /** Counts the event, up to the first check it fails. */
  function Observe(b: Budget, c: Counts, e: Event): (Counts, Option<Violation>) {
    var c1 := CountTool(c, e);
    var tool := ToolViolation(b, c1, e);
    if tool.Some? then (c1, tool)
    else
      var c2 := c1.(children := c1.children + IdsOf(e.subagents));
      if Over(|c2.children|, b.maxChildAgents) then (c2, Some(ChildAgentBudget))
      else (c2, if TokensOver(b, e) then Some(TokenBudget) else None)
  }

  const Fresh: Counts := Counts(0, None, 0, {})

  /** The counts after a history, */
  function After(b: Budget, h: seq<Event>): Counts {
    if h == [] then Fresh else Observe(b, After(b, h[..|h| - 1]), h[|h| - 1]).0
  }

  /** and what its last event returned. */
  function Answer(b: Budget, h: seq<Event>): Option<Violation>
    requires h != []
  {
    Observe(b, After(b, h[..|h| - 1]), h[|h| - 1]).1
  }

  // ---- The same, over the whole history ----

  /** The fingerprints of the active tool calls, in order. */
  function Calls(h: seq<Event>): seq<Fingerprint> {
    if h == [] then []
    else Calls(h[..|h| - 1]) + if h[|h| - 1].activeTool then [h[|h| - 1].fingerprint] else []
  }

  /** The last `n` are equal, and no more than these. */
  ghost predicate TrailingRun(calls: seq<Fingerprint>, n: nat) {
    && n <= |calls|
    && (forall i :: |calls| - n <= i < |calls| ==> calls[i] == calls[|calls| - 1])
    && (n == 0 <==> calls == [])
    && (n < |calls| && n > 0 ==> calls[|calls| - n - 1] != calls[|calls| - 1])
  }

  lemma TrailingRunIsUnique(calls: seq<Fingerprint>, m: nat, n: nat)
    requires TrailingRun(calls, m) && TrailingRun(calls, n)
    ensures m == n
  {
  }

  /** The ids of all children the events name. */
  ghost function ChildIds(h: seq<Event>): set<string> {
    set k, x | 0 <= k < |h| && x in IdsOf(h[k].subagents) :: x
  }

  lemma NoChildIds()
    ensures ChildIds([]) == {}
  {
  }

  lemma ChildIdsLast(h: seq<Event>, e: Event)
    ensures ChildIds(h + [e]) == ChildIds(h) + IdsOf(e.subagents)
  {
    var all := h + [e];
    forall x ensures x in ChildIds(all) <==> x in ChildIds(h) || x in IdsOf(e.subagents) {
      if k :| 0 <= k < |h| && x in IdsOf(h[k].subagents) { assert all[k] == h[k]; }
      assert all[|h|] == e;
    }
  }

  /** The history exceeds its budget at its last event. */
  ghost predicate Exceeds(b: Budget, h: seq<Event>)
    requires h != []
  {
    TooManyCalls(b, h) || Stalls(b, h) || TooManyChildren(b, h) || SpendsTooMuch(b, h[|h| - 1])
  }

  ghost predicate TooManyCalls(b: Budget, h: seq<Event>)
    requires h != []
  {
    h[|h| - 1].activeTool && b.maxToolCalls.Some? && |Calls(h)| > b.maxToolCalls.value
  }

  ghost predicate Stalls(b: Budget, h: seq<Event>)
    requires h != []
  {
    && h[|h| - 1].activeTool && b.maxRepeatedCalls.Some?
    && exists n: nat :: TrailingRun(Calls(h), n) && n > b.maxRepeatedCalls.value
  }

  ghost predicate TooManyChildren(b: Budget, h: seq<Event>) {
    b.maxChildAgents.Some? && |ChildIds(h)| > b.maxChildAgents.value
  }

  /** The event reports a total above the limit, or without one what is known of input and output adds up to more. */
  ghost predicate SpendsTooMuch(b: Budget, e: Event) {
    && b.maxTokens.Some?
    && (|| (e.total.Some? && e.total.value > b.maxTokens.value)
        || (e.total.None? && e.input.Some? && e.output.None? && e.input.value > b.maxTokens.value)
        || (e.total.None? && e.input.None? && e.output.Some? && e.output.value > b.maxTokens.value)
        || (e.total.None? && e.input.Some? && e.output.Some? && e.input.value + e.output.value > b.maxTokens.value))
  }

  lemma TrailingRunNext(calls: seq<Fingerprint>, n: nat, f: Fingerprint)
    requires TrailingRun(calls, n)
    ensures TrailingRun(calls + [f], if calls != [] && calls[|calls| - 1] == f then n + 1 else 1)
  {
  }

  lemma CallsLast(h: seq<Event>, e: Event)
    ensures Calls(h + [e]) == if e.activeTool then Calls(h) + [e.fingerprint] else Calls(h)
  {
    assert (h + [e])[..|h|] == h;
    assert Calls(h) + [] == Calls(h);
  }

  /** The tool counters of `c` are those of the calls. */
  ghost predicate Counted(c: Counts, calls: seq<Fingerprint>) {
    && c.toolCalls == |calls| && TrailingRun(calls, c.repeated)
    && c.last == if calls == [] then None else Some(calls[|calls| - 1])
  }

  lemma CountedNext(c: Counts, calls: seq<Fingerprint>, e: Event)
    requires Counted(c, calls)
    ensures Counted(CountTool(c, e), if e.activeTool then calls + [e.fingerprint] else calls)
  {
    if e.activeTool { TrailingRunNext(calls, c.repeated, e.fingerprint); }
  }

  /** One event counts its tool call, whatever it returns, and its children, unless it violates a tool budget. */
  lemma ObserveCounts(b: Budget, c: Counts, e: Event)
    ensures var (after, answer) := Observe(b, c, e);
            && after == CountTool(c, e).(children := after.children)
            && c.children <= after.children
            && (answer == None ==> after.children == c.children + IdsOf(e.subagents))
  {
  }

  /** The tool counters are those of the whole history, whatever was returned on the way. */
  lemma {:induction false} ToolCountersAreExact(b: Budget, h: seq<Event>)
    ensures Counted(After(b, h), Calls(h))
  {
    if h != [] {
      var before, e := h[..|h| - 1], h[|h| - 1];
      ToolCountersAreExact(b, before);
      assert h == before + [e];
      CallsLast(before, e);
      CountedNext(After(b, before), Calls(before), e);
      ObserveCounts(b, After(b, before), e);
    }
  }

  /** Nothing was returned for any event so far. */
  ghost predicate Quiet(b: Budget, h: seq<Event>) {
    h != [] ==> Quiet(b, h[..|h| - 1]) && Answer(b, h) == None
  }

  /** No prefix exceeds its budget. */
  ghost predicate Within(b: Budget, h: seq<Event>) {
    h != [] ==> Within(b, h[..|h| - 1]) && !Exceeds(b, h)
  }

  lemma ChildrenNext(b: Budget, h: seq<Event>, e: Event)
    requires After(b, h).children == ChildIds(h) && Answer(b, h + [e]) == None
    ensures After(b, h + [e]).children == ChildIds(h + [e])
  {
    assert (h + [e])[..|h|] == h;
    ObserveCounts(b, After(b, h), e);
    ChildIdsLast(h, e);
  }

  /** While nothing has been returned, the children on record are those of the whole history. */
  lemma {:induction false} ChildrenAreExactWhileQuiet(b: Budget, h: seq<Event>)
    requires Quiet(b, h)
    ensures After(b, h).children == ChildIds(h)
  {
    if h == [] {
      NoChildIds();
    } else {
      var before, e := h[..|h| - 1], h[|h| - 1];
      assert h == before + [e];
      QuietParts(b, h);
      ChildrenAreExactWhileQuiet(b, before);
      ChildrenNext(b, before, e);
    }
  }

  lemma QuietParts(b: Budget, h: seq<Event>)
    requires Quiet(b, h) && h != []
    ensures Quiet(b, h[..|h| - 1]) && Answer(b, h) == None
  {
  }

  /** The id of a child: the first that is not empty; an entry of another kind has none. */
  lemma IdIsFirstNamed(c: Child)
    ensures c.Child? ==>
      && (c.providerSession != "" ==> IdOf(c) == c.providerSession)
      && (c.providerSession == "" && c.session != "" ==> IdOf(c) == c.session)
      && (c.providerSession == "" && c.session == "" ==> IdOf(c) == c.id)
    ensures c.Other? ==> IdOf(c) == ""
  {
  }

  /** In a history quiet so far, which violation the next event returns: the first of four excesses, in this order. */
  lemma FirstViolationByKind(b: Budget, h: seq<Event>, e: Event)
    requires Quiet(b, h)
    ensures var now := h + [e];
            Answer(b, now)
            == if TooManyCalls(b, now) then Some(ToolCallBudget)
               else if Stalls(b, now) then Some(RepeatedToolStall)
               else if TooManyChildren(b, now) then Some(ChildAgentBudget)
               else if SpendsTooMuch(b, e) then Some(TokenBudget)
               else None
  {
    var c, now := After(b, h), h + [e];
    assert now[..|h|] == h;
    ToolCountersAreExact(b, h);
    ChildrenAreExactWhileQuiet(b, h);
    CallsLast(h, e);
    ChildIdsLast(h, e);
    CountedNext(c, Calls(h), e);
    StallsByCount(b, now, CountTool(c, e));
    ObserveByKind(b, c, e);
  }

  lemma StallsByCount(b: Budget, h: seq<Event>, c: Counts)
    requires h != [] && Counted(c, Calls(h))
    ensures Stalls(b, h)
            <==> h[|h| - 1].activeTool && b.maxRepeatedCalls.Some? && c.repeated > b.maxRepeatedCalls.value
  {
    forall n: nat | TrailingRun(Calls(h), n) ensures n == c.repeated { TrailingRunIsUnique(Calls(h), n, c.repeated); }
  }

  lemma ObserveByKind(b: Budget, c: Counts, e: Event)
    ensures var c1 := CountTool(c, e);
      Observe(b, c, e).1
      == if e.activeTool && b.maxToolCalls.Some? && c1.toolCalls > b.maxToolCalls.value then Some(ToolCallBudget)
         else if e.activeTool && b.maxRepeatedCalls.Some? && c1.repeated > b.maxRepeatedCalls.value
         then Some(RepeatedToolStall)
         else if b.maxChildAgents.Some? && |c.children + IdsOf(e.subagents)| > b.maxChildAgents.value
         then Some(ChildAgentBudget)
         else if SpendsTooMuch(b, e) then Some(TokenBudget)
         else None
  {
  }

  /** In a history quiet so far, the next event returns a violation exactly when the history then exceeds its budget. */
  lemma FirstViolationIsFirstExcess(b: Budget, h: seq<Event>, e: Event)
    requires Quiet(b, h)
    ensures Answer(b, h + [e]).Some? <==> Exceeds(b, h + [e])
  {
    FirstViolationByKind(b, h, e);
  }

  /** Nothing has been returned exactly when no prefix of the history exceeds its budget. */
  lemma {:induction false} QuietExactlyWhenWithin(b: Budget, h: seq<Event>)
    ensures Quiet(b, h) <==> Within(b, h)
  {
    if h != [] {
      var before, e := h[..|h| - 1], h[|h| - 1];
      assert h == before + [e];
      QuietExactlyWhenWithin(b, before);
      if Quiet(b, before) { FirstViolationIsFirstExcess(b, before, e); }
    }
  }

  // ---- Violations that stay ----

  lemma {:induction false} CallsGrow(h: seq<Event>, k: nat)
    requires k <= |h|
    ensures |Calls(h[..k])| <= |Calls(h)|
    decreases |h|
  {
    if k < |h| {
      CallsGrow(h[..|h| - 1], k);
      assert h[..|h| - 1][..k] == h[..k];
    } else {
      assert h[..k] == h;
    }
  }

  /** Once the tool-call budget has been exceeded, every later active tool call is a violation of it. */
  lemma ToolCallBudgetStaysExceeded(b: Budget, h: seq<Event>, k: nat)
    requires 0 < k <= |h| && Answer(b, h[..k]) == Some(ToolCallBudget) && h[|h| - 1].activeTool
    ensures Answer(b, h) == Some(ToolCallBudget)
  {
    ToolCountersAreExact(b, h[..k]);
    ToolCountersAreExact(b, h);
    CallsGrow(h, k);
  }

  lemma {:induction false} ChildrenGrow(b: Budget, h: seq<Event>, k: nat)
    requires k <= |h|
    ensures After(b, h[..k]).children <= After(b, h).children
    decreases |h|
  {
    if k < |h| {
      ChildrenGrow(b, h[..|h| - 1], k);
      assert h[..|h| - 1][..k] == h[..k];
    } else {
      assert h[..k] == h;
    }
  }

  /** Once the child budget has been exceeded, every later event is a violation, of it or of a tool budget. */
  lemma ChildBudgetStaysExceeded(b: Budget, h: seq<Event>, k: nat)
    requires 0 < k < |h| && Answer(b, h[..k]) == Some(ChildAgentBudget)
    ensures Answer(b, h) in {Some(ChildAgentBudget), Some(ToolCallBudget), Some(RepeatedToolStall)}
  {
    var before := h[..|h| - 1];
    assert before[..k] == h[..k];
    ChildrenGrow(b, before, k);
    ChildViolationCounts(b, h[..k]);
    var now := After(b, before).children + IdsOf(h[|h| - 1].subagents);
    SubsetSize(After(b, h[..k]).children, now);
  }

  lemma ChildViolationCounts(b: Budget, h: seq<Event>)
    requires h != [] && Answer(b, h) == Some(ChildAgentBudget)
    ensures b.maxChildAgents.Some? && |After(b, h).children| > b.maxChildAgents.value
  {
  }

  lemma IdsOfNext(children: seq<Child>, k: nat)
    requires k < |children|
    ensures IdsOf(children[..k + 1])
            == IdsOf(children[..k]) + if IdOf(children[k]) != "" then {IdOf(children[k])} else {}
  {
    var before, after, id := children[..k], children[..k + 1], IdOf(children[k]);
    forall x ensures x in IdsOf(after) <==> x in IdsOf(before) || (x == id && id != "") {
      if m :| 0 <= m < |after| && IdOf(after[m]) == x && x != "" {
        if m < k { assert before[m] == after[m]; }
      }
      if m :| 0 <= m < |before| && IdOf(before[m]) == x && x != "" { assert after[m] == before[m]; }
      assert after[k] == children[k];
    }
  }

  // ---- The tracker ----

  class SupervisionTracker {
    const budget: Budget
    var toolCalls: nat
    var last: Option<Fingerprint>
    var repeated: nat
    var children: set<string>

    function State(): Counts
      reads this
    {
      Counts(toolCalls, last, repeated, children)
    }

    constructor (budget: Budget)
      ensures this.budget == budget && State() == Fresh
    {
      this.budget := budget;
      toolCalls, last, repeated, children := 0, None, 0, {};
    }

    method ObserveTool(e: Event) returns (v: Option<Violation>)
      modifies this
      ensures State() == CountTool(old(State()), e) && v == ToolViolation(budget, State(), e)
    {
      if !e.activeTool { return None; }
      toolCalls := toolCalls + 1;
      if last == Some(e.fingerprint) {
        repeated := repeated + 1;
      } else {
        last, repeated := Some(e.fingerprint), 1;
      }
      if budget.maxToolCalls.Some? && toolCalls > budget.maxToolCalls.value { return Some(ToolCallBudget); }
      if budget.maxRepeatedCalls.Some? && repeated > budget.maxRepeatedCalls.value { return Some(RepeatedToolStall); }
      v := None;
    }

    method ObserveChildren(e: Event) returns (v: Option<Violation>)
      modifies this
      ensures State() == old(State()).(children := old(children) + IdsOf(e.subagents))
      ensures v == if Over(|children|, budget.maxChildAgents) then Some(ChildAgentBudget) else None
    {
      ghost var was := children;
      assert e.subagents[..0] == [] && IdsOf([]) == {};
      for k := 0 to |e.subagents|
        invariant State() == old(State()).(children := was + IdsOf(e.subagents[..k]))
      {
        IdsOfNext(e.subagents, k);
        var id := IdOf(e.subagents[k]);
        if id != "" { children := children + {id}; }
      }
      assert e.subagents[..|e.subagents|] == e.subagents;
      if budget.maxChildAgents.Some? && |children| > budget.maxChildAgents.value { return Some(ChildAgentBudget); }
      v := None;
    }

    /** Observes one event of a turn; `h` are the events before it. */
    method ObserveEvent(e: Event, ghost h: seq<Event>) returns (v: Option<Violation>)
      requires State() == After(budget, h)
      modifies this
      ensures State() == After(budget, h + [e]) && v == Answer(budget, h + [e])
      ensures Quiet(budget, h) ==> (v.Some? <==> Exceeds(budget, h + [e]))
    {
      assert (h + [e])[..|h|] == h;
      if Quiet(budget, h) { FirstViolationIsFirstExcess(budget, h, e); }
      v := ObserveTool(e);
      if v.Some? { return; }
      v := ObserveChildren(e);
      if v.Some? { return; }
      var tokens := TokensOf(e);
      v := if tokens.Some? && Over(tokens.value, budget.maxTokens) then Some(TokenBudget) else None;
    }
  }
}
