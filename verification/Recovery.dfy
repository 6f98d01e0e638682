/**
 * Recovery from a provider's print timeout: the same session is resumed, a bounded number of times, inside one
 * cumulative deadline. Seconds are reals; converting to `int` truncates towards zero.
 */
module Recovery {
  import opened Wrappers
  import opened Text

  /** One metadata value, by the kinds the readers tell apart. */
  datatype Meta = Missing | Flag(on: bool) | Number(value: real) | Other

  /** A task as far as its turns are concerned; the spec refuses a timeout under one second. */
  datatype Task = Task(objective: string, timeout: int, deadline: Meta, attempt: Meta, printLimit: Meta)

  datatype Status = Success | Failed | Timeout | Unavailable | Cancelled | BudgetExceeded

  /** Why a turn ended: the reasons the decision knows by name, or any other. */
  datatype Termination =
    | Unstated | ProviderPrintTimeout | CancelledReason | BudgetReason | SupervisorBudget | TokenBudget | CostBudget
    | OwnerLost | LeaseExpired | WorkerLost | ExecutionTimeout | IdleTimeout | ProviderException | Named(name: string)

  /** What a turn returned; a missing session id is the empty string. */
  datatype Result = Result(status: Status, termination: Termination, conversation: string)

  datatype SessionMode = ResumableMode | NativeMode | OtherMode

  datatype Capabilities = Capabilities(persistent: bool, mode: SessionMode)

  datatype Policy = Policy(maxAttempts: nat, minRemaining: real, recoverable: set<Termination>)

  const DefaultPolicy: Policy := Policy(3, 15.0, {ProviderPrintTimeout})

  /** Reasons that are never resumed, whatever the policy names. */
  predicate NeverResumed(t: Termination) {
    match t
    case Unstated => false
    case ProviderPrintTimeout => false
    case Named(_) => false
    case _ => true
  }

  /** The fixed text before an objective in a recovery prompt: how to continue, and the heading that follows. */
  datatype Wording = Wording(continuation: string, heading: string)

  /** What does not change between the turns of one run. */
  datatype Setup = Setup(caps: Capabilities, policy: Policy, wording: Wording)

  function Truncated(x: real): (r: int)
    ensures x >= 0.0 ==> r as real <= x < (r + 1) as real
    ensures x <= 0.0 ==> (r - 1) as real < x <= r as real
  {
    if x >= 0.0 then x.Floor else -((-x).Floor)
  }

  function Max(a: real, b: real): real { if a >= b then a else b }
  function Min(a: real, b: real): real { if a <= b then a else b }
  function MaxInt(a: int, b: int): int { if a >= b then a else b }
  function MinInt(a: int, b: int): int { if a <= b then a else b }

  // ---- Clock and counter ----

  /** Recovery attempts the task carries; a flag, a text or nothing counts as none. */
  function Attempts(task: Task): nat {
    match task.attempt
    case Number(n) => MaxInt(0, Truncated(n))
    case _ => 0
  }

  /** Stamps a deadline unless an outer run already has. */
  function Stamped(task: Task, timeout: real, now: real): Task {
    if task.deadline.Number? then task else task.(deadline := Number(now + Max(0.0, timeout)))
  }

  /** The task carries the deadline it was stamped with at `begun`, having had none before. */
  predicate StampedAt(task: Task, begun: real) {
    task == Stamped(task.(deadline := Missing), task.timeout as real, begun)
  }

  function Remaining(task: Task, now: real): real {
    match task.deadline
    case Number(d) => Max(0.0, d - now)
    case _ => task.timeout as real
  }

  // ---- The recovery prompt ----

  const ContinueFirst: string := "Your previous turn "
  const ContinueThen: string :=
    "was interrupted by the provider print timeout before it "
    + "finished. Continue the original objective from where you stopped: do not "
    + "restart completed work, do not repeat finished analysis, and do not ask for "
  const ContinueLast: string := "instructions. If the work is already complete, report the final result now."

  /** The wording in use. */
  function StandardWording(): Wording {
    Wording(ContinueFirst + ContinueThen + ContinueLast, "\n\nOriginal objective (authoritative):\n")
  }

  function RecoveryPrompt(w: Wording, objective: string): string {
    var stripped := Strip(objective);
    if stripped == "" then w.continuation else w.continuation + w.heading + stripped
  }

  // ---- The decision ----

  datatype Reason =
    | TerminalStatus | NeverResumedReason | NotRecoverable | NotATimeout | NoResumableSession | WrongMode
    | AttemptsExhausted | TooLittleTime | Resumable

  datatype Decision = Decision(
    resume: bool, reason: Reason, attempt: nat, next: nat, prompt: Option<string>, remaining: real)

  function Refused(reason: Reason, done: nat, left: real): Decision {
    Decision(false, reason, done, done, None, left)
  }

  function Decide(task: Task, result: Result, s: Setup, remaining: real): Decision {
    var done, left := Attempts(task), Max(0.0, remaining);
    if result.status == Cancelled || result.status == BudgetExceeded then Refused(TerminalStatus, done, left)
    else if NeverResumed(result.termination) then Refused(NeverResumedReason, done, left)
    else if result.termination !in s.policy.recoverable then Refused(NotRecoverable, done, left)
    else if result.status != Timeout then Refused(NotATimeout, done, left)
    else if !s.caps.persistent then Refused(NoResumableSession, done, left)
    else if s.caps.mode == OtherMode then Refused(WrongMode, done, left)
    else if done >= s.policy.maxAttempts then Refused(AttemptsExhausted, done, left)
    else if left < s.policy.minRemaining then Refused(TooLittleTime, done, left)
    else Decision(true, Resumable, done, done + 1, Some(RecoveryPrompt(s.wording, task.objective)), left)
  }

  // ---- Turns ----

  /** One call of the provider: a first turn without a session, or the continuation of one. */
  datatype Call = Call(task: Task, session: Option<string>)

  /**
   * What one call comes to: it raised, or it returned `result`; `bound` is the session the store then has on file;
   * `begun` and `ended` are its times, and `decided` is the reading of the clock that follows.
   */
  datatype Turn = Turn(raised: bool, result: Result, bound: string, begun: real, ended: real, decided: real)

  datatype Final = Raised | Returned(result: Result, recovered: nat)

  /** The first non-empty of three session ids. */
  function Candidate(conversation: string, session: Option<string>, bound: string): string {
    if conversation != "" then conversation
    else if session.Some? && session.value != "" then session.value
    else bound
  }

  /** The task as it goes into the next turn. */
  function Resumed(task: Task, decision: Decision): Task {
    var prompt := if decision.prompt.Some? then decision.prompt.value else "";
    task.(
      objective := if prompt != "" then prompt else task.objective,
      timeout := MaxInt(1, MinInt(task.timeout, Truncated(decision.remaining))),
      attempt := Number(decision.next as real))
  }

  /** The call that follows `call`, if its turn is to be resumed. */
  function NextCall(call: Call, turn: Turn, s: Setup): Option<Call> {
    if turn.raised then None
    else
      var decision := Decide(call.task, turn.result, s, Remaining(call.task, turn.decided));
      var candidate := Candidate(turn.result.conversation, call.session, turn.bound);
      if !decision.resume || candidate == "" then None
      else
        Some(Call(Resumed(call.task, decision), Some(candidate)))
  }

  /** Call `i` is resumed as call `i + 1`. */
  ghost predicate LeadsOn(calls: seq<Call>, turns: nat -> Turn, s: Setup, i: nat)
    requires i + 1 < |calls|
  {
    NextCall(calls[i], turns(i), s) == Some(calls[i + 1])
  }

  /** The calls made so far, each following from the one before. */
  ghost predicate Follows(calls: seq<Call>, first: Call, turns: nat -> Turn, s: Setup) {
    && 0 < |calls| && calls[0] == first
    && forall i {:trigger LeadsOn(calls, turns, s, i)} :: 0 <= i < |calls| - 1 ==> LeadsOn(calls, turns, s, i)
  }

  /** A whole run: the last call raised or was not resumed. */
  ghost predicate IsRun(calls: seq<Call>, first: Call, turns: nat -> Turn, s: Setup) {
    && Follows(calls, first, turns, s)
    && NextCall(calls[|calls| - 1], turns(|calls| - 1), s) == None
  }

  /** What it takes to resume a turn, and what the next call then carries. */
  lemma Resumption(call: Call, turn: Turn, s: Setup)
    requires NextCall(call, turn, s).Some?
    ensures !turn.raised && turn.result.status == Timeout
    ensures turn.result.termination in s.policy.recoverable && !NeverResumed(turn.result.termination)
    ensures s.caps.persistent && Attempts(call.task) < s.policy.maxAttempts
    ensures Max(0.0, Remaining(call.task, turn.decided)) >= s.policy.minRemaining
    ensures var next := NextCall(call, turn, s).value;
            && Attempts(next.task) == Attempts(call.task) + 1
            && next.task.deadline == call.task.deadline && next.task.printLimit == call.task.printLimit
            && next.task.timeout
               == MaxInt(1, MinInt(call.task.timeout, Truncated(Max(0.0, Remaining(call.task, turn.decided)))))
            && next.task.objective == ResumedObjective(s.wording, call.task.objective)
            && next.session.Some?
            && next.session.value == Candidate(turn.result.conversation, call.session, turn.bound) != ""
  {
    var done := Attempts(call.task);
    assert Truncated((done + 1) as real) == done + 1;
  }

  /** Recoveries on record: the whole part of a positive number, and none otherwise. */
  ghost predicate OnRecord(task: Task, done: int) {
    match task.attempt
    case Number(n) => if n >= 1.0 then done as real <= n < (done + 1) as real else done == 0
    case _ => done == 0
  }

  /** Seconds left: until the deadline, none after it, and the whole timeout without one. */
  ghost predicate Left(task: Task, now: real, left: real) {
    match task.deadline
    case Number(d) => left == if d > now then d - now else 0.0
    case _ => left == task.timeout as real
  }

  /** The outcomes that end a run for good. */
  const ForGood: set<Termination> := {
    CancelledReason, BudgetReason, SupervisorBudget, TokenBudget, CostBudget, OwnerLost, LeaseExpired, WorkerLost,
    ExecutionTimeout, IdleTimeout, ProviderException}

  /**
   * When a turn is resumed, whatever the policy and however many recoveries are on record, and in which session: the
   * one the turn reports, or else the one it ran in, or else the one on file.
   */
  lemma ResumesExactlyWhen(call: Call, turn: Turn, s: Setup, done: int, left: real)
    requires OnRecord(call.task, done) && Left(call.task, turn.decided, left) && call.task.timeout >= 1
    ensures NextCall(call, turn, s).Some?
            <==> && !turn.raised && turn.result.status == Timeout
                 && turn.result.termination in s.policy.recoverable && turn.result.termination !in ForGood
                 && s.caps.persistent && (s.caps.mode == ResumableMode || s.caps.mode == NativeMode)
                 && done < s.policy.maxAttempts && left >= s.policy.minRemaining
                 && (turn.result.conversation != "" || turn.bound != ""
                      || (call.session != None && call.session != Some("")))
    ensures NextCall(call, turn, s).Some? ==>
      var next := NextCall(call, turn, s).value;
      && next.session.Some? && OnRecord(next.task, done + 1)
      && (turn.result.conversation != "" ==> next.session.value == turn.result.conversation)
      && (turn.result.conversation == "" && call.session != None && call.session != Some("") ==>
            next.session == call.session)
      && (turn.result.conversation == "" && (call.session == None || call.session == Some("")) ==>
            next.session.value == turn.bound)
  {
    RecordIsCount(call.task, done);
    LeftIsRemaining(call.task, turn.decided, left);
    DecidesExactlyWhen(call, turn, s);
    if NextCall(call, turn, s).Some? {
      var next := NextCall(call, turn, s).value;
      assert next.task.attempt == Number((done + 1) as real);
      NextIsOnRecord(next.task, done + 1);
    }
  }

  lemma NextIsOnRecord(task: Task, n: int)
    requires n >= 1 && task.attempt == Number(n as real)
    ensures OnRecord(task, n)
  {
  }

  lemma RecordIsCount(task: Task, done: int)
    requires OnRecord(task, done)
    ensures Attempts(task) == done
  {
    match task.attempt
    case Number(n) =>
      if n >= 1.0 {
        assert n.Floor == done;
      } else if n >= 0.0 {
        assert n.Floor == 0;
      } else {
        assert Truncated(n) <= 0;
      }
    case _ =>
  }

  lemma LeftIsRemaining(task: Task, now: real, left: real)
    requires Left(task, now, left) && task.timeout >= 1
    ensures Max(0.0, Remaining(task, now)) == left
  {
  }

  lemma DecidesExactlyWhen(call: Call, turn: Turn, s: Setup)
    ensures NextCall(call, turn, s).Some?
            <==> && !turn.raised && turn.result.status == Timeout
                 && turn.result.termination in s.policy.recoverable && turn.result.termination !in ForGood
                 && s.caps.persistent && (s.caps.mode == ResumableMode || s.caps.mode == NativeMode)
                 && Attempts(call.task) < s.policy.maxAttempts
                 && Max(0.0, Remaining(call.task, turn.decided)) >= s.policy.minRemaining
                 && (turn.result.conversation != "" || turn.bound != ""
                      || (call.session != None && call.session != Some("")))
  {
    assert turn.result.termination in ForGood <==> NeverResumed(turn.result.termination);
  }

  /** A deadline is stamped once: the outer one stays, and a missing one lies `timeout` ahead, or now if that is
      less. */
  lemma StampsOnce(task: Task, timeout: real, now: real)
    ensures var stamped := Stamped(task, timeout, now);
      && stamped == task.(deadline := stamped.deadline)
      && (task.deadline.Number? ==> stamped == task)
      && (!task.deadline.Number? ==> stamped.deadline == Number(if timeout > 0.0 then now + timeout else now))
  {
  }

  /** A refusal names something that is so, counts nothing and carries no prompt. */
  lemma RefusalsAreTrue(task: Task, result: Result, s: Setup, left: real)
    requires !Decide(task, result, s, left).resume
    ensures var d := Decide(task, result, s, left);
      && d.attempt == d.next == Attempts(task) && d.prompt == None && d.remaining == (if left > 0.0 then left else 0.0)
      && (d.reason == TerminalStatus <==> result.status == Cancelled || result.status == BudgetExceeded)
      && match d.reason
         case TerminalStatus => true
         case NeverResumedReason => result.termination in ForGood
         case NotRecoverable => result.termination !in s.policy.recoverable
         case NotATimeout => result.status != Timeout
         case NoResumableSession => !s.caps.persistent
         case WrongMode => s.caps.mode == OtherMode
         case AttemptsExhausted => Attempts(task) >= s.policy.maxAttempts
         case TooLittleTime => left < s.policy.minRemaining || 0.0 < s.policy.minRemaining
         case Resumable => false
  {
  }

  /** A yes counts one more and carries the prompt. */
  lemma ResumptionsCarryThePrompt(task: Task, result: Result, s: Setup, left: real)
    requires Decide(task, result, s, left).resume
    ensures var d := Decide(task, result, s, left);
      && d.reason == Resumable && d.attempt == Attempts(task) && d.next == Attempts(task) + 1
      && d.prompt == Some(RecoveryPrompt(s.wording, task.objective))
      && d.remaining == if left > 0.0 then left else 0.0
  {
  }

  /** The outcome of turn `i`, its task's count apart, is one to resume: a recoverable timeout of a provider that can
      resume, in a session that is known, with enough time left. */
  ghost predicate WorthResuming(call: Call, turn: Turn, s: Setup) {
    && !turn.raised && turn.result.status == Timeout
    && turn.result.termination in s.policy.recoverable && turn.result.termination !in ForGood
    && s.caps.persistent && (s.caps.mode == ResumableMode || s.caps.mode == NativeMode)
    && Max(0.0, Remaining(call.task, turn.decided)) >= s.policy.minRemaining
    && turn.result.conversation != ""
  }

  /** A run goes on as long as its turns are worth resuming and the attempts are not used up. */
  lemma {:induction false} RunsGoOn(calls: seq<Call>, first: Call, turns: nat -> Turn, s: Setup, n: nat)
    requires IsRun(calls, first, turns, s) && Attempts(first.task) + n <= s.policy.maxAttempts
    requires forall i :: 0 <= i < n && i < |calls| ==> WorthResuming(calls[i], turns(i), s)
    ensures |calls| > n && Attempts(calls[n].task) == Attempts(first.task) + n
    decreases n
  {
    if n > 0 {
      RunsGoOn(calls, first, turns, s, n - 1);
      DecidesExactlyWhen(calls[n - 1], turns(n - 1), s);
      assert n < |calls|;
      assert LeadsOn(calls, turns, s, n - 1);
      Resumption(calls[n - 1], turns(n - 1), s);
    }
  }

  /** Under the default policy three print timeouts in a row, each with fifteen seconds left, are all resumed; a fourth
      is not. */
  lemma ThreeTimeoutsAreResumed(calls: seq<Call>, first: Call, turns: nat -> Turn, s: Setup)
    requires s.policy == DefaultPolicy && IsRun(calls, first, turns, s) && Attempts(first.task) == 0
    requires s.caps.persistent && s.caps.mode != OtherMode
    requires forall i :: 0 <= i < |calls| && i < 3 ==>
      && turns(i).result == Result(Timeout, ProviderPrintTimeout, "session") && !turns(i).raised
      && Remaining(calls[i].task, turns(i).decided) >= 15.0
    ensures |calls| == 4
  {
    RunsGoOn(calls, first, turns, s, 3);
    if |calls| > 4 {
      assert LeadsOn(calls, turns, s, 3);
      Resumption(calls[3], turns(3), s);
    }
  }

  /** A recovery prompt replaces the objective, unless it is empty. */
  function ResumedObjective(w: Wording, objective: string): string {
    if RecoveryPrompt(w, objective) != "" then RecoveryPrompt(w, objective) else objective
  }

  lemma FollowsOn(calls: seq<Call>, first: Call, turns: nat -> Turn, s: Setup, next: Call)
    requires Follows(calls, first, turns, s)
    requires NextCall(calls[|calls| - 1], turns(|calls| - 1), s) == Some(next)
    ensures Follows(calls + [next], first, turns, s)
    ensures Attempts(next.task) == Attempts(calls[|calls| - 1].task) + 1
    ensures Attempts(calls[|calls| - 1].task) < s.policy.maxAttempts
  {
    Resumption(calls[|calls| - 1], turns(|calls| - 1), s);
    forall i | 0 <= i < |calls| ensures LeadsOn(calls + [next], turns, s, i) {
      if i < |calls| - 1 { assert LeadsOn(calls, turns, s, i); }
    }
  }

  /** Runs provider turns until one is not resumed; `turns(i)` is what the i-th call comes to. */
  method RunProviderTurns(task: Task, session: Option<string>, turns: nat -> Turn, s: Setup)
      returns (calls: seq<Call>, final: Final)
    ensures IsRun(calls, Call(task, session), turns, s)
    ensures var turn := turns(|calls| - 1);
            if turn.raised then final == Raised
            else final.Returned? && final.result == turn.result && (final.recovered == 0 <==> |calls| == 1)
    ensures |calls| > 1 && final.Returned? ==> final.recovered == Attempts(task) + |calls| - 1
  {
    var current, sessionId := task, session;
    calls := [Call(current, sessionId)];
    var recovered := 0;
    var n := 0;
    while true
      invariant n + 1 == |calls| && Follows(calls, Call(task, session), turns, s)
      invariant calls[n] == Call(current, sessionId)
      invariant recovered == if n == 0 then 0 else Attempts(task) + n
      invariant Attempts(current) == Attempts(task) + n
      decreases s.policy.maxAttempts - Attempts(current)
    {
      var turn := turns(n);
      if turn.raised { return calls, Raised; }
      var decision := Decide(current, turn.result, s, Remaining(current, turn.decided));
      if !decision.resume { return calls, Returned(turn.result, recovered); }
      var candidate := Candidate(turn.result.conversation, sessionId, turn.bound);
      if candidate == "" { return calls, Returned(turn.result, recovered); }
      recovered := decision.next;
      sessionId := Some(candidate);
      current := Resumed(current, decision);
      assert NextCall(calls[n], turn, s) == Some(Call(current, sessionId));
      FollowsOn(calls, Call(task, session), turns, s, Call(current, sessionId));
      calls, n := calls + [Call(current, sessionId)], n + 1;
    }
  }

  // ---- How often, and after what ----

  /** What a resumed turn tells: which outcome was resumed, in which session, and what was carried over. */
  lemma ResumedFrom(calls: seq<Call>, first: Call, turns: nat -> Turn, s: Setup, i: nat)
    requires Follows(calls, first, turns, s) && i + 1 < |calls|
    ensures !turns(i).raised && turns(i).result.status == Timeout
    ensures turns(i).result.termination in s.policy.recoverable && !NeverResumed(turns(i).result.termination)
    ensures s.caps.persistent && Attempts(calls[i].task) < s.policy.maxAttempts
    ensures Attempts(calls[i + 1].task) == Attempts(calls[i].task) + 1
    ensures Max(0.0, Remaining(calls[i].task, turns(i).decided)) >= s.policy.minRemaining
    ensures calls[i + 1].task.deadline == calls[i].task.deadline
    ensures calls[i + 1].task.printLimit == calls[i].task.printLimit
    ensures calls[i + 1].session.Some? && calls[i + 1].session.value != ""
    ensures calls[i + 1].task.objective == ResumedObjective(s.wording, calls[i].task.objective)
  {
    assert LeadsOn(calls, turns, s, i);
    Resumption(calls[i], turns(i), s);
  }

  /** One more attempt on record, under the same deadline and print limit. */
  predicate CarriesOn(before: Task, after: Task) {
    && Attempts(after) == Attempts(before) + 1
    && after.deadline == before.deadline && after.printLimit == before.printLimit
  }

  lemma {:induction false} CountUp(calls: seq<Call>, k: nat)
    requires k < |calls|
    requires forall i :: 0 <= i < |calls| - 1 ==>
               CarriesOn(calls[i].task, calls[i + 1].task)
    ensures Attempts(calls[k].task) == Attempts(calls[0].task) + k
    ensures calls[k].task.deadline == calls[0].task.deadline && calls[k].task.printLimit == calls[0].task.printLimit
  {
    if k > 0 { CountUp(calls, k - 1); }
  }

  lemma AttemptsCountUp(calls: seq<Call>, first: Call, turns: nat -> Turn, s: Setup, k: nat)
    requires Follows(calls, first, turns, s) && k < |calls|
    ensures Attempts(calls[k].task) == Attempts(first.task) + k
    ensures calls[k].task.deadline == first.task.deadline && calls[k].task.printLimit == first.task.printLimit
  {
    forall i | 0 <= i < |calls| - 1
      ensures CarriesOn(calls[i].task, calls[i + 1].task)
    {
      ResumedFrom(calls, first, turns, s, i);
    }
    CountUp(calls, k);
  }

  /** A run that starts with `a` attempts on record makes at most `max(0, maxAttempts - a) + 1` calls. */
  lemma CallsAreBounded(calls: seq<Call>, first: Call, turns: nat -> Turn, s: Setup)
    requires Follows(calls, first, turns, s)
    ensures |calls| <= MaxInt(0, s.policy.maxAttempts - Attempts(first.task)) + 1
  {
    if |calls| > 1 {
      AttemptsCountUp(calls, first, turns, s, |calls| - 2);
      ResumedFrom(calls, first, turns, s, |calls| - 2);
    }
  }

  /** No call follows a turn that raised, was cancelled, ran out of budget, or ended for a reason never resumed. */
  lemma NothingFollowsATerminalTurn(calls: seq<Call>, first: Call, turns: nat -> Turn, s: Setup, i: nat)
    requires Follows(calls, first, turns, s) && i < |calls|
    requires || turns(i).raised || turns(i).result.status in {Cancelled, BudgetExceeded, Success, Failed, Unavailable}
             || NeverResumed(turns(i).result.termination)
    ensures i == |calls| - 1
  {
    if i + 1 < |calls| { ResumedFrom(calls, first, turns, s, i); }
  }

  // ---- Time ----

  /** One resumption keeps the timeout at a second or more, never raises it, and fits it in what remains if a second
      does. */
  lemma ResumedTimeout(calls: seq<Call>, first: Call, turns: nat -> Turn, s: Setup, i: nat)
    requires Follows(calls, first, turns, s) && i + 1 < |calls| && calls[i].task.timeout >= 1
    ensures 1 <= calls[i + 1].task.timeout <= calls[i].task.timeout
    ensures calls[i + 1].task.timeout as real <= Remaining(calls[i].task, turns(i).decided)
            <==> Remaining(calls[i].task, turns(i).decided) >= 1.0
  {
    assert LeadsOn(calls, turns, s, i);
  }

  lemma {:induction false} TimeoutsNeverGrow(
      calls: seq<Call>, first: Call, turns: nat -> Turn, s: Setup, i: nat, j: nat)
    requires Follows(calls, first, turns, s) && i <= j < |calls| && first.task.timeout >= 1
    ensures 1 <= calls[j].task.timeout <= calls[i].task.timeout
    decreases j
  {
    if i < j {
      TimeoutsNeverGrow(calls, first, turns, s, i, j - 1);
      ResumedTimeout(calls, first, turns, s, j - 1);
    } else if i > 0 {
      TimeoutsNeverGrow(calls, first, turns, s, 0, i - 1);
      ResumedTimeout(calls, first, turns, s, i - 1);
    }
  }

  /** If resumed turns overrun their timeouts by at most `grace`, each ends within `grace` of the deadline. */
  lemma ResumedTurnsMeetTheDeadline(calls: seq<Call>, first: Call, turns: nat -> Turn, s: Setup,
                                    grace: real, i: nat)
    requires IsRun(calls, first, turns, s) && 0 < i < |calls|
    requires first.task.timeout >= 1 && first.task.deadline.Number? && s.policy.minRemaining >= 1.0
    requires turns(i).ended <= turns(i - 1).decided + calls[i].task.timeout as real + grace
    ensures turns(i).ended <= first.task.deadline.value + grace
  {
    AttemptsCountUp(calls, first, turns, s, i - 1);
    ResumedFrom(calls, first, turns, s, i - 1);
    TimeoutsNeverGrow(calls, first, turns, s, 0, i - 1);
    ResumedTimeout(calls, first, turns, s, i - 1);
  }

  // ---- The prompt ----

  /** The continuation text is not empty and has no white space at its ends. */
  predicate Fit(w: Wording) {
    w.continuation != "" && Trimmed(w.continuation)
  }

  lemma StandardWordingIsFit()
    ensures Fit(StandardWording())
  {
    var first, last := ContinueFirst, ContinueLast;
    assert first[0] == 'Y';
    assert last[|last| - 1] == '.';
    ConcatenationIsTrimmed(first, ContinueThen, last);
  }

  lemma ConcatenationIsTrimmed(a: string, b: string, c: string)
    requires a != "" && c != "" && !IsSpace(a[0]) && !IsSpace(c[|c| - 1])
    ensures a + b + c != "" && Trimmed(a + b + c)
  {
    assert (a + b + c)[0] == a[0];
  }

  lemma PromptIsTrimmed(w: Wording, objective: string)
    requires Fit(w)
    ensures RecoveryPrompt(w, objective) != "" && Trimmed(RecoveryPrompt(w, objective))
  {
    var prompt, stripped := RecoveryPrompt(w, objective), Strip(objective);
    StripTrims(objective);
    assert prompt[0] == w.continuation[0];
    assert stripped != "" ==> prompt[|prompt| - 1] == stripped[|stripped| - 1];
  }

  /** `k` times the continuation and its heading. */
  function Leads(w: Wording, k: nat): string {
    if k == 0 then "" else w.continuation + w.heading + Leads(w, k - 1)
  }

  /** One more resumption puts one more lead in front. */
  lemma PromptNestsOnce(w: Wording, k: nat, base: string, objective: string)
    requires objective == Leads(w, k) + base && Trimmed(objective) && objective != ""
    ensures RecoveryPrompt(w, objective) == Leads(w, k + 1) + base
  {
    StripTrims(objective);
    assert w.continuation + w.heading + (Leads(w, k) + base) == Leads(w, k + 1) + base;
  }

  /** `f` applied `k` times. */
  function Iterated(f: string -> string, x: string, k: nat): string {
    if k == 0 then x else f(Iterated(f, x, k - 1))
  }

  lemma {:induction false} ObjectivesIterate(calls: seq<Call>, f: string -> string, k: nat)
    requires k < |calls|
    requires forall i :: 0 <= i < |calls| - 1 ==> calls[i + 1].task.objective == f(calls[i].task.objective)
    ensures calls[k].task.objective == Iterated(f, calls[0].task.objective, k)
  {
    if k > 0 { ObjectivesIterate(calls, f, k - 1); }
  }

  /** The objective after `k` resumptions. */
  function ObjectiveAfter(w: Wording, objective: string, k: nat): string {
    Iterated(o => ResumedObjective(w, o), objective, k)
  }

  lemma ObjectivesAreTrimmed(w: Wording, objective: string, k: nat)
    requires Fit(w)
    ensures k == 1 ==> ObjectiveAfter(w, objective, k) == RecoveryPrompt(w, objective)
    ensures k > 0 ==> ObjectiveAfter(w, objective, k) == RecoveryPrompt(w, ObjectiveAfter(w, objective, k - 1))
    ensures k > 0 ==> ObjectiveAfter(w, objective, k) != "" && Trimmed(ObjectiveAfter(w, objective, k))
  {
    if k > 0 { PromptIsTrimmed(w, ObjectiveAfter(w, objective, k - 1)); }
  }

  lemma {:induction false} ObjectivesNest(w: Wording, objective: string, k: nat)
    requires Fit(w)
    ensures ObjectiveAfter(w, objective, k + 1) == Leads(w, k) + RecoveryPrompt(w, objective)
  {
    ObjectivesAreTrimmed(w, objective, k + 1);
    if k > 0 {
      ObjectivesAreTrimmed(w, objective, k);
      ObjectivesNest(w, objective, k - 1);
      PromptNestsOnce(w, k - 1, RecoveryPrompt(w, objective), ObjectiveAfter(w, objective, k));
    } else {
      LeadsNone(w, RecoveryPrompt(w, objective));
    }
  }

  lemma LeadsNone(w: Wording, base: string)
    ensures Leads(w, 0) + base == base
  {
  }

  /** The k-th resumed prompt: one lead for each resumption before the last, then the prompt for the original
      objective. */
  lemma PromptsNest(calls: seq<Call>, first: Call, turns: nat -> Turn, s: Setup, k: nat)
    requires Follows(calls, first, turns, s) && 0 < k < |calls| && Fit(s.wording)
    ensures calls[k].task.objective == Leads(s.wording, k - 1) + RecoveryPrompt(s.wording, first.task.objective)
  {
    var f := o => ResumedObjective(s.wording, o);
    forall i | 0 <= i < |calls| - 1 ensures calls[i + 1].task.objective == f(calls[i].task.objective) {
      ResumedFrom(calls, first, turns, s, i);
    }
    ObjectivesIterate(calls, f, k);
    ObjectivesNest(s.wording, first.task.objective, k - 1);
  }

  predicate EndsWith(s: string, suffix: string) {
    |suffix| <= |s| && s[|s| - |suffix|..] == suffix
  }

  /** The stripped original objective ends every resumed prompt. */
  lemma ObjectiveStaysAuthoritative(calls: seq<Call>, first: Call, turns: nat -> Turn, s: Setup, k: nat)
    requires Follows(calls, first, turns, s) && 0 < k < |calls| && Fit(s.wording)
    ensures EndsWith(calls[k].task.objective, Strip(first.task.objective))
  {
    PromptsNest(calls, first, turns, s, k);
    var stripped := Strip(first.task.objective);
    if stripped != "" {
      var w := s.wording;
      assert calls[k].task.objective == (Leads(w, k - 1) + w.continuation + w.heading) + stripped;
    }
  }

  // ---- The provider's own print limit ----

  /** Seconds of the timeout the provider's print limit leaves unused. */
  function Reserve(timeout: real, attempt: nat): real {
    var t := Max(0.0, timeout);
    if attempt > 0 then Min(5.0, Max(0.0, t - 1.0))
    else Min(Min(Max(t * 0.2, 30.0), 90.0), Max(0.0, t - 1.0))
  }

  /** An explicit limit in the metadata wins; a flag that is on counts as the number one. */
  function PrintLimit(task: Task): int {
    match task.printLimit
    case Number(n) =>
      if n > 0.0 then MaxInt(1, MinInt(Truncated(n), task.timeout)) else DefaultLimit(task)
    case Flag(true) => MaxInt(1, MinInt(1, task.timeout))
    case _ => DefaultLimit(task)
  }

  function DefaultLimit(task: Task): int {
    MaxInt(1, task.timeout - Truncated(Reserve(task.timeout as real, Attempts(task))))
  }

  /** The print limit is at least a second and at most the timeout. */
  lemma PrintLimitIsInRange(task: Task)
    requires task.timeout >= 1
    ensures 1 <= PrintLimit(task) <= task.timeout
  {
  }

  /** The seconds kept back, for every timeout there could be. */
  lemma ReserveByTimeout(t: real)
    ensures t <= 1.0 ==> Reserve(t, 0) == 0.0
    ensures 1.0 <= t <= 31.0 ==> Reserve(t, 0) == t - 1.0
    ensures 31.0 <= t <= 150.0 ==> Reserve(t, 0) == 30.0
    ensures 150.0 <= t <= 450.0 ==> Reserve(t, 0) == t * 0.2
    ensures 450.0 <= t ==> Reserve(t, 0) == 90.0
    ensures forall n: nat :: n > 0 ==>
      Reserve(t, n) == if t <= 1.0 then 0.0 else if t <= 6.0 then t - 1.0 else 5.0
  {
  }

  /** An explicit limit is kept as far as a second and the timeout allow; one that is switched on is a second. */
  lemma ExplicitLimit(task: Task)
    requires task.timeout >= 1
    ensures task.printLimit == Flag(true) ==> PrintLimit(task) == 1
    ensures task.printLimit.Number? && 0.0 < task.printLimit.value < 2.0 ==> PrintLimit(task) == 1
    ensures task.printLimit.Number? && task.printLimit.value >= task.timeout as real
        ==> PrintLimit(task) == task.timeout
    ensures task.printLimit.Number? && 1.0 <= task.printLimit.value < task.timeout as real ==>
      PrintLimit(task) as real <= task.printLimit.value < PrintLimit(task) as real + 1.0
    ensures Unset(task) <==> task.printLimit == Missing || task.printLimit == Other || task.printLimit == Flag(false)
                             || (task.printLimit.Number? && task.printLimit.value <= 0.0)
  {
  }

  /** No explicit limit applies. */
  predicate Unset(task: Task) {
    match task.printLimit
    case Number(n) => n <= 0.0
    case Flag(on) => !on
    case _ => true
  }

  /** What the default limit of a first turn leaves, by the size of the timeout. */
  lemma FirstReserve(task: Task)
    requires task.timeout >= 1 && Unset(task) && Attempts(task) == 0
    ensures task.timeout - PrintLimit(task)
            == if task.timeout <= 31 then task.timeout - 1
               else if task.timeout <= 150 then 30
               else if task.timeout <= 450 then task.timeout / 5
               else 90
  {
    var t := task.timeout as real;
    if 150 < task.timeout <= 450 {
      assert Reserve(t, 0) == t * 0.2;
      FifthRoundsDown(task.timeout);
    }
  }

  lemma FifthRoundsDown(n: nat)
    ensures ((n as real) * 0.2).Floor == n / 5
  {
    var q, r := n / 5, n % 5;
    assert (n as real) * 0.2 == q as real + (r as real) * 0.2;
  }

  /** What the default limit of a resumed turn leaves. */
  lemma LaterReserve(task: Task)
    requires task.timeout >= 1 && Unset(task) && Attempts(task) > 0
    ensures task.timeout - PrintLimit(task) == if task.timeout <= 6 then task.timeout - 1 else 5
  {
  }

  /** The outcome recovery is for: a print timeout in a session that can be resumed. */
  predicate CutByPrintLimit(call: Call, turn: Turn, s: Setup) {
    && !turn.raised && turn.result.status == Timeout && turn.result.termination == ProviderPrintTimeout
    && s.caps.persistent && s.caps.mode != OtherMode
    && Candidate(turn.result.conversation, call.session, turn.bound) != ""
  }

  /** A first turn stamped at its start and cut exactly at its print limit can be resumed exactly when its
      timeout is at least 16. */
  lemma FirstResumeExactlyWhen(call: Call, turn: Turn, s: Setup)
    requires s.policy == DefaultPolicy && call.task.timeout >= 1 && Unset(call.task) && Attempts(call.task) == 0
    requires StampedAt(call.task, turn.begun)
    requires CutByPrintLimit(call, turn, s) && turn.decided == turn.begun + PrintLimit(call.task) as real
    ensures NextCall(call, turn, s).Some? <==> call.task.timeout >= 16
  {
    FirstReserve(call.task);
  }

  /** Every turn runs at least to its print limit, and the next begins after it was decided. */
  ghost predicate RunsToItsLimits(calls: seq<Call>, turns: nat -> Turn) {
    && (forall i :: 0 <= i < |calls| ==> turns(i).decided >= turns(i).begun + PrintLimit(calls[i].task) as real)
    && (forall i :: 0 < i < |calls| ==> turns(i).begun >= turns(i - 1).decided)
  }

  /** Under the default policy, with the deadline stamped by the first turn, turns that run to their limits are
      resumed at most once. */
  lemma AtMostOneResume(calls: seq<Call>, first: Call, turns: nat -> Turn, s: Setup)
    requires Follows(calls, first, turns, s) && RunsToItsLimits(calls, turns)
    requires s.policy == DefaultPolicy && first.task.timeout >= 1 && Unset(first.task)
    requires StampedAt(first.task, turns(0).begun)
    ensures |calls| <= 2
    ensures Attempts(first.task) > 0 ==> |calls| == 1
  {
    if |calls| > 1 {
      ResumedFrom(calls, first, turns, s, 0);
      if Attempts(first.task) > 0 {
        LaterReserve(first.task);
        assert false;
      }
      ResumedTimeout(calls, first, turns, s, 0);
      assert LeadsOn(calls, turns, s, 0);
      SecondTurnLeavesTooLittle(calls[0], turns(0), calls[1], turns(1), s);
      if |calls| > 2 {
        ResumedFrom(calls, first, turns, s, 1);
      }
    }
  }

  /** A resumed turn that runs to its limit leaves under six seconds. */
  lemma SecondTurnLeavesTooLittle(call: Call, turn: Turn, next: Call, later: Turn, s: Setup)
    requires NextCall(call, turn, s) == Some(next)
    requires s.policy == DefaultPolicy && call.task.timeout >= 1 && Unset(call.task)
    requires StampedAt(call.task, turn.begun) && turn.decided >= turn.begun
    requires later.begun >= turn.decided && later.decided >= later.begun + PrintLimit(next.task) as real
    ensures Remaining(next.task, later.decided) < 6.0
  {
    var left := call.task.deadline.value - turn.decided;
    assert next.task.timeout == Truncated(left) == left.Floor >= 15;
    assert Truncated((Attempts(call.task) + 1) as real) == Attempts(call.task) + 1;
    LaterReserve(next.task);
  }
}
