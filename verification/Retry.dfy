/** Bounded retries of a store operation that either commits or rolls back, with a capped exponential backoff. */
module Retry {
  import opened Wrappers

  /** The policy refuses to be built unless `Sound` holds. */
  datatype Policy = Policy(maxAttempts: int, initial: real, cap: real, multiplier: real)

  predicate Sound(p: Policy) {
    p.maxAttempts >= 1 && p.initial >= 0.0 && p.cap >= p.initial && p.multiplier >= 1.0
  }

  const DefaultPolicy: Policy := Policy(6, 0.025, 0.4, 2.0)
  const AgentStorePolicy: Policy := Policy(3, 0.05, 0.25, 2.0)

  function Min(a: real, b: real): real { if a <= b then a else b }

  function Power(m: real, n: nat): real {
    if n == 0 then 1.0 else m * Power(m, n - 1)
  }

  function Scaled(d: real, m: real, n: nat): real { d * Power(m, n) }

  /** The delay before a retry, in closed form; there is none before attempt 1. */
  function DelayFor(p: Policy, attempt: int): Option<real> {
    if attempt < 1 then None else Some(Min(Scaled(p.initial, p.multiplier, attempt - 1), p.cap))
  }

  type Growth = real -> real

  /** A delay that grows at each step, */
  function Growing(grow: Growth, first: real, k: nat): real
    requires k >= 1
  {
    if k == 1 then first else grow(Growing(grow, first, k - 1))
  }

  /** and one that is capped after each step. */
  function Capped(grow: Growth, first: real, cap: real, k: nat): real
    requires k >= 1
  {
    if k == 1 then first else Min(grow(Capped(grow, first, cap, k - 1)), cap)
  }

  function Multiplied(p: Policy): Growth { x => x * p.multiplier }

  /** The delay as the loop carries it along: multiplied and capped once a retry. */
  function Carried(p: Policy, k: nat): real
    requires k >= 1
  {
    Capped(Multiplied(p), Min(p.initial, p.cap), p.cap, k)
  }

  // ---- The two forms of the delay ----

  /** Growth that never shrinks a delay and keeps delays in order. */
  ghost predicate Upward(grow: Growth) {
    && (forall x :: x >= 0.0 ==> grow(x) >= x)
    && forall x, y :: 0.0 <= x <= y ==> grow(x) <= grow(y)
  }

  lemma FactorKeepsOrder(m: real, x: real, y: real)
    requires m >= 0.0 && x <= y
    ensures x * m <= y * m
  {
    assert (y - x) * m >= 0.0;
    assert (y - x) * m == y * m - x * m;
  }

  lemma FactorGrows(m: real, x: real)
    requires m >= 1.0 && x >= 0.0
    ensures x * m >= x
  {
    assert x * (m - 1.0) >= 0.0;
    assert x * (m - 1.0) == x * m - x;
  }

  lemma MultiplyingKeepsOrder(p: Policy, x: real, y: real)
    requires Sound(p) && 0.0 <= x <= y
    ensures Multiplied(p)(x) <= Multiplied(p)(y) && Multiplied(p)(x) >= x
  {
    FactorKeepsOrder(p.multiplier, x, y);
    FactorGrows(p.multiplier, x);
  }

  lemma MultiplyingIsUpward(p: Policy)
    requires Sound(p)
    ensures Upward(Multiplied(p))
  {
    var grow := Multiplied(p);
    forall x | x >= 0.0 ensures grow(x) >= x { MultiplyingKeepsOrder(p, x, x); }
    forall x, y | 0.0 <= x <= y ensures grow(x) <= grow(y) { MultiplyingKeepsOrder(p, x, y); }
  }

  /** Capping at each step is capping once at the end. */
  lemma {:induction false} CapOnceOrAlways(grow: Growth, first: real, cap: real, k: nat)
    requires Upward(grow) && 0.0 <= first <= cap && k >= 1
    ensures Capped(grow, first, cap, k) == Min(Growing(grow, first, k), cap)
    ensures Growing(grow, first, k) >= 0.0 && 0.0 <= Capped(grow, first, cap, k) <= cap
  {
    if k > 1 {
      CapOnceOrAlways(grow, first, cap, k - 1);
      var x := Growing(grow, first, k - 1);
      assert grow(x) >= x && grow(cap) >= cap;
      if x > cap { assert grow(x) >= grow(cap); }
    }
  }

  lemma Regroup(d: real, m: real, power: real)
    ensures d * (m * power) == (d * power) * m
  {
  }

  /** Growing by a factor gives its powers. */
  lemma {:induction false} GrowingIsPower(p: Policy, k: nat)
    requires k >= 1
    ensures Growing(Multiplied(p), p.initial, k) == Scaled(p.initial, p.multiplier, k - 1)
  {
    if k > 1 {
      GrowingIsPower(p, k - 1);
      Regroup(p.initial, p.multiplier, Power(p.multiplier, k - 2));
    }
  }

  lemma CarriedIsBounded(p: Policy, k: nat)
    requires Sound(p) && k >= 1
    ensures Carried(p, k) == Min(Growing(Multiplied(p), p.initial, k), p.cap)
    ensures 0.0 <= Carried(p, k) <= p.cap
  {
    MultiplyingIsUpward(p);
    CapOnceOrAlways(Multiplied(p), p.initial, p.cap, k);
  }

  /** The closed form is the grown delay, capped. */
  lemma ClosedFormIsGrown(p: Policy, k: nat)
    requires k >= 1
    ensures DelayFor(p, k) == Some(Min(Growing(Multiplied(p), p.initial, k), p.cap))
  {
    GrowingIsPower(p, k);
  }

  /** What the loop carries is the closed form, at every attempt. */
  lemma CarriedIsClosedForm(p: Policy, k: nat)
    requires Sound(p) && k >= 1
    ensures DelayFor(p, k) == Some(Carried(p, k))
  {
    ClosedFormIsGrown(p, k);
    CarriedIsBounded(p, k);
  }

  // ---- When the two forms agree ----

  /** Growth that never goes below zero, nor above what it is given. */
  ghost predicate Downward(grow: Growth) {
    forall x :: x >= 0.0 ==> 0.0 <= grow(x) <= x
  }

  /** A delay that only shrinks from under the cap never meets it. */
  lemma {:induction false} ShrinkingStaysBelow(grow: Growth, first: real, cap: real, k: nat)
    requires Downward(grow) && 0.0 <= first <= cap && k >= 1
    ensures Capped(grow, first, cap, k) == Growing(grow, first, k) && 0.0 <= Growing(grow, first, k) <= cap
  {
    if k > 1 { ShrinkingStaysBelow(grow, first, cap, k - 1); }
  }

  /** A delay that starts at or above the cap and never shrinks stays at the cap. */
  lemma {:induction false} StuckAtCap(grow: Growth, first: real, cap: real, k: nat)
    requires Upward(grow) && 0.0 <= cap <= first && k >= 1
    ensures Capped(grow, cap, cap, k) == cap && Growing(grow, first, k) >= first
  {
    if k > 1 {
      StuckAtCap(grow, first, cap, k - 1);
      assert grow(cap) >= cap && grow(Growing(grow, first, k - 1)) >= Growing(grow, first, k - 1);
    }
  }

  /** A delay capped at zero is zero. */
  lemma {:induction false} NothingUnderZero(grow: Growth, first: real, k: nat)
    requires grow(0.0) == 0.0 && (forall x :: x >= 0.0 ==> grow(x) >= 0.0) && first >= 0.0 && k >= 1
    ensures Capped(grow, 0.0, 0.0, k) == 0.0 && Growing(grow, first, k) >= 0.0
  {
    if k > 1 { NothingUnderZero(grow, first, k - 1); }
  }

  /** Non-negative values, which is less than the policy demands. */
  predicate NonNegative(p: Policy) {
    p.initial >= 0.0 && p.cap >= 0.0 && p.multiplier >= 0.0
  }

  /** What tells whether the two forms agree. */
  predicate Agreeable(p: Policy) {
    p.multiplier >= 1.0 || p.initial <= p.cap || p.multiplier == 0.0 || p.cap == 0.0
  }

  lemma MultiplyingKeepsSign(m: real, x: real)
    requires 0.0 <= m && 0.0 <= x
    ensures x * m >= 0.0 && (m <= 1.0 ==> x * m <= x) && (m >= 1.0 ==> x * m >= x)
  {
    if m <= 1.0 {
      assert x * (1.0 - m) >= 0.0;
      assert x * (1.0 - m) == x - x * m;
    } else {
      FactorGrows(m, x);
    }
  }

  lemma MultiplyingIsDownward(p: Policy)
    requires 0.0 <= p.multiplier <= 1.0
    ensures Downward(Multiplied(p))
  {
    var grow := Multiplied(p);
    forall x | x >= 0.0 ensures 0.0 <= grow(x) <= x { MultiplyingKeepsSign(p.multiplier, x); }
  }

  lemma LargeMultiplierIsUpward(p: Policy)
    requires p.multiplier >= 1.0
    ensures Upward(Multiplied(p))
  {
    MultiplyingIsUpward(Policy(1, 0.0, 0.0, p.multiplier));
    var grow, same := Multiplied(p), Multiplied(Policy(1, 0.0, 0.0, p.multiplier));
    assert forall x :: grow(x) == same(x);
  }

  lemma NothingUnderZeroCap(p: Policy, k: nat)
    requires NonNegative(p) && p.cap == 0.0 && k >= 1
    ensures Carried(p, k) == 0.0 && Growing(Multiplied(p), p.initial, k) >= 0.0
  {
    var grow := Multiplied(p);
    forall x | x >= 0.0 ensures grow(x) >= 0.0 { MultiplyingKeepsSign(p.multiplier, x); }
    NothingUnderZero(grow, p.initial, k);
  }

  /** Whenever one of the four holds, the carried delay is the grown one, capped. */
  lemma AgreeableFormsAgree(p: Policy, k: nat)
    requires NonNegative(p) && Agreeable(p) && k >= 1
    ensures Carried(p, k) == Min(Growing(Multiplied(p), p.initial, k), p.cap)
  {
    var grow := Multiplied(p);
    if p.multiplier >= 1.0 {
      LargeMultiplierIsUpward(p);
      if p.initial <= p.cap {
        CapOnceOrAlways(grow, p.initial, p.cap, k);
      } else {
        StuckAtCap(grow, p.initial, p.cap, k);
      }
    } else if p.initial <= p.cap {
      MultiplyingIsDownward(p);
      ShrinkingStaysBelow(grow, p.initial, p.cap, k);
    } else if p.cap == 0.0 {
      NothingUnderZeroCap(p, k);
    } else if k > 1 {
      assert grow(Growing(grow, p.initial, k - 1)) == 0.0;
      assert grow(Carried(p, k - 1)) == 0.0;
    }
  }

  lemma LargerTimes(a: real, b: real, m: real)
    requires a > b && m > 0.0
    ensures a * m > b * m
  {
    assert (a - b) * m > 0.0;
    assert (a - b) * m == a * m - b * m;
  }

  lemma LessThanItself(cap: real, m: real)
    requires cap > 0.0 && m < 1.0
    ensures cap * m < cap
  {
    assert cap * (1.0 - m) > 0.0;
    assert cap * (1.0 - m) == cap - cap * m;
  }

  /** Otherwise the two part ways at the second retry. */
  lemma OthersPartWays(p: Policy)
    requires NonNegative(p) && !Agreeable(p)
    ensures Carried(p, 2) < Min(Growing(Multiplied(p), p.initial, 2), p.cap)
  {
    LargerTimes(p.initial, p.cap, p.multiplier);
    LessThanItself(p.cap, p.multiplier);
    assert Multiplied(p)(p.cap) == p.cap * p.multiplier;
    assert Multiplied(p)(p.initial) == p.initial * p.multiplier;
    PartAtTwo(Multiplied(p), p.initial, p.cap);
  }

  lemma PartAtTwo(grow: Growth, first: real, cap: real)
    requires cap < first && grow(cap) < cap && grow(cap) < grow(first)
    ensures Capped(grow, cap, cap, 2) < Min(Growing(grow, first, 2), cap)
  {
    assert Capped(grow, cap, cap, 1) == cap && Growing(grow, first, 1) == first;
  }

  /**
   * For non-negative values, the two forms agree at every attempt exactly when the multiplier is one or more, or the
   * initial delay is within the cap, or the multiplier or the cap is zero. Of what a policy demands, the initial delay
   * being within the cap is enough; that the multiplier is at least one is not needed for it.
   */
  lemma FormsAgreeExactlyWhen(p: Policy)
    requires NonNegative(p)
    ensures (forall k: nat :: k >= 1 ==> DelayFor(p, k) == Some(Carried(p, k))) <==> Agreeable(p)
  {
    if Agreeable(p) {
      forall k: nat | k >= 1 ensures DelayFor(p, k) == Some(Carried(p, k)) {
        ClosedFormIsGrown(p, k);
        AgreeableFormsAgree(p, k);
      }
    } else {
      ClosedFormIsGrown(p, 2);
      OthersPartWays(p);
      assert DelayFor(p, 2) != Some(Carried(p, 2));
    }
  }

  // ---- Retrying ----

  type Row = int

  /** What one attempt comes to: it commits, or it rolls back with an error that may or may not pass. */
  datatype Outcome = Commits | RollsBack(transient: bool)

  datatype Result = Done | GaveUp | Failed

  /** The attempts made: up to and with the first that commits, fails for good, or is the last allowed. */
  function Attempts(p: Policy, outcome: nat -> Outcome, from: nat): (n: nat)
    requires 1 <= from <= p.maxAttempts
    ensures from <= n <= p.maxAttempts
    ensures forall k :: from <= k < n ==> outcome(k) == RollsBack(true)
    ensures n < p.maxAttempts ==> outcome(n) != RollsBack(true)
    decreases p.maxAttempts - from
  {
    if from == p.maxAttempts || outcome(from) != RollsBack(true) then from else Attempts(p, outcome, from + 1)
  }

  /** A retried operation gives up only after every allowed attempt has failed, and never tries again after an error
      that stays. */
  lemma EveryAttemptIsUsed(p: Policy, outcome: nat -> Outcome)
    requires Sound(p)
    ensures var n := Attempts(p, outcome, 1);
            && (outcome(n) == RollsBack(true)
                <==> forall k :: 1 <= k <= p.maxAttempts ==> outcome(k) == RollsBack(true))
            && (outcome(n) == Commits <==> exists k :: 1 <= k <= p.maxAttempts && outcome(k) == Commits
                                                        && forall j :: 1 <= j < k ==> outcome(j) == RollsBack(true))
  {
    var n := Attempts(p, outcome, 1);
    if k :| 1 <= k <= p.maxAttempts && outcome(k) == Commits
            && forall j :: 1 <= j < k ==> outcome(j) == RollsBack(true)
    {
      assert k == n;
    }
  }

  // ---- Time asleep ----

  type Delays = nat -> real

  /** The sleeps before attempt `n`: one before each retry, unless its delay is zero. */
  function Slept(delay: Delays, n: nat): seq<real>
    requires n >= 1
  {
    if n == 1 then [] else Slept(delay, n - 1) + if delay(n - 1) > 0.0 then [delay(n - 1)] else []
  }

  /** The delays of a policy, by attempt. */
  function DelaysOf(p: Policy): Delays {
    k => if k >= 1 then Carried(p, k) else 0.0
  }

  function Total(delays: seq<real>): real {
    if delays == [] then 0.0 else Total(delays[..|delays| - 1]) + delays[|delays| - 1]
  }

  /** `cap`, `n` times over. */
  function Times(cap: real, n: nat): real {
    if n == 0 then 0.0 else Times(cap, n - 1) + cap
  }

  /** That is the product. */
  lemma {:induction false} TimesIsProduct(cap: real, n: nat)
    ensures Times(cap, n) == n as real * cap
  {
    if n > 0 { TimesIsProduct(cap, n - 1); }
  }

  lemma {:induction false} TimesGrows(cap: real, m: nat, n: nat)
    requires m <= n && cap >= 0.0
    ensures Times(cap, m) <= Times(cap, n)
  {
    if m < n { TimesGrows(cap, m, n - 1); }
  }

  lemma TotalLast(delays: seq<real>, d: real)
    ensures Total(delays + [d]) == Total(delays) + d
    ensures delays + [] == delays
  {
    assert (delays + [d])[..|delays|] == delays;
  }

  /** The sleeps before attempt `n` take at most `cap` for each retry. */
  lemma {:induction false} SleepIsBounded(delay: Delays, cap: real, n: nat)
    requires n >= 1 && cap >= 0.0 && forall k :: k >= 1 ==> 0.0 <= delay(k) <= cap
    ensures 0.0 <= Total(Slept(delay, n)) <= Times(cap, n - 1) && |Slept(delay, n)| <= n - 1
  {
    if n > 1 {
      SleepIsBounded(delay, cap, n - 1);
      TotalLast(Slept(delay, n - 1), delay(n - 1));
    }
  }

  /** However many attempts are made, the sleeps take at most `(maxAttempts - 1) * cap`. */
  lemma SleepStaysInBudget(p: Policy, attempts: nat)
    requires Sound(p) && 1 <= attempts <= p.maxAttempts
    ensures 0.0 <= Total(Slept(DelaysOf(p), attempts)) <= (p.maxAttempts - 1) as real * p.cap
  {
    DelaysAreBounded(p);
    TimesIsProduct(p.cap, p.maxAttempts - 1);
    Budgeted(DelaysOf(p), p.cap, attempts, p.maxAttempts, (p.maxAttempts - 1) as real * p.cap);
  }

  /** What is slept are the positive delays before each retry; if all are positive, one for each retry. */
  lemma {:induction false} SleptAre(delay: nat -> real, n: nat, k: nat)
    requires n >= 1 && forall i :: 1 <= i < n ==> delay(i) > 0.0
    ensures |Slept(delay, n)| == n - 1 && (k < n - 1 ==> Slept(delay, n)[k] == delay(k + 1))
    decreases n
  {
    if n > 1 { SleptAre(delay, n - 1, k); }
  }

  lemma {:induction false} NothingIsSleptForNothing(delay: nat -> real, n: nat)
    requires n >= 1
    ensures forall k :: 0 <= k < |Slept(delay, n)| ==> Slept(delay, n)[k] > 0.0
    ensures (forall i :: 1 <= i < n ==> delay(i) <= 0.0) ==> Slept(delay, n) == []
    decreases n
  {
    if n > 1 { NothingIsSleptForNothing(delay, n - 1); }
  }

  /** The delays of the two policies in use: doubled from a fortieth, or a twentieth, of a second up to the cap. */
  lemma DelaysInUse()
    ensures DefaultPolicy.maxAttempts == 6 && AgentStorePolicy.maxAttempts == 3
    ensures var d := DelaysOf(DefaultPolicy);
      [d(1), d(2), d(3), d(4), d(5), d(6)] == [0.025, 0.05, 0.1, 0.2, 0.4, 0.4]
    ensures var d := DelaysOf(AgentStorePolicy); [d(1), d(2), d(3), d(4)] == [0.05, 0.1, 0.2, 0.25]
  {
    DoublingTwice(DefaultPolicy, 1);
    DoublingTwice(DefaultPolicy, 2);
    DoublingTwice(DefaultPolicy, 3);
    DoublingTwice(DefaultPolicy, 4);
    DoublingTwice(DefaultPolicy, 5);
    DoublingTwice(AgentStorePolicy, 1);
    DoublingTwice(AgentStorePolicy, 2);
    DoublingTwice(AgentStorePolicy, 3);
  }

  lemma DoublingTwice(p: Policy, k: nat)
    requires p.multiplier == 2.0 && k >= 1
    ensures Carried(p, 1) == Min(p.initial, p.cap)
    ensures Carried(p, k + 1) == Min(Carried(p, k) * 2.0, p.cap)
  {
  }

  /** The policies in use sleep at most two seconds, and half a second, in all. */
  lemma SleepOfPoliciesInUse(n: nat, m: nat)
    requires 1 <= n <= DefaultPolicy.maxAttempts && 1 <= m <= AgentStorePolicy.maxAttempts
    ensures Total(Slept(DelaysOf(DefaultPolicy), n)) <= 2.0 && Total(Slept(DelaysOf(AgentStorePolicy), m)) <= 0.5
  {
    SleepStaysInBudget(DefaultPolicy, n);
    SleepStaysInBudget(AgentStorePolicy, m);
  }

  lemma DelaysAreBounded(p: Policy)
    requires Sound(p)
    ensures forall k: nat :: k >= 1 ==> 0.0 <= DelaysOf(p)(k) <= p.cap
  {
    forall k: nat | k >= 1 ensures 0.0 <= DelaysOf(p)(k) <= p.cap { CarriedIsBounded(p, k); }
  }

  lemma Budgeted(delay: Delays, cap: real, n: nat, most: nat, budget: real)
    requires 1 <= n <= most && cap >= 0.0 && forall k :: k >= 1 ==> 0.0 <= delay(k) <= cap
    requires budget == Times(cap, most - 1)
    ensures 0.0 <= Total(Slept(delay, n)) <= budget
  {
    SleepIsBounded(delay, cap, n);
    TimesGrows(cap, n - 1, most - 1);
  }

  // ---- The operation ----

  /** A table an operation writes to. */
  class Journal {
    var rows: seq<Row>

    constructor ()
      ensures rows == []
    {
      rows := [];
    }

    /** One transaction: the row is there at the end exactly when it commits. */
    method Transact(row: Row, outcome: Outcome) returns (committed: bool)
      modifies this
      ensures committed <==> outcome.Commits?
      ensures rows == if committed then old(rows) + [row] else old(rows)
    {
      var before := rows;
      rows := rows + [row];
      if outcome.RollsBack? {
        rows := before;
        return false;
      }
      committed := true;
    }

    /**
     * Retries one insertion; `outcome(k)` is what its k-th attempt comes to. The row is inserted once if the
     * operation is done, and not at all otherwise.
     */
    method Retry(p: Policy, row: Row, outcome: nat -> Outcome) returns (result: Result, attempts: nat, slept: seq<real>)
      requires Sound(p)
      modifies this
      ensures attempts == Attempts(p, outcome, 1) && slept == Slept(DelaysOf(p), attempts)
      ensures result == match outcome(attempts)
                        case Commits => Done
                        case RollsBack(transient) => if transient then GaveUp else Failed
      ensures rows == if result == Done then old(rows) + [row] else old(rows)
    {
      attempts, slept := 0, [];
      CarriedIsClosedForm(p, 1);
      var delay := DelayFor(p, 1).value;
      while true
        invariant attempts < p.maxAttempts && rows == old(rows)
        invariant delay == DelaysOf(p)(attempts + 1) && slept == Slept(DelaysOf(p), attempts + 1)
        invariant Attempts(p, outcome, attempts + 1) == Attempts(p, outcome, 1)
        decreases p.maxAttempts - attempts
      {
        attempts := attempts + 1;
        var committed := Transact(row, outcome(attempts));
        if committed { return Done, attempts, slept; }
        if !outcome(attempts).transient { return Failed, attempts, slept; }
        if attempts >= p.maxAttempts { return GaveUp, attempts, slept; }
        if delay > 0.0 { slept := slept + [delay]; }
        delay := NextDelay(p, attempts, delay);
      }
    }
  }

  /** The delay carried on to the next retry. */
  function NextDelay(p: Policy, k: nat, delay: real): (d: real)
    requires k >= 1 && delay == DelaysOf(p)(k)
    ensures d == DelaysOf(p)(k + 1)
  {
    Min(delay * p.multiplier, p.cap)
  }
}
