/** Exponential backoff with full jitter.  Delays are reals: rounding of floats is not modelled. */
module Retry {
  import opened Errors

  // ----- the delay before a retry -----

  function Pow2(n: nat): real {
    if n == 0 then 1.0 else 2.0 * Pow2(n - 1)
  }

  function Min(x: real, y: real): real {
    if x <= y then x else y
  }

  /** The upper end of the delay after the given failure, counted from 1. */
  function Ceiling(attempt: nat, baseDelay: real, maxDelay: real): real
    requires attempt >= 1
  {
    Min(maxDelay, baseDelay * Pow2(attempt - 1))
  }

  /** `compute_delay`, where `draw` in [0, 1] is what the random generator gave. */
  function ComputeDelay(attempt: nat, baseDelay: real, maxDelay: real, draw: real): (delay: real)
    requires attempt >= 1 && 0.0 <= draw <= 1.0
    ensures baseDelay >= 0.0 && maxDelay >= 0.0 ==>
      0.0 <= delay <= Ceiling(attempt, baseDelay, maxDelay)
  {
    var ceiling := Ceiling(attempt, baseDelay, maxDelay);
    CeilingIsNonNegative(attempt, baseDelay, maxDelay);
    draw * ceiling
  }

  lemma {:induction false} PowIsPositive(n: nat)
    ensures Pow2(n) >= 1.0
  {
    if n > 0 { PowIsPositive(n - 1); }
  }

  lemma CeilingIsNonNegative(attempt: nat, baseDelay: real, maxDelay: real)
    requires attempt >= 1
    ensures baseDelay >= 0.0 && maxDelay >= 0.0 ==> Ceiling(attempt, baseDelay, maxDelay) >= 0.0
  {
    PowIsPositive(attempt - 1);
  }

  /** Full jitter: the delays that can come out are exactly those from 0 to the lower of the cap
      and base * 2^(attempt - 1), and a draw gives that share of the longest one. */
  lemma JitterIsFull(attempt: nat, baseDelay: real, maxDelay: real, delay: real)
    requires attempt >= 1 && baseDelay >= 0.0 && maxDelay >= 0.0
    ensures (exists draw :: 0.0 <= draw <= 1.0 && ComputeDelay(attempt, baseDelay, maxDelay, draw) == delay)
       <==> 0.0 <= delay <= maxDelay && delay <= baseDelay * Pow2(attempt - 1)
    ensures forall draw | 0.0 <= draw <= 1.0 ::
      ComputeDelay(attempt, baseDelay, maxDelay, draw) == draw * ComputeDelay(attempt, baseDelay, maxDelay, 1.0)
  {
    var ceiling := Ceiling(attempt, baseDelay, maxDelay);
    if 0.0 <= delay <= ceiling {
      var draw := ShareOf(delay, ceiling);
      assert ComputeDelay(attempt, baseDelay, maxDelay, draw) == delay;
    }
  }

  lemma ShareOf(x: real, whole: real) returns (share: real)
    requires 0.0 <= x <= whole
    ensures 0.0 <= share <= 1.0 && share * whole == x
  {
    share := if whole == 0.0 then 0.0 else x / whole;
  }

  // ----- the loop -----

  /** One call of `on_retry`. */
  datatype Notice = Notice(attempt: nat, error: Failure, delay: real)

  /** What a call of `retry_async` ends with. */
  datatype Final<+T> = Returned(value: T) | Raised(error: Failure) | BadArgument

  /** These are the outcomes of the calls one `retry_async` makes: all but the last transient,
      and the last one transient only if it is the last one allowed. */
  predicate IsRetry<T>(calls: seq<Outcome<T>>, attempts: nat) {
    && 1 <= |calls| <= attempts
    && (forall i | 0 <= i < |calls| - 1 :: IsTransient(calls[i]))
    && (|calls| < attempts ==> !IsTransient(calls[|calls| - 1]))
  }

  predicate AllTransient<T>(calls: seq<Outcome<T>>) {
    forall i | 0 <= i < |calls| :: IsTransient(calls[i])
  }

  /** One more call after transient ones either ends the retry or is followed by another. */
  lemma OneMoreCall<T>(calls: seq<Outcome<T>>, call: Outcome<T>, attempts: nat)
    requires AllTransient(calls) && |calls| < attempts
    ensures if IsTransient(call) && |calls| + 1 < attempts then AllTransient(calls + [call])
            else IsRetry(calls + [call], attempts)
  {}

  function Taken<T>(fn: nat -> Outcome<T>, n: nat): (s: seq<Outcome<T>>)
    ensures |s| == n && forall i | 0 <= i < n :: s[i] == fn(i)
  {
    seq(n, i requires 0 <= i => fn(i))
  }

  /** Await the calls fn(0), fn(1), ... as `retry_async` does; `draws` is the jitter. */
  method RetryAsync<T>(fn: nat -> Outcome<T>, attempts: int, baseDelay: real, maxDelay: real, draws: nat -> real)
    returns (final: Final<T>, calls: nat, notices: seq<Notice>, sleeps: seq<real>)
    requires forall k :: 0.0 <= draws(k) <= 1.0
    ensures attempts < 1 ==> final == BadArgument && calls == 0 && notices == [] && sleeps == []
    ensures attempts >= 1 ==> IsRetry(Taken(fn, calls), attempts)
    ensures attempts >= 1 ==>
      match fn(calls - 1)
      case Ok(value) => final == Returned(value)
      case Err(failure) => final == Raised(failure)
    ensures attempts >= 1 ==> |notices| == |sleeps| == calls - 1
    ensures forall i | 0 <= i < |notices| ::
      && notices[i] == Notice(i + 1, fn(i).failure, sleeps[i])
      && sleeps[i] == ComputeDelay(i + 1, baseDelay, maxDelay, draws(i))
  {
    calls, notices, sleeps := 0, [], [];
    if attempts < 1 {
      return BadArgument, calls, notices, sleeps;
    }
    var attempt := 1;
    while true
      invariant 1 <= attempt <= attempts && calls == attempt - 1 == |notices| == |sleeps|
      invariant forall i | 0 <= i < calls :: IsTransient(fn(i))
      invariant forall i | 0 <= i < |notices| ::
        && notices[i] == Notice(i + 1, fn(i).failure, sleeps[i])
        && sleeps[i] == ComputeDelay(i + 1, baseDelay, maxDelay, draws(i))
      decreases attempts - attempt
    {
      var outcome := fn(calls);
      calls := calls + 1;
      if !IsTransient(outcome) || attempt >= attempts {
        final := if outcome.Ok? then Returned(outcome.value) else Raised(outcome.failure);
        return;
      }
      var delay := ComputeDelay(attempt, baseDelay, maxDelay, draws(attempt - 1));
      notices := notices + [Notice(attempt, outcome.failure, delay)];
      sleeps := sleeps + [delay];
      attempt := attempt + 1;
    }
  }

  /** The number of calls is min(attempts, 1 + index of the first non-transient outcome), for
      every stream of outcomes: no other number of calls is a retry. */
  lemma CallsAreDetermined<T>(fn: nat -> Outcome<T>, attempts: nat, n: nat)
    requires IsRetry(Taken(fn, n), attempts)
    ensures forall k: nat :: (forall i | 0 <= i < k :: IsTransient(fn(i))) && !IsTransient(fn(k)) ==>
      n == if k + 1 <= attempts then k + 1 else attempts
    ensures (forall i | 0 <= i < attempts :: IsTransient(fn(i))) ==> n == attempts
  {
    var s := Taken(fn, n);
    assert s[n - 1] == fn(n - 1);
    assert forall i | 0 <= i < n - 1 :: IsTransient(s[i]) && s[i] == fn(i);
  }

  /** What a retry raises or returns tells how the downstream behaved. */
  lemma RetryTells<T>(calls: seq<Outcome<T>>, attempts: nat)
    requires IsRetry(calls, attempts)
    ensures IsTransient(calls[|calls| - 1]) <==>
      |calls| == attempts && forall i | 0 <= i < |calls| :: IsTransient(calls[i])
    ensures (exists i | 0 <= i < |calls| :: calls[i].Ok?) <==> calls[|calls| - 1].Ok?
  {
    if IsTransient(calls[|calls| - 1]) {
      forall i | 0 <= i < |calls| ensures IsTransient(calls[i]) {}
    } else {
      assert calls[|calls| - 1].Ok? || !IsTransient(calls[|calls| - 1]);
    }
  }

  /** Nothing follows an outcome that is not transient. */
  lemma OnlyTheLast<T>(calls: seq<Outcome<T>>, attempts: nat, i: nat)
    requires IsRetry(calls, attempts) && i < |calls| && !IsTransient(calls[i])
    ensures i == |calls| - 1
  {}

  // ----- how long a call can sleep -----

  function Sum(xs: seq<real>): real {
    if xs == [] then 0.0 else Sum(xs[..|xs| - 1]) + xs[|xs| - 1]
  }

  /** The ceilings of the first n delays, added up. */
  function CeilingSum(n: nat, baseDelay: real, maxDelay: real): real {
    if n == 0 then 0.0 else CeilingSum(n - 1, baseDelay, maxDelay) + Ceiling(n, baseDelay, maxDelay)
  }

  /** base * 2^n. */
  function Doubled(base: real, n: nat): real {
    if n == 0 then base else 2.0 * Doubled(base, n - 1)
  }

  lemma {:induction false} DoubledIsProduct(base: real, n: nat)
    ensures Doubled(base, n) == base * Pow2(n)
    ensures base >= 0.0 ==> Doubled(base, n) >= base
  {
    if n > 0 { DoubledIsProduct(base, n - 1); }
  }

  /** How many of the first n delays the cap does not lower. */
  function Uncapped(n: nat, baseDelay: real, maxDelay: real): nat {
    if n == 0 then 0
    else if Doubled(baseDelay, n - 1) <= maxDelay then n
    else Uncapped(n - 1, baseDelay, maxDelay)
  }

  lemma CeilingsNeverDecrease(k: nat, baseDelay: real, maxDelay: real)
    requires k >= 1 && baseDelay >= 0.0
    ensures Ceiling(k, baseDelay, maxDelay) <= Ceiling(k + 1, baseDelay, maxDelay)
  {
    DoubledIsProduct(baseDelay, k - 1);
    DoubledIsProduct(baseDelay, k);
  }

  lemma CeilingIs(n: nat, baseDelay: real, maxDelay: real)
    requires n >= 1
    ensures Ceiling(n, baseDelay, maxDelay) == Min(maxDelay, Doubled(baseDelay, n - 1))
  {
    DoubledIsProduct(baseDelay, n - 1);
  }

  /** n * x. */
  function Repeated(x: real, n: nat): real {
    if n == 0 then 0.0 else Repeated(x, n - 1) + x
  }

  lemma {:induction false} RepeatedIsProduct(x: real, n: nat)
    ensures Repeated(x, n) == n as real * x
  {
    if n > 0 {
      RepeatedIsProduct(x, n - 1);
      OneMore((n - 1) as real, x);
    }
  }

  lemma OneMore(x: real, m: real)
    ensures (x + 1.0) * m == x * m + m
  {}

  lemma {:induction false} SplitSum(n: nat, baseDelay: real, maxDelay: real)
    requires baseDelay >= 0.0
    ensures var k := Uncapped(n, baseDelay, maxDelay);
      && k <= n
      && CeilingSum(n, baseDelay, maxDelay)
         == Doubled(baseDelay, k) - baseDelay + Repeated(maxDelay, n - k)
  {
    if n > 0 {
      CeilingIs(n, baseDelay, maxDelay);
      SplitSum(n - 1, baseDelay, maxDelay);
      if Doubled(baseDelay, n - 1) <= maxDelay {
        AllUncapped(n - 1, baseDelay, maxDelay);
      }
    }
  }

  lemma {:induction false} AllUncapped(n: nat, baseDelay: real, maxDelay: real)
    requires baseDelay >= 0.0 && Doubled(baseDelay, n) <= maxDelay
    ensures Uncapped(n, baseDelay, maxDelay) == n
  {
    if n > 0 {
      DoubledIsProduct(baseDelay, n - 1);
    }
  }

  /** The exact sum of the ceilings, split where the cap takes over: base * (2^k - 1) up to
      there, and the cap from there on. */
  lemma CeilingSumClosedForm(n: nat, baseDelay: real, maxDelay: real)
    requires baseDelay >= 0.0
    ensures var k := Uncapped(n, baseDelay, maxDelay);
      && k <= n
      && CeilingSum(n, baseDelay, maxDelay)
         == baseDelay * Pow2(k) - baseDelay + (n - k) as real * maxDelay
  {
    var k := Uncapped(n, baseDelay, maxDelay);
    SplitSum(n, baseDelay, maxDelay);
    DoubledIsProduct(baseDelay, k);
    RepeatedIsProduct(maxDelay, n - k);
  }

  /** The cap takes over at that attempt and stays in force. */
  lemma CapTakesOver(n: nat, baseDelay: real, maxDelay: real)
    requires baseDelay >= 0.0
    ensures forall j | 0 <= j < n ::
      baseDelay * Pow2(j) <= maxDelay <==> j < Uncapped(n, baseDelay, maxDelay)
  {
    forall j | 0 <= j < n
      ensures baseDelay * Pow2(j) <= maxDelay <==> j < Uncapped(n, baseDelay, maxDelay)
    {
      DoubledIsProduct(baseDelay, j);
      UncappedFirst(n, j + 1, baseDelay, maxDelay);
    }
  }

  lemma {:induction false} UncappedFirst(n: nat, i: nat, baseDelay: real, maxDelay: real)
    requires 1 <= i <= n && baseDelay >= 0.0
    ensures Doubled(baseDelay, i - 1) <= maxDelay <==> i <= Uncapped(n, baseDelay, maxDelay)
  {
    if Doubled(baseDelay, n - 1) <= maxDelay {
      DoubledGrows(baseDelay, i - 1, n - 1);
    } else if i < n {
      UncappedFirst(n - 1, i, baseDelay, maxDelay);
    } else {
      SplitSum(n - 1, baseDelay, maxDelay);
    }
  }

  lemma {:induction false} DoubledGrows(base: real, m: nat, n: nat)
    requires m <= n && base >= 0.0
    ensures 0.0 <= Doubled(base, m) <= Doubled(base, n)
  {
    DoubledIsProduct(base, m);
    if m < n {
      DoubledGrows(base, m, n - 1);
    }
  }

  /** A `retry_async` that sleeps at most n times, attempts - 1 of them, sleeps no longer than the
      ceilings of n delays, and so at most base * 2^n - base and at most n times the cap. */
  lemma BackoffBudget(sleeps: seq<real>, n: nat, baseDelay: real, maxDelay: real)
    requires baseDelay >= 0.0 && maxDelay >= 0.0 && |sleeps| <= n
    requires forall i | 0 <= i < |sleeps| :: 0.0 <= sleeps[i] <= Ceiling(i + 1, baseDelay, maxDelay)
    ensures 0.0 <= Sum(sleeps) <= CeilingSum(n, baseDelay, maxDelay)
    ensures CeilingSum(n, baseDelay, maxDelay) <= Doubled(baseDelay, n) - baseDelay
    ensures CeilingSum(n, baseDelay, maxDelay) <= Repeated(maxDelay, n)
  {
    SumWithin(sleeps, baseDelay, maxDelay);
    BudgetGrows(|sleeps|, n, baseDelay, maxDelay);
    CeilingsWithin(n, baseDelay, maxDelay);
  }

  lemma {:induction false} SumWithin(sleeps: seq<real>, baseDelay: real, maxDelay: real)
    requires baseDelay >= 0.0 && maxDelay >= 0.0
    requires forall i | 0 <= i < |sleeps| :: 0.0 <= sleeps[i] <= Ceiling(i + 1, baseDelay, maxDelay)
    ensures 0.0 <= Sum(sleeps) <= CeilingSum(|sleeps|, baseDelay, maxDelay)
  {
    if sleeps != [] {
      SumWithin(sleeps[..|sleeps| - 1], baseDelay, maxDelay);
    }
  }

  lemma {:induction false} CeilingsWithin(n: nat, baseDelay: real, maxDelay: real)
    ensures CeilingSum(n, baseDelay, maxDelay) <= Doubled(baseDelay, n) - baseDelay
    ensures CeilingSum(n, baseDelay, maxDelay) <= Repeated(maxDelay, n)
  {
    if n > 0 {
      CeilingsWithin(n - 1, baseDelay, maxDelay);
      CeilingIs(n, baseDelay, maxDelay);
    }
  }

  lemma {:induction false} BudgetGrows(m: nat, n: nat, baseDelay: real, maxDelay: real)
    requires m <= n && baseDelay >= 0.0 && maxDelay >= 0.0
    ensures CeilingSum(m, baseDelay, maxDelay) <= CeilingSum(n, baseDelay, maxDelay)
    decreases n
  {
    if m < n {
      BudgetGrows(m, n - 1, baseDelay, maxDelay);
      CeilingIsNonNegative(n, baseDelay, maxDelay);
    }
  }
}
