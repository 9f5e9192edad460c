/** How long the SDK waits between attempts, in Go's 64-bit durations. */
module RetryPolicy {

  const TWO62 := 0x4000_0000_0000_0000
  const TWO63 := 0x8000_0000_0000_0000
  const TWO64 := 0x1_0000_0000_0000_0000

  /** A Go `time.Duration`: nanoseconds in a signed 64-bit integer. */
  type Duration = d: int | -TWO63 <= d < TWO63

  const SECOND: Duration := 1_000_000_000
  const DEFAULT_BASE: Duration := 200_000_000
  const DEFAULT_CEILING: Duration := 5_000_000_000
  const MAX_RETRY_AFTER: Duration := 30_000_000_000

  /** Arithmetic on `int64` wraps around. */
  function Wrap(n: int): (d: Duration)
    ensures -TWO63 <= n < TWO63 ==> d == n
    ensures n >= -TWO63 ==> d <= n
    ensures (n - d) % TWO64 == 0
  {
    (n + TWO63) % TWO64 - TWO63
  }

  datatype Policy = Policy(maxAttempts: int, baseDelay: Duration, maxDelay: Duration, noJitter: bool) {
    function Attempts(): (n: int)
      ensures n >= 1
    {
      if maxAttempts <= 0 then 4 else maxAttempts
    }

    function Base(): (d: Duration)
      ensures d > 0
    {
      if baseDelay <= 0 then DEFAULT_BASE else baseDelay
    }

    function Ceiling(): (d: Duration)
      ensures d > 0
    {
      if maxDelay <= 0 then DEFAULT_CEILING else maxDelay
    }
  }

  function Min(a: int, b: int): int {
    if a <= b then a else b
  }

  function Max(a: int, b: int): int {
    if a >= b then a else b
  }

  function Pow2(n: nat): (r: int)
    ensures r >= 1
  {
    if n == 0 then 1 else 2 * Pow2(n - 1)
  }

  // ---------------------------------------------------------------- the doubling

  /** `d` after at most `steps` more doublings, each wrapping, stopping at the ceiling. */
  function Doubled(d: Duration, ceiling: Duration, steps: nat): Duration
    decreases steps
  {
    if steps == 0 || d >= ceiling then d else Doubled(Wrap(d * 2), ceiling, steps - 1)
  }

  /** The wait before jitter, after the failed attempt number `attempt`. */
  function PreJitter(base: Duration, ceiling: Duration, attempt: int): Duration {
    Min(Doubled(base, ceiling, Max(attempt - 1, 0)), ceiling)
  }

  /** The documented wait: base times a power of two, capped. */
  function Documented(base: Duration, ceiling: Duration, attempt: int): int {
    Min(base * Pow2(Max(attempt - 1, 0)), ceiling)
  }

  /** Some doubling of the base falls where the next one overflows while it is still under the ceiling. */
  ghost predicate Overflows(base: Duration, ceiling: Duration) {
    exists i: nat :: TWO62 <= base * Pow2(i) < ceiling
  }

  lemma {:induction false} DoublingIsExact(d: Duration, ceiling: Duration, steps: nat)
    requires d > 0 && forall i: nat :: i < steps ==> !(TWO62 <= d * Pow2(i) < ceiling)
    ensures Min(Doubled(d, ceiling, steps), ceiling) == Min(d * Pow2(steps), ceiling)
    decreases steps
  {
    if d >= ceiling {
      assert d * Pow2(steps) >= d by { Multiply(d, 1, Pow2(steps)); }
    } else if steps > 0 {
      assert d * Pow2(0) == d;
      forall i: nat | i < steps - 1 ensures !(TWO62 <= d * 2 * Pow2(i) < ceiling) {
        assert d * 2 * Pow2(i) == d * Pow2(i + 1) by { Shift(d, i); }
      }
      DoublingIsExact(d * 2, ceiling, steps - 1);
      Shift(d, steps - 1);
    }
  }

  lemma Multiply(d: int, a: int, b: int)
    requires d > 0 && a <= b
    ensures d * a <= d * b
  {
  }

  lemma Shift(d: int, i: nat)
    ensures d * 2 * Pow2(i) == d * Pow2(i + 1)
  {
    assert Pow2(i + 1) == 2 * Pow2(i);
  }

  lemma {:induction false} Unfolds(d: Duration, ceiling: Duration, k: nat)
    requires d > 0 && d * Pow2(k) < ceiling
    ensures Doubled(d, ceiling, k + 1) == Wrap(d * Pow2(k) * 2)
    decreases k
  {
    Multiply(d, 1, Pow2(k));
    assert d < ceiling;
    if k == 0 {
      assert d * Pow2(0) == d;
      assert Doubled(d, ceiling, 1) == Doubled(Wrap(d * 2), ceiling, 0);
    } else {
      Shift(d, k - 1);
      Multiply(d, 2, Pow2(k));
      Unfolds(d * 2, ceiling, k - 1);
    }
  }

  /** The wait before jitter is the documented one for every attempt exactly when no doubling overflows under the ceiling. */
  lemma WaitIsDocumented(base: Duration, ceiling: Duration)
    requires base > 0 && ceiling > 0
    ensures (forall attempt :: PreJitter(base, ceiling, attempt) == Documented(base, ceiling, attempt)) <==> !Overflows(base, ceiling)
  {
    if Overflows(base, ceiling) {
      var i: nat :| TWO62 <= base * Pow2(i) < ceiling;
      Unfolds(base, ceiling, i);
      Shift(base, i);
      assert Pow2(i + 1) == 2 * Pow2(i);
      assert PreJitter(base, ceiling, i + 2) != Documented(base, ceiling, i + 2);
    } else {
      forall attempt ensures PreJitter(base, ceiling, attempt) == Documented(base, ceiling, attempt) {
        DoublingIsExact(base, ceiling, Max(attempt - 1, 0));
      }
    }
  }

  /** Ceilings up to 2^62 ns (146 years) never overflow. */
  lemma SafeCeiling(base: Duration, ceiling: Duration)
    requires base > 0 && 0 < ceiling <= TWO62
    ensures !Overflows(base, ceiling)
  {
  }

  // ---------------------------------------------------------------- the whole wait

  /** Equal jitter: half fixed, and a random part `r` of the other half. */
  predicate Jittered(d: Duration, noJitter: bool, w: int) {
    if noJitter || d <= 1 then w == d else d / 2 <= w <= d / 2 + d / 2
  }

  /** The most any wait can be. */
  function Longest(p: Policy): int {
    Max(p.Ceiling(), MAX_RETRY_AFTER)
  }

  /** `wait`; `random` stands for `rand.N`, which answers less than its argument. */
  method Wait(p: Policy, attempt: int, retryAfter: Duration, random: nat -> nat) returns (w: Duration)
    requires forall n: nat :: n > 0 ==> random(n) < n
    ensures w <= Longest(p)
    ensures var cap := Min(retryAfter, MAX_RETRY_AFTER); var pre := PreJitter(p.Base(), p.Ceiling(), attempt);
      && w >= cap
      && (w == cap || Jittered(pre, p.noJitter, w))
      && (pre > 1 ==> w >= pre / 2)
    ensures !Overflows(p.Base(), p.Ceiling()) ==> w > 0
  {
    var base, ceiling := p.Base(), p.Ceiling();
    var d: Duration := base;
    var i := 1;
    while i < attempt && d < ceiling
      invariant Doubled(d, ceiling, Max(attempt - i, 0)) == Doubled(base, ceiling, Max(attempt - 1, 0))
      decreases attempt - i
    {
      d := Wrap(d * 2);
      i := i + 1;
    }
    if d > ceiling { d := ceiling; }
    ghost var pre := d;
    assert pre == PreJitter(base, ceiling, attempt);
    if !Overflows(base, ceiling) { WaitIsDocumented(base, ceiling); PositiveWait(base, ceiling, attempt); }
    if !p.noJitter && d > 1 {
      var half := d / 2;
      var r := random(half + 1);
      assert r < half + 1 && half + half <= d;
      d := half + r;
    }
    w := Max(d, Min(retryAfter, MAX_RETRY_AFTER));
  }

  lemma PositiveWait(base: Duration, ceiling: Duration, attempt: int)
    requires base > 0 && ceiling > 0
    ensures Documented(base, ceiling, attempt) > 0
  {
    Multiply(base, 1, Pow2(Max(attempt - 1, 0)));
  }

  // ---------------------------------------------------------------- which answers are worth repeating

  /** `retryableStatus`: whether to repeat, and whether the server may already have acted. */
  function Retryable(status: int): (r: (bool, bool))
    ensures r.1 ==> r.0
  {
    if status == 429 || status == 503 then (true, false)
    else if status == 502 || status == 504 then (true, true)
    else (false, false)
  }

  /** `parseRetryAfter`: whole seconds; the product wraps like every `int64` one. */
  function ParseRetryAfter(seconds: Duration): (d: Duration)
    ensures 0 < seconds <= 9_223_372_036 ==> d == seconds * SECOND
  {
    if seconds <= 0 then 0 else Wrap(seconds * SECOND)
  }
}
