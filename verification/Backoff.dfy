/** Exponential backoff of a retried job. */
module Backoff {
  import opened Prelude

  datatype RetryPolicy = RetryPolicy(
    maxAttempts: u32,
    baseDelay: Duration,
    factor: u32,
    maxDelay: Option<Duration>)

  const DEFAULT_POLICY: RetryPolicy :=
    RetryPolicy(5, 5 * NANOS_PER_SECOND, 2, Some(300 * NANOS_PER_SECOND))

  /** The largest whole number of seconds a chrono duration can hold; building a
      longer one panics. */
  const CHRONO_MAX_SECONDS: int := I64_MAX / 1000

  /** The first and last nanosecond of chrono's calendar, from the year -262143 to
      the year 262142; a sum outside it panics. */
  const FIRST_INSTANT: Instant := -8334601228800 * NANOS_PER_SECOND
  const LAST_INSTANT: Instant := 8210266876800 * NANOS_PER_SECOND - 1

  predicate InCalendar(t: Instant) {
    FIRST_INSTANT <= t <= LAST_INSTANT
  }

  /** Both ends belong to the calendar. */
  lemma CalendarIs(t: Instant)
    ensures InCalendar(t) <==> -8_334_601_228_800_000_000_000 <= t < 8_210_266_876_800_000_000_000
  {}

  function Pow(base: nat, e: nat): nat {
    if e == 0 then 1 else base * Pow(base, e - 1)
  }

  function SaturatingPow(base: u64, e: nat): u64 {
    Min(Pow(base, e), U64_MAX)
  }

  /** Saturating 64-bit signed product of two non-negative factors. */
  function SaturatingMul(a: nat, b: nat): nat {
    Min(a * b, I64_MAX)
  }

  /** Whole seconds of the base delay, negative delays counting as zero. */
  function BaseSeconds(p: RetryPolicy): nat {
    Max(p.baseDelay, 0) / NANOS_PER_SECOND
  }

  /** `delay_for` step by step, with its saturating arithmetic; `None` where the
      duration constructor panics. */
  function DelayFor(p: RetryPolicy, attempt: nat): Option<Duration> {
    var factor: u64 := Max(p.factor, 1);
    var exponent: nat := if attempt == 0 then 0 else attempt - 1;
    var multiplier: u64 := Max(SaturatingPow(factor, Min(exponent, 31)), 1);
    var narrowed: nat := if multiplier <= I64_MAX then multiplier else I64_MAX;
    var seconds := SaturatingMul(BaseSeconds(p), narrowed);
    if seconds > CHRONO_MAX_SECONDS then None
    else
      var delay := seconds * NANOS_PER_SECOND;
      if p.maxDelay.Some? && delay > p.maxDelay.value then p.maxDelay else Some(delay)
  }

  // ---------------------------------------------------------------------
  // The closed form
  // ---------------------------------------------------------------------

  /** The number of doublings (tripling, ...) before attempt `n`. */
  function Exponent(n: nat): nat {
    Min(Max(n - 1, 0), 31)
  }

  function UncappedSeconds(p: RetryPolicy, n: nat): nat {
    BaseSeconds(p) * Pow(Max(p.factor, 1), Exponent(n))
  }

  predicate DelayFits(p: RetryPolicy, n: nat) {
    UncappedSeconds(p, n) <= CHRONO_MAX_SECONDS
  }

  function Capped(delay: Duration, cap: Option<Duration>): Duration {
    if cap.Some? then Min(delay, cap.value) else delay
  }

  /** How long the `n`-th attempt of a job waits for its retry. */
  function WaitAfter(p: RetryPolicy, n: nat): Duration {
    Capped(UncappedSeconds(p, n) * NANOS_PER_SECOND, p.maxDelay)
  }

  lemma MulAtLeast(a: nat, b: nat)
    requires a >= 1
    ensures a * b >= b
  {}

  lemma MulMonotone(a: nat, x: nat, y: nat)
    requires x <= y
    ensures a * x <= a * y
  {}

  lemma {:induction false} PowPositive(base: nat, e: nat)
    requires base >= 1
    ensures Pow(base, e) >= 1
  {
    if e > 0 {
      PowPositive(base, e - 1);
      MulAtLeast(base, Pow(base, e - 1));
    }
  }

  lemma {:induction false} PowMonotone(base: nat, lo: nat, hi: nat)
    requires base >= 1 && lo <= hi
    ensures Pow(base, lo) <= Pow(base, hi)
    decreases hi
  {
    if lo < hi {
      PowMonotone(base, lo, hi - 1);
      MulAtLeast(base, Pow(base, hi - 1));
    }
  }

  /** The saturating steps never change the answer: the delay is the capped plain
      product, and the call panics exactly when that product is out of range. */
  lemma DelayIsCappedProduct(p: RetryPolicy, n: nat)
    ensures DelayFor(p, n) ==
            if DelayFits(p, n) then Some(Capped(UncappedSeconds(p, n) * NANOS_PER_SECOND, p.maxDelay))
            else None
  {
    var factor := Max(p.factor, 1);
    var power := Pow(factor, Exponent(n));
    PowPositive(factor, Exponent(n));
    if power > I64_MAX && BaseSeconds(p) >= 1 {
      MulAtLeast(BaseSeconds(p), I64_MAX);
      MulAtLeast(BaseSeconds(p), power);
    }
  }

  lemma UncappedMonotone(p: RetryPolicy, m: nat, n: nat)
    requires m <= n
    ensures UncappedSeconds(p, m) <= UncappedSeconds(p, n)
  {
    var factor := Max(p.factor, 1);
    PowMonotone(factor, Exponent(m), Exponent(n));
    MulMonotone(BaseSeconds(p), Pow(factor, Exponent(m)), Pow(factor, Exponent(n)));
  }

  /** Later attempts never wait less, and once a delay is out of range it stays
      out of range. */
  lemma DelayMonotone(p: RetryPolicy, m: nat, n: nat)
    requires m <= n
    ensures DelayFor(p, n).Some? ==> DelayFor(p, m).Some? && DelayFor(p, m).value <= DelayFor(p, n).value
  {
    DelayIsCappedProduct(p, m);
    DelayIsCappedProduct(p, n);
    UncappedMonotone(p, m, n);
  }

  /** A delay is never negative under a non-negative cap, and never over the cap. */
  lemma DelayBounds(p: RetryPolicy, n: nat)
    requires p.maxDelay.Some? ==> p.maxDelay.value >= 0
    ensures DelayFor(p, n).Some? ==> DelayFor(p, n).value >= 0
    ensures DelayFor(p, n).Some? && p.maxDelay.Some? ==> DelayFor(p, n).value <= p.maxDelay.value
  {
    DelayIsCappedProduct(p, n);
  }

  /** A negative cap is not rejected and schedules the retry in the past. */
  lemma NegativeCapGivesNegativeDelay(p: RetryPolicy, n: nat)
    requires p.maxDelay.Some? && p.maxDelay.value < 0 && DelayFits(p, n)
    ensures DelayFor(p, n) == p.maxDelay
  {
    DelayIsCappedProduct(p, n);
  }

  // ---------------------------------------------------------------------
  // The closed form, without its helpers
  // ---------------------------------------------------------------------

  /** The base delay counts in whole seconds, rounded down, and not below zero. */
  lemma BaseIsWholeSeconds(p: RetryPolicy)
    ensures BaseSeconds(p) * NANOS_PER_SECOND <= Max(p.baseDelay, 0) < (BaseSeconds(p) + 1) * NANOS_PER_SECOND
  {}

  lemma {:induction false} PowIsPower(base: nat, m: nat, n: nat)
    ensures Pow(base, 1) == base && Pow(base, m + n) == Pow(base, m) * Pow(base, n)
    decreases m
  {
    assert Pow(base, 1) == base * Pow(base, 0) == base;
    if m > 0 {
      PowIsPower(base, m - 1, n);
      assert Pow(base, m + n) == base * Pow(base, m - 1 + n);
      assert base * (Pow(base, m - 1) * Pow(base, n)) == (base * Pow(base, m - 1)) * Pow(base, n);
    }
  }

  /** The first attempt waits the base delay, each further one the factor times the
      one before, up to the thirty-second, after which nothing changes. */
  lemma UncappedGrows(p: RetryPolicy, n: nat)
    ensures UncappedSeconds(p, 1) == BaseSeconds(p)
    ensures 1 <= n <= 31 ==> UncappedSeconds(p, n + 1) == UncappedSeconds(p, n) * Max(p.factor, 1)
    ensures n >= 32 ==> UncappedSeconds(p, n) == UncappedSeconds(p, 32)
  {
    var f := Max(p.factor, 1);
    assert Pow(f, 0) == 1;
    if 1 <= n <= 31 {
      assert Pow(f, n) == f * Pow(f, n - 1);
      assert BaseSeconds(p) * (f * Pow(f, n - 1)) == (BaseSeconds(p) * Pow(f, n - 1)) * f;
    }
  }

  /** The default policy waits 5, 10, 20 and 40 seconds, and never over 300. */
  lemma DefaultDelays(n: nat)
    ensures DelayFor(DEFAULT_POLICY, 1) == Some(5_000_000_000) && DelayFor(DEFAULT_POLICY, 2) == Some(10_000_000_000)
    ensures DelayFor(DEFAULT_POLICY, 3) == Some(20_000_000_000) && DelayFor(DEFAULT_POLICY, 4) == Some(40_000_000_000)
    ensures n >= 7 ==> DelayFor(DEFAULT_POLICY, n) == Some(300_000_000_000)
    ensures DEFAULT_POLICY.maxAttempts == 5
  {
    var p := DEFAULT_POLICY;
    DefaultUncapped();
    DelayIsCappedProduct(p, 1);
    DelayIsCappedProduct(p, 2);
    DelayIsCappedProduct(p, 3);
    DelayIsCappedProduct(p, 4);
    if n >= 7 {
      UncappedMonotone(p, 7, n);
      UncappedMonotone(p, n, Max(n, 32));
      UncappedGrows(p, Max(n, 32));
      DefaultFits();
      DelayIsCappedProduct(p, n);
    }
  }

  lemma DefaultUncapped()
    ensures var p := DEFAULT_POLICY;
            && UncappedSeconds(p, 1) == 5 && UncappedSeconds(p, 2) == 10 && UncappedSeconds(p, 3) == 20
            && UncappedSeconds(p, 4) == 40 && UncappedSeconds(p, 7) == 320
  {
    UncappedGrows(DEFAULT_POLICY, 1);
    UncappedGrows(DEFAULT_POLICY, 2);
    UncappedGrows(DEFAULT_POLICY, 3);
    UncappedGrows(DEFAULT_POLICY, 4);
    UncappedGrows(DEFAULT_POLICY, 5);
    UncappedGrows(DEFAULT_POLICY, 6);
  }

  lemma DefaultFits()
    ensures DelayFits(DEFAULT_POLICY, 32)
  {
    PowIsPower(2, 16, 15);
    PowIsPower(2, 8, 8);
    PowIsPower(2, 8, 7);
    PowIsPower(2, 4, 4);
    PowIsPower(2, 4, 3);
    assert Pow(2, 4) == 16 && Pow(2, 3) == 8;
    assert Pow(2, 8) == 256 && Pow(2, 7) == 128;
    assert Pow(2, 16) == 65536 && Pow(2, 15) == 32768;
    assert Pow(2, 31) == 2147483648;
  }
}
