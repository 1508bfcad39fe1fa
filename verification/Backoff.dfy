/** The delay between attempts: backoff (src/retry/backoff.rs), jitter (src/retry/jitter.rs)
    and the retry-after floor (src/retry/mod.rs). */
module Backoff {
  import opened Common

  const TWO53 := 0x20_0000_0000_0000
  const TWO64 := 0x1_0000_0000_0000_0000
  const U32_MAX := 0xFFFF_FFFF
  /** The longest `Duration`: u64::MAX seconds and 999,999,999 nanoseconds. */
  const DURATION_MAX := 0xFFFF_FFFF_FFFF_FFFF * 1_000_000_000 + 999_999_999

  type Duration = d: nat | d <= DURATION_MAX
  type U64 = r: nat | r < TWO64

  // --- Backoff -----------------------------------------------------------------------------

  datatype Schedule = Fixed(delay: Duration) | Exponential(base: Duration, max: Duration)

  /** `attempt.saturating_sub(1).min(63)`. */
  function Shift(attempt: nat): nat {
    Min(if attempt == 0 then 0 else attempt - 1, 63)
  }

  /** `u32::try_from(1u64 << shift)`, saturating. */
  function Factor(shift: nat): nat {
    if Pow2(shift) <= U32_MAX then Pow2(shift) else U32_MAX
  }

  /** `checked_mul(factor).unwrap_or(max)`. */
  function Scaled(base: Duration, factor: nat, max: Duration): Duration {
    if base * factor <= DURATION_MAX then base * factor else max
  }

  function RawDelay(s: Schedule, attempt: nat): Duration {
    match s
    case Fixed(d) => d
    case Exponential(base, max) =>
      var scaled := Scaled(base, Factor(Shift(attempt)), max);
      if scaled <= max then scaled else max
  }

  lemma {:induction false} Pow2Monotone(a: nat, b: nat)
    requires a <= b
    ensures 1 <= Pow2(a) <= Pow2(b)
    decreases b
  {
    if a < b {
      Pow2Monotone(a, b - 1);
    } else if a > 0 {
      Pow2Monotone(a - 1, a - 1);
    }
  }

  lemma {:induction false} Pow2Of32()
    ensures Pow2(31) == 0x8000_0000 && Pow2(32) == 0x1_0000_0000
  {
    assert Pow2(8) == 0x100;
    assert Pow2(16) == 0x1_0000;
    assert Pow2(24) == 0x100_0000;
  }

  /** The factor is the power of two up to the 32nd attempt and saturates after it. */
  lemma {:induction false} FactorSplits(attempt: nat)
    requires attempt >= 1
    ensures attempt <= 32 ==> Factor(Shift(attempt)) == Pow2(attempt - 1)
    ensures attempt > 32 ==> Factor(Shift(attempt)) == U32_MAX < Pow2(attempt - 1)
  {
    Pow2Of32();
    if attempt <= 32 {
      Pow2Monotone(attempt - 1, 31);
    } else {
      Pow2Monotone(32, attempt - 1);
      Pow2Monotone(32, Shift(attempt));
    }
  }

  /** The saturating arithmetic has the effect of exact arithmetic with a saturated factor:
      a product too long for a `Duration` is above every maximum. */
  lemma RawDelayIsMin(base: Duration, max: Duration, attempt: nat)
    ensures RawDelay(Exponential(base, max), attempt) == Min(base * Factor(Shift(attempt)), max)
  {}

  /** The documented closed form, `base * 2^(attempt-1)` clamped to `max`, holds exactly when
      the 32-bit factor is not saturated, or the base is zero, or the saturated product
      already reaches `max`. */
  lemma {:induction false} ClosedFormExactlyWhen(base: Duration, max: Duration, attempt: nat)
    requires attempt >= 1
    ensures RawDelay(Exponential(base, max), attempt) == Min(base * Pow2(attempt - 1), max)
      <==> attempt <= 32 || base == 0 || max <= base * U32_MAX
  {
    hide RawDelay, Shift, Factor, Pow2;
    FactorSplits(attempt);
    RawDelayIsMin(base, max, attempt);
  }

  /** The closed form does fail: a one-nanosecond base with a maximum of ten seconds stays at
      2^32 - 1 nanoseconds from the 33rd attempt on. */
  lemma {:induction false} ClosedFormFails()
    ensures RawDelay(Exponential(1, 10_000_000_000), 34) == 4_294_967_295
    ensures Min(1 * Pow2(33), 10_000_000_000) == 8_589_934_592
  {
    FactorSplits(34);
    Pow2Of32();
  }

  lemma ProductMonotone(x: nat, y: nat, z: nat)
    requires y <= z
    ensures x * y <= x * z
  {}

  /** The schedule never shrinks and never exceeds its maximum, saturation included. */
  lemma {:induction false} RawDelayMonotone(base: Duration, max: Duration, a: nat, b: nat)
    requires a <= b
    ensures RawDelay(Exponential(base, max), a) <= RawDelay(Exponential(base, max), b) <= max
  {
    Pow2Monotone(Shift(a), Shift(b));
    RawDelayIsMin(base, max, a);
    RawDelayIsMin(base, max, b);
    ProductMonotone(base, Factor(Shift(a)), Factor(Shift(b)));
  }

  // --- Jitter ----------------------------------------------------------------------------------

  datatype Jitter = NoJitter | Full | Equal

  /** `((draw * span) >> 53)` for a 53-bit draw: the draw's share of the span. */
  function Share(span: nat, draw: nat): nat {
    draw * span / TWO53
  }

  lemma {:induction false} ShareBelow(span: nat, draw: nat)
    requires draw < TWO53
    ensures span == 0 ==> Share(span, draw) == 0
    ensures span > 0 ==> Share(span, draw) < span
  {
    if span > 0 {
      assert draw * span < span * TWO53;
    }
  }

  /** `apply`: the draw is the top 53 bits of the random word; a base beyond 2^64 nanoseconds
      is cut to its low 64 bits first. */
  function Jittered(j: Jitter, base: Duration, rng: U64): Duration
  {
    var nanos, draw := base % TWO64, rng / 2048;
    assert draw < TWO53;
    match j
    case NoJitter => base
    case Full => ShareBelow(nanos, draw); Share(nanos, draw)
    case Equal =>
      ShareBelow(nanos / 2, draw);
      nanos / 2 + Share(nanos / 2, draw)
  }

  lemma {:induction false} ProductBelow(x: nat, y: nat)
    requires x < TWO64 && y < TWO64
    ensures x * y < TWO64 * TWO64
  {
    ProductMonotone(x, y, TWO64 - 1);
    ProductMonotone(TWO64 - 1, x, TWO64 - 1);
  }

  /** Full jitter lies in [0, n), equal jitter in [n/2, n) (for n of at least two nanoseconds),
      below 2^64; and the widened product fits the 128 bits it is computed in. */
  lemma {:induction false} JitterRanges(base: Duration, rng: U64)
    requires 0 < base < TWO64
    ensures Jittered(Full, base, rng) < base
    ensures base >= 2 ==> base / 2 <= Jittered(Equal, base, rng) < base
    ensures base == 1 ==> Jittered(Equal, base, rng) == 0
    ensures Jittered(NoJitter, base, rng) == base
    ensures (rng / 2048) * base < TWO64 * TWO64
  {
    ShareBelow(base, rng / 2048);
    ShareBelow(base / 2, rng / 2048);
    assert (rng / 2048) * base < TWO64 * TWO64 by {
      ProductBelow(rng / 2048, base);
    }
  }

  /** Whatever the base, jitter never lengthens a delay. */
  lemma {:induction false} JitterShortens(j: Jitter, base: Duration, rng: U64)
    ensures Jittered(j, base, rng) <= base
  {
    ShareBelow(base % TWO64, rng / 2048);
    ShareBelow(base % TWO64 / 2, rng / 2048);
  }

  /** Full jitter draws the base itself only when that is zero, whatever the base and the word. */
  lemma {:induction false} FullReachesBaseExactlyWhen(base: Duration, rng: U64)
    ensures Jittered(Full, base, rng) == base <==> base == 0
  {
    var nanos := base % TWO64;
    ShareBelow(nanos, rng / 2048);
    assert nanos <= base && (nanos < base || nanos == base);
  }

  // --- Jitter is uniform to within one draw --------------------------------------------------------

  function CeilDiv(x: nat, n: nat): nat
    requires n > 0
  {
    (x + n - 1) / n
  }

  /** How many of the first `draws` draws share out as `v`. */
  function Hits(n: nat, v: nat, draws: nat): nat
    decreases draws
  {
    if draws == 0 then 0 else Hits(n, v, draws - 1) + (if Share(n, draws - 1) == v then 1 else 0)
  }

  /** `CeilDiv` is the least multiplier that reaches `x`. */
  lemma {:induction false} CeilDivLeast(x: nat, n: nat, r: nat)
    requires n > 0
    ensures r >= CeilDiv(x, n) <==> r * n >= x
  {
    var q := CeilDiv(x, n);
    var rest := (x + n - 1) % n;
    assert x + n - 1 == n * q + rest && rest < n;
    if r >= q {
      ProductMonotone(n, q, r);
    } else {
      ProductMonotone(n, r + 1, q);
      assert n * (r + 1) == r * n + n;
    }
  }

  lemma {:induction false} ShareIs(n: nat, v: nat, r: nat)
    requires n > 0
    ensures Share(n, r) == v <==> CeilDiv(v * TWO53, n) <= r < CeilDiv((v + 1) * TWO53, n)
  {
    CeilDivLeast(v * TWO53, n, r);
    CeilDivLeast((v + 1) * TWO53, n, r);
  }

  lemma {:induction false} HitsClosedForm(n: nat, v: nat, draws: nat)
    requires n > 0
    ensures var lo, hi := CeilDiv(v * TWO53, n), CeilDiv((v + 1) * TWO53, n);
      lo <= hi && Hits(n, v, draws) == (if draws <= lo then 0 else Min(draws, hi) - lo)
    decreases draws
  {
    CeilDivLeast(v * TWO53, n, CeilDiv((v + 1) * TWO53, n));
    CeilDivLeast((v + 1) * TWO53, n, CeilDiv((v + 1) * TWO53, n));
    if draws > 0 {
      HitsClosedForm(n, v, draws - 1);
      ShareIs(n, v, draws - 1);
    }
  }

  lemma {:induction false} CeilDivSumAtMost(x: nat, d: nat, n: nat)
    requires n > 0
    ensures CeilDiv(x + d, n) <= CeilDiv(x, n) + CeilDiv(d, n)
  {
    var p, q := CeilDiv(x, n), CeilDiv(d, n);
    CeilDivLeast(x, n, p);
    CeilDivLeast(d, n, q);
    assert (p + q) * n == p * n + q * n;
    CeilDivLeast(x + d, n, p + q);
  }

  lemma FloorBelow(d: nat, n: nat)
    requires n > 0
    ensures (d / n) * n <= d
  {}

  lemma {:induction false} CeilDivSumAtLeast(x: nat, d: nat, n: nat)
    requires n > 0
    ensures CeilDiv(x + d, n) >= CeilDiv(x, n) + d / n
  {
    var p, f := CeilDiv(x + d, n), d / n;
    CeilDivLeast(x + d, n, p);
    FloorBelow(d, n);
    assert n * (p + 1) == p * n + n;
    if p < f {
      ProductMonotone(n, p + 1, f);
      assert false;
    }
    assert (p - f) * n == p * n - f * n;
    CeilDivLeast(x, n, p - f);
  }

  /** Every value below the span is hit by the floor or the ceiling of 2^53/n of the 2^53
      draws, and no value at or above it by any: uniform to within one draw. */
  lemma {:induction false} SharesUniform(n: nat, v: nat, draws: nat)
    requires 0 < n < TWO64 && draws == TWO53
    ensures v < n ==> draws / n <= Hits(n, v, draws) <= CeilDiv(draws, n)
    ensures v >= n ==> Hits(n, v, draws) == 0
  {
    HitsClosedForm(n, v, draws);
    if v < n {
      CeilDivSumAtMost(v * TWO53, TWO53, n);
      CeilDivSumAtLeast(v * TWO53, TWO53, n);
      CeilDivLeast((v + 1) * TWO53, n, TWO53);
      assert (v + 1) * TWO53 == v * TWO53 + TWO53;
      ProductMonotone(TWO53, v + 1, n);
    } else {
      ProductMonotone(TWO53, n, v);
      CeilDivLeast(v * TWO53, n, TWO53 - 1);
    }
  }

  /** How many of the first `draws` 53-bit draws jitter a base to `v`. */
  function JitterHits(j: Jitter, base: Duration, v: nat, draws: nat): nat
    requires draws <= TWO53
    decreases draws
  {
    if draws == 0 then 0
    else JitterHits(j, base, v, draws - 1) + (if Jittered(j, base, (draws - 1) * 2048) == v then 1 else 0)
  }

  /** A jittered delay is the base, cut to 64 bits, scaled by the draw and rounded down, on top of half of
      it for equal jitter; the draw is the top 53 bits of the word, and the rest of it does not matter;
      without jitter a delay stays what it is. */
  lemma {:induction false} JitterIsScaledDraw(base: Duration, rng: U64)
    ensures var full, equal := Jittered(Full, base, rng), Jittered(Equal, base, rng);
      var draw, nanos, all := rng / 2048, base % 0x1_0000_0000_0000_0000, 0x20_0000_0000_0000;
      full * all <= draw * nanos < (full + 1) * all &&
      equal >= nanos / 2 && (equal - nanos / 2) * all <= draw * (nanos / 2) < (equal - nanos / 2 + 1) * all
    ensures Jittered(NoJitter, base, rng) == base
    ensures forall j :: Jittered(j, base, rng) == Jittered(j, base, rng / 2048 * 2048)
  {
    var draw, nanos := rng / 2048, base % TWO64;
    assert rng / 2048 * 2048 / 2048 == draw;
  }

  lemma {:induction false} DrawnJitter(base: Duration, draw: nat)
    requires base < TWO64 && draw < TWO53
    ensures Jittered(Full, base, draw * 2048) == Share(base, draw)
    ensures Jittered(Equal, base, draw * 2048) == base / 2 + Share(base / 2, draw)
  {
    hide Share;
    assert draw * 2048 / 2048 == draw;
  }

  lemma {:induction false} FullHits(base: Duration, v: nat, draws: nat)
    requires base < TWO64 && draws <= TWO53
    ensures JitterHits(Full, base, v, draws) == Hits(base, v, draws)
    decreases draws
  {
    hide Jittered, Share;
    if draws > 0 {
      FullHits(base, v, draws - 1);
      DrawnJitter(base, draws - 1);
    }
  }

  lemma {:induction false} EqualHits(base: Duration, v: nat, draws: nat)
    requires base < TWO64 && draws <= TWO53
    ensures JitterHits(Equal, base, base / 2 + v, draws) == Hits(base / 2, v, draws)
    decreases draws
  {
    hide Jittered, Share;
    if draws > 0 {
      EqualHits(base, v, draws - 1);
      DrawnJitter(base, draws - 1);
    }
  }

  /** Full jitter hits every value below the base, and equal jitter every value from half the base
      on, with the floor or the ceiling of its even share of the 2^53 draws; and no other value. */
  lemma {:induction false} JitterUniform(base: Duration, v: nat, draws: nat)
    requires 0 < base < TWO64 && draws == TWO53
    ensures var hits := JitterHits(Full, base, v, draws);
      if v < base then draws / base <= hits <= CeilDiv(draws, base) else hits == 0
    ensures base >= 2 ==>
      var half, hits := base / 2, JitterHits(Equal, base, base / 2 + v, draws);
      if v < half then draws / half <= hits <= CeilDiv(draws, half) else hits == 0
  {
    FullHits(base, v, draws);
    SharesUniform(base, v, draws);
    if base >= 2 {
      EqualHits(base, v, draws);
      SharesUniform(base / 2, v, draws);
    }
  }

  // --- The delay before the next attempt ------------------------------------------------------------

  /** `Retry::delay`: the jittered backoff, floored by the latest error's retry-after hint. */
  function Delay(s: Schedule, j: Jitter, attempt: nat, rng: U64, hint: Option<Duration>): Duration
  {
    var jittered := Jittered(j, RawDelay(s, attempt), rng);
    match hint
    case Some(h) => if h > jittered then h else jittered
    case None => jittered
  }

  /** The delay is the jittered backoff or the hint; the hint is a hard floor, above the maximum
      backoff too; without one the delay stays within the schedule. */
  lemma {:induction false} DelayBounds(s: Schedule, j: Jitter, attempt: nat, rng: U64, hint: Option<Duration>)
    ensures var d := Delay(s, j, attempt, rng, hint);
      (d == Jittered(j, RawDelay(s, attempt), rng) || Some(d) == hint) &&
      (hint.Some? ==> d >= hint.value) &&
      (hint.None? || hint.value <= RawDelay(s, attempt) ==> d <= RawDelay(s, attempt)) &&
      (hint.Some? && hint.value >= RawDelay(s, attempt) ==> d == hint.value)
  {
    JitterShortens(j, RawDelay(s, attempt), rng);
  }

  /** The documented cap: the delay stays within the maximum backoff, whatever the random word,
      exactly when there is no hint or the hint itself is within it. */
  lemma {:induction false} CappedExactlyWhen(base: Duration, max: Duration, j: Jitter, attempt: nat, rng: U64,
      hint: Option<Duration>)
    ensures Delay(Exponential(base, max), j, attempt, rng, hint) <= max <==> hint.None? || hint.value <= max
  {
    DelayBounds(Exponential(base, max), j, attempt, rng, hint);
    RawDelayIsMin(base, max, attempt);
  }

  /** The documented cap does fail: with a maximum of ten seconds, a hint of sixty is waited out. */
  lemma {:induction false} CapFails(j: Jitter, rng: U64)
    ensures Delay(Exponential(100_000_000, 10_000_000_000), j, 1, rng, Some(60_000_000_000)) == 60_000_000_000
  {
    DelayBounds(Exponential(100_000_000, 10_000_000_000), j, 1, rng, Some(60_000_000_000));
    RawDelayIsMin(100_000_000, 10_000_000_000, 1);
  }

  /** Without jitter and hint a fixed schedule waits its delay after every attempt. */
  lemma FixedDelay(delay: Duration, attempt: nat, rng: U64, hint: Option<Duration>)
    ensures Delay(Fixed(delay), NoJitter, attempt, rng, hint) == Max(delay, hint.GetOr(0))
  {}

  /** The delays after attempts 1..`n`, drawn from `rngs`. */
  function TotalDelay(s: Schedule, j: Jitter, rngs: seq<U64>): nat
  {
    if rngs == [] then 0
    else TotalDelay(s, j, rngs[..|rngs| - 1]) + Delay(s, j, |rngs|, rngs[|rngs| - 1], None)
  }

  lemma {:induction false} UnhintedDelayAtMost(base: Duration, max: Duration, j: Jitter, attempt: nat, rng: U64)
    ensures Delay(Exponential(base, max), j, attempt, rng, None) <= max
  {
    DelayBounds(Exponential(base, max), j, attempt, rng, None);
    RawDelayIsMin(base, max, attempt);
  }

  /** Without hints, the backoff of a run of `n + 1` attempts sums to at most `n * max`. */
  lemma {:induction false} TotalDelayBounded(base: Duration, max: Duration, j: Jitter, rngs: seq<U64>)
    ensures TotalDelay(Exponential(base, max), j, rngs) <= |rngs| * max
  {
    if rngs != [] {
      var n := |rngs|;
      TotalDelayBounded(base, max, j, rngs[..n - 1]);
      UnhintedDelayAtMost(base, max, j, n, rngs[n - 1]);
      OneMore(n, max);
    }
  }
}
