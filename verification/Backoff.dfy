/**
 The backoff curve and the retry schedule, over reals where the source uses
 floating point.  A draw of the random generator is an arbitrary natural number
 reduced to the range asked for.
 */
module Backoff {
  import opened Domain

  const U64_MAX: nat := 0xFFFF_FFFF_FFFF_FFFF
  const I64_MAX: int := 0x7FFF_FFFF_FFFF_FFFF

  function Min(a: int, b: int): int { if a < b then a else b }
  function Max(a: int, b: int): int { if a > b then a else b }

  /** `as u64` of a non-negative number: truncation, saturating at the top. */
  function ToU64(x: real): nat
    requires x >= 0.0
  {
    Min(x.Floor, U64_MAX)
  }

  function Power(x: real, k: nat): real {
    if k == 0 then 1.0 else x * Power(x, k - 1)
  }

  /** What `Linear` adds to the base delay. */
  function LinearStep(p: RetryPolicy, index: nat): (r: real)
    requires p.multiplier > 1.0
    ensures r >= 0.0
  {
    Product(p.baseDelayMs as real, p.multiplier - 1.0, index as real);
    p.baseDelayMs as real * (p.multiplier - 1.0) * index as real
  }

  function ExponentialValue(p: RetryPolicy, index: nat): (r: real)
    requires p.multiplier > 1.0
    ensures r >= p.baseDelayMs as real
  {
    PowerAtLeastOne(p.multiplier, index);
    MulMonotone(p.baseDelayMs as real, 1.0, Power(p.multiplier, index));
    p.baseDelayMs as real * Power(p.multiplier, index)
  }

  /** The delay before capping. */
  function Curve(p: RetryPolicy, index: nat, max: nat): nat {
    if p.backoff.Fixed? || p.multiplier <= 1.0 then p.baseDelayMs
    else if p.backoff.Linear? then Min(p.baseDelayMs + ToU64(LinearStep(p, index)), U64_MAX)
    else Min(ToU64(ExponentialValue(p, index)), max)
  }

  function Clamp(x: nat, lo: nat, hi: nat): nat {
    Max(lo, Min(x, hi))
  }

  /** The delay before jitter; `index` 0 is the first retry. */
  function RawDelay(p: RetryPolicy, index: nat): nat {
    var max := Min(p.maxDelayMs, MAX_BACKOFF_MS);
    Clamp(Curve(p, index, max), p.baseDelayMs, max)
  }

  lemma Product(a: real, b: real, c: real)
    requires a >= 0.0 && b >= 0.0 && c >= 0.0
    ensures a * b >= 0.0 && a * b * c >= 0.0
  {
  }

  lemma {:induction false} PowerAtLeastOne(x: real, k: nat)
    requires x >= 1.0
    ensures Power(x, k) >= 1.0
  {
    if k > 0 { PowerAtLeastOne(x, k - 1); }
  }

  lemma {:induction false} PowerMonotone(x: real, j: nat, k: nat)
    requires x >= 1.0 && j <= k
    ensures Power(x, j) <= Power(x, k)
    decreases k
  {
    if j < k {
      PowerMonotone(x, j, k - 1);
      PowerAtLeastOne(x, k - 1);
    }
  }

  lemma MulMonotone(a: real, x: real, y: real)
    requires a >= 0.0 && x <= y
    ensures a * x <= a * y
  {
    assert a * (y - x) >= 0.0;
  }

  lemma FloorMonotone(x: real, y: real)
    requires x <= y
    ensures x.Floor <= y.Floor
  {
    assert x.Floor as real <= x && y < y.Floor as real + 1.0;
  }

  lemma FloorVersus(x: real, n: int)
    ensures x >= n as real <==> x.Floor >= n
  {
    assert x.Floor as real <= x < x.Floor as real + 1.0;
  }

  lemma ToU64Monotone(x: real, y: real)
    requires 0.0 <= x <= y
    ensures ToU64(x) <= ToU64(y)
  {
    FloorMonotone(x, y);
  }

  lemma LinearStepMonotone(p: RetryPolicy, j: nat, k: nat)
    requires p.multiplier > 1.0 && j <= k
    ensures LinearStep(p, j) <= LinearStep(p, k)
  {
    var rate := p.baseDelayMs as real * (p.multiplier - 1.0);
    Product(p.baseDelayMs as real, p.multiplier - 1.0, 1.0);
    MulMonotone(rate, j as real, k as real);
  }

  lemma ExponentialValueMonotone(p: RetryPolicy, j: nat, k: nat)
    requires p.multiplier > 1.0 && j <= k
    ensures ExponentialValue(p, j) <= ExponentialValue(p, k)
  {
    PowerMonotone(p.multiplier, j, k);
    MulMonotone(p.baseDelayMs as real, Power(p.multiplier, j), Power(p.multiplier, k));
  }

  lemma CurveMonotone(p: RetryPolicy, j: nat, k: nat, max: nat)
    requires j <= k
    ensures Curve(p, j, max) <= Curve(p, k, max)
  {
    if p.multiplier > 1.0 {
      if p.backoff.Linear? {
        LinearStepMonotone(p, j, k);
        ToU64Monotone(LinearStep(p, j), LinearStep(p, k));
      } else if p.backoff.Exponential? {
        ExponentialValueMonotone(p, j, k);
        ToU64Monotone(ExponentialValue(p, j), ExponentialValue(p, k));
      }
    }
  }

  /** The curve never decreases and never leaves `[base, max]`. */
  lemma RawDelayCurve(p: RetryPolicy, j: nat, k: nat)
    requires p.Valid() && j <= k
    ensures p.baseDelayMs <= RawDelay(p, j) <= RawDelay(p, k) <= p.maxDelayMs
  {
    CurveMonotone(p, j, k, p.maxDelayMs);
    assert RawDelay(p, j) == Clamp(Curve(p, j, p.maxDelayMs), p.baseDelayMs, p.maxDelayMs);
    assert RawDelay(p, k) == Clamp(Curve(p, k, p.maxDelayMs), p.baseDelayMs, p.maxDelayMs);
  }

  /** A valid policy can ask for a hundred attempts and for a delay of a day, and for no more. */
  lemma AtMostADay(p: RetryPolicy, k: nat)
    requires p.Valid()
    ensures p.maxAttempts <= 100 && RawDelay(p, k) <= 86_400_000
    ensures var daily := RetryPolicy(100, 86_400_000, 86_400_000, 1.0, Fixed, NoJitter, false);
      daily.Valid() && RawDelay(daily, k) == 86_400_000
  {
    RawDelayCurve(p, k, k);
  }

  lemma PowerOfOne(k: nat)
    ensures Power(1.0, k) == 1.0
  {
  }

  /** The two laws that make `Power` the power function. */
  lemma {:induction false} PowerLaws(x: real, j: nat, k: nat)
    ensures Power(x, 1) == x
    ensures Power(x, j + k) == Power(x, j) * Power(x, k)
    decreases j
  {
    if j > 0 {
      PowerLaws(x, j - 1, k);
      Associated(x, Power(x, j - 1), Power(x, k), Power(x, j), Power(x, j - 1 + k), Power(x, j + k));
    }
  }

  lemma Associated(a: real, b: real, c: real, ab: real, bc: real, abc: real)
    requires ab == a * b && bc == b * c && abc == a * bc
    ensures abc == ab * c
  {
    MulAssociates(a, b, c);
  }

  lemma MulAssociates(a: real, b: real, c: real)
    ensures a * (b * c) == (a * b) * c
  {
  }

  lemma FixedDelay(p: RetryPolicy, k: nat)
    requires p.Valid() && p.backoff.Fixed?
    ensures RawDelay(p, k) == p.baseDelayMs
  {
  }

  /** Linear delays grow by the same step each time, rounded down, until the cap. */
  lemma LinearDelay(p: RetryPolicy, k: nat)
    requires p.Valid() && p.backoff.Linear?
    ensures var exact := p.baseDelayMs + (p.baseDelayMs as real * (p.multiplier - 1.0) * k as real).Floor;
      RawDelay(p, k) == Min(exact, p.maxDelayMs)
  {
    if p.multiplier > 1.0 {
      assert LinearStep(p, k) >= 0.0;
    } else {
      NoGrowth(p.baseDelayMs as real, k as real);
    }
  }

  lemma NoGrowth(a: real, c: real)
    ensures a * (1.0 - 1.0) * c == 0.0
  {
  }

  /** Exponential delays are the exact power rounded down, until the cap. */
  lemma ExponentialDelay(p: RetryPolicy, k: nat, factor: real)
    requires p.Valid() && p.backoff.Exponential? && factor == Power(p.multiplier, k)
    ensures RawDelay(p, k) == Min((p.baseDelayMs as real * factor).Floor, p.maxDelayMs)
  {
    if p.multiplier > 1.0 {
      var exact := ExponentialValue(p, k);
      assert RawDelay(p, k) == Clamp(Min(ToU64(exact), p.maxDelayMs), p.baseDelayMs, p.maxDelayMs);
      CappedIsClamped(p, exact);
    } else {
      PowerOfOne(k);
      FloorVersus(p.baseDelayMs as real * 1.0, p.baseDelayMs);
    }
  }

  lemma CappedIsClamped(p: RetryPolicy, exact: real)
    requires p.Valid() && exact >= p.baseDelayMs as real
    ensures Clamp(Min(ToU64(exact), p.maxDelayMs), p.baseDelayMs, p.maxDelayMs) == Min(exact.Floor, p.maxDelayMs)
  {
    FloorVersus(exact, p.baseDelayMs);
  }

  /** `gen_range(0..=hi)` for an arbitrary generator output. */
  function Draw(u: nat, hi: nat): (r: nat)
    ensures r <= hi
  {
    u % (hi + 1)
  }

  function Jittered(p: RetryPolicy, raw: nat, u: nat): nat {
    match p.jitter
    case NoJitter => raw
    case FullJitter => Draw(u, Max(raw, 1))
    case EqualJitter => raw / 2 + Draw(u, Max(raw / 2, 1))
  }

  /** Jitter never lengthens a positive delay, and equal jitter keeps half of it. */
  lemma JitterBounds(p: RetryPolicy, raw: nat, u: nat)
    requires raw > 0
    ensures Jittered(p, raw, u) <= raw
    ensures p.jitter.NoJitter? ==> Jittered(p, raw, u) == raw
    ensures p.jitter.EqualJitter? ==> raw / 2 <= Jittered(p, raw, u)
  {
  }

  /** The delays a jitter can make of a positive one. */
  predicate InRange(jitter: JitterKind, delay: int, d: int) {
    match jitter
    case NoJitter => d == delay
    case FullJitter => 0 <= d <= delay
    case EqualJitter => delay / 2 <= d <= if delay == 1 then 1 else delay / 2 + delay / 2
  }

  /** Full jitter draws every delay up to the raw one, zero included. */
  lemma JitterReaches(p: RetryPolicy, raw: nat, d: int)
    requires raw > 0
    ensures (exists u: nat :: Jittered(p, raw, u) == d) <==> InRange(p.jitter, raw, d)
  {
    match p.jitter
    case NoJitter => assert Jittered(p, raw, 0) == raw;
    case FullJitter =>
      if 0 <= d <= raw {
        DrawSelf(d, raw);
        assert Jittered(p, raw, d) == d;
      }
    case EqualJitter =>
      if InRange(EqualJitter, raw, d) {
        DrawSelf(d - raw / 2, Max(raw / 2, 1));
        assert Jittered(p, raw, d - raw / 2) == d;
      }
  }

  lemma DrawSelf(u: nat, hi: nat)
    requires u <= hi
    ensures Draw(u, hi) == u
  {
  }

  predicate ShouldRetry(p: RetryPolicy, attempts: nat, retryable: bool) {
    p.AllowsAttempt(attempts) && (!p.retryableOnly || retryable)
  }

  function SaturatingAdd(now: int, delay: nat): int {
    Min(now + delay, I64_MAX)
  }

  function NextAttemptAt(p: RetryPolicy, attempts: nat, retryable: bool, now: int, u: nat): Option<int> {
    if !ShouldRetry(p, attempts, retryable) then None
    else
      var index := if attempts > 0 then attempts - 1 else 0;
      Some(SaturatingAdd(now, Jittered(p, RawDelay(p, index), u)))
  }

  /** Without jitter the time after attempt `k + 1` is the raw delay number `k`, counted from zero, after now. */
  lemma PlainTime(p: RetryPolicy, k: nat, retryable: bool, now: int, u: nat, delay: nat)
    requires p.jitter.NoJitter? && k + 1 < p.maxAttempts && (retryable || !p.retryableOnly)
    requires RawDelay(p, k) == delay
    ensures NextAttemptAt(p, k + 1, retryable, now, u) == Some(Min(now + delay, I64_MAX))
  {
  }

  /**
   Delay number `k` of the policy, counted from zero, after now: a fixed delay, one
   that grows by the same step, or one that is multiplied `k` times, by `factor` in all.
   */
  predicate AtDelay(p: RetryPolicy, k: nat, factor: real, now: int, at: int) {
    var delay := match p.backoff
      case Fixed => p.baseDelayMs
      case Linear => p.baseDelayMs + (p.baseDelayMs as real * (p.multiplier - 1.0) * k as real).Floor
      case Exponential => (p.baseDelayMs as real * factor).Floor;
    at == Min(now + Min(delay, p.maxDelayMs), I64_MAX)
  }

  /** The exact time of the next attempt after attempt `k + 1`, without jitter. */
  lemma NextAttemptTime(p: RetryPolicy, k: nat, factor: real, retryable: bool, now: int, u: nat)
    requires p.Valid() && p.jitter.NoJitter? && factor == Power(p.multiplier, k)
    requires k + 1 < p.maxAttempts && (retryable || !p.retryableOnly)
    ensures NextAttemptAt(p, k + 1, retryable, now, u).Some?
    ensures AtDelay(p, k, factor, now, NextAttemptAt(p, k + 1, retryable, now, u).value)
  {
    PlainTime(p, k, retryable, now, u, RawDelay(p, k));
    match p.backoff
    case Fixed => FixedDelay(p, k);
    case Linear => LinearDelay(p, k);
    case Exponential => ExponentialDelay(p, k, factor);
  }

  /** At the end of the clock the time saturates instead of overflowing. */
  lemma TimeSaturates(p: RetryPolicy, attempts: nat, retryable: bool, u: nat)
    requires attempts < p.maxAttempts && (retryable || !p.retryableOnly)
    ensures NextAttemptAt(p, attempts, retryable, 9_223_372_036_854_775_807, u) == Some(9_223_372_036_854_775_807)
  {
  }

  /** Before any attempt has been made the delay is the first one. */
  lemma NoAttemptsYet(p: RetryPolicy, retryable: bool, now: int, u: nat)
    requires 1 < p.maxAttempts
    ensures NextAttemptAt(p, 0, retryable, now, u) == NextAttemptAt(p, 1, retryable, now, u)
  {
  }

  /** Jitter spreads the time of the policy without jitter, over exactly this range. */
  lemma JitteredTimes(p: RetryPolicy, attempts: nat, retryable: bool, now: int, at: int)
    requires p.Valid() && attempts < p.maxAttempts && (retryable || !p.retryableOnly)
    requires now + p.maxDelayMs <= I64_MAX
    ensures var plain := NextAttemptAt(p.(jitter := NoJitter), attempts, retryable, now, 0);
      && plain.Some? && plain.value > now
      && ((exists u: nat :: NextAttemptAt(p, attempts, retryable, now, u) == Some(at)) <==>
          InRange(p.jitter, plain.value - now, at - now))
  {
    var index := if attempts > 0 then attempts - 1 else 0;
    var raw := RawDelay(p, index);
    RawDelayCurve(p, index, index);
    SameRaw(p, index);
    TimeOf(p.(jitter := NoJitter), attempts, retryable, now, 0, raw);
    JitterReaches(p, raw, at - now);
    forall u: nat ensures NextAttemptAt(p, attempts, retryable, now, u) == Some(now + Jittered(p, raw, u)) {
      TimeOf(p, attempts, retryable, now, u, raw);
    }
  }

  lemma TimeOf(p: RetryPolicy, attempts: nat, retryable: bool, now: int, u: nat, raw: nat)
    requires attempts < p.maxAttempts && (retryable || !p.retryableOnly)
    requires raw == RawDelay(p, if attempts > 0 then attempts - 1 else 0)
    requires 0 < raw <= p.maxDelayMs && now + p.maxDelayMs <= I64_MAX
    ensures NextAttemptAt(p, attempts, retryable, now, u) == Some(now + Jittered(p, raw, u))
  {
    JitterBounds(p, raw, u);
  }

  lemma SameRaw(p: RetryPolicy, index: nat)
    ensures RawDelay(p.(jitter := NoJitter), index) == RawDelay(p, index)
  {
    var q := p.(jitter := NoJitter);
    if p.multiplier > 1.0 {
      assert LinearStep(q, index) == LinearStep(p, index);
      assert ExponentialValue(q, index) == ExponentialValue(p, index);
    }
    assert Curve(q, index, Min(p.maxDelayMs, MAX_BACKOFF_MS)) == Curve(p, index, Min(p.maxDelayMs, MAX_BACKOFF_MS));
  }

  /** The scheduled time lies in the window the policy allows, for every backoff and jitter kind. */
  lemma NextAttemptWindow(p: RetryPolicy, attempts: nat, retryable: bool, now: int, u: nat)
    requires p.Valid() && now <= I64_MAX
    ensures NextAttemptAt(p, attempts, retryable, now, u).Some? <==>
            attempts < p.maxAttempts && (retryable || !p.retryableOnly)
    ensures match NextAttemptAt(p, attempts, retryable, now, u)
            case Some(at) => now <= at <= now + p.maxDelayMs
            case None => true
  {
    var index := if attempts > 0 then attempts - 1 else 0;
    RawDelayCurve(p, index, index);
    JitterBounds(p, RawDelay(p, index), u);
  }
}
