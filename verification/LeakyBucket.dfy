/**
 The leaky-bucket rate limiter, over the reals.
 */
module LeakyBucket {
  import opened Domain
  import Backoff

  datatype Bucket = Bucket(capacity: real, rate: real, level: real, last: int) {
    predicate Valid() {
      capacity >= 1.0 && rate >= 0.001 && 0.0 <= level <= capacity
    }

    function LevelAt(now: int): real {
      var leaked := Leak(rate, if now >= last then now - last else 0);
      if level - leaked >= 0.0 then level - leaked else 0.0
    }

    predicate Accepts(cost: real, now: int) {
      LevelAt(now) + cost <= capacity
    }

    function After(cost: real, now: int): Bucket {
      this.(level := LevelAt(now) + (if Accepts(cost, now) then cost else 0.0), last := now)
    }
  }

  /** What leaks out over `ms` milliseconds. */
  function Leak(rate: real, ms: int): real {
    ms as real / 1000.0 * rate
  }

  function Max(a: real, b: real): real {
    if a >= b then a else b
  }

  function New(burst: real, rate: real, now: int): Bucket {
    Bucket(Max(burst, 1.0), Max(rate, 0.001), 0.0, now)
  }

  function Ceil(x: real): int {
    -((-x).Floor)
  }

  /** The saturating cast to 64 bits. */
  function CastU64(x: int): nat {
    if x < 0 then 0 else if x > Backoff.U64_MAX then Backoff.U64_MAX else x
  }

  /** The wait a refusal reports. */
  function Wait(b: Bucket, cost: real, now: int): nat
    requires b.rate > 0.0
  {
    var w := CastU64(Ceil((b.LevelAt(now) + cost - b.capacity) / b.rate * 1000.0));
    if w >= 1 then w else 1
  }

  class Limiter {
    const capacity: real
    const rate: real
    var level: real
    var lastUpdate: int

    function Contents(): Bucket
      reads this
    {
      Bucket(capacity, rate, level, lastUpdate)
    }

    constructor (burst: real, leakRate: real, now: int)
      ensures Contents() == New(burst, leakRate, now) && Contents().Valid()
    {
      capacity := Max(burst, 1.0);
      rate := Max(leakRate, 0.001);
      level, lastUpdate := 0.0, now;
    }

    /** `Ok`, or the milliseconds to wait. */
    method TryAcquire(cost: real, now: int) returns (r: Result<(), nat>)
      requires rate > 0.0
      modifies this
      ensures Contents() == old(Contents()).After(cost, now)
      ensures r == if old(Contents()).Accepts(cost, now) then Ok(()) else Err(Wait(old(Contents()), cost, now))
      ensures old(Contents().Valid()) && cost >= 0.0 ==> Contents().Valid()
    {
      var elapsed := if now - lastUpdate >= 0 then now - lastUpdate else 0;
      var leaked := elapsed as real / 1000.0 * rate;
      assert leaked == Leak(rate, elapsed);
      LeakIsNonNegative(rate, elapsed);
      level := if level - leaked >= 0.0 then level - leaked else 0.0;
      lastUpdate := now;
      if level + cost <= capacity {
        level := level + cost;
        return Ok(());
      }
      var excess := level + cost - capacity;
      var wait := CastU64(Ceil(excess / rate * 1000.0));
      return Err(if wait >= 1 then wait else 1);
    }
  }

  lemma LeakIsNonNegative(rate: real, ms: int)
    requires ms >= 0 && rate > 0.0
    ensures Leak(rate, ms) >= 0.0
  {
  }

  lemma LeakAdds(rate: real, x: int, y: int)
    ensures Leak(rate, x) + Leak(rate, y) == Leak(rate, x + y)
  {
    assert (x + y) as real == x as real + y as real;
    Distribute(x as real / 1000.0, y as real / 1000.0, rate);
  }

  lemma Distribute(x: real, y: real, r: real)
    ensures x * r + y * r == (x + y) * r
  {
  }

  // ----- the rate bound

  datatype Call = Call(cost: real, now: int)

  /** Costs are non-negative and times do not go back, from `from` on. */
  ghost predicate Orderly(from: int, calls: seq<Call>)
    decreases |calls|
  {
    calls == [] || (calls[0].cost >= 0.0 && from <= calls[0].now && Orderly(calls[0].now, calls[1..]))
  }

  function Run(b: Bucket, calls: seq<Call>): Bucket
    decreases |calls|
  {
    if calls == [] then b else Run(b.After(calls[0].cost, calls[0].now), calls[1..])
  }

  /** The total cost accepted. */
  function Accepted(b: Bucket, calls: seq<Call>): real
    decreases |calls|
  {
    if calls == [] then 0.0
    else AcceptedBy(b, calls[0]) + Accepted(b.After(calls[0].cost, calls[0].now), calls[1..])
  }

  function AcceptedBy(b: Bucket, c: Call): real {
    if b.Accepts(c.cost, c.now) then c.cost else 0.0
  }

  /** One call: what is accepted is what the level gained, plus what leaked at most. */
  ghost predicate Gains(b: Bucket, a: Bucket, accepted: real, leak: real) {
    && a.Valid() && a.capacity == b.capacity && a.rate == b.rate && b.last <= a.last
    && accepted <= a.level - b.level + leak && leak >= 0.0
  }

  lemma OneCall(b: Bucket, c: Call)
    requires b.Valid() && c.cost >= 0.0 && b.last <= c.now
    ensures Gains(b, b.After(c.cost, c.now), AcceptedBy(b, c), Leak(b.rate, c.now - b.last))
    ensures AcceptedBy(b, c) <= b.After(c.cost, c.now).level
  {
    LeakIsNonNegative(b.rate, c.now - b.last);
  }

  lemma GainsAdd(b: Bucket, a: Bucket, e: Bucket, first: real, rest: real)
    requires Gains(b, a, first, Leak(b.rate, a.last - b.last)) && Gains(a, e, rest, Leak(a.rate, e.last - a.last))
    ensures Gains(b, e, first + rest, Leak(b.rate, e.last - b.last))
  {
    LeakAdds(b.rate, a.last - b.last, e.last - a.last);
  }

  /** Over any stretch, what is accepted is what the level gained plus what can have leaked. */
  lemma {:induction false} AcceptedWithinLeak(b: Bucket, calls: seq<Call>)
    requires b.Valid() && Orderly(b.last, calls)
    ensures var e := Run(b, calls); Gains(b, e, Accepted(b, calls), Leak(b.rate, e.last - b.last))
    decreases |calls|
  {
    if calls != [] {
      var c := calls[0];
      var a := b.After(c.cost, c.now);
      OneCall(b, c);
      AcceptedWithinLeak(a, calls[1..]);
      GainsAdd(b, a, Run(a, calls[1..]), AcceptedBy(b, c), Accepted(a, calls[1..]));
    }
  }

  /**
   The rate bound: whatever came before, the cost accepted by calls that fall in a
   window of `d` milliseconds is at most the capacity plus what leaks in `d`.
   */
  lemma WindowBound(b: Bucket, calls: seq<Call>, d: int)
    requires b.Valid() && Orderly(b.last, calls)
    requires calls != [] ==> calls[|calls| - 1].now - calls[0].now <= d
    requires d >= 0
    ensures Accepted(b, calls) <= b.capacity + Leak(b.rate, d)
  {
    LeakIsNonNegative(b.rate, d);
    if calls != [] {
      var c := calls[0];
      var a := b.After(c.cost, c.now);
      OneCall(b, c);
      AcceptedWithinLeak(a, calls[1..]);
      LastTime(a, calls[1..]);
      Spans(a, Run(a, calls[1..]), Accepted(a, calls[1..]), d);
    }
  }

  lemma Spans(a: Bucket, e: Bucket, rest: real, d: int)
    requires Gains(a, e, rest, Leak(a.rate, e.last - a.last)) && e.last - a.last <= d
    ensures a.level + rest <= a.capacity + Leak(a.rate, d)
  {
    LeakAdds(a.rate, e.last - a.last, d - (e.last - a.last));
    LeakIsNonNegative(a.rate, d - (e.last - a.last));
  }

  lemma {:induction false} LastTime(b: Bucket, calls: seq<Call>)
    ensures Run(b, calls).last == if calls == [] then b.last else calls[|calls| - 1].now
    decreases |calls|
  {
    if calls != [] { LastTime(b.After(calls[0].cost, calls[0].now), calls[1..]); }
  }

  /** An empty bucket holds anything up to the burst, which is at least one, whatever the time. */
  lemma NewAcceptsBurst(burst: real, rate: real, start: int, cost: real, now: int)
    ensures New(burst, rate, start).Accepts(cost, now) <==> cost <= if burst >= 1.0 then burst else 1.0
  {
    LeakIsNonNegative(Max(rate, 0.001), if now >= start then now - start else 0);
  }

  /**
   The bound holds in every window of every run from a new bucket: the burst, plus
   what a thousandth of the rate lets out each millisecond.
   */
  lemma {:induction false} EveryWindow(burst: real, rate: real, start: int, before: seq<Call>, calls: seq<Call>, d: int)
    requires Orderly(start, before + calls) && d >= 0
    requires calls != [] ==> calls[|calls| - 1].now - calls[0].now <= d
    ensures var size := if burst >= 1.0 then burst else 1.0;
      var perSecond := if rate >= 0.001 then rate else 0.001;
      Accepted(Run(New(burst, rate, start), before), calls) <= size + Leak(perSecond, d)
  {
    var b := New(burst, rate, start);
    OrderlySplit(start, before, calls);
    AcceptedWithinLeak(b, before);
    LastTime(b, before);
    WindowBound(Run(b, before), calls, d);
  }

  lemma {:induction false} OrderlySplit(from: int, before: seq<Call>, calls: seq<Call>)
    requires Orderly(from, before + calls)
    ensures Orderly(from, before)
    ensures Orderly(if before == [] then from else before[|before| - 1].now, calls)
    decreases |before|
  {
    if before == [] {
      assert before + calls == calls;
    } else {
      assert (before + calls)[1..] == before[1..] + calls;
      OrderlySplit(before[0].now, before[1..], calls);
    }
  }

  // ----- the reported wait

  /** The milliseconds a refused call really has to wait. */
  function Need(b: Bucket, cost: real, now: int): int
    requires b.rate > 0.0
  {
    Ceil((b.LevelAt(now) + cost - b.capacity) / b.rate * 1000.0)
  }

  lemma CeilIsLeast(x: real, v: int)
    ensures v as real >= x <==> v >= Ceil(x)
  {
  }

  lemma ScaledExcess(v: real, rate: real, excess: real)
    requires rate > 0.0
    ensures v / 1000.0 * rate >= excess <==> v >= excess / rate * 1000.0
  {
    var q := excess / rate;
    assert q * rate == excess;
    var u := v / 1000.0;
    assert u >= q <==> v >= q * 1000.0;
    Monotone(u, q, rate);
  }

  lemma Monotone(u: real, q: real, rate: real)
    requires rate > 0.0
    ensures u * rate >= q * rate <==> u >= q
  {
    assert u * rate - q * rate == (u - q) * rate;
  }

  /** A refused cost that fits the bucket at all is accepted `v` ms later exactly when `v` is at least the need. */
  lemma AcceptedAfterNeed(b: Bucket, cost: real, now: int, v: nat)
    requires b.Valid() && 0.0 <= cost <= b.capacity && !b.Accepts(cost, now)
    ensures b.After(cost, now).Accepts(cost, now + v) <==> v >= Need(b, cost, now)
    ensures Need(b, cost, now) >= 1
  {
    var a := b.After(cost, now);
    var excess := a.level + cost - b.capacity;
    ScaledExcess(v as real, b.rate, excess);
    CeilIsLeast(excess / b.rate * 1000.0, v);
    ScaledExcess(0.0, b.rate, excess);
    CeilIsLeast(excess / b.rate * 1000.0, 0);
    assert Leak(a.rate, v) == v as real / 1000.0 * b.rate;
  }

  /**
   The reported wait is the least number of milliseconds after which the same cost
   is accepted, exactly when the need fits 64 bits; otherwise the cast saturates
   and the reported wait is too short.
   */
  lemma WaitIsLeastIff(b: Bucket, cost: real, now: int)
    requires b.Valid() && 0.0 <= cost <= b.capacity && !b.Accepts(cost, now)
    ensures var a, w := b.After(cost, now), Wait(b, cost, now);
      && (a.Accepts(cost, now + w) <==> Need(b, cost, now) <= Backoff.U64_MAX)
      && forall later :: now <= later < now + w ==> !a.Accepts(cost, later)
  {
    var a, w := b.After(cost, now), Wait(b, cost, now);
    AcceptedAfterNeed(b, cost, now, w);
    forall later | now <= later < now + w ensures !a.Accepts(cost, later) {
      AcceptedAfterNeed(b, cost, now, later - now);
    }
  }

  /** A full bucket so large that draining it takes more milliseconds than 64 bits hold. */
  const HUGE := Bucket(1.0e25, 1.0, 1.0e25, 0)

  /** Its wait saturates, and after it the same cost is refused again. */
  lemma SaturatedWaitIsTooShort()
    ensures HUGE.Valid() && !HUGE.Accepts(1.0e25, 0) && Need(HUGE, 1.0e25, 0) > Backoff.U64_MAX
    ensures Wait(HUGE, 1.0e25, 0) == 18_446_744_073_709_551_615
    ensures !HUGE.After(1.0e25, 0).Accepts(1.0e25, 0 + Wait(HUGE, 1.0e25, 0))
  {
    assert HUGE.LevelAt(0) == 1.0e25;
    CeilIsLeast(1.0e28, Backoff.U64_MAX);
    WaitIsLeastIff(HUGE, 1.0e25, 0);
  }

  /** A wait is always reported, but some wait is enough exactly when the cost fits the bucket at all. */
  lemma SomeWaitIsEnoughIff(b: Bucket, cost: real, now: int)
    requires b.Valid() && cost >= 0.0 && !b.Accepts(cost, now)
    ensures Wait(b, cost, now) >= 1
    ensures (exists later :: later >= now && b.After(cost, now).Accepts(cost, later)) <==> cost <= b.capacity
  {
    if cost <= b.capacity {
      AcceptedAfterNeed(b, cost, now, 0);
      AcceptedAfterNeed(b, cost, now, Need(b, cost, now));
      assert b.After(cost, now).Accepts(cost, now + Need(b, cost, now));
    }
  }
}
