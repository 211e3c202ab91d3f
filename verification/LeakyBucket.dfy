/** The rate limiter: one stored instant stands for a bucket that drips. Times are whole
    microseconds, the clock is read once per call, and the division by the rate is exact. */
module LeakyBucket {
  import opened Reals

  function Ceil(x: real): int {
    if x == x.Floor as real then x.Floor else x.Floor + 1
  }

  /** int64_t(x): the fraction is cut off, towards zero. */
  function Truncate(x: real): int {
    if x >= 0.0 then x.Floor else -(-x).Floor
  }

  function PerDrip(rate: real): real
    requires rate != 0.0
  {
    1000000.0 / rate
  }

  /** Units still in a bucket that needs remaining microseconds to empty. */
  function Units(perDrip: real, remaining: int): int
    requires perDrip != 0.0
  {
    Ceil(remaining as real / perDrip)
  }

  /** Microseconds that amount units add. */
  function Cost(perDrip: real, amount: int): int {
    Truncate(perDrip * amount as real)
  }

  /** The bucket as its owner sees it; perDrip is the microseconds one unit takes to leave. */
  datatype Bucket = Bucket(capacity: int, perDrip: real, e: int) {
    function Count(now: int): int
      requires perDrip != 0.0
    {
      if now >= e then 0 else Units(perDrip, e - now)
    }

    function Admitted(now: int, amount: int): int
      requires perDrip != 0.0
    {
      var count := Count(now);
      if count >= capacity then 0
      else if amount > capacity - count then capacity - count
      else amount
    }

    function Add(now: int, amount: int): (after: Bucket)
      requires perDrip != 0.0
      ensures after.capacity == capacity && after.perDrip == perDrip
    {
      if Count(now) >= capacity then this
      else
        var from := if now >= e then now else e;
        this.(e := from + Cost(perDrip, Admitted(now, amount)))
    }
  }

  /** A limiter of some rate as its constructor leaves it, or with its instant moved to e since. */
  function BucketOf(capacity: int, rate: real, e: int): (b: Bucket)
    requires rate != 0.0
  {
    Bucket(capacity, PerDrip(rate), e)
  }

  class Limiter {
    const capacity: int
    const rate: real
    var e: int

    ghost function Value(): Bucket
      requires rate != 0.0
      reads this
    {
      BucketOf(capacity, rate, e)
    }

    constructor (capacity: int, rate: real, now: int)
      requires rate != 0.0
      ensures this.capacity == capacity && this.rate == rate
      ensures Value() == BucketOf(capacity, rate, now)
    {
      this.capacity, this.rate, this.e := capacity, rate, now;
    }

    method Count(now: int) returns (count: int)
      requires rate != 0.0
      ensures count == Value().Count(now)
    {
      if now >= e {
        return 0;
      }
      var remaining := e - now;
      count := Units(PerDrip(rate), remaining);
    }

    method IsFull(now: int) returns (full: bool)
      requires rate != 0.0
      ensures full <==> Value().Count(now) >= capacity
    {
      var count := Count(now);
      full := count >= capacity;
    }

    method Add(now: int, amount: int) returns (admitted: int)
      requires rate != 0.0
      modifies this
      ensures admitted == old(Value().Admitted(now, amount))
      ensures Value() == old(Value().Add(now, amount))
    {
      hide Units, Cost, PerDrip;
      var count := Count(now);
      if count >= capacity {
        return 0;
      }
      if now >= e {
        e := now;
      }
      var remaining := capacity - count;
      admitted := amount;
      if admitted > remaining {
        admitted := remaining;
      }
      e := e + Cost(PerDrip(rate), admitted);
    }
  }

  // ---------------------------------------------------------------- a bucket that really drips

  /** The reference: level whole units, the next one leaves after phase microseconds. */
  datatype Dripping = Dripping(level: nat, phase: real) {
    /** Units whose time has come leave, one period after the other. */
    function Drip(period: real): Dripping
      decreases level
    {
      if level == 0 then Dripping(0, 0.0)
      else if phase > 0.0 then this
      else Dripping(level - 1, phase + period).Drip(period)
    }

    function Tick(period: real): Dripping {
      Dripping(level, phase - 1.0).Drip(period)
    }

    function Poured(capacity: int, amount: nat): nat {
      if level >= capacity then 0
      else if amount > capacity - level then capacity - level
      else amount
    }

    function Pour(period: real, capacity: int, amount: nat): Dripping {
      var units := Poured(capacity, amount);
      if level == 0 && units > 0 then Dripping(units, period) else Dripping(level + units, phase)
    }
  }

  datatype Event = Elapse | Request(amount: nat)

  /** What a caller sees after an event: the units let in and the fill level. */
  datatype Reading = Reading(admitted: int, count: int)

  function BucketReadings(b: Bucket, now: int, events: seq<Event>): seq<Reading>
    requires b.perDrip != 0.0
    decreases |events|
  {
    if events == [] then []
    else
      match events[0]
      case Elapse => [Reading(0, b.Count(now + 1))] + BucketReadings(b, now + 1, events[1..])
      case Request(amount) =>
        [Reading(b.Admitted(now, amount), b.Add(now, amount).Count(now))]
        + BucketReadings(b.Add(now, amount), now, events[1..])
  }

  function DrippingReadings(d: Dripping, period: real, capacity: int, events: seq<Event>): seq<Reading>
    decreases |events|
  {
    if events == [] then []
    else
      match events[0]
      case Elapse =>
        [Reading(0, d.Tick(period).level)] + DrippingReadings(d.Tick(period), period, capacity, events[1..])
      case Request(amount) =>
        [Reading(d.Poured(capacity, amount), d.Pour(period, capacity, amount).level)]
        + DrippingReadings(d.Pour(period, capacity, amount), period, capacity, events[1..])
  }

  ghost predicate Represents(b: Bucket, now: int, d: Dripping) {
    if d.level == 0 then b.e <= now
    else 0.0 < d.phase <= b.perDrip && (b.e - now) as real == (d.level - 1) as real * b.perDrip + d.phase
  }

  predicate Whole(x: real) {
    x == x.Floor as real
  }

  lemma UnitsOfDrips(p: real, remaining: int, level: nat, phase: real)
    requires 0.0 < phase <= p && level > 0 && remaining as real == (level - 1) as real * p + phase
    ensures Units(p, remaining) == level
  {
    var q := remaining as real / p;
    assert q * p == remaining as real;
    assert (q - (level - 1) as real) * p == phase;
    assert (level as real - q) * p == p - phase;
    SignOfFactor(q - (level - 1) as real, p);
    SignOfFactor(level as real - q, p);
  }

  lemma CountIsLevel(b: Bucket, now: int, d: Dripping)
    requires b.perDrip > 0.0 && Represents(b, now, d)
    ensures b.Count(now) == d.level
  {
    hide Units;
    if d.level > 0 {
      NonNegativeProduct((d.level - 1) as real, b.perDrip);
      UnitsOfDrips(b.perDrip, b.e - now, d.level, d.phase);
    }
  }

  lemma WholePhase(b: Bucket, now: int, d: Dripping)
    requires Whole(b.perDrip) && d.level > 0 && Represents(b, now, d)
    ensures Whole(d.phase)
  {
    var p := b.perDrip.Floor;
    WholeProduct(d.level - 1, p);
    assert d.phase == (b.e - now - (d.level - 1) * p) as real;
  }

  lemma TickAgrees(b: Bucket, now: int, d: Dripping)
    requires b.perDrip > 0.0 && Whole(b.perDrip) && Represents(b, now, d)
    ensures Represents(b, now + 1, d.Tick(b.perDrip))
  {
    if d.level > 0 {
      WholePhase(b, now, d);
      var p, next := b.perDrip, d.Tick(b.perDrip);
      if d.phase - 1.0 > 0.0 {
        assert next == Dripping(d.level, d.phase - 1.0);
      } else {
        assert d.phase == 1.0;
        OneLeaves(d.level, p);
        OneFewer(d.level - 1, p);
      }
    }
  }

  lemma OneLeaves(level: nat, p: real)
    requires level > 0 && p > 0.0
    ensures Dripping(level, 0.0).Drip(p) == if level == 1 then Dripping(0, 0.0) else Dripping(level - 1, p)
  {
    var next := Dripping(level - 1, p);
    assert next.Drip(p) == if level == 1 then Dripping(0, 0.0) else next;
    assert Dripping(level, 0.0).Drip(p) == Dripping(level - 1, 0.0 + p).Drip(p);
  }

  lemma OneFewer(n: int, p: real)
    ensures n as real * p == (n - 1) as real * p + p
  {
  }

  lemma PourAgrees(b: Bucket, now: int, d: Dripping, amount: nat)
    requires b.perDrip > 0.0 && Whole(b.perDrip) && Represents(b, now, d)
    ensures b.Admitted(now, amount) == d.Poured(b.capacity, amount)
    ensures Represents(b.Add(now, amount), now, d.Pour(b.perDrip, b.capacity, amount))
  {
    hide Units, Cost;
    CountIsLevel(b, now, d);
    var p, units := b.perDrip, d.Poured(b.capacity, amount);
    CostOfWhole(p, units);
    if d.level > 0 {
      NonNegativeProduct((d.level - 1) as real, p);
      assert (d.level + units - 1) as real * p == (d.level - 1) as real * p + p * units as real;
    } else if units > 0 {
      OneFewer(units, p);
    }
  }

  /** With whole microseconds per drip, one stored instant behaves as the dripping bucket: at every
      microsecond and after every request the same units are let in and the same level is read. */
  lemma {:induction false} BucketRefinesDripping(b: Bucket, now: int, d: Dripping, events: seq<Event>)
    requires b.perDrip > 0.0 && Whole(b.perDrip) && Represents(b, now, d)
    ensures BucketReadings(b, now, events) == DrippingReadings(d, b.perDrip, b.capacity, events)
    decreases |events|
  {
    hide Bucket.Add, Bucket.Admitted, Bucket.Count, Dripping.Tick, Dripping.Pour, Dripping.Poured, Represents, Whole;
    if events != [] {
      match events[0]
      case Elapse =>
        TickAgrees(b, now, d);
        CountIsLevel(b, now + 1, d.Tick(b.perDrip));
        BucketRefinesDripping(b, now + 1, d.Tick(b.perDrip), events[1..]);
      case Request(amount) =>
        PourAgrees(b, now, d, amount);
        var b', d' := b.Add(now, amount), d.Pour(b.perDrip, b.capacity, amount);
        CountIsLevel(b', now, d');
        BucketRefinesDripping(b', now, d', events[1..]);
    }
  }

  function Pause(n: nat): seq<Event> {
    seq(n, _ => Elapse)
  }

  lemma {:induction false} BucketAfterPause(b: Bucket, now: int, n: nat)
    requires b.perDrip > 0.0 && b.e == now + n && n > 0
    ensures |BucketReadings(b, now, Pause(n))| == n && BucketReadings(b, now, Pause(n))[n - 1].count == 0
    decreases n
  {
    hide Bucket.Count;
    assert Pause(n)[1..] == Pause(n - 1);
    if n > 1 {
      BucketAfterPause(b, now + 1, n - 1);
    } else {
      EmptyCount(b, now + 1);
      assert BucketReadings(b, now + 1, Pause(0)) == [];
    }
  }

  lemma EmptyCount(b: Bucket, now: int)
    requires b.perDrip != 0.0 && now >= b.e
    ensures b.Count(now) == 0
  {
  }

  lemma {:induction false} DrippingAfterPause(phase: real, period: real, capacity: int, n: nat)
    requires phase > n as real && n > 0
    ensures var readings := DrippingReadings(Dripping(1, phase), period, capacity, Pause(n));
            |readings| == n && readings[n - 1].count == 1
    decreases n
  {
    assert Pause(n)[1..] == Pause(n - 1);
    assert Dripping(1, phase).Tick(period) == Dripping(1, phase - 1.0);
    if n > 1 {
      DrippingAfterPause(phase - 1.0, period, capacity, n - 1);
    } else {
      assert DrippingReadings(Dripping(1, phase - 1.0), period, capacity, Pause(0)) == [];
    }
  }

  /** One unit asked for, and a pause of the whole microseconds of a drip: the stored instant is over
      while the unit is still on its way out. */
  lemma PartDripsDiffer(capacity: int, p: real, now: int) returns (events: seq<Event>)
    requires capacity >= 1 && p > 0.0 && !Whole(p)
    ensures BucketReadings(Bucket(capacity, p, now), now, events) != DrippingReadings(Dripping(0, 0.0), p, capacity,
                                                                                      events)
  {
    var b, n := Bucket(capacity, p, now), p.Floor;
    events := [Request(1)] + Pause(n);
    assert events[1..] == Pause(n);
    assert b.Admitted(now, 1) == 1 && p * 1 as real == p;
    assert b.Add(now, 1) == Bucket(capacity, p, now + n);
    assert Dripping(0, 0.0).Pour(p, capacity, 1) == Dripping(1, p);
    var mine := BucketReadings(b, now, events);
    var theirs := DrippingReadings(Dripping(0, 0.0), p, capacity, events);
    if n == 0 {
      assert mine[0].count == 0 && theirs[0].count == 1;
    } else {
      BucketAfterPause(Bucket(capacity, p, now + n), now, n);
      DrippingAfterPause(p, p, capacity, n);
      assert mine[n].count == 0 && theirs[n].count == 1;
    }
  }

  /** rate units leave in a second, one every period microseconds. */
  predicate PeriodOf(period: real, rate: real) {
    period * rate == 1000000.0
  }

  lemma DripLastsPeriod(rate: real, period: real)
    requires rate != 0.0 && PeriodOf(period, rate)
    ensures PerDrip(rate) == period
    ensures rate > 0.0 ==> period > 0.0
    ensures rate < 0.0 ==> period < 0.0
  {
    assert (PerDrip(rate) - period) * rate == 0.0;
  }

  /** A new limiter reads as the empty bucket that drips at its rate, over every sequence of events,
      exactly when a unit leaves in a whole number of microseconds. */
  lemma NewBucketRefinesIff(capacity: int, rate: real, period: real, now: int)
    requires rate > 0.0 && PeriodOf(period, rate) && capacity >= 1
    ensures (forall events :: BucketReadings(BucketOf(capacity, rate, now), now, events)
                           == DrippingReadings(Dripping(0, 0.0), period, capacity, events))
       <==> Whole(period)
  {
    DripLastsPeriod(rate, period);
    if Whole(period) {
      forall events ensures BucketReadings(BucketOf(capacity, rate, now), now, events)
                         == DrippingReadings(Dripping(0, 0.0), period, capacity, events) {
        BucketRefinesDripping(Bucket(capacity, period, now), now, Dripping(0, 0.0), events);
      }
    } else {
      var events := PartDripsDiffer(capacity, period, now);
    }
  }

  // ---------------------------------------------------------------- levels and times

  /** While something is in the bucket, the level read is the time left at the rate, rounded up to
      whole units. */
  lemma LevelByRate(capacity: int, rate: real, e: int, now: int)
    requires rate != 0.0 && now < e
    ensures var level := BucketOf(capacity, rate, e).Count(now);
            1000000.0 * (level - 1) as real < rate * (e - now) as real <= 1000000.0 * level as real
  {
    var p, x := PerDrip(rate), (e - now) as real;
    assert p * rate == 1000000.0;
    var q := x / p;
    assert q * p == x && rate * x == q * 1000000.0;
    assert q <= Ceil(q) as real < q + 1.0;
  }

  ghost function Magnitude(x: real): real {
    if x < 0.0 then -x else x
  }

  /** What a request adds is the time its units take at the rate, whatever the signs, the fraction of a
      microsecond cut off; and it is added behind what is in the bucket, or behind now. */
  lemma TimeAddedByRate(capacity: int, rate: real, e: int, now: int, amount: int)
    requires rate != 0.0 && BucketOf(capacity, rate, e).Count(now) < capacity
    ensures var b := BucketOf(capacity, rate, e); var got := b.Admitted(now, amount);
            var added := b.Add(now, amount).e - if now >= e then now else e;
            && Magnitude(rate) * Magnitude(added as real) <= 1000000.0 * Magnitude(got as real)
            && 1000000.0 * Magnitude(got as real) < Magnitude(rate) * (Magnitude(added as real) + 1.0)
            && (added != 0 ==> (added > 0 <==> (rate > 0.0 <==> got > 0)))
  {
    hide Cost, Units;
    var p, got := PerDrip(rate), BucketOf(capacity, rate, e).Admitted(now, amount);
    assert p * rate == 1000000.0;
    DripHasSign(p, rate);
    TruncatedTime(Magnitude(p), Magnitude(rate), if got < 0 then -got else got);
    CostIsOdd(p, got);
  }

  lemma DripHasSign(p: real, rate: real)
    requires p * rate == 1000000.0
    ensures p > 0.0 <==> rate > 0.0
    ensures Magnitude(p) > 0.0 && Magnitude(rate) > 0.0 && Magnitude(p) * Magnitude(rate) == 1000000.0
  {
    assert (-p) * (-rate) == p * rate;
  }

  lemma CostIsOdd(p: real, a: int)
    ensures Cost(-p, a) == -Cost(p, a) && Cost(p, -a) == -Cost(p, a) && Cost(-p, -a) == Cost(p, a)
  {
    var x := p * a as real;
    assert (-p) * a as real == -x && p * (-a) as real == -x && (-p) * (-a) as real == x;
  }

  lemma TruncatedTime(p: real, rate: real, a: nat)
    requires p > 0.0 && rate > 0.0 && p * rate == 1000000.0
    ensures Cost(p, a) >= 0
    ensures rate * Cost(p, a) as real <= 1000000.0 * a as real < rate * (Cost(p, a) + 1) as real
  {
    var x := p * a as real;
    NonNegativeProduct(p, a as real);
    assert rate * x == 1000000.0 * a as real;
    ScaleBetween(rate, x.Floor as real, x, (x.Floor + 1) as real);
  }

  lemma ScaleBetween(rate: real, low: real, x: real, high: real)
    requires rate > 0.0 && low <= x < high
    ensures rate * low <= rate * x < rate * high
  {
  }

  lemma TimeAddedByUnits(capacity: int, rate: real, now: int, n: nat)
    requires rate > 0.0 && 0 < n <= capacity
    ensures var added := BucketOf(capacity, rate, now).Add(now, n).e - now;
            && added >= 0
            && rate * added as real <= 1000000.0 * n as real < rate * (added + 1) as real
  {
    var p := PerDrip(rate);
    assert p * rate == 1000000.0;
    DripHasSign(p, rate);
    TruncatedTime(p, rate, n);
  }

  /** A bucket filled with n units first reads empty in the microsecond in which they have left at the
      rate. */
  lemma EmptyIff(capacity: int, rate: real, now: int, n: nat, later: int)
    requires rate > 0.0 && 0 < n <= capacity && now <= later
    ensures BucketOf(capacity, rate, now).Add(now, n).Count(later) == 0
       <==> 1000000.0 * n as real < rate * (later - now + 1) as real
  {
    hide Cost, Units;
    var b := BucketOf(capacity, rate, now);
    TimeAddedByUnits(capacity, rate, now, n);
    var after := b.Add(now, n);
    var added := after.e - now;
    assert b.Admitted(now, n) == n;
    if later < after.e {
      LevelByRate(capacity, rate, after.e, later);
      ScaleMonotone(rate, later - now + 1, added);
    } else {
      ScaleMonotone(rate, added + 1, later - now + 1);
    }
  }

  // ---------------------------------------------------------------- how much gets in

  datatype Call = Call(now: int, amount: nat)

  ghost predicate InOrder(calls: seq<Call>) {
    forall i, j :: 0 <= i < j < |calls| ==> calls[i].now <= calls[j].now
  }

  function Admissions(b: Bucket, calls: seq<Call>): (adm: seq<int>)
    requires b.perDrip != 0.0
    ensures |adm| == |calls|
    decreases |calls|
  {
    if calls == [] then []
    else [b.Admitted(calls[0].now, calls[0].amount)]
         + Admissions(b.Add(calls[0].now, calls[0].amount), calls[1..])
  }

  function Sum(s: seq<int>): int {
    if s == [] then 0 else s[0] + Sum(s[1..])
  }

  /** The microseconds that some admissions add. */
  function Costs(perDrip: real, adm: seq<int>): int {
    if adm == [] then 0 else Cost(perDrip, adm[0]) + Costs(perDrip, adm[1..])
  }

  function Room(b: Bucket): nat {
    if b.capacity < 0 then 0 else b.capacity
  }

  /** The time the bucket still needs to empty. */
  function Backlog(b: Bucket, now: int): nat {
    if b.e > now then b.e - now else 0
  }

  ghost predicate WithinRoom(b: Bucket, now: int)
    requires b.perDrip > 0.0
  {
    Backlog(b, now) as real <= b.perDrip * Room(b) as real
  }

  lemma NonNegativeProduct(a: real, p: real)
    requires a >= 0.0 && p >= 0.0
    ensures a * p >= 0.0
  {
  }

  lemma UnitsCover(p: real, remaining: int)
    requires p > 0.0
    ensures remaining as real <= p * Units(p, remaining) as real
  {
    var q := remaining as real / p;
    assert q * p == remaining as real;
    NonNegativeProduct(Ceil(q) as real - q, p);
  }

  lemma UnitsStayBelow(p: real, remaining: int, k: int)
    requires p > 0.0 && remaining as real <= p * k as real
    ensures Units(p, remaining) <= k
  {
    var q := remaining as real / p;
    assert q * p == remaining as real;
    assert (k as real - q) * p == k as real * p - q * p;
    SignOfFactor(k as real - q, p);
  }

  lemma UnitsNotNegative(p: real, remaining: nat)
    requires p > 0.0
    ensures Units(p, remaining) >= 0
  {
    var q := remaining as real / p;
    assert q * p == remaining as real;
    SignOfFactor(q, p);
  }

  lemma ScaleMonotone(p: real, a: int, b: int)
    requires p > 0.0 && a <= b
    ensures p * a as real <= p * b as real
  {
    assert p * (b - a) as real >= 0.0;
  }

  lemma CostBounds(p: real, a: nat)
    requires p > 0.0
    ensures Cost(p, a) as real <= p * a as real && Cost(p, a) >= 0
  {
    NonNegativeProduct(p, a as real);
  }

  /** One request: the backlog grows by the truncated cost of what was let in and never past the
      time a full bucket needs. */
  lemma AddStaysWithinRoom(b: Bucket, now: int, amount: nat)
    requires b.perDrip > 0.0 && WithinRoom(b, now)
    ensures b.Admitted(now, amount) >= 0
    ensures Backlog(b, now) + Cost(b.perDrip, b.Admitted(now, amount)) == Backlog(b.Add(now, amount), now)
    ensures WithinRoom(b.Add(now, amount), now)
    ensures b.Count(now) <= Room(b)
  {
    hide Units, Cost;
    var p, count, backlog := b.perDrip, b.Count(now), Backlog(b, now);
    assert p * 0 as real == 0.0;
    if backlog > 0 {
      UnitsCover(p, backlog);
      UnitsStayBelow(p, backlog, Room(b));
      UnitsNotNegative(p, backlog);
    }
    var a := b.Admitted(now, amount);
    CostBounds(p, 0);
    if count < b.capacity {
      CostBounds(p, a);
      RoomStep(p, backlog, count, Cost(p, a), a, b.capacity);
    }
  }

  lemma RoomStep(p: real, backlog: nat, count: int, cost: int, a: int, capacity: int)
    requires p > 0.0 && backlog as real <= p * count as real && cost as real <= p * a as real
    requires count + a <= capacity
    ensures (backlog + cost) as real <= p * capacity as real
  {
    assert p * count as real + p * a as real == p * (count + a) as real;
    ScaleMonotone(p, count + a, capacity);
  }

  /** Waiting only helps. */
  lemma LaterStaysWithinRoom(b: Bucket, now: int, later: int)
    requires b.perDrip > 0.0 && now <= later && WithinRoom(b, now)
    ensures WithinRoom(b, later) && Backlog(b, later) >= Backlog(b, now) - (later - now)
  {
  }

  /** What was let in over a span, by its cost, beginning with some backlog, against a full bucket. */
  ghost predicate FitsWindow(p: real, room: nat, cost: int, backlog: nat, span: int) {
    cost as real <= p * room as real - backlog as real + span as real
  }

  lemma LastAdmission(b: Bucket, now: int, before: nat, cost: int)
    requires b.perDrip > 0.0 && WithinRoom(b, now) && before + cost <= Backlog(b, now)
    ensures FitsWindow(b.perDrip, Room(b), cost, before, 0)
  {
  }

  lemma EarlierAdmission(p: real, room: nat, cost: int, rest: int, before: nat, after: nat, next: nat, wait: int,
                         span: int)
    requires before + cost <= after && next >= after - wait
    requires FitsWindow(p, room, rest, next, span)
    ensures FitsWindow(p, room, cost + rest, before, wait + span)
  {
  }

  lemma {:induction false} AdmissionBound(b: Bucket, calls: seq<Call>)
    requires b.perDrip > 0.0 && calls != [] && InOrder(calls) && WithinRoom(b, calls[0].now)
    ensures FitsWindow(b.perDrip, Room(b), Costs(b.perDrip, Admissions(b, calls)), Backlog(b, calls[0].now),
                       calls[|calls| - 1].now - calls[0].now)
    decreases |calls|
  {
    hide Bucket.Add, Bucket.Admitted, Bucket.Count, Backlog, FitsWindow, WithinRoom, Cost;
    var c := calls[0];
    var a := b.Admitted(c.now, c.amount);
    var b' := b.Add(c.now, c.amount);
    AddStaysWithinRoom(b, c.now, c.amount);
    var rest := calls[1..];
    var adm := Admissions(b', rest);
    assert Costs(b.perDrip, Admissions(b, calls)) == Cost(b.perDrip, a) + Costs(b.perDrip, adm) by {
      assert Admissions(b, calls)[0] == a && Admissions(b, calls)[1..] == adm;
    }
    if rest == [] {
      LastAdmission(b', c.now, Backlog(b, c.now), Cost(b.perDrip, a));
    } else {
      LaterStaysWithinRoom(b', c.now, rest[0].now);
      AdmissionBound(b', rest);
      EarlierAdmission(b.perDrip, Room(b), Cost(b.perDrip, a), Costs(b.perDrip, adm), Backlog(b, c.now),
                       Backlog(b', c.now),
                       Backlog(b', rest[0].now), rest[0].now - c.now, rest[|rest| - 1].now - rest[0].now);
    }
  }

  /** A bucket as it stands after some calls. */
  function After(b: Bucket, calls: seq<Call>): (after: Bucket)
    requires b.perDrip != 0.0
    ensures after.perDrip == b.perDrip && after.capacity == b.capacity
    decreases |calls|
  {
    if calls == [] then b else After(b.Add(calls[0].now, calls[0].amount), calls[1..])
  }

  lemma {:induction false} AfterStaysWithinRoom(b: Bucket, calls: seq<Call>, now: int)
    requires b.perDrip > 0.0 && InOrder(calls)
    requires forall i :: 0 <= i < |calls| ==> calls[i].now <= now
    requires WithinRoom(b, if calls == [] then now else calls[0].now)
    ensures WithinRoom(After(b, calls), now)
    decreases |calls|
  {
    if calls != [] {
      var b' := b.Add(calls[0].now, calls[0].amount);
      AddStaysWithinRoom(b, calls[0].now, calls[0].amount);
      LaterStaysWithinRoom(b', calls[0].now, if calls[1..] == [] then now else calls[1].now);
      AfterStaysWithinRoom(b', calls[1..], now);
    }
  }

  /** The fill level never reads above the capacity, whatever was asked before. */
  lemma CountNeverExceedsCapacity(b: Bucket, calls: seq<Call>, now: int)
    requires b.perDrip > 0.0 && InOrder(calls)
    requires forall i :: 0 <= i < |calls| ==> b.e <= calls[i].now <= now
    requires b.e <= now
    ensures After(b, calls).Count(now) <= Room(b)
  {
    EmptyIsWithinRoom(b, if calls == [] then now else calls[0].now);
    AfterStaysWithinRoom(b, calls, now);
    AddStaysWithinRoom(After(b, calls), now, 0);
  }

  lemma {:induction false} AdmissionsSplit(b: Bucket, calls: seq<Call>, i: nat)
    requires b.perDrip != 0.0 && i <= |calls|
    ensures |Admissions(b, calls)| == |calls|
    ensures Admissions(b, calls)[i..] == Admissions(After(b, calls[..i]), calls[i..])
    decreases |calls|
  {
    if i > 0 {
      AdmissionsSplit(b.Add(calls[0].now, calls[0].amount), calls[1..], i - 1);
      assert calls[..i][1..] == calls[1..][..i - 1];
      assert calls[1..][i - 1..] == calls[i..];
    } else {
      assert calls[..0] == [] && calls[0..] == calls;
      if calls != [] {
        AdmissionsSplit(b.Add(calls[0].now, calls[0].amount), calls[1..], 0);
      }
    }
  }

  lemma {:induction false} AdmissionsOfPrefix(b: Bucket, calls: seq<Call>, k: nat)
    requires b.perDrip != 0.0 && k <= |calls|
    ensures |Admissions(b, calls)| == |calls|
    ensures Admissions(b, calls)[..k] == Admissions(b, calls[..k])
    decreases |calls|
  {
    if calls != [] {
      if k > 0 {
        AdmissionsOfPrefix(b.Add(calls[0].now, calls[0].amount), calls[1..], k - 1);
        assert calls[..k][1..] == calls[1..][..k - 1];
      } else {
        AdmissionsOfPrefix(b.Add(calls[0].now, calls[0].amount), calls[1..], 0);
      }
    }
  }

  /** The bound over every call sequence and every window of it: the cost of what calls i to j let in
      fits in a full bucket plus the time that passed between them. */
  lemma WindowBound(b: Bucket, calls: seq<Call>, i: nat, j: nat)
    requires b.perDrip > 0.0 && InOrder(calls) && i <= j < |calls| && b.e <= calls[0].now
    ensures FitsWindow(b.perDrip, Room(b), Costs(b.perDrip, Admissions(b, calls)[i..j + 1]), 0,
                       calls[j].now - calls[i].now)
  {
    hide Bucket.Add, Bucket.Admitted, Bucket.Count, Backlog, WithinRoom, Admissions, After, Costs, FitsWindow;
    var front, adm := calls[..j + 1], Admissions(b, calls);
    AdmissionsOfPrefix(b, calls, j + 1);
    AdmissionsSplit(b, front, i);
    assert adm[i..j + 1] == adm[..j + 1][i..];
    EmptyIsWithinRoom(b, if i == 0 then calls[i].now else calls[0].now);
    AfterStaysWithinRoom(b, front[..i], calls[i].now);
    var b' := After(b, front[..i]);
    AdmissionBound(b', front[i..]);
    assert front[i..][0] == calls[i] && front[i..][j - i] == calls[j];
    ForgetBacklog(b.perDrip, Room(b), Costs(b.perDrip, adm[i..j + 1]), Backlog(b', calls[i].now),
                  calls[j].now - calls[i].now);
  }

  lemma ForgetBacklog(p: real, room: nat, cost: int, backlog: nat, span: int)
    requires FitsWindow(p, room, cost, backlog, span)
    ensures FitsWindow(p, room, cost, 0, span)
  {
  }

  lemma EmptyIsWithinRoom(b: Bucket, now: int)
    requires b.perDrip > 0.0 && b.e <= now
    ensures WithinRoom(b, now)
  {
    ScaleMonotone(b.perDrip, 0, Room(b));
  }

  /** The bound the limiter is meant to keep, in every window of every call sequence: rate units a
      second, and a bucket of headroom. */
  ghost predicate KeepsRate(capacity: int, rate: real)
    requires rate > 0.0
  {
    forall start: int, calls: seq<Call>, i: nat, j: nat ::
      InOrder(calls) && i <= j < |calls| && start <= calls[0].now ==>
        WithinRate(BucketOf(capacity, rate, start), rate, calls, i, j)
  }

  ghost predicate WithinRate(b: Bucket, rate: real, calls: seq<Call>, i: nat, j: nat)
    requires b.perDrip != 0.0 && i <= j < |calls|
  {
    var admitted := Sum(Admissions(b, calls)[i..j + 1]);
    1000000.0 * admitted as real <= 1000000.0 * b.capacity as real + rate * (calls[j].now - calls[i].now) as real
  }

  /** The same by the time that units pay for: admitted units at p microseconds each fit in a full
      bucket plus the span. */
  ghost predicate PaysFor(p: real, capacity: int, admitted: int, span: int) {
    p * admitted as real <= p * capacity as real + span as real
  }

  lemma PaysForIsRate(b: Bucket, rate: real, calls: seq<Call>, i: nat, j: nat)
    requires rate > 0.0 && PeriodOf(b.perDrip, rate) && i <= j < |calls|
    ensures b.perDrip > 0.0
    ensures PaysFor(b.perDrip, b.capacity, Sum(Admissions(b, calls)[i..j + 1]), calls[j].now - calls[i].now)
       <==> WithinRate(b, rate, calls, i, j)
  {
    hide Admissions, Sum;
    DripLastsPeriod(rate, b.perDrip);
    var p, n, room := b.perDrip, Sum(Admissions(b, calls)[i..j + 1]) as real, b.capacity as real;
    var span := (calls[j].now - calls[i].now) as real;
    assert (p * room + span - p * n) * rate == 1000000.0 * room + rate * span - 1000000.0 * n;
    SameSign(p * room + span - p * n, rate);
  }

  lemma SameSign(x: real, rate: real)
    requires rate > 0.0
    ensures x * rate >= 0.0 <==> x >= 0.0
  {
  }

  /** Single requests at the pace of the truncated drip: all of them get in. */
  function Steady(start: int, gap: nat, n: nat): seq<Call>
    decreases n
  {
    if n == 0 then [] else [Call(start, 1)] + Steady(start + gap, gap, n - 1)
  }

  lemma {:induction false} SteadyTimes(start: int, gap: nat, n: nat)
    ensures |Steady(start, gap, n)| == n
    ensures forall i :: 0 <= i < n ==> Steady(start, gap, n)[i].now == start + i * gap
    decreases n
  {
    if n > 0 {
      SteadyTimes(start + gap, gap, n - 1);
      forall i | 0 <= i < n ensures Steady(start, gap, n)[i].now == start + i * gap {
        if i > 0 { assert (i - 1) * gap + gap == i * gap; }
      }
    }
  }

  lemma SteadyInOrder(start: int, gap: nat, n: nat)
    ensures InOrder(Steady(start, gap, n))
  {
    SteadyTimes(start, gap, n);
    forall i, j | 0 <= i < j < n ensures Steady(start, gap, n)[i].now <= Steady(start, gap, n)[j].now {
      assert i * gap <= j * gap;
    }
  }

  lemma {:induction false} SteadyAllAdmitted(b: Bucket, n: nat)
    requires b.perDrip > 0.0 && b.capacity >= 1
    ensures Sum(Admissions(b, Steady(b.e, b.perDrip.Floor, n))) == n
    decreases n
  {
    if n > 0 {
      var gap := b.perDrip.Floor;
      var calls := Steady(b.e, gap, n);
      assert b.Admitted(b.e, 1) == 1;
      assert b.perDrip * 1 as real == b.perDrip;
      assert b.Add(b.e, 1) == b.(e := b.e + gap);
      assert calls[1..] == Steady(b.e + gap, gap, n - 1);
      SteadyAllAdmitted(b.(e := b.e + gap), n - 1);
      var adm := Admissions(b, calls);
      assert adm[1..] == Admissions(b.Add(b.e, 1), calls[1..]);
    }
  }

  lemma WholeDripsKeepRate(b: Bucket, rate: real, calls: seq<Call>, i: nat, j: nat)
    requires b.capacity >= 1 && rate > 0.0 && PeriodOf(b.perDrip, rate) && Whole(b.perDrip)
    requires InOrder(calls) && i <= j < |calls| && b.e <= calls[0].now
    ensures WithinRate(b, rate, calls, i, j)
  {
    hide Bucket.Add, Bucket.Admitted, Bucket.Count, Admissions, Sum, Costs, FitsWindow, PaysFor, WithinRate;
    PaysForIsRate(b, rate, calls, i, j);
    var adm := Admissions(b, calls)[i..j + 1];
    WindowBound(b, calls, i, j);
    CostsOfWhole(b.perDrip, adm);
    WholeFits(b.perDrip, b.capacity, Sum(adm), Costs(b.perDrip, adm), calls[j].now - calls[i].now);
  }

  lemma {:induction false} CostsOfWhole(p: real, adm: seq<int>)
    requires Whole(p)
    ensures Costs(p, adm) as real == p * Sum(adm) as real
  {
    hide Cost;
    if adm != [] {
      CostOfWhole(p, adm[0]);
      CostsOfWhole(p, adm[1..]);
      assert p * (adm[0] + Sum(adm[1..])) as real == p * adm[0] as real + p * Sum(adm[1..]) as real;
    }
  }

  lemma CostOfWhole(p: real, a: int)
    requires Whole(p)
    ensures Cost(p, a) as real == p * a as real
  {
    var n := p.Floor;
    WholeProduct(n, a);
    CostOf(p, a, n * a);
  }

  lemma CostOf(p: real, a: int, k: int)
    requires p * a as real == k as real
    ensures Cost(p, a) == k
  {
    TruncateWhole(p * a as real, k);
  }

  lemma WholeProduct(n: int, a: int)
    ensures n as real * a as real == (n * a) as real
  {
  }

  lemma TruncateWhole(x: real, k: int)
    requires x == k as real
    ensures Truncate(x) == k
  {
  }

  lemma WholeFits(p: real, capacity: nat, admitted: int, cost: int, span: int)
    requires cost as real == p * admitted as real && FitsWindow(p, capacity, cost, 0, span)
    ensures PaysFor(p, capacity, admitted, span)
  {
  }

  lemma EnoughSteps(f: real, x: real) returns (n: nat)
    requires f > 0.0 && x >= 0.0
    ensures n > 0 && n as real * f > x
  {
    var q := x / f;
    assert q * f == x && q >= 0.0;
    n := q.Floor + 1;
    assert (n as real - q) * f > 0.0;
  }

  lemma PartDripsBreakRate(capacity: int, rate: real, perDrip: real) returns (calls: seq<Call>)
    requires capacity >= 1 && rate > 0.0 && PeriodOf(perDrip, rate) && !Whole(perDrip)
    ensures calls != [] && InOrder(calls) && calls[0].now == 0 && perDrip > 0.0
    ensures !WithinRate(Bucket(capacity, perDrip, 0), rate, calls, 0, |calls| - 1)
  {
    hide Bucket.Add, Bucket.Admitted, Bucket.Count, Admissions, Sum, PaysFor, Steady, WithinRate;
    DripLastsPeriod(rate, perDrip);
    var gap := perDrip.Floor;
    NonNegativeProduct(capacity as real, perDrip);
    var n := EnoughSteps(perDrip - gap as real, perDrip * capacity as real);
    calls := Steady(0, gap, n);
    SteadyInOrder(0, gap, n);
    SteadyTimes(0, gap, n);
    SteadyAllAdmitted(Bucket(capacity, perDrip, 0), n);
    Overdrawn(perDrip, capacity, n);
    assert calls[n - 1].now - calls[0].now == (n - 1) * gap;
    var adm := Admissions(Bucket(capacity, perDrip, 0), calls);
    assert adm[0..n - 1 + 1] == adm;
    PaysForIsRate(Bucket(capacity, perDrip, 0), rate, calls, 0, n - 1);
  }

  lemma Overdrawn(p: real, capacity: int, n: nat)
    requires p > 0.0 && n > 0 && n as real * (p - p.Floor as real) > p * capacity as real
    ensures !PaysFor(p, capacity, n, (n - 1) * p.Floor)
  {
    var gap := p.Floor;
    assert n as real * gap as real == (n * gap) as real;
    assert n * gap == (n - 1) * gap + gap;
    assert p * n as real == n as real * (p - gap as real) + (n * gap) as real;
  }

  /** The rate is kept exactly when a unit leaves in a whole number of microseconds; otherwise the
      truncation of the added time lets requests in faster than the rate for ever. */
  lemma KeepsRateIff(capacity: int, rate: real, period: real)
    requires rate > 0.0 && PeriodOf(period, rate) && capacity >= 1
    ensures KeepsRate(capacity, rate) <==> Whole(period)
  {
    DripLastsPeriod(rate, period);
    if Whole(period) {
      forall start: int, calls: seq<Call>, i: nat, j: nat | InOrder(calls) && i <= j < |calls| && start <= calls[0].now
        ensures WithinRate(BucketOf(capacity, rate, start), rate, calls, i, j)
      {
        WholeDripsKeepRate(Bucket(capacity, period, start), rate, calls, i, j);
      }
    } else {
      var calls := PartDripsBreakRate(capacity, rate, period);
      assert !WithinRate(BucketOf(capacity, rate, 0), rate, calls, 0, |calls| - 1);
    }
  }

  /** A negative rate, which the constructor's caller lets through, never limits anything. */
  lemma NegativeRateNeverLimits(capacity: int, rate: real, start: int, calls: seq<Call>)
    requires rate < 0.0 && capacity >= 1 && InOrder(calls) && (calls != [] ==> start <= calls[0].now)
    ensures var adm := Admissions(BucketOf(capacity, rate, start), calls);
            && |adm| == |calls|
            && forall i :: 0 <= i < |calls| ==>
                 adm[i] == if calls[i].amount > capacity then capacity else calls[i].amount
  {
    var p := PerDrip(rate);
    assert p * rate == 1000000.0;
    DripLastsPeriod(rate, p);
    NegativeDripNeverLimits(BucketOf(capacity, rate, start), calls);
  }

  lemma {:induction false} NegativeDripNeverLimits(b: Bucket, calls: seq<Call>)
    requires b.perDrip < 0.0 && b.capacity >= 1 && InOrder(calls)
    requires calls != [] ==> b.e <= calls[0].now
    decreases |calls|
    ensures |Admissions(b, calls)| == |calls|
    ensures forall i :: 0 <= i < |calls| ==>
              Admissions(b, calls)[i] == if calls[i].amount > b.capacity then b.capacity else calls[i].amount
  {
    if calls != [] {
      var c := calls[0];
      var a := b.Admitted(c.now, c.amount);
      var b' := b.Add(c.now, c.amount);
      assert b.perDrip * a as real <= 0.0;
      assert b'.e <= c.now;
      NegativeDripNeverLimits(b', calls[1..]);
    }
  }
}
