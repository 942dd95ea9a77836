/** The arrival schedule, the producers' shares of it, and the memoised payload. */
module Schedule {
  import opened Options
  import opened Arithmetic
  import opened Orders

  const SECOND := 1_000_000_000

  // ---- bursts ----

  /** The period an event falls into. */
  function Cycle(index: nat, rate: nat, period: nat): nat
    requires rate > 0 && period > 0
  {
    Positive(rate, period);
    index * SECOND / (rate * period)
  }

  lemma Positive(a: nat, b: nat)
    requires a > 0 && b > 0
    ensures a * b > 0
  {
    MulMono(1, a, b);
  }

  /** The start of a cycle plus the squeezed position inside it. */
  function Pulse(cycle: nat, fraction: nat, period: nat, active: nat, denominator: nat): nat
    requires denominator > 0
  {
    cycle * period + fraction * active / denominator
  }

  /** Arrivals squeezed into the first `active` nanoseconds of each period. */
  function BurstOffset(index: nat, rate: nat, period: nat, active: nat): nat
    requires rate > 0 && period > 0
  {
    Positive(rate, period);
    Pulse(Cycle(index, rate, period), index * SECOND % (rate * period), period, active, rate * period)
  }

  /** The position inside a period is below `active`. */
  lemma InsidePulse(fraction: nat, active: nat, denominator: nat)
    requires fraction < denominator && active > 0
    ensures 0 <= fraction * active / denominator < active
  {
    MulMono(fraction + 1, denominator, active);
    assert (fraction + 1) * active == fraction * active + active;
    assert denominator * active == active * denominator;
    DivBelow(fraction * active, denominator, active);
  }

  /** The period chosen is the one that contains the steady arrival time `index * SECOND / rate`. */
  lemma PeriodOfSteadyArrival(index: nat, rate: nat, period: nat)
    requires rate > 0 && period > 0
    ensures var c := Cycle(index, rate, period); c * period * rate <= index * SECOND < (c + 1) * period * rate
  {
    Positive(rate, period);
    var d, c := rate * period, Cycle(index, rate, period);
    DivFloor(index * SECOND, d);
    assert c * period * rate == c * d;
    assert (c + 1) * period * rate == (c + 1) * d == c * d + d;
  }

  lemma PulseSplits(cycle: nat, fraction: nat, period: nat, active: nat, denominator: nat)
    requires fraction < denominator && 0 < active <= period
    ensures Pulse(cycle, fraction, period, active, denominator) / period == cycle
    ensures Pulse(cycle, fraction, period, active, denominator) % period < active
  {
    InsidePulse(fraction, active, denominator);
    DivUnique(Pulse(cycle, fraction, period, active, denominator), period, cycle, fraction * active / denominator);
  }

  /** Every burst arrival lies in the active part of its period. */
  lemma WithinPulse(index: nat, rate: nat, period: nat, active: nat)
    requires rate > 0 && 0 < active <= period
    ensures BurstOffset(index, rate, period, active) / period == Cycle(index, rate, period)
    ensures BurstOffset(index, rate, period, active) % period < active
  {
    Positive(rate, period);
    PulseSplits(Cycle(index, rate, period), index * SECOND % (rate * period), period, active, rate * period);
  }

  /**
   * Where in its period: the time since the period began by the steady schedule, squeezed by active over period and
   * rounded down, both times in units of `rate * period`-th parts of a second.
   */
  lemma PulsePosition(index: nat, rate: nat, period: nat, active: nat)
    requires rate > 0 && 0 < active <= period
    ensures rate * period > 0
    ensures var at, whole := BurstOffset(index, rate, period, active), rate * period;
      var elapsed := index * SECOND - at / period * whole;
      0 <= elapsed < whole && at % period * whole <= elapsed * active < (at % period + 1) * whole
  {
    Positive(rate, period);
    var whole := rate * period;
    DivFloor(index * SECOND, whole);
    var fraction := index * SECOND % whole;
    PulseSplits(Cycle(index, rate, period), fraction, period, active, whole);
    PulseAt(Cycle(index, rate, period), fraction, period, active, whole);
    Floor(fraction * active, whole);
  }

  lemma PulseAt(cycle: nat, fraction: nat, period: nat, active: nat, denominator: nat)
    requires fraction < denominator && 0 < active <= period
    ensures Pulse(cycle, fraction, period, active, denominator) % period == fraction * active / denominator
  {
    InsidePulse(fraction, active, denominator);
    DivUnique(Pulse(cycle, fraction, period, active, denominator), period, cycle, fraction * active / denominator);
  }

  lemma Floor(n: nat, d: nat)
    requires d > 0
    ensures n / d * d <= n < (n / d + 1) * d
  {
    DivFloor(n, d);
    assert (n / d + 1) * d == n / d * d + d;
  }

  lemma DivMono(a: nat, b: nat, d: nat)
    requires d > 0 && a <= b
    ensures a / d <= b / d
    ensures a / d == b / d ==> a % d <= b % d
  {
    DivFloor(a, d);
    DivFloor(b, d);
    if a / d > b / d { MulMono(b / d + 1, a / d, d); }
  }

  lemma NextCycle(c: nat, a: nat, c': nat, a': nat, period: nat)
    requires c < c' && a < period
    ensures c * period + a <= c' * period + a'
  {
    MulMono(c + 1, c', period);
    assert (c + 1) * period == c * period + period;
  }

  lemma PulseMono(c: nat, f: nat, c': nat, f': nat, period: nat, active: nat, d: nat)
    requires f < d && f' < d && 0 < active <= period && (c < c' || (c == c' && f <= f'))
    ensures Pulse(c, f, period, active, d) <= Pulse(c', f', period, active, d)
  {
    if c == c' {
      MulMono(f, f', active);
      DivMono(f * active, f' * active, d);
    } else {
      InsidePulse(f, active, d);
      InsidePulse(f', active, d);
      NextCycle(c, f * active / d, c', f' * active / d, period);
    }
  }

  /** Burst arrivals never go back in time. */
  lemma BurstMonotone(i: nat, j: nat, rate: nat, period: nat, active: nat)
    requires i <= j && rate > 0 && 0 < active <= period
    ensures BurstOffset(i, rate, period, active) <= BurstOffset(j, rate, period, active)
  {
    Positive(rate, period);
    var d, x, y := rate * period, i * SECOND, j * SECOND;
    DivMono(x, y, d);
    PulseMono(x / d, x % d, y / d, y % d, period, active, d);
  }

  // ---- producers ----

  /** The producer of an event; None is the division by zero of a skewed case with one producer. */
  function ProducerFor(index: nat, producers: nat, skew: bool): Option<nat>
    requires producers > 0
  {
    if skew then
      if index % 100 < 90 then Some(0)
      else if producers == 1 then None
      else Some(1 + (index % 100 - 90) % (producers - 1))
    else Some(index % producers)
  }

  /** Exactly the indices below `n` that belong to `p`, in order. */
  ghost predicate Owns(s: seq<nat>, n: nat, p: nat, producers: nat, skew: bool)
    requires producers > 0
  {
    Ascending(s) && forall i :: i in s <==> 0 <= i < n && ProducerFor(i, producers, skew) == Some(p)
  }

  /** The indices a worker thread walks through: a filtered list with skew, a stride without. */
  method Indices(n: nat, p: nat, producers: nat, skew: bool) returns (r: Option<seq<nat>>)
    requires p < producers
    ensures r.None? <==> skew && producers == 1 && n > 90
    ensures r.Some? ==> Owns(r.value, n, p, producers, skew)
    ensures r.Some? && !skew ==> forall i :: i in r.value <==> 0 <= i < n && i % producers == p
    ensures r.Some? && skew && p == 0 ==> forall i :: i in r.value <==> 0 <= i < n && i % 100 < 90
    ensures r.Some? && skew && p > 0 ==> forall i ::
      i in r.value <==> 0 <= i < n && i % 100 >= 90 && (i % 100 - 90) % (producers - 1) == p - 1
  {
    if skew {
      r := Filtered(n, p, producers);
    } else {
      var s := Strided(n, p, producers);
      r := Some(s);
    }
  }

  method Filtered(n: nat, p: nat, producers: nat) returns (r: Option<seq<nat>>)
    requires p < producers
    ensures r.None? <==> producers == 1 && n > 90
    ensures r.Some? ==> Owns(r.value, n, p, producers, true)
  {
    var s: seq<nat> := [];
    for i := 0 to n
      invariant producers == 1 ==> i <= 90
      invariant Owns(s, i, p, producers, true)
    {
      var owner := ProducerFor(i, producers, true);
      if owner.None? { return None; }
      AscendingAppend(s, i);
      if owner.value == p { s := s + [i]; }
    }
    r := Some(s);
  }

  method Strided(n: nat, p: nat, producers: nat) returns (s: seq<nat>)
    requires p < producers
    ensures Owns(s, n, p, producers, false)
  {
    s := [];
    var i := p;
    ghost var k := 0;
    BeforeFirst(p, producers);
    while i < n
      invariant i == p + k * producers
      invariant Owns(s, i, p, producers, false) && forall j :: j in s ==> j < n
    {
      StrideStep(p, producers, k);
      assert (k + 1) * producers == k * producers + producers;
      AscendingAppend(s, i);
      s := s + [i];
      i, k := i + producers, k + 1;
    }
  }

  lemma BeforeFirst(p: nat, producers: nat)
    requires p < producers
    ensures forall i: nat :: i < p ==> i % producers != p
  {
    forall i: nat | i < p ensures i % producers != p { DivUnique(i, producers, 0, i); }
  }

  /** Between two steps of a stride nothing else has the same remainder. */
  lemma StrideStep(p: nat, producers: nat, k: nat)
    requires p < producers
    ensures (p + k * producers) % producers == p
    ensures forall i :: p + k * producers < i < p + (k + 1) * producers ==> i % producers != p
  {
    DivUnique(p + k * producers, producers, k, p);
    assert (k + 1) * producers == k * producers + producers;
    forall i | p + k * producers < i < p + (k + 1) * producers ensures i % producers != p {
      if i % producers == p {
        DivFloor(i, producers);
        var q := i / producers;
        if q <= k { MulMono(q, k, producers); } else { MulMono(k + 1, q, producers); }
        assert false;
      }
    }
  }

  /** The producers' shares cover every index below `n` and do not overlap. */
  lemma SharesPartition(shares: seq<seq<nat>>, n: nat, skew: bool, i: nat)
    requires 0 < |shares| && (skew && |shares| == 1 ==> n <= 90) && i < n
    requires forall p :: 0 <= p < |shares| ==> Owns(shares[p], n, p, |shares|, skew)
    ensures exists p :: 0 <= p < |shares| && i in shares[p]
    ensures forall p, q :: 0 <= p < |shares| && 0 <= q < |shares| && i in shares[p] && i in shares[q] ==> p == q
  {
    var owner := ProducerFor(i, |shares|, skew).value;
    assert 0 <= owner < |shares|;
    assert Owns(shares[owner], n, owner, |shares|, skew);
    forall p | 0 <= p < |shares| && i in shares[p] ensures p == owner {
      assert Owns(shares[p], n, p, |shares|, skew);
    }
  }
}

/** What a producer sends: the payload of an index, memoised where indices repeat. */
module Payloads {
  import opened Options
  import opened Arithmetic
  import opened Schedule

  datatype Case = Case(
    bodyBytes: nat, mix: bool, giantEvery: nat, giantBytes: nat, cardinality: nat, nameBytes: nat,
    highEntropy: bool, seed: int, depth: nat, listEntries: nat)

  /** Text drawn by a generator with the given seed, or one letter repeated. */
  datatype Text = Drawn(seed: int, size: nat) | Repeated(letter: nat, size: nat)

  /** What the rendered body is a function of. */
  datatype Body = Body(kind: nat, nameBytes: nat, data: Text, depth: nat, listEntries: nat)

  function SizeOf(index: nat, c: Case): nat {
    var slot := index % 1000;
    var size :=
      if !c.mix then c.bodyBytes
      else if slot < 700 then 64 else if slot < 900 then 128 else if slot < 999 then 1024 else 1048576;
    if c.giantEvery > 0 && index % c.giantEvery == 0 then c.giantBytes else size
  }

  function Payload(index: nat, c: Case): Body
    requires c.cardinality > 0
  {
    var kind := index % c.cardinality;
    var data :=
      if c.highEntropy then Drawn(c.seed * 1009 + index % 256, SizeOf(index, c))
      else Repeated(97 + kind % 26, SizeOf(index, c));
    Body(kind, c.nameBytes, data, c.depth, if c.depth > 0 then c.listEntries else 0)
  }

  /** What the payload of an index is: its kind, its text and its nesting, from the index and the case alone. */
  ghost predicate Bears(c: Case, index: nat, body: Body)
    requires c.cardinality > 0
  {
    && body.kind == index % c.cardinality && body.nameBytes == c.nameBytes && body.depth == c.depth
    && (c.depth > 0 ==> body.listEntries == c.listEntries) && (c.depth == 0 ==> body.listEntries == 0)
    && (c.highEntropy ==> body.data.Drawn? && body.data.seed == c.seed * 1009 + index % 256)
    && (!c.highEntropy ==> body.data.Repeated? && body.data.letter == 97 + index % c.cardinality % 26)
    && (c.giantEvery > 0 && index % c.giantEvery == 0 ==> body.data.size == c.giantBytes)
    && ((c.giantEvery > 0 ==> index % c.giantEvery != 0) ==>
         && (!c.mix ==> body.data.size == c.bodyBytes)
         && (c.mix ==>
               && (index % 1000 < 700 ==> body.data.size == 64)
               && (700 <= index % 1000 < 900 ==> body.data.size == 128)
               && (900 <= index % 1000 < 999 ==> body.data.size == 1024)
               && (index % 1000 == 999 ==> body.data.size == 1024 * 1024)))
  }

  lemma PayloadBears(c: Case, index: nat)
    requires c.cardinality > 0
    ensures Bears(c, index, Payload(index, c))
  {
  }

  function Gcd(a: nat, b: nat): (g: nat)
    requires a > 0 || b > 0
    ensures g > 0
    decreases b
  {
    if b == 0 then a else Gcd(b, a % b)
  }

  lemma Gather(q: nat, x: nat, y: nat, g: nat)
    ensures q * (x * g) + y * g == (q * x + y) * g
  {
  }

  lemma PositiveFactor(n: nat, x: nat, g: nat)
    requires n == x * g && n > 0
    ensures x > 0
  {
  }

  ghost predicate Divides(d: nat, n: nat) { exists k: nat :: n == k * d }

  lemma {:induction false} GcdDivides(a: nat, b: nat)
    requires a > 0 || b > 0
    ensures Divides(Gcd(a, b), a) && Divides(Gcd(a, b), b)
    decreases b
  {
    if b == 0 {
      assert a == 1 * a && b == 0 * a;
    } else {
      GcdDivides(b, a % b);
      var g := Gcd(b, a % b);
      var x: nat :| b == x * g;
      var y: nat :| a % b == y * g;
      DivFloor(a, b);
      Gather(a / b, x, y, g);
    }
  }

  lemma Swap(x: nat, y: nat, g: nat)
    ensures x * (y * g) == y * (x * g)
  {
  }

  /** The least common multiple, through the greatest common divisor. */
  function Lcm(a: nat, b: nat): nat
    requires a > 0 && b > 0
  {
    a / Gcd(a, b) * b
  }

  lemma LcmIsMultiple(a: nat, b: nat)
    requires a > 0 && b > 0
    ensures Lcm(a, b) > 0 && Divides(a, Lcm(a, b)) && Divides(b, Lcm(a, b))
  {
    GcdDivides(a, b);
    var g := Gcd(a, b);
    var x: nat :| a == x * g;
    var y: nat :| b == y * g;
    DivUnique(a, g, x, 0);
    assert Lcm(a, b) == x * b;
    Swap(x, y, g);
    PositiveFactor(a, x, g);
    Positive(x, b);
  }

  /** Reducing modulo a multiple of `d` does not change the remainder by `d`. */
  lemma RemainderOfMultiple(index: nat, d: nat, m: nat)
    requires d > 0 && m > 0 && Divides(d, m)
    ensures (index % m) % d == index % d
  {
    var k: nat :| m == k * d;
    DivFloor(index, m);
    DivFloor(index % m, d);
    Gather(index / m, k, (index % m) / d, d);
    DivUnique(index, d, index / m * k + (index % m) / d, (index % m) % d);
  }

  function Period(c: Case): nat
    requires c.cardinality > 0
  {
    Lcm(c.cardinality, if c.highEntropy then 256 else 1)
  }

  /** Where sizes do not depend on the index, the payload repeats with the period. */
  lemma PayloadRepeats(index: nat, c: Case)
    requires c.cardinality > 0 && !c.mix && c.giantEvery == 0
    ensures Period(c) > 0 && Payload(index % Period(c), c) == Payload(index, c)
  {
    LcmIsMultiple(c.cardinality, if c.highEntropy then 256 else 1);
    RemainderOfMultiple(index, c.cardinality, Period(c));
    if c.highEntropy { RemainderOfMultiple(index, 256, Period(c)); }
  }

  const CACHE_SIZE := 128

  /** The 128 most recently used bodies, the latest last. */
  class Memo {
    const c: Case
    var entries: seq<(nat, Body)>

    ghost predicate Valid()
      reads this
    {
      && c.cardinality > 0 && |entries| <= CACHE_SIZE
      && forall i :: 0 <= i < |entries| ==> entries[i].1 == Payload(entries[i].0, c)
    }

    constructor (c: Case)
      requires c.cardinality > 0
      ensures Valid() && this.c == c
    {
      this.c := c;
      entries := [];
    }

    method Get(key: nat) returns (body: Body)
      requires Valid()
      modifies this
      ensures Valid() && body == Payload(key, c) && entries != [] && entries[|entries| - 1] == (key, body)
    {
      for i := 0 to |entries|
        invariant entries == old(entries)
      {
        if entries[i].0 == key {
          body := entries[i].1;
          entries := entries[..i] + entries[i + 1..] + [(key, body)];
          return;
        }
      }
      body := Payload(key, c);
      entries := (if |entries| == CACHE_SIZE then entries[1..] else entries) + [(key, body)];
    }
  }

  datatype Event = Event(producer: nat, index: nat, scheduled: int, body: Body)

  datatype Receipt = Receipt(index: nat, scheduled: int, code: nat)

  /** What the outside world decides at each position: the clock, whether it is too late, and the result of an offer. */
  datatype World = World(now: nat -> int, late: nat -> bool, offer: nat -> nat)

  function ScheduledAt(offsets: seq<Option<int>>, base: int, world: World, i: nat, position: nat): int
    requires i < |offsets|
  {
    if offsets[i].None? then world.now(position) else base + offsets[i].value
  }

  /**
   * One producer thread: it offers its own indices in order until it is too late, each with the
   * payload of its index however that was memoised, and accounts for every index.
   */
  method Produce(p: nat, indices: seq<nat>, offsets: seq<Option<int>>, base: int, world: World, c: Case)
      returns (events: seq<Event>, receipts: seq<Receipt>, missed: nat)
    requires c.cardinality > 0 && forall k :: 0 <= k < |indices| ==> indices[k] < |offsets|
    ensures |events| == |receipts| <= |indices| && |events| + missed == |indices|
    ensures (missed > 0 ==> world.late(|events|)) && forall k :: 0 <= k < |events| ==> !world.late(k)
    ensures forall k :: 0 <= k < |events| ==>
      && events[k] == Event(p, indices[k], ScheduledAt(offsets, base, world, indices[k], k), Payload(indices[k], c))
      && receipts[k] == Receipt(indices[k], ScheduledAt(offsets, base, world, indices[k], k), world.offer(k))
    ensures forall k :: 0 <= k < |events| ==>
      && Bears(c, indices[k], events[k].body) && events[k].index == receipts[k].index == indices[k]
      && events[k].scheduled == receipts[k].scheduled ==
           (if offsets[indices[k]].None? then world.now(k) else base + offsets[indices[k]].value)
  {
    var memo := new Memo(c);
    LcmIsMultiple(c.cardinality, if c.highEntropy then 256 else 1);
    events, receipts, missed := [], [], 0;
    for k := 0 to |indices|
      invariant memo.Valid() && memo.c == c && fresh(memo)
      invariant |events| == |receipts| == k && missed == 0 && forall j :: 0 <= j < k ==> !world.late(j)
      invariant forall j :: 0 <= j < k ==> Bears(c, indices[j], events[j].body)
      invariant forall j :: 0 <= j < k ==>
        && events[j] == Event(p, indices[j], ScheduledAt(offsets, base, world, indices[j], j), Payload(indices[j], c))
        && receipts[j] == Receipt(indices[j], ScheduledAt(offsets, base, world, indices[j], j), world.offer(j))
    {
      var i := indices[k];
      PayloadBears(c, i);
      var scheduled := ScheduledAt(offsets, base, world, i, k);
      if world.late(k) {
        missed := |indices| - k;
        return;
      }
      var body;
      if c.mix || c.giantEvery > 0 {
        body := Payload(i, c);
      } else {
        PayloadRepeats(i, c);
        body := memo.Get(i % Period(c));
      }
      events := events + [Event(p, i, scheduled, body)];
      receipts := receipts + [Receipt(i, scheduled, world.offer(k))];
    }
  }
}
