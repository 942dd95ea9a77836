/** The binary layout of a captured event: a 96-byte header and a body. */
module HindsightEvents {
  import opened Bytes

  const HEADER := 96
  const RUN := 64
  const MAX_BODY := 32 * 1024 * 1024

  datatype Event = Event(run: seq<Byte>, producer: nat, sequence: nat, scheduled: nat, body: seq<Byte>)

  /** Events that fit their header: a run name without a zero byte, and fields of 4, 8, 8 and 4 bytes. */
  ghost predicate Encodable(e: Event) {
    && |e.run| <= RUN && 0 !in e.run
    && e.producer < Pow256(4) && e.sequence < Pow256(8) && e.scheduled < Pow256(8)
    && |e.body| <= MAX_BODY && |e.body| < Pow256(4)
  }

  function Zeros(n: nat): (z: seq<Byte>)
    ensures |z| == n && forall i :: 0 <= i < n ==> z[i] == 0
  {
    seq(n, _ => 0)
  }

  function Header(e: Event, padding: seq<Byte>): (h: seq<Byte>)
    requires |e.run| <= RUN && |padding| == 8
    ensures |h| == HEADER
  {
    e.run + Zeros(RUN - |e.run|) + LittleEndian(e.producer, 4) + LittleEndian(e.sequence, 8)
    + LittleEndian(e.scheduled, 8) + LittleEndian(|e.body|, 4) + padding
  }

  function Encode(e: Event, padding: seq<Byte>): seq<Byte>
    requires |e.run| <= RUN && |padding| == 8
  {
    Header(e, padding) + e.body
  }

  /** Everything before the first zero byte. */
  function UpToZero(b: seq<Byte>): seq<Byte> {
    if b == [] || b[0] == 0 then [] else [b[0]] + UpToZero(b[1..])
  }

  function BodySize(data: seq<Byte>): nat
    requires |data| >= HEADER
  {
    Value(data[84..88])
  }

  function Parse(data: seq<Byte>): Event
    requires |data| >= HEADER
  {
    Event(UpToZero(data[..RUN]), Value(data[64..68]), Value(data[68..76]), Value(data[76..84]), data[HEADER..])
  }

  lemma {:induction false} UpToZeroIs(run: seq<Byte>, rest: seq<Byte>)
    requires 0 !in run && (rest == [] || rest[0] == 0)
    ensures UpToZero(run + rest) == run
    decreases |run|
  {
    if run == [] {
      assert run + rest == rest;
    } else {
      assert (run + rest)[1..] == run[1..] + rest;
      UpToZeroIs(run[1..], rest);
      assert run == [run[0]] + run[1..];
    }
  }

  lemma HeaderFields(e: Event, padding: seq<Byte>)
    requires |e.run| <= RUN && |padding| == 8
    ensures var h := Header(e, padding);
      && h[..RUN] == e.run + Zeros(RUN - |e.run|) && h[64..68] == LittleEndian(e.producer, 4)
      && h[68..76] == LittleEndian(e.sequence, 8) && h[76..84] == LittleEndian(e.scheduled, 8)
      && h[84..88] == LittleEndian(|e.body|, 4)
  {
    Consecutive(e.run + Zeros(RUN - |e.run|), LittleEndian(e.producer, 4), LittleEndian(e.sequence, 8),
      LittleEndian(e.scheduled, 8), LittleEndian(|e.body|, 4), padding, Header(e, padding));
  }

  lemma Consecutive(a: seq<Byte>, b: seq<Byte>, c: seq<Byte>, d: seq<Byte>, e: seq<Byte>, f: seq<Byte>,
      h: seq<Byte>)
    requires |a| == 64 && |b| == 4 && |c| == 8 && |d| == 8 && |e| == 4 && h == a + b + c + d + e + f
    ensures h[..64] == a && h[64..68] == b && h[68..76] == c && h[76..84] == d && h[84..88] == e
  {
  }

  /** A prefix that holds the header tells the body's size. */
  lemma SizeFromPrefix(e: Event, padding: seq<Byte>, data: seq<Byte>)
    requires Encodable(e) && |padding| == 8 && data <= Encode(e, padding) && |data| >= HEADER
    ensures BodySize(data) == |e.body|
  {
    HeaderFields(e, padding);
    var whole, h := Encode(e, padding), Header(e, padding);
    assert data[..HEADER] == whole[..HEADER] == h;
    assert data[84..88] == data[..HEADER][84..88];
    ValueOfLittleEndian(|e.body|, 4);
  }

  /** An event survives being written and read. */
  lemma ParseEncoded(e: Event, padding: seq<Byte>)
    requires Encodable(e) && |padding| == 8
    ensures |Encode(e, padding)| == HEADER + |e.body| && Parse(Encode(e, padding)) == e
  {
    HeaderFields(e, padding);
    var data, h := Encode(e, padding), Header(e, padding);
    assert data[..HEADER] == h && data[HEADER..] == e.body;
    assert data[..RUN] == h[..RUN] && data[64..68] == h[64..68] && data[68..76] == h[68..76] &&
      data[76..84] == h[76..84];
    UpToZeroIs(e.run, Zeros(RUN - |e.run|));
    ValueOfLittleEndian(e.producer, 4);
    ValueOfLittleEndian(e.sequence, 8);
    ValueOfLittleEndian(e.scheduled, 8);
  }
}

/** Reassembly of events from interleaved fragments. */
module Hindsight {
  import opened Options
  import opened Bytes
  import opened HindsightEvents

  datatype Block = Block(trace: nat, number: int, fragment: seq<Byte>)

  /** Per trace, the number expected next and the bytes so far. */
  type Pending = map<nat, (nat, seq<Byte>)>

  datatype Step = Quiet(pending: Pending) | Yield(pending: Pending, event: Event) | Fail

  /** What a block does to the trace's bytes: start over, extend, or drop them. */
  function Extend(p: Pending, b: Block): Option<(nat, seq<Byte>)> {
    if b.number == 0 then Some((1, b.fragment))
    else if b.trace in p && p[b.trace].0 == b.number then Some((p[b.trace].0 + 1, p[b.trace].1 + b.fragment))
    else None
  }

  function Take(p: Pending, b: Block): Step {
    var more := Extend(p, b);
    if more.None? then Quiet(p - {b.trace})
    else
      var data := more.value.1;
      var p' := p[b.trace := more.value];
      if |data| < HEADER then Quiet(p')
      else if BodySize(data) > MAX_BODY || |data| > HEADER + BodySize(data) then Fail
      else if |data| == HEADER + BodySize(data) then Yield(p - {b.trace}, Parse(data))
      else Quiet(p')
  }

  /** What a stream of blocks yields before it ends or fails. */
  datatype Decoded = Decoded(pending: Pending, events: seq<Event>, failed: bool)

  function Decode(blocks: seq<Block>): Decoded {
    if blocks == [] then Decoded(map[], [], false)
    else
      var before := Decode(blocks[..|blocks| - 1]);
      if before.failed then before
      else
        match Take(before.pending, blocks[|blocks| - 1])
        case Quiet(p) => Decoded(p, before.events, false)
        case Yield(p, e) => Decoded(p, before.events + [e], false)
        case Fail => Decoded(before.pending, before.events, true)
  }

  // ---- what was sent ----

  /** An event cut into fragments; one event per trace. */
  datatype Sent = Sent(event: Event, padding: seq<Byte>, fragments: seq<seq<Byte>>)

  /** The first `k` fragments together. */
  function Joined(fragments: seq<seq<Byte>>, k: nat): seq<Byte>
    requires k <= |fragments|
  {
    if k == 0 then [] else Joined(fragments, k - 1) + fragments[k - 1]
  }

  ghost predicate SentOk(s: Sent) {
    Encodable(s.event) && |s.padding| == 8 && Joined(s.fragments, |s.fragments|) == Encode(s.event, s.padding)
  }

  ghost predicate AllSent(sent: map<nat, Sent>) { forall t :: t in sent ==> SentOk(sent[t]) }

  ghost predicate Genuine(sent: map<nat, Sent>, b: Block) {
    b.trace in sent && 0 <= b.number < |sent[b.trace].fragments| && b.fragment == sent[b.trace].fragments[b.number]
  }

  lemma {:induction false} JoinedIsPrefix(fragments: seq<seq<Byte>>, k: nat, n: nat)
    requires k <= n <= |fragments|
    ensures Joined(fragments, k) <= Joined(fragments, n)
    decreases n
  {
    if k < n { JoinedIsPrefix(fragments, k, n - 1); }
  }

  /** Bytes of a sent event before its last one. */
  ghost predicate Part(s: Sent, k: nat, data: seq<Byte>) {
    1 <= k <= |s.fragments| && data == Joined(s.fragments, k)
  }

  /** With the first `k` fragments at hand the header never misleads: too short, whole, or still going. */
  lemma PartTells(s: Sent, k: nat, data: seq<Byte>)
    requires SentOk(s) && Part(s, k, data)
    ensures |data| <= HEADER + |s.event.body|
    ensures |data| >= HEADER ==> BodySize(data) == |s.event.body|
    ensures |data| == HEADER + |s.event.body| ==> Parse(data) == s.event
  {
    JoinedIsPrefix(s.fragments, k, |s.fragments|);
    ParseEncoded(s.event, s.padding);
    if |data| >= HEADER { SizeFromPrefix(s.event, s.padding, data); }
    if |data| == HEADER + |s.event.body| { assert data == Encode(s.event, s.padding); }
  }

  // ---- any loss, reordering and repetition ----

  ghost predicate PendingOk(sent: map<nat, Sent>, p: Pending) {
    forall t :: t in p ==> t in sent && Part(sent[t], p[t].0, p[t].1)
  }

  lemma ExtendGenuine(sent: map<nat, Sent>, p: Pending, b: Block)
    requires PendingOk(sent, p) && Genuine(sent, b)
    ensures Extend(p, b).Some? ==>
      Extend(p, b).value.0 == b.number + 1 && Part(sent[b.trace], b.number + 1, Extend(p, b).value.1)
  {
    var fragments := sent[b.trace].fragments;
    if b.number == 0 {
      assert Joined(fragments, 1) == Joined(fragments, 0) + fragments[0];
    }
  }

  /** Taking a block whose bytes are a beginning of the sent event. */
  lemma TakePart(s: Sent, p: Pending, b: Block)
    requires SentOk(s) && Extend(p, b).Some? && Part(s, Extend(p, b).value.0, Extend(p, b).value.1)
    ensures |Extend(p, b).value.1| <= HEADER + |s.event.body|
    ensures Take(p, b) ==
      if |Extend(p, b).value.1| == HEADER + |s.event.body| then Yield(p - {b.trace}, s.event)
      else Quiet(p[b.trace := Extend(p, b).value])
  {
    PartTells(s, Extend(p, b).value.0, Extend(p, b).value.1);
  }

  lemma TakeGenuine(sent: map<nat, Sent>, p: Pending, b: Block)
    requires AllSent(sent) && PendingOk(sent, p) && Genuine(sent, b)
    ensures !Take(p, b).Fail? && PendingOk(sent, Take(p, b).pending)
    ensures Take(p, b).Yield? ==> Take(p, b).event == sent[b.trace].event
  {
    if Extend(p, b).Some? {
      ExtendGenuine(sent, p, b);
      TakePart(sent[b.trace], p, b);
    }
  }

  /** Whatever subset, order or repetition of the sent fragments arrives, only sent events come out. */
  lemma {:induction false} OnlySentEvents(sent: map<nat, Sent>, blocks: seq<Block>)
    requires AllSent(sent) && forall b :: b in blocks ==> Genuine(sent, b)
    ensures !Decode(blocks).failed && PendingOk(sent, Decode(blocks).pending)
    ensures FromSent(sent, Decode(blocks).events)
    decreases |blocks|
  {
    if blocks != [] {
      var init, b := blocks[..|blocks| - 1], blocks[|blocks| - 1];
      OnlySentEvents(sent, init);
      assert Genuine(sent, b);
      TakeGenuine(sent, Decode(init).pending, b);
      SplitLast(blocks);
      DecodeAppend(init, b);
      FromSentAppend(sent, Decode(init).events, b.trace);
    }
  }

  ghost predicate FromSent(sent: map<nat, Sent>, events: seq<Event>) {
    forall e :: e in events ==> exists t :: t in sent && sent[t].event == e
  }

  lemma FromSentAppend(sent: map<nat, Sent>, events: seq<Event>, t: nat)
    requires FromSent(sent, events) && t in sent
    ensures FromSent(sent, events + [sent[t].event])
  {
  }

  // ---- in-order streams, possibly with losses ----

  /** The fragment numbers of a trace, as they arrived. */
  function Got(blocks: seq<Block>, trace: nat): seq<int> {
    if blocks == [] then []
    else
      var b := blocks[|blocks| - 1];
      Got(blocks[..|blocks| - 1], trace) + (if b.trace == trace then [b.number] else [])
  }

  function UpTo(n: int): (r: seq<int>)
    ensures |r| == if n < 0 then 0 else n
    ensures forall i :: 0 <= i < |r| ==> r[i] == i
  {
    if n <= 0 then [] else seq(n, i => i)
  }

  /** Per trace, numbers only go up. */
  ghost predicate InOrder(blocks: seq<Block>) {
    forall i, j :: 0 <= i < j < |blocks| && blocks[i].trace == blocks[j].trace ==> blocks[i].number < blocks[j].number
  }

  /** With all fragments before it at hand, this block completes its event. */
  ghost predicate Completes(sent: map<nat, Sent>, got: seq<int>, b: Block) {
    && Genuine(sent, b) && got == UpTo(b.number)
    && var s := sent[b.trace];
       |Joined(s.fragments, b.number)| < HEADER + |s.event.body| == |Joined(s.fragments, b.number + 1)|
  }

  /** The traces completed by a stream, in order of the completing fragments. */
  ghost function Completed(sent: map<nat, Sent>, blocks: seq<Block>): seq<nat> {
    if blocks == [] then []
    else
      var init, b := blocks[..|blocks| - 1], blocks[|blocks| - 1];
      Completed(sent, init) + (if Completes(sent, Got(init, b.trace), b) then [b.trace] else [])
  }

  ghost function EventsOf(sent: map<nat, Sent>, traces: seq<nat>): seq<Event>
    requires forall t :: t in traces ==> t in sent
  {
    seq(|traces|, i requires 0 <= i < |traces| => sent[traces[i]].event)
  }

  lemma {:induction false} GotFrom(blocks: seq<Block>, trace: nat, n: int)
    requires n in Got(blocks, trace)
    ensures exists b :: b in blocks && b.trace == trace && b.number == n
    decreases |blocks|
  {
    var init, b := blocks[..|blocks| - 1], blocks[|blocks| - 1];
    if n in Got(init, trace) {
      GotFrom(init, trace, n);
      var c :| c in init && c.trace == trace && c.number == n;
      assert c in blocks;
    } else {
      assert b.trace == trace && b.number == n && b in blocks;
    }
  }

  /** In order, the next number of a trace is above all before it. */
  lemma NextIsAbove(blocks: seq<Block>, n: int)
    requires blocks != [] && InOrder(blocks) && n in Got(blocks[..|blocks| - 1], blocks[|blocks| - 1].trace)
    ensures n < blocks[|blocks| - 1].number
  {
    var init, b := blocks[..|blocks| - 1], blocks[|blocks| - 1];
    GotFrom(init, b.trace, n);
    var c :| c in init && c.trace == b.trace && c.number == n;
    var i :| 0 <= i < |init| && init[i] == c;
    assert blocks[i] == c;
  }

  /** What is pending for a trace is exactly an unbroken, unfinished beginning of it. */
  ghost predicate TraceOk(sent: map<nat, Sent>, got: seq<int>, p: Pending, t: nat)
    requires t in sent
  {
    if Going(sent[t], got) then t in p && p[t] == (|got|, Joined(sent[t].fragments, |got|)) else t !in p
  }

  lemma GotAppend(blocks: seq<Block>, b: Block, t: nat)
    ensures Got(blocks + [b], t) == Got(blocks, t) + (if b.trace == t then [b.number] else [])
  {
    assert (blocks + [b])[..|blocks + [b]| - 1] == blocks;
  }

  /** In order, the numbers a trace already has lie below the next one. */
  ghost predicate Below(got: seq<int>, n: int) { forall i :: 0 <= i < |got| ==> 0 <= got[i] < n }

  lemma GotIsBelow(sent: map<nat, Sent>, blocks: seq<Block>, b: Block)
    requires InOrder(blocks + [b]) && forall c :: c in blocks ==> Genuine(sent, c)
    ensures Below(Got(blocks, b.trace), b.number)
  {
    var got := Got(blocks, b.trace);
    assert (blocks + [b])[..|blocks + [b]| - 1] == blocks;
    forall i | 0 <= i < |got| ensures 0 <= got[i] < b.number {
      NextIsAbove(blocks + [b], got[i]);
      GotFrom(blocks, b.trace, got[i]);
    }
  }

  lemma UpToStep(got: seq<int>, n: int)
    requires 0 <= n
    ensures got + [n] == UpTo(|got| + 1) <==> got == UpTo(n)
  {
    if got + [n] == UpTo(|got| + 1) {
      assert (got + [n])[|got|] == n;
      assert got == (got + [n])[..|got|];
    }
  }

  /** An unbroken, unfinished beginning of an event. */
  ghost predicate Going(s: Sent, got: seq<int>) {
    1 <= |got| <= |s.fragments| && got == UpTo(|got|) && |Joined(s.fragments, |got|)| < HEADER + |s.event.body|
  }

  /** The next fragment of an unbroken beginning, the first one included. */
  lemma TakeNext(sent: map<nat, Sent>, got: seq<int>, p: Pending, b: Block)
    requires AllSent(sent) && Genuine(sent, b) && got == UpTo(b.number)
    requires b.number == 0 || (Going(sent[b.trace], got) && TraceOk(sent, got, p, b.trace))
    ensures TakenWell(sent, got, p, b)
  {
    ExtendNext(sent, got, p, b);
    TakePart(sent[b.trace], p, b);
    BeforeLast(sent[b.trace], got, b.number);
    StepsWell(sent, got, p, b, Take(p, b));
  }

  /** The step of an unbroken beginning: the whole event, or one fragment more. */
  lemma StepsWell(sent: map<nat, Sent>, got: seq<int>, p: Pending, b: Block, step: Step)
    requires Genuine(sent, b) && got == UpTo(b.number)
    requires var s, n := sent[b.trace], b.number;
      var before, whole, total := Joined(s.fragments, n), Joined(s.fragments, n + 1), HEADER + |s.event.body|;
      && |before| < total && |whole| <= total
      && step == if |whole| == total then Yield(p - {b.trace}, s.event) else Quiet(p[b.trace := (n + 1, whole)])
    ensures Well(sent, got, b, step)
  {
    UpToStep(got, b.number);
  }

  lemma BeforeLast(s: Sent, got: seq<int>, n: nat)
    requires n == 0 || Going(s, got)
    requires got == UpTo(n)
    ensures n <= |s.fragments| && |Joined(s.fragments, n)| < HEADER + |s.event.body|
  {
  }

  lemma ExtendNext(sent: map<nat, Sent>, got: seq<int>, p: Pending, b: Block)
    requires Genuine(sent, b) && got == UpTo(b.number)
    requires b.number == 0 || (Going(sent[b.trace], got) && TraceOk(sent, got, p, b.trace))
    ensures Extend(p, b) == Some((b.number + 1, Joined(sent[b.trace].fragments, b.number + 1)))
  {
    var fragments, n := sent[b.trace].fragments, b.number;
    assert Joined(fragments, n + 1) == Joined(fragments, n) + b.fragment;
    if n == 0 { assert [] + b.fragment == b.fragment; }
  }

  /** A fragment that does not fit, or comes after the event is complete. */
  lemma TakeBroken(sent: map<nat, Sent>, got: seq<int>, p: Pending, b: Block)
    requires AllSent(sent) && Genuine(sent, b) && b.number > 0 && TraceOk(sent, got, p, b.trace)
    requires !(Going(sent[b.trace], got) && got == UpTo(b.number))
    ensures TakenWell(sent, got, p, b)
  {
    ExtendBroken(sent, got, p, b);
    BrokenWell(sent, got, p, b, Take(p, b));
  }

  lemma ExtendBroken(sent: map<nat, Sent>, got: seq<int>, p: Pending, b: Block)
    requires Genuine(sent, b) && b.number > 0 && TraceOk(sent, got, p, b.trace)
    requires !(Going(sent[b.trace], got) && got == UpTo(b.number))
    ensures Extend(p, b) == None
  {
  }

  /** A break drops what was pending, and completes nothing. */
  lemma BrokenWell(sent: map<nat, Sent>, got: seq<int>, p: Pending, b: Block, step: Step)
    requires Genuine(sent, b) && b.number > 0 && step == Quiet(p - {b.trace})
    requires !(Going(sent[b.trace], got) && got == UpTo(b.number))
    ensures Well(sent, got, b, step)
  {
    var s, n := sent[b.trace], b.number;
    UpToStep(got, n);
    JoinedIsPrefix(s.fragments, n, n + 1);
  }

  ghost predicate TakenWell(sent: map<nat, Sent>, got: seq<int>, p: Pending, b: Block)
    requires Genuine(sent, b)
  {
    Well(sent, got, b, Take(p, b))
  }

  /** A step keeps the trace's pending entry right and yields the event exactly when it is complete. */
  ghost predicate Well(sent: map<nat, Sent>, got: seq<int>, b: Block, step: Step)
    requires Genuine(sent, b)
  {
    && !step.Fail? && TraceOk(sent, got + [b.number], step.pending, b.trace)
    && (step.Yield? <==> Completes(sent, got, b)) && (step.Yield? ==> step.event == sent[b.trace].event)
  }

  lemma FirstBelow(got: seq<int>, n: int)
    requires Below(got, n) && got != []
    ensures n > 0
  {
    assert 0 <= got[0] < n;
  }

  /** What the next block of an in-order stream does to its own trace. */
  lemma TakeInOrder(sent: map<nat, Sent>, got: seq<int>, p: Pending, b: Block)
    requires AllSent(sent) && Genuine(sent, b) && Below(got, b.number) && TraceOk(sent, got, p, b.trace)
    ensures TakenWell(sent, got, p, b)
  {
    if got != [] { FirstBelow(got, b.number); }
    if b.number == 0 {
      TakeNext(sent, got, p, b);
    } else if Going(sent[b.trace], got) && got == UpTo(b.number) {
      TakeNext(sent, got, p, b);
    } else {
      TakeBroken(sent, got, p, b);
    }
  }

  /** Blocks of other traces leave a trace alone. */
  lemma TakeOther(sent: map<nat, Sent>, got: seq<int>, p: Pending, b: Block, t: nat)
    requires t in sent && t != b.trace && TraceOk(sent, got, p, t) && !Take(p, b).Fail?
    ensures TraceOk(sent, got, Take(p, b).pending, t)
  {
  }

  lemma EventsAppend(sent: map<nat, Sent>, traces: seq<nat>, t: nat)
    requires t in sent && forall u :: u in traces ==> u in sent
    ensures EventsOf(sent, traces + [t]) == EventsOf(sent, traces) + [sent[t].event]
  {
  }

  ghost predicate TracesOk(sent: map<nat, Sent>, blocks: seq<Block>, p: Pending) {
    forall t :: t in sent ==> TraceOk(sent, Got(blocks, t), p, t)
  }

  lemma TracesStep(sent: map<nat, Sent>, blocks: seq<Block>, p: Pending, b: Block)
    requires AllSent(sent) && InOrder(blocks + [b]) && Genuine(sent, b) && forall c :: c in blocks ==> Genuine(sent, c)
    requires TracesOk(sent, blocks, p)
    ensures TakenWell(sent, Got(blocks, b.trace), p, b) && TracesOk(sent, blocks + [b], Take(p, b).pending)
  {
    GotIsBelow(sent, blocks, b);
    TakeInOrder(sent, Got(blocks, b.trace), p, b);
    forall t | t in sent ensures TraceOk(sent, Got(blocks + [b], t), Take(p, b).pending, t) {
      TraceStep(sent, blocks, p, b, t);
    }
  }

  lemma TraceStep(sent: map<nat, Sent>, blocks: seq<Block>, p: Pending, b: Block, t: nat)
    requires t in sent && Genuine(sent, b) && TraceOk(sent, Got(blocks, t), p, t) &&
      TakenWell(sent, Got(blocks, b.trace), p, b)
    ensures TraceOk(sent, Got(blocks + [b], t), Take(p, b).pending, t)
  {
    GotAppend(blocks, b, t);
    if t != b.trace { TakeOther(sent, Got(blocks, t), p, b, t); }
  }

  lemma SplitLast<T>(s: seq<T>)
    requires s != []
    ensures s == s[..|s| - 1] + [s[|s| - 1]]
  {
  }

  /** The events a stream yields are those of the traces it completes, in that order. */
  ghost predicate Delivers(sent: map<nat, Sent>, blocks: seq<Block>) {
    && !Decode(blocks).failed
    && (forall t :: t in Completed(sent, blocks) ==> t in sent)
    && Decode(blocks).events == EventsOf(sent, Completed(sent, blocks))
  }

  lemma DecodeAppend(blocks: seq<Block>, b: Block)
    requires !Decode(blocks).failed
    ensures var d, step := Decode(blocks), Take(Decode(blocks).pending, b);
      Decode(blocks + [b]) ==
        if step.Fail? then d.(failed := true)
        else Decoded(step.pending, if step.Yield? then d.events + [step.event] else d.events, false)
  {
    assert (blocks + [b])[..|blocks + [b]| - 1] == blocks;
  }

  lemma CompletedAppend(sent: map<nat, Sent>, init: seq<Block>, b: Block)
    ensures Completed(sent, init + [b]) ==
      Completed(sent, init) + (if Completes(sent, Got(init, b.trace), b) then [b.trace] else [])
  {
    assert (init + [b])[..|init + [b]| - 1] == init;
  }

  lemma DeliversStep(sent: map<nat, Sent>, init: seq<Block>, b: Block)
    requires Delivers(sent, init) && Genuine(sent, b) && TakenWell(sent, Got(init, b.trace), Decode(init).pending, b)
    ensures Delivers(sent, init + [b]) && Decode(init + [b]).pending == Take(Decode(init).pending, b).pending
  {
    DecodeAppend(init, b);
    CompletedAppend(sent, init, b);
    var completed := Completed(sent, init);
    if Completes(sent, Got(init, b.trace), b) {
      EventsAppend(sent, completed, b.trace);
    } else {
      assert completed + [] == completed;
    }
  }

  /**
   * Interleaved in-order streams, with or without losses: exactly the events all of whose
   * fragments arrived come out, in order of the fragments that complete them.
   */
  lemma {:induction false} InOrderDelivery(sent: map<nat, Sent>, blocks: seq<Block>)
    requires AllSent(sent) && InOrder(blocks) && forall b :: b in blocks ==> Genuine(sent, b)
    ensures Delivers(sent, blocks) && TracesOk(sent, blocks, Decode(blocks).pending)
    decreases |blocks|
  {
    if blocks != [] {
      SplitLast(blocks);
      var init, b := blocks[..|blocks| - 1], blocks[|blocks| - 1];
      InOrderDelivery(sent, init);
      TracesStep(sent, init, Decode(init).pending, b);
      DeliversStep(sent, init, b);
    }
  }

  // ---- which events those are ----

  /** All fragments of a trace arrived. */
  ghost predicate Arrived(sent: map<nat, Sent>, blocks: seq<Block>, t: nat) {
    t in sent && forall n :: 0 <= n < |sent[t].fragments| ==> n in Got(blocks, t)
  }

  /** The fragment that completes an event: the last one that is not empty. */
  lemma {:induction false} CompletingFragment(fragments: seq<seq<Byte>>, n: nat, total: nat) returns (last: nat)
    requires 0 < total && n <= |fragments| && |Joined(fragments, n)| == total
    ensures last < n && |Joined(fragments, last)| < total == |Joined(fragments, last + 1)|
    decreases n
  {
    assert n > 0;
    assert Joined(fragments, n) == Joined(fragments, n - 1) + fragments[n - 1];
    if |Joined(fragments, n - 1)| < total {
      last := n - 1;
    } else {
      last := CompletingFragment(fragments, n - 1, total);
    }
  }

  /** There is only one such fragment. */
  lemma OneCompletes(s: Sent, n: nat, m: nat)
    requires n < |s.fragments| && m < |s.fragments|
    requires |Joined(s.fragments, n)| < |Joined(s.fragments, n + 1)| == |Joined(s.fragments, m + 1)| &&
      |Joined(s.fragments, m)| < |Joined(s.fragments, m + 1)|
    ensures n == m
  {
    if n < m { JoinedIsPrefix(s.fragments, n + 1, m); }
    if m < n { JoinedIsPrefix(s.fragments, m + 1, n); }
  }

  ghost predicate Completing(s: Sent, last: nat) {
    last < |s.fragments| && |Joined(s.fragments, last)| < HEADER + |s.event.body| == |Joined(s.fragments, last + 1)|
  }

  /** A trace is completed exactly when its fragments arrived unbroken up to the completing one, and only once. */
  lemma {:induction false} CompletedIff(sent: map<nat, Sent>, blocks: seq<Block>, t: nat, last: nat)
    requires AllSent(sent) && t in sent && Completing(sent[t], last) && forall b :: b in blocks ==> Genuine(sent, b)
    ensures t in Completed(sent, blocks) <==> UpTo(last + 1) <= Got(blocks, t)
    ensures Once(Completed(sent, blocks), t)
    decreases |blocks|
  {
    if blocks != [] {
      SplitLast(blocks);
      var init, b := blocks[..|blocks| - 1], blocks[|blocks| - 1];
      CompletedIff(sent, init, t, last);
      assert Genuine(sent, b);
      CompletedAppend(sent, init, b);
      GotAppend(init, b, t);
      CompletedOnce(sent, Completed(sent, init), Got(init, b.trace), Got(init, t), b, t, last);
    }
  }

  /** One more block completes a trace if its fragment does, and never again. */
  lemma CompletedOnce(sent: map<nat, Sent>, completed: seq<nat>, arrived: seq<int>, got: seq<int>, b: Block, t: nat,
      last: nat)
    requires Genuine(sent, b) && t in sent && Completing(sent[t], last) && (b.trace == t ==> arrived == got)
    requires (t in completed <==> UpTo(last + 1) <= got) && Once(completed, t)
    ensures var completed' := completed + (if Completes(sent, arrived, b) then [b.trace] else []);
      && (t in completed' <==> UpTo(last + 1) <= got + (if b.trace == t then [b.number] else []))
      && Once(completed', t)
  {
    OnceAppend(completed, b.trace, t);
    if b.trace == t { CompletedStep(sent, got, b, last); }
    assert completed + [] == completed && got + [] == got;
  }

  ghost predicate Once(s: seq<nat>, t: nat) {
    forall i, j :: 0 <= i < j < |s| && s[i] == t ==> s[j] != t
  }

  lemma OnceAppend(s: seq<nat>, u: nat, t: nat)
    requires Once(s, t)
    ensures t in s + [u] <==> t in s || t == u
    ensures t !in s || u != t ==> Once(s + [u], t)
  {
  }

  /** The completing fragment is the one that makes the unbroken beginning reach it. */
  lemma CompletedStep(sent: map<nat, Sent>, got: seq<int>, b: Block, last: nat)
    requires Genuine(sent, b) && Completing(sent[b.trace], last)
    ensures UpTo(last + 1) <= got ==> !Completes(sent, got, b)
    ensures UpTo(last + 1) <= got + [b.number] <==> UpTo(last + 1) <= got || Completes(sent, got, b)
  {
    var s, n, goal := sent[b.trace], b.number, UpTo(last + 1);
    if Completes(sent, got, b) {
      OneCompletes(s, n, last);
      UpToStep(got, n);
    } else if goal <= got + [n] && !(goal <= got) {
      assert |got| == last;
      UpToStep(got, n);
    }
  }

  /** Numbers that go up from zero on and include `0..n` begin with them. */
  lemma {:induction false} BeginsUnbroken(got: seq<int>, n: nat)
    requires (forall i, j :: 0 <= i < j < |got| ==> got[i] < got[j]) && forall i :: 0 <= i < |got| ==> 0 <= got[i]
    requires forall v :: 0 <= v < n ==> v in got
    ensures UpTo(n) <= got
    decreases n
  {
    if n > 0 {
      BeginsUnbroken(got, n - 1);
      var k := n - 1;
      assert k in got;
      var j :| 0 <= j < |got| && got[j] == k;
      assert forall i :: 0 <= i < k ==> got[i] == i;
      assert j >= k;
      if k > 0 { assert got[k - 1] == UpTo(k)[k - 1]; }
    }
  }

  lemma {:induction false} GotGoesUp(sent: map<nat, Sent>, blocks: seq<Block>, t: nat)
    requires InOrder(blocks) && forall b :: b in blocks ==> Genuine(sent, b)
    ensures forall i, j :: 0 <= i < j < |Got(blocks, t)| ==> Got(blocks, t)[i] < Got(blocks, t)[j]
    ensures forall i :: 0 <= i < |Got(blocks, t)| ==> 0 <= Got(blocks, t)[i]
    decreases |blocks|
  {
    if blocks != [] {
      SplitLast(blocks);
      var init, b := blocks[..|blocks| - 1], blocks[|blocks| - 1];
      GotGoesUp(sent, init, t);
      assert Genuine(sent, b);
      if b.trace == t { GotIsBelow(sent, init, b); }
    }
  }

  /** Without losses every sent event comes out exactly once. */
  lemma ExactDelivery(sent: map<nat, Sent>, blocks: seq<Block>)
    requires AllSent(sent) && InOrder(blocks) && forall b :: b in blocks ==> Genuine(sent, b)
    ensures Delivers(sent, blocks)
    ensures forall t :: t in sent && Arrived(sent, blocks, t) ==> t in Completed(sent, blocks)
    ensures forall t :: t in sent ==> Once(Completed(sent, blocks), t)
  {
    InOrderDelivery(sent, blocks);
    forall t | t in sent ensures Once(Completed(sent, blocks), t) &&
      (Arrived(sent, blocks, t) ==> t in Completed(sent, blocks)) {
      var s := sent[t];
      ParseEncoded(s.event, s.padding);
      var last := CompletingFragment(s.fragments, |s.fragments|, HEADER + |s.event.body|);
      CompletedIff(sent, blocks, t, last);
      if Arrived(sent, blocks, t) {
        GotGoesUp(sent, blocks, t);
        BeginsUnbroken(Got(blocks, t), last + 1);
      }
    }
  }

  // ---- the file ----

  const TRACE_HEADER := 32
  const MAX_BLOCK := 4096

  function Signed16(v: nat): int { if v < 0x8000 then v else v - 0x1_0000 }

  function ParseBlock(b: seq<Byte>): Block
    requires |b| >= TRACE_HEADER
  {
    Block(Value(b[..8]), Signed16(Value(b[28..30])), b[TRACE_HEADER..])
  }

  /**
   * The length and the rest of a length-prefixed block, or None where the file is cut off or the length is out of
   * range.
   */
  function Cut(file: seq<Byte>): Option<nat> {
    if |file| < 4 then None
    else
      var length := Value(file[..4]);
      if length < TRACE_HEADER || length > MAX_BLOCK || |file| < 4 + length then None else Some(length)
  }

  /** The blocks of a file, and whether it stops making sense after them. */
  function Frames(file: seq<Byte>): (seq<Block>, bool)
    decreases |file|
  {
    if file == [] then ([], false)
    else
      var length := Cut(file);
      if length.None? then ([], true)
      else
        var (blocks, malformed) := Frames(file[4 + length.value..]);
        ([ParseBlock(file[4..4 + length.value])] + blocks, malformed)
  }

  /** Decodes a file block by block and stops at the first fault; what it yielded until then stands. */
  method DecodeFile(file: seq<Byte>) returns (events: seq<Event>, failed: bool)
    ensures events == Decode(Frames(file).0).events
    ensures failed <==> Decode(Frames(file).0).failed || Frames(file).1
  {
    var pending: Pending := map[];
    var rest := file;
    ghost var done: seq<Block> := [];
    events, failed := [], false;
    assert done + Frames(rest).0 == Frames(rest).0;
    while rest != []
      invariant Frames(file) == (done + Frames(rest).0, Frames(rest).1)
      invariant Decode(done) == Decoded(pending, events, false) && !failed
      decreases |rest|
    {
      var length := Cut(rest);
      if length.None? {
        assert done + Frames(rest).0 == done;
        return events, true;
      }
      var block := ParseBlock(rest[4..4 + length.value]);
      ghost var later := Frames(rest[4 + length.value..]).0;
      assert done + ([block] + later) == (done + [block]) + later;
      DecodeAppend(done, block);
      done := done + [block];
      match Take(pending, block) {
        case Quiet(p) => pending := p;
        case Yield(p, e) => pending, events := p, events + [e];
        case Fail =>
          FailedStays(done, later);
          return events, true;
      }
      rest := rest[4 + length.value..];
    }
    assert done + Frames(rest).0 == done;
  }

  /** After a fault nothing more is yielded. */
  lemma {:induction false} FailedStays(blocks: seq<Block>, more: seq<Block>)
    requires Decode(blocks).failed
    ensures Decode(blocks + more) == Decode(blocks)
    decreases |more|
  {
    if more == [] {
      assert blocks + more == blocks;
    } else {
      assert (blocks + more)[..|blocks + more| - 1] == blocks + more[..|more| - 1];
      FailedStays(blocks, more[..|more| - 1]);
    }
  }

  /** A block as written: the fields the decoder skips are arbitrary. */
  datatype Raw = Raw(trace: nat, skipped: seq<Byte>, number: nat, nulls: seq<Byte>, fragment: seq<Byte>)

  ghost predicate RawOk(r: Raw) {
    && r.trace < Pow256(8) && |r.skipped| == 20 && r.number < 0x8000 && |r.nulls| == 2
    && |r.fragment| <= MAX_BLOCK - TRACE_HEADER
  }

  function BlockOf(r: Raw): Block { Block(r.trace, r.number, r.fragment) }

  function BlockBytes(r: Raw): seq<Byte> {
    LittleEndian(r.trace, 8) + r.skipped + LittleEndian(r.number, 2) + r.nulls + r.fragment
  }

  function FileOf(raws: seq<Raw>): seq<Byte> {
    if raws == [] then [] else LittleEndian(|BlockBytes(raws[0])|, 4) + BlockBytes(raws[0]) + FileOf(raws[1..])
  }

  function BlocksOf(raws: seq<Raw>): seq<Block> {
    seq(|raws|, i requires 0 <= i < |raws| => BlockOf(raws[i]))
  }

  lemma ParseBlockBytes(r: Raw)
    requires RawOk(r)
    ensures |BlockBytes(r)| == TRACE_HEADER + |r.fragment| && ParseBlock(BlockBytes(r)) == BlockOf(r)
  {
    var a, b := LittleEndian(r.trace, 8), LittleEndian(r.number, 2);
    Pieces(a, r.skipped, b, r.nulls, r.fragment);
    ValueOfLittleEndian(r.trace, 8);
    assert Pow256(2) == 256 * Pow256(1) && Pow256(1) == 256 * Pow256(0);
    ValueOfLittleEndian(r.number, 2);
  }

  lemma Pieces(a: seq<Byte>, b: seq<Byte>, c: seq<Byte>, d: seq<Byte>, e: seq<Byte>)
    requires |a| == 8 && |b| == 20 && |c| == 2 && |d| == 2
    ensures var s := a + b + c + d + e;
      |s| == 32 + |e| && s[..8] == a && s[28..30] == c && s[32..] == e
  {
  }

  /** Blocks written to a file are the blocks read from it. */
  lemma {:induction false} FramesOfFile(raws: seq<Raw>)
    requires forall r :: r in raws ==> RawOk(r)
    ensures Frames(FileOf(raws)) == (BlocksOf(raws), false)
    decreases |raws|
  {
    if raws != [] {
      var r := raws[0];
      var body, rest := BlockBytes(r), FileOf(raws[1..]);
      ParseBlockBytes(r);
      FramesOfFile(raws[1..]);
      CutOne(body, rest);
      assert BlocksOf(raws) == [BlockOf(r)] + BlocksOf(raws[1..]);
    }
  }

  lemma CutOne(body: seq<Byte>, rest: seq<Byte>)
    requires TRACE_HEADER <= |body| <= MAX_BLOCK
    ensures var file := LittleEndian(|body|, 4) + body + rest;
      Cut(file) == Some(|body|) && file[4..4 + |body|] == body && file[4 + |body|..] == rest
  {
    var file := LittleEndian(|body|, 4) + body + rest;
    assert file[..4] == LittleEndian(|body|, 4);
    assert Pow256(4) >= 0x1_0000 by {
      assert Pow256(4) == 256 * Pow256(3) && Pow256(3) == 256 * Pow256(2) && Pow256(2) == 256 * Pow256(1) &&
        Pow256(1) == 256 * Pow256(0);
    }
    ValueOfLittleEndian(|body|, 4);
  }

  /** From bytes to events: a file of in-order fragments yields the completed events in order. */
  lemma FileDelivery(sent: map<nat, Sent>, raws: seq<Raw>)
    requires AllSent(sent) && (forall r :: r in raws ==> RawOk(r)) && InOrder(BlocksOf(raws))
    requires forall b :: b in BlocksOf(raws) ==> Genuine(sent, b)
    ensures Frames(FileOf(raws)) == (BlocksOf(raws), false) && Delivers(sent, Frames(FileOf(raws)).0)
  {
    FramesOfFile(raws);
    InOrderDelivery(sent, BlocksOf(raws));
  }
}
