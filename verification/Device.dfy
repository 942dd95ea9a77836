/**
 * The simulated device: bounds-checked global memory, a budgeted on-chip buffer
 * and bounded queues. Memory is addressed in elements, since every buffer of a
 * launch has the same element size; values are reals behind an encoding.
 */
module Device {
  import opened Options

  /** A buffer in global memory. */
  datatype Buffer = Buffer(offset: nat, length: nat)

  /** Unallocated bytes are poison; the output starts as a sentinel. */
  datatype Cell = Poison | Sentinel | Num(v: real)

  ghost predicate AllNum(cells: seq<Cell>) {
    forall i :: 0 <= i < |cells| ==> cells[i].Num?
  }

  ghost predicate Inside(b: Buffer, size: nat) { b.offset + b.length <= size }

  function Slice(cells: seq<Cell>, b: Buffer): seq<Cell>
    requires Inside(b, |cells|)
  {
    cells[b.offset..b.offset + b.length]
  }

  /** The numbers in a stretch of cells. */
  function Values(cells: seq<Cell>): (r: seq<real>)
    requires AllNum(cells)
    ensures |r| == |cells| && forall i :: 0 <= i < |r| ==> cells[i] == Num(r[i])
  {
    seq(|cells|, i requires 0 <= i < |cells| => cells[i].v)
  }

  /** Only cells of `b` differ. */
  ghost predicate OnlyIn(before: seq<Cell>, after: seq<Cell>, b: Buffer) {
    && |before| == |after|
    && forall i {:trigger after[i]} ::
         0 <= i < |before| && !(b.offset <= i < b.offset + b.length) ==> after[i] == before[i]
  }

  /** `values` written from `at` on. */
  ghost predicate Wrote(before: seq<Cell>, after: seq<Cell>, at: nat, values: seq<Cell>) {
    && |before| == |after|
    && forall i {:trigger after[i]} :: 0 <= i < |before| ==>
         after[i] == if at <= i < at + |values| then values[i - at] else before[i]
  }

  /** Writing the next stretch of `oracle` right after another. */
  lemma WroteStep(before: seq<Cell>, mid: seq<Cell>, after: seq<Cell>, at: nat, oracle: seq<Cell>, start: nat,
      done: nat, n: nat)
    requires start + done + n <= |oracle|
    requires Wrote(before, mid, at, oracle[start..start + done])
    requires Wrote(mid, after, at + done, oracle[start + done..start + done + n])
    ensures Wrote(before, after, at, oracle[start..start + (done + n)])
  {
    assert oracle[start..start + (done + n)] == oracle[start..start + done] + oracle[start + done..start + done + n];
  }

  lemma WroteBoth(before: seq<Cell>, mid: seq<Cell>, after: seq<Cell>, at: nat, first: seq<Cell>, second: seq<Cell>)
    requires Wrote(before, mid, at, first) && Wrote(mid, after, at + |first|, second)
    ensures Wrote(before, after, at, first + second)
  {
  }

  lemma WroteInside(before: seq<Cell>, after: seq<Cell>, at: nat, values: seq<Cell>, b: Buffer)
    requires Wrote(before, after, at, values) &&
      (values == [] || (b.offset <= at && at + |values| <= b.offset + b.length))
    ensures OnlyIn(before, after, b)
  {
  }

  lemma RangeStep(first: nat, a: nat, b: nat)
    ensures Range(first, a) + Range(first + a, b) == Range(first, a + b)
  {
  }

  /** A buffer below `b` is not touched by writes to `b`. */
  lemma KeptBelow(before: seq<Cell>, after: seq<Cell>, x: Buffer, b: Buffer)
    requires OnlyIn(before, after, b) && x.offset + x.length <= b.offset && b.offset <= |before|
    ensures Slice(after, x) == Slice(before, x)
  {
  }

  lemma OnlyInTrans(before: seq<Cell>, mid: seq<Cell>, after: seq<Cell>, b: Buffer)
    requires OnlyIn(before, mid, b) && OnlyIn(mid, after, b)
    ensures OnlyIn(before, after, b)
  {
  }

  /** Consecutive addresses. */
  function Range(first: nat, n: nat): (r: seq<nat>)
    ensures |r| == n && forall i :: 0 <= i < n ==> r[i] == first + i
  {
    seq(n, i => first + i)
  }

  /** Padding lanes that do not change a sum. */
  function Neutral(n: nat): (r: seq<real>)
    ensures |r| == n && forall i :: 0 <= i < n ==> r[i] == 0.0
  {
    seq(n, _ => 0.0)
  }

  class GlobalMemory {
    const cells: array<Cell>
    const encode: real -> real
    var cursor: nat
    var loads: nat
    /** Addresses stored by kernels, in order. */
    var log: seq<nat>

    ghost predicate Valid()
      reads this
    {
      cursor <= cells.Length
    }

    constructor (capacity: nat, encode: real -> real)
      ensures Valid() && fresh(cells) && cells.Length == capacity && cursor == 0 && log == [] && loads == 0
      ensures this.encode == encode && forall i :: 0 <= i < capacity ==> cells[i] == Poison
    {
      cells := new Cell[capacity](_ => Poison);
      this.encode := encode;
      cursor, loads, log := 0, 0, [];
    }

    /** Appends a buffer, or None when it does not fit. */
    method Allocate(values: seq<Cell>) returns (b: Option<Buffer>)
      requires Valid()
      modifies this`cursor, cells
      ensures Valid()
      ensures b.Some? <==> old(cursor) + |values| <= cells.Length
      ensures b.Some? ==> b.value == Buffer(old(cursor), |values|) && cursor == old(cursor) + |values|
      ensures b.Some? ==> Wrote(old(cells[..]), cells[..], old(cursor), values)
      ensures b.None? ==> cursor == old(cursor) && cells[..] == old(cells[..])
    {
      if cursor + |values| > cells.Length { return None; }
      var start := cursor;
      for i := 0 to |values|
        invariant cursor == start
        invariant forall j :: 0 <= j < cells.Length ==>
          cells[j] == if start <= j < start + i then values[j - start] else old(cells[j])
      {
        cells[start + i] := values[i];
      }
      cursor := cursor + |values|;
      b := Some(Buffer(start, |values|));
    }

    method Load(b: Buffer, index: int) returns (r: Option<Cell>)
      requires Inside(b, cells.Length)
      modifies this`loads
      ensures r.Some? <==> 0 <= index < b.length
      ensures r.Some? ==> r.value == cells[b.offset + index] && loads == old(loads) + 1
    {
      if index < 0 || index >= b.length { return None; }
      loads := loads + 1;
      r := Some(cells[b.offset + index]);
    }

    method Store(b: Buffer, index: int, v: real) returns (ok: bool)
      requires Inside(b, cells.Length)
      modifies this`log, cells
      ensures ok <==> 0 <= index < b.length
      ensures ok ==>
        cells[..] == old(cells[..])[b.offset + index := Num(encode(v))] && log == old(log) + [b.offset + index]
      ensures !ok ==> cells[..] == old(cells[..]) && log == old(log)
    {
      if index < 0 || index >= b.length { return false; }
      cells[b.offset + index] := Num(encode(v));
      log := log + [b.offset + index];
      ok := true;
    }

    /** Stages `valid` elements from `first` on and pads with zeros to `count` lanes. */
    method CopyIn(b: Buffer, first: nat, valid: nat, count: nat) returns (r: Option<seq<real>>)
      requires Inside(b, cells.Length) && valid <= count && AllNum(Slice(cells[..], b))
      modifies this`loads
      ensures r.Some? <==> valid == 0 || first + valid <= b.length
      ensures r.Some? && valid > 0 ==>
        r.value == Values(Slice(cells[..], b)[first..first + valid]) + Neutral(count - valid)
      ensures r.Some? && valid == 0 ==> r.value == Neutral(count)
      ensures r.Some? ==> loads == old(loads) + valid
    {
      ghost var stored := Slice(cells[..], b);
      var staged: seq<real> := [];
      for i := 0 to count
        invariant |staged| == i && loads == old(loads) + (if i < valid then i else valid)
        invariant i > 0 && valid > 0 ==> first + (if i < valid then i else valid) <= b.length
        invariant forall k :: 0 <= k < i && k < valid ==> stored[first + k] == Num(staged[k])
        invariant forall k :: valid <= k < i ==> staged[k] == 0.0
      {
        if i < valid {
          var cell := Load(b, first + i);
          if cell.None? { return None; }
          assert cell.value == stored[first + i];
          staged := staged + [cell.value.v];
        } else {
          staged := staged + [0.0];
        }
      }
      r := Some(staged);
      if valid > 0 {
        assert staged == Values(stored[first..first + valid]) + Neutral(count - valid);
      }
    }

    /** Stores `values` from `first` on; on a fault only the buffer itself may have changed. */
    method CopyOut(b: Buffer, first: nat, values: seq<real>) returns (ok: bool)
      requires Inside(b, cells.Length)
      modifies this`log, cells
      ensures ok <==> values == [] || first + |values| <= b.length
      ensures ok && values != [] ==> Wrote(old(cells[..]), cells[..], b.offset + first, Encoded(values))
      ensures ok && values == [] ==> cells[..] == old(cells[..])
      ensures ok ==> log == old(log) + Range(b.offset + first, |values|)
      ensures OnlyIn(old(cells[..]), cells[..], b)
    {
      for i := 0 to |values|
        invariant i > 0 ==> first + i <= b.length
        invariant forall j :: 0 <= j < cells.Length ==>
          var k := j - b.offset - first;
          cells[j] == if 0 <= k < i then Encoded(values)[k] else old(cells[j])
        invariant log == old(log) + Range(b.offset + first, i)
      {
        var stored := Store(b, first + i, values[i]);
        if !stored { return false; }
        assert Range(b.offset + first, i + 1) == Range(b.offset + first, i) + [b.offset + first + i];
      }
      ok := true;
    }

    function Encoded(values: seq<real>): (r: seq<Cell>)
      ensures |r| == |values| && forall i :: 0 <= i < |r| ==> r[i] == Num(encode(values[i]))
    {
      seq(|values|, i requires 0 <= i < |values| => Num(encode(values[i])))
    }
  }

  // ---- the on-chip buffer ----

  datatype Role = AddLeft | AddRight | AddOut | RowIn | RowSum | NormIn | NormOut | NormSquare | NormKeep

  datatype Tag = Tag(role: Role, core: nat, slot: nat)

  type Live = seq<(Tag, nat)>

  function InUse(live: Live): nat {
    if live == [] then 0 else InUse(live[..|live| - 1]) + live[|live| - 1].1
  }

  predicate IsLive(live: Live, tag: Tag) {
    exists i :: 0 <= i < |live| && live[i].0 == tag
  }

  ghost predicate DistinctTags(live: Live) {
    forall i, j :: 0 <= i < j < |live| ==> live[i].0 != live[j].0
  }

  /** Everything but `tag`. */
  function Without(live: Live, tag: Tag): Live {
    if live == [] then []
    else
      var last := live[|live| - 1];
      Without(live[..|live| - 1], tag) + (if last.0 == tag then [] else [last])
  }

  lemma {:induction false} WithoutIsLive(live: Live, tag: Tag, other: Tag)
    ensures IsLive(Without(live, tag), other) <==> IsLive(live, other) && other != tag
    decreases |live|
  {
    if live != [] {
      var init, last := live[..|live| - 1], live[|live| - 1];
      WithoutIsLive(init, tag, other);
      var w := Without(init, tag);
      assert IsLive(live, other) <==> IsLive(init, other) || last.0 == other by {
        if IsLive(live, other) {
          var i :| 0 <= i < |live| && live[i].0 == other;
          if i < |init| { assert init[i].0 == other; }
        }
        if IsLive(init, other) { var i :| 0 <= i < |init| && init[i].0 == other; assert live[i].0 == other; }
        assert live[|live| - 1].0 == last.0;
      }
      if last.0 != tag {
        assert IsLive(w + [last], other) <==> IsLive(w, other) || last.0 == other by {
          if IsLive(w, other) { var i :| 0 <= i < |w| && w[i].0 == other; assert (w + [last])[i].0 == other; }
          assert (w + [last])[|w|].0 == last.0;
        }
      } else {
        assert w + [] == w;
      }
    }
  }

  lemma NoneLive(live: Live)
    ensures live == [] <==> forall tag :: !IsLive(live, tag)
  {
    if live != [] { assert IsLive(live, live[0].0); }
  }

  class OnChip {
    const usable: nat
    var live: Live
    var highWater: nat

    constructor (usable: nat)
      ensures this.usable == usable && live == [] && highWater == 0
    {
      this.usable := usable;
      live, highWater := [], 0;
    }

    method Allocate(tag: Tag, bytes: nat) returns (ok: bool)
      modifies this`live, this`highWater
      ensures ok <==> !IsLive(old(live), tag) && InUse(old(live)) + bytes <= usable
      ensures ok ==> live == old(live) + [(tag, bytes)]
      ensures ok ==> highWater == if old(highWater) < InUse(live) then InUse(live) else old(highWater)
      ensures !ok ==> live == old(live) && highWater == old(highWater)
    {
      if IsLive(live, tag) || InUse(live) + bytes > usable { return false; }
      live := live + [(tag, bytes)];
      assert live[..|live| - 1] == old(live);
      highWater := if highWater < InUse(live) then InUse(live) else highWater;
      ok := true;
    }

    method Free(tag: Tag) returns (ok: bool)
      modifies this`live
      ensures ok <==> IsLive(old(live), tag)
      ensures ok ==> live == Without(old(live), tag)
      ensures !ok ==> live == old(live)
    {
      if !IsLive(live, tag) { return false; }
      live := Without(live, tag);
      ok := true;
    }

    /** Allocates a core's whole plan on an empty buffer: it succeeds exactly when the plan fits. */
    method Acquire(plan: Live) returns (ok: bool)
      requires live == [] && DistinctTags(plan)
      modifies this`live, this`highWater
      ensures ok <==> InUse(plan) <= usable || plan == []
      ensures ok ==> live == plan && highWater == if old(highWater) < InUse(plan) then InUse(plan) else old(highWater)
      ensures !ok ==> plan != [] && highWater <= (if old(highWater) < usable then usable else old(highWater))
    {
      for i := 0 to |plan|
        invariant live == plan[..i]
        invariant i > 0 ==> InUse(plan[..i]) <= usable
        invariant highWater == if old(highWater) < InUse(plan[..i]) then InUse(plan[..i]) else old(highWater)
      {
        assert plan[..i + 1] == plan[..i] + [plan[i]];
        assert plan[..i + 1][..i] == plan[..i];
        assert !IsLive(live, plan[i].0);
        var done := Allocate(plan[i].0, plan[i].1);
        if !done {
          BytesOfPrefix(plan, i + 1);
          return false;
        }
      }
      assert plan[..|plan|] == plan;
      ok := true;
    }

    /** Frees a set of tags, in any order; nothing is left when they were all that lived. */
    method Drop(tags: seq<Tag>) returns (ok: bool)
      requires forall i, j :: 0 <= i < j < |tags| ==> tags[i] != tags[j]
      requires forall tag :: tag in tags <==> IsLive(live, tag)
      modifies this`live
      ensures ok && live == []
    {
      for i := 0 to |tags|
        invariant forall tag :: IsLive(live, tag) <==> tag in tags[i..]
      {
        assert tags[i] in tags[i..];
        ghost var before := live;
        var done := Free(tags[i]);
        if !done { return false; }
        forall tag ensures IsLive(live, tag) <==> tag in tags[i + 1..] {
          WithoutIsLive(before, tags[i], tag);
          assert tags[i..] == [tags[i]] + tags[i + 1..];
        }
      }
      NoneLive(live);
      ok := true;
    }
  }

  lemma {:induction false} BytesOfPrefix(plan: Live, n: nat)
    requires n <= |plan|
    ensures InUse(plan[..n]) <= InUse(plan)
    decreases |plan| - n
  {
    if n == |plan| {
      assert plan[..n] == plan;
    } else {
      BytesOfPrefix(plan, n + 1);
      assert plan[..n + 1][..n] == plan[..n];
    }
  }

  lemma {:induction false} InUseConcat(a: Live, b: Live)
    ensures InUse(a + b) == InUse(a) + InUse(b)
    decreases |b|
  {
    if b == [] {
      assert a + b == a;
    } else {
      assert (a + b)[..|a + b| - 1] == a + b[..|b| - 1];
      InUseConcat(a, b[..|b| - 1]);
    }
  }

  lemma InUseOne(tag: Tag, bytes: nat)
    ensures InUse([(tag, bytes)]) == bytes
  {
    assert [(tag, bytes)][..0] == [];
  }

  // ---- queues ----

  class Queue<T> {
    const depth: nat
    var items: seq<T>
    var enqueued: nat
    var dequeued: nat
    var blocked: nat
    var underflows: nat

    constructor (depth: nat)
      ensures this.depth == depth && items == [] && enqueued == dequeued == blocked == underflows == 0
    {
      this.depth := depth;
      items, enqueued, dequeued, blocked, underflows := [], 0, 0, 0, 0;
    }

    method Enqueue(item: T) returns (ok: bool)
      modifies this`items, this`enqueued, this`blocked
      ensures ok <==> |old(items)| < depth
      ensures ok ==> items == old(items) + [item] && enqueued == old(enqueued) + 1 && blocked == old(blocked)
      ensures !ok ==> items == old(items) && enqueued == old(enqueued) && blocked == old(blocked) + 1
    {
      if |items| >= depth {
        blocked := blocked + 1;
        return false;
      }
      items, enqueued := items + [item], enqueued + 1;
      ok := true;
    }

    method Dequeue() returns (r: Option<T>)
      modifies this`items, this`dequeued, this`underflows
      ensures r.Some? <==> old(items) != []
      ensures r.Some? ==>
        && r.value == old(items)[0] && items == old(items)[1..]
        && dequeued == old(dequeued) + 1 && underflows == old(underflows)
      ensures r.None? ==> items == old(items) && dequeued == old(dequeued) && underflows == old(underflows) + 1
    {
      if items == [] {
        underflows := underflows + 1;
        return None;
      }
      r := Some(items[0]);
      items, dequeued := items[1..], dequeued + 1;
    }
  }
}
