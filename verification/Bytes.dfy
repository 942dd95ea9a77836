/** Little-endian records without padding. */
module Bytes {
  import opened Options

  type Byte = n: nat | n < 256

  function Pow256(k: nat): (p: nat)
    ensures p >= 1
  {
    if k == 0 then 1 else 256 * Pow256(k - 1)
  }

  function LittleEndian(v: nat, k: nat): (b: seq<Byte>)
    ensures |b| == k
    decreases k
  {
    if k == 0 then [] else [v % 256] + LittleEndian(v / 256, k - 1)
  }

  function Value(b: seq<Byte>): nat {
    if b == [] then 0 else b[0] + 256 * Value(b[1..])
  }

  /** A number that fits `k` bytes survives being written and read. */
  lemma {:induction false} ValueOfLittleEndian(v: nat, k: nat)
    requires v < Pow256(k)
    ensures Value(LittleEndian(v, k)) == v
    decreases k
  {
    if k > 0 {
      var b := LittleEndian(v, k);
      assert b[1..] == LittleEndian(v / 256, k - 1);
      ValueOfLittleEndian(v / 256, k - 1);
    }
  }

  /** Bytes survive being read and written, and their value fits. */
  lemma {:induction false} LittleEndianOfValue(b: seq<Byte>)
    ensures LittleEndian(Value(b), |b|) == b && Value(b) < Pow256(|b|)
    decreases |b|
  {
    if b != [] {
      LittleEndianOfValue(b[1..]);
      var v, rest := Value(b), Value(b[1..]);
      assert v % 256 == b[0] && v / 256 == rest;
      assert b == [b[0]] + b[1..];
    }
  }

  /** The first byte is the least significant one. */
  lemma {:induction false} ValueConcat(a: seq<Byte>, b: seq<Byte>)
    ensures |a| == 1 ==> Value(a) == a[0]
    ensures Value(a + b) == Value(a) + Pow256(|a|) * Value(b)
    decreases |a|
  {
    if a == [] {
      assert a + b == b;
    } else {
      var rest, p := a[1..], Pow256(|a| - 1);
      ValueConcat(rest, b);
      assert (a + b)[1..] == rest + b;
      Spread(Value(rest), p, Value(b));
    }
  }

  lemma Spread(low: int, p: int, high: int)
    ensures 256 * (low + p * high) == 256 * low + (256 * p) * high
  {
  }

  // ---- records: one unsigned field per width ----

  function Size(widths: seq<nat>): nat {
    if widths == [] then 0 else widths[0] + Size(widths[1..])
  }

  predicate FitsWidths(values: seq<int>, widths: seq<nat>) {
    |values| == |widths| && forall i :: 0 <= i < |values| ==> 0 <= values[i] < Pow256(widths[i])
  }

  /** The record, or None where a value does not fit its field. */
  function Pack(values: seq<int>, widths: seq<nat>): Option<seq<Byte>> {
    if FitsWidths(values, widths) then Some(Concat(values, widths)) else None
  }

  function Concat(values: seq<int>, widths: seq<nat>): (b: seq<Byte>)
    requires FitsWidths(values, widths)
    ensures |b| == Size(widths)
    decreases |values|
  {
    if values == [] then [] else LittleEndian(values[0], widths[0]) + Concat(values[1..], widths[1..])
  }

  function Unpack(b: seq<Byte>, widths: seq<nat>): (values: seq<int>)
    requires |b| == Size(widths)
    ensures |values| == |widths|
    decreases |widths|
  {
    if widths == [] then [] else [Value(b[..widths[0]])] + Unpack(b[widths[0]..], widths[1..])
  }

  /** Field `i` is what its bytes, which start after those of the fields before it, are worth. */
  lemma {:induction false} UnpackAt(b: seq<Byte>, widths: seq<nat>, i: nat, start: nat, field: seq<Byte>)
    requires |b| == Size(widths) && i < |widths| && start == Size(widths[..i])
    requires start + widths[i] <= |b| && field == b[start..start + widths[i]]
    ensures Unpack(b, widths)[i] == Value(field)
    decreases i
  {
    if i == 0 {
      assert widths[..0] == [];
    } else {
      PrefixSize(widths, i);
      Stretch(b, widths[0], start - widths[0], widths[i]);
      UnpackAt(b[widths[0]..], widths[1..], i - 1, start - widths[0], field);
      UnpackNext(b, widths, i);
    }
  }

  /** The bytes of a field lie inside the record. */
  lemma {:induction false} FieldInside(widths: seq<nat>, i: nat)
    requires i < |widths|
    ensures Size(widths[..i]) + widths[i] <= Size(widths)
    decreases i
  {
    if i == 0 {
      assert widths[..0] == [];
    } else {
      PrefixSize(widths, i);
      FieldInside(widths[1..], i - 1);
    }
  }

  lemma UnpackNext(b: seq<Byte>, widths: seq<nat>, i: nat)
    requires |b| == Size(widths) && 0 < i < |widths|
    ensures Unpack(b, widths)[i] == Unpack(b[widths[0]..], widths[1..])[i - 1]
  {
  }

  lemma PrefixSize(widths: seq<nat>, i: nat)
    requires 0 < i <= |widths|
    ensures Size(widths[..i]) == widths[0] + Size(widths[1..][..i - 1])
  {
    assert widths[..i][1..] == widths[1..][..i - 1];
  }

  lemma Stretch(b: seq<Byte>, skip: nat, start: nat, n: nat)
    requires skip + start + n <= |b|
    ensures b[skip..][start..start + n] == b[skip + start..skip + start + n]
  {
  }

  lemma {:induction false} UnpackConcat(values: seq<int>, widths: seq<nat>)
    requires FitsWidths(values, widths)
    ensures Unpack(Concat(values, widths), widths) == values
    decreases |values|
  {
    if values != [] {
      var head, tail := LittleEndian(values[0], widths[0]), Concat(values[1..], widths[1..]);
      var b := Concat(values, widths);
      assert b == head + tail;
      assert b[..widths[0]] == head && b[widths[0]..] == tail;
      ValueOfLittleEndian(values[0], widths[0]);
      UnpackConcat(values[1..], widths[1..]);
      assert values == [values[0]] + values[1..];
    }
  }

  lemma FitsCons(values: seq<int>, widths: seq<nat>)
    requires values != [] && widths != []
    requires 0 <= values[0] < Pow256(widths[0]) && FitsWidths(values[1..], widths[1..])
    ensures FitsWidths(values, widths)
  {
    forall i | 0 <= i < |values| ensures 0 <= values[i] < Pow256(widths[i]) {
      if i > 0 { assert values[i] == values[1..][i - 1] && widths[i] == widths[1..][i - 1]; }
    }
  }

  lemma {:induction false} ConcatUnpack(b: seq<Byte>, widths: seq<nat>)
    requires |b| == Size(widths)
    ensures FitsWidths(Unpack(b, widths), widths)
    ensures Concat(Unpack(b, widths), widths) == b
    decreases |widths|
  {
    if widths != [] {
      var head, tail := b[..widths[0]], b[widths[0]..];
      LittleEndianOfValue(head);
      ConcatUnpack(tail, widths[1..]);
      var values := Unpack(b, widths);
      assert values[1..] == Unpack(tail, widths[1..]);
      FitsCons(values, widths);
      assert b == head + tail;
    }
  }
}
