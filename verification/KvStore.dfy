/**
 * What both key/value stores stand for: per request, the cells of its tokens.
 * A cell is everything stored for one token position (both components, all
 * layers and heads), since every copy moves those together.
 */
module KvViews {

  function Max(s: seq<nat>): (m: nat)
    requires s != []
    ensures m in s && forall i :: 0 <= i < |s| ==> s[i] <= m
  {
    if |s| == 1 then s[0]
    else
      var rest := Max(s[1..]);
      assert forall i :: 1 <= i < |s| ==> s[i] == s[1..][i - 1];
      if rest < s[0] then s[0] else rest
  }

  /** The sum of the first `n` numbers. */
  function SumFirst(s: seq<nat>, n: nat): nat
    requires n <= |s|
  {
    if n == 0 then 0 else SumFirst(s, n - 1) + s[n - 1]
  }

  function Sum(s: seq<nat>): nat { SumFirst(s, |s|) }

  /** If the largest number is zero, so is the sum. */
  lemma {:induction false} ZeroSum(s: seq<nat>, n: nat)
    requires n <= |s| && s != [] && Max(s) == 0
    ensures SumFirst(s, n) == 0
    decreases n
  {
    if n > 0 { ZeroSum(s, n - 1); }
  }

  function Zeros<Cell>(zero: Cell, n: nat): (s: seq<Cell>)
    ensures |s| == n && forall i :: 0 <= i < n ==> s[i] == zero
  {
    seq(n, _ => zero)
  }

  function PadLeft<Cell>(zero: Cell, width: nat, row: seq<Cell>): seq<Cell>
    requires |row| <= width
  {
    Zeros(zero, width - |row|) + row
  }

  /** The arguments of one call: distinct requests, one length and one addition each. */
  ghost predicate Call<Id>(ids: seq<Id>, lengths: seq<nat>) {
    && ids != [] && |ids| == |lengths|
    && forall i, j :: 0 <= i < j < |ids| ==> ids[i] != ids[j]
  }

  /** The cells of a request, none if it is unknown. */
  function CellsOf<Id, Cell>(view: map<Id, seq<Cell>>, id: Id): seq<Cell> {
    if id in view then view[id] else []
  }

  /** The caller's idea of every length is the stored one. */
  ghost predicate Current<Id, Cell>(view: map<Id, seq<Cell>>, ids: seq<Id>, lengths: seq<nat>)
    requires |ids| == |lengths|
  {
    forall i :: 0 <= i < |ids| ==> |CellsOf(view, ids[i])| == lengths[i]
  }

  /** A request can be packed if its nonzero length is the stored one. */
  ghost predicate CanPack<Id, Cell>(view: map<Id, seq<Cell>>, id: Id, length: nat) {
    length > 0 ==> id in view && |view[id]| == length
  }

  ghost predicate Packable<Id, Cell>(view: map<Id, seq<Cell>>, ids: seq<Id>, lengths: seq<nat>)
    requires |ids| == |lengths|
  {
    forall i :: 0 <= i < |ids| ==> CanPack(view, ids[i], lengths[i])
  }

  /** One left-padded, zero-filled row; all zeros for a zero length. */
  ghost function PackedRow<Id, Cell>(view: map<Id, seq<Cell>>, id: Id, length: nat, zero: Cell, width: nat): seq<Cell>
    requires CanPack(view, id, length) && length <= width
  {
    PadLeft(zero, width, if length == 0 then [] else view[id])
  }

  /** The whole batch; no batch at all when every length is zero. */
  ghost function Packed<Id, Cell>(view: map<Id, seq<Cell>>, ids: seq<Id>, lengths: seq<nat>, zero: Cell,
      width: nat): seq<seq<Cell>>
    requires |ids| == |lengths| && Packable(view, ids, lengths)
    requires forall i :: 0 <= i < |lengths| ==> lengths[i] <= width
  {
    if width == 0 then []
    else seq(|ids|, i requires 0 <= i < |ids| => PackedRow(view, ids[i], lengths[i], zero, width))
  }

  /** The first `i` rows of the batch are packed. */
  ghost predicate PackedUpTo<Id, Cell>(view: map<Id, seq<Cell>>, ids: seq<Id>, lengths: seq<nat>, zero: Cell,
      width: nat, packed: seq<seq<Cell>>, i: nat)
    requires i <= |ids| == |lengths| && forall k :: 0 <= k < |lengths| ==> lengths[k] <= width
  {
    if i == 0 then packed == []
    else
      && |packed| == i && PackedUpTo(view, ids, lengths, zero, width, packed[..i - 1], i - 1)
      && CanPack(view, ids[i - 1], lengths[i - 1])
      && packed[i - 1] == PackedRow(view, ids[i - 1], lengths[i - 1], zero, width)
  }

  lemma {:induction false} PackedIs<Id, Cell>(view: map<Id, seq<Cell>>, ids: seq<Id>, lengths: seq<nat>, zero: Cell,
      width: nat, packed: seq<seq<Cell>>, i: nat)
    requires i <= |ids| == |lengths| && forall k :: 0 <= k < |lengths| ==> lengths[k] <= width
    requires PackedUpTo(view, ids, lengths, zero, width, packed, i)
    ensures |packed| == i && forall k :: 0 <= k < i ==>
      CanPack(view, ids[k], lengths[k]) && packed[k] == PackedRow(view, ids[k], lengths[k], zero, width)
    decreases i
  {
    if i > 0 { PackedIs(view, ids, lengths, zero, width, packed[..i - 1], i - 1); }
  }

  lemma PackedAll<Id, Cell>(view: map<Id, seq<Cell>>, ids: seq<Id>, lengths: seq<nat>, zero: Cell, width: nat,
      packed: seq<seq<Cell>>)
    requires 0 < width && |ids| == |lengths| && forall k :: 0 <= k < |lengths| ==> lengths[k] <= width
    requires PackedUpTo(view, ids, lengths, zero, width, packed, |ids|)
    ensures Packable(view, ids, lengths) && packed == Packed(view, ids, lengths, zero, width)
  {
    PackedIs(view, ids, lengths, zero, width, packed, |ids|);
  }

  lemma PackedUpToStep<Id, Cell>(view: map<Id, seq<Cell>>, ids: seq<Id>, lengths: seq<nat>, zero: Cell, width: nat,
      packed: seq<seq<Cell>>, i: nat, row: seq<Cell>)
    requires i < |ids| == |lengths| && forall k :: 0 <= k < |lengths| ==> lengths[k] <= width
    requires PackedUpTo(view, ids, lengths, zero, width, packed, i)
    requires CanPack(view, ids[i], lengths[i]) && row == PackedRow(view, ids[i], lengths[i], zero, width)
    ensures PackedUpTo(view, ids, lengths, zero, width, packed + [row], i + 1)
  {
    PackedIs(view, ids, lengths, zero, width, packed, i);
    assert (packed + [row])[..i] == packed;
  }

  /** A cache row per request, with `past` columns for stored positions and `query` for new ones. */
  ghost predicate Fits<Id, Cell>(ids: seq<Id>, lengths: seq<nat>, additions: seq<nat>, rows: seq<seq<Cell>>,
      past: nat, query: nat) {
    && Call(ids, lengths) && |additions| == |rows| == |ids|
    && forall i :: 0 <= i < |rows| ==> lengths[i] <= past && additions[i] <= query && |rows[i]| == past + query
  }

  /** The new cells of a row are its last `added` ones. */
  function Fresh<Cell>(row: seq<Cell>, added: nat): seq<Cell>
    requires added <= |row|
  {
    row[|row| - added..]
  }

  /** The past a row carries: `count` cells ending where the new positions start. */
  function Past<Cell>(row: seq<Cell>, past: nat, count: nat): seq<Cell>
    requires count <= past <= |row|
  {
    row[past - count..past]
  }

  lemma CompactIs<Cell>(row: seq<Cell>, past: nat, query: nat, count: nat, added: nat)
    requires count <= past && added <= query && |row| == past + query
    ensures row[past - count..past] == Past(row, past, count)
    ensures row[past + query - added..past + query] == Fresh(row, added)
  {
  }

  /** The view after writing the first `n` rows one by one. */
  ghost function Put<Id, Cell>(view: map<Id, seq<Cell>>, ids: seq<Id>, rows: seq<seq<Cell>>, n: nat): map<Id, seq<Cell>>
    requires n <= |ids| == |rows|
  {
    if n == 0 then view else Put(view, ids, rows, n - 1)[ids[n - 1] := rows[n - 1]]
  }

  /** What is stored for each request, followed by its new cells. */
  ghost function Appended<Id, Cell>(view: map<Id, seq<Cell>>, ids: seq<Id>, lengths: seq<nat>, additions: seq<nat>,
      rows: seq<seq<Cell>>, past: nat, query: nat): (r: seq<seq<Cell>>)
    requires Fits(ids, lengths, additions, rows, past, query)
    ensures |r| == |ids|
  {
    seq(|ids|, i requires 0 <= i < |ids| => CellsOf(view, ids[i]) + Fresh(rows[i], additions[i]))
  }

  /** The past each cache row carries, followed by its new cells. */
  ghost function Replaced<Id, Cell>(ids: seq<Id>, lengths: seq<nat>, additions: seq<nat>, rows: seq<seq<Cell>>,
      past: nat, query: nat): (r: seq<seq<Cell>>)
    requires Fits(ids, lengths, additions, rows, past, query)
    ensures |r| == |ids|
  {
    seq(|ids|, i requires 0 <= i < |ids| => Past(rows[i], past, lengths[i]) + Fresh(rows[i], additions[i]))
  }

  /** The cache rows carry exactly the stored past of every request. */
  ghost predicate Carries<Id, Cell>(view: map<Id, seq<Cell>>, ids: seq<Id>, lengths: seq<nat>, additions: seq<nat>,
      rows: seq<seq<Cell>>, past: nat, query: nat)
    requires Fits(ids, lengths, additions, rows, past, query)
  {
    forall i :: 0 <= i < |ids| ==> Past(rows[i], past, lengths[i]) == CellsOf(view, ids[i])
  }

  /** Distinct requests do not overwrite each other, and nobody else's row changes. */
  lemma {:induction false} PutIsPointwise<Id, Cell>(view: map<Id, seq<Cell>>, ids: seq<Id>, rows: seq<seq<Cell>>,
      n: nat)
    requires n <= |ids| == |rows| && forall i, j :: 0 <= i < j < |ids| ==> ids[i] != ids[j]
    ensures forall i :: 0 <= i < n ==> ids[i] in Put(view, ids, rows, n) && Put(view, ids, rows, n)[ids[i]] == rows[i]
    ensures forall id :: id !in ids[..n] ==>
      CellsOf(Put(view, ids, rows, n), id) == CellsOf(view, id) && (id in Put(view, ids, rows, n) <==> id in view)
    decreases n
  {
    if n > 0 {
      PutIsPointwise(view, ids, rows, n - 1);
      assert ids[..n] == ids[..n - 1] + [ids[n - 1]];
    }
  }

  lemma PutAll<Id, Cell>(view: map<Id, seq<Cell>>, ids: seq<Id>, rows: seq<seq<Cell>>, id: Id)
    requires |ids| == |rows| && forall i, j :: 0 <= i < j < |ids| ==> ids[i] != ids[j]
    ensures forall i :: 0 <= i < |ids| && ids[i] == id ==> CellsOf(Put(view, ids, rows, |ids|), id) == rows[i]
    ensures id !in ids ==> CellsOf(Put(view, ids, rows, |ids|), id) == CellsOf(view, id)
  {
    PutIsPointwise(view, ids, rows, |ids|);
    assert ids[..|ids|] == ids;
  }

  /** Putting the appended rows one by one appends to what is there. */
  lemma PutNext<Id, Cell>(view: map<Id, seq<Cell>>, ids: seq<Id>, lengths: seq<nat>, additions: seq<nat>,
      rows: seq<seq<Cell>>, past: nat, query: nat, i: nat)
    requires Fits(ids, lengths, additions, rows, past, query) && i < |ids|
    ensures var appended := Appended(view, ids, lengths, additions, rows, past, query);
      var before := Put(view, ids, appended, i);
      Put(view, ids, appended, i + 1)
        == before[ids[i] := CellsOf(before, ids[i]) + rows[i][past + query - additions[i]..past + query]]
  {
    PutIsPointwise(view, ids, Appended(view, ids, lengths, additions, rows, past, query), i);
    assert rows[i][past + query - additions[i]..past + query] == Fresh(rows[i], additions[i]);
  }

  /** Views that grow by one request each. */
  ghost predicate Stages<Id, Cell>(stages: seq<map<Id, seq<Cell>>>, ids: seq<Id>, additions: seq<nat>,
      rows: seq<seq<Cell>>, past: nat, query: nat)
    requires |additions| == |rows| == |ids| && forall i :: 0 <= i < |rows| ==>
      additions[i] <= query && |rows[i]| == past + query
  {
    |stages| == |ids| + 1 && forall i :: 0 <= i < |ids| ==>
      stages[i + 1] == stages[i][ids[i] :=
        CellsOf(stages[i], ids[i]) + rows[i][past + query - additions[i]..past + query]]
  }

  ghost function StagesOf<Id, Cell>(view: map<Id, seq<Cell>>, ids: seq<Id>, lengths: seq<nat>, additions: seq<nat>,
      rows: seq<seq<Cell>>, past: nat, query: nat): (r: seq<map<Id, seq<Cell>>>)
    requires Fits(ids, lengths, additions, rows, past, query)
    ensures |r| == |ids| + 1
    ensures forall i :: 0 <= i <= |ids| ==>
      r[i] == Put(view, ids, Appended(view, ids, lengths, additions, rows, past, query), i)
  {
    seq(|ids| + 1, i requires 0 <= i <= |ids| =>
      Put(view, ids, Appended(view, ids, lengths, additions, rows, past, query), i))
  }

  lemma StagesAreSteps<Id, Cell>(view: map<Id, seq<Cell>>, ids: seq<Id>, lengths: seq<nat>, additions: seq<nat>,
      rows: seq<seq<Cell>>, past: nat, query: nat)
    requires Fits(ids, lengths, additions, rows, past, query)
    ensures var stages := StagesOf(view, ids, lengths, additions, rows, past, query);
      && Stages(stages, ids, additions, rows, past, query) && stages[0] == view
      && stages[|ids|] == Put(view, ids, Appended(view, ids, lengths, additions, rows, past, query), |ids|)
  {
    var stages := StagesOf(view, ids, lengths, additions, rows, past, query);
    forall i | 0 <= i < |ids|
      ensures stages[i + 1] == stages[i][ids[i] :=
        CellsOf(stages[i], ids[i]) + rows[i][past + query - additions[i]..past + query]]
    {
      StageNext(view, ids, lengths, additions, rows, past, query, i, stages[i], stages[i + 1]);
    }
  }

  lemma StageNext<Id, Cell>(view: map<Id, seq<Cell>>, ids: seq<Id>, lengths: seq<nat>, additions: seq<nat>,
      rows: seq<seq<Cell>>, past: nat, query: nat, i: nat, before: map<Id, seq<Cell>>, after: map<Id, seq<Cell>>)
    requires Fits(ids, lengths, additions, rows, past, query) && i < |ids|
    requires before == Put(view, ids, Appended(view, ids, lengths, additions, rows, past, query), i)
    requires after == Put(view, ids, Appended(view, ids, lengths, additions, rows, past, query), i + 1)
    ensures after ==
      before[ids[i] := CellsOf(before, ids[i]) + rows[i][past + query - additions[i]..past + query]]
  {
    PutNext(view, ids, lengths, additions, rows, past, query, i);
  }

  lemma PutEqual<Id, Cell>(view: map<Id, seq<Cell>>, ids: seq<Id>, a: seq<seq<Cell>>, b: seq<seq<Cell>>)
    requires |ids| == |a| == |b| && forall i, j :: 0 <= i < j < |ids| ==> ids[i] != ids[j]
    ensures Put(view, ids, a, |ids|) == Put(view, ids, b, |ids|) <==> a == b
  {
    if Put(view, ids, a, |ids|) == Put(view, ids, b, |ids|) {
      PutIsPointwise(view, ids, a, |ids|);
      PutIsPointwise(view, ids, b, |ids|);
      assert forall i :: 0 <= i < |ids| ==> a[i] == Put(view, ids, a, |ids|)[ids[i]] == b[i];
    }
  }

  lemma SameHead<Cell>(a: seq<Cell>, b: seq<Cell>, tail: seq<Cell>)
    requires |a| == |b|
    ensures a + tail == b + tail <==> a == b
  {
    assert a == (a + tail)[..|a|] && b == (b + tail)[..|b|];
  }

  /** The two ways to commit agree exactly when the cache carries the stored past. */
  lemma CommitsAgree<Id, Cell>(view: map<Id, seq<Cell>>, ids: seq<Id>, lengths: seq<nat>, additions: seq<nat>,
      rows: seq<seq<Cell>>, past: nat, query: nat)
    requires Fits(ids, lengths, additions, rows, past, query) && Current(view, ids, lengths)
    ensures Put(view, ids, Appended(view, ids, lengths, additions, rows, past, query), |ids|)
         == Put(view, ids, Replaced(ids, lengths, additions, rows, past, query), |ids|)
       <==> Carries(view, ids, lengths, additions, rows, past, query)
  {
    var a, r := Appended(view, ids, lengths, additions, rows, past, query),
      Replaced(ids, lengths, additions, rows, past, query);
    PutEqual(view, ids, a, r);
    forall i | 0 <= i < |ids| ensures a[i] == r[i] <==> Past(rows[i], past, lengths[i]) == CellsOf(view, ids[i]) {
      SameHead(CellsOf(view, ids[i]), Past(rows[i], past, lengths[i]), Fresh(rows[i], additions[i]));
    }
    assert a == r <==> forall i :: 0 <= i < |ids| ==> a[i] == r[i];
  }

  /** A forward pass keeps the packed columns and appends one column per new position. */
  ghost predicate Extends<Cell>(packed: seq<seq<Cell>>, rows: seq<seq<Cell>>, past: nat) {
    (past > 0 ==> |packed| == |rows|) &&
    forall i :: 0 <= i < |rows| ==> past <= |rows[i]| && (past > 0 ==> rows[i][..past] == packed[i])
  }

  lemma ExtendingCarries<Id, Cell>(view: map<Id, seq<Cell>>, ids: seq<Id>, lengths: seq<nat>, additions: seq<nat>,
      rows: seq<seq<Cell>>, past: nat, query: nat, zero: Cell)
    requires Fits(ids, lengths, additions, rows, past, query) && Current(view, ids, lengths) &&
      Packable(view, ids, lengths)
    requires Extends(Packed(view, ids, lengths, zero, past), rows, past)
    ensures Carries(view, ids, lengths, additions, rows, past, query)
  {
    forall i | 0 <= i < |ids| ensures Past(rows[i], past, lengths[i]) == CellsOf(view, ids[i]) {
      if lengths[i] > 0 {
        var row := CellsOf(view, ids[i]);
        assert rows[i][..past] == PadLeft(zero, past, row);
        assert Past(rows[i], past, lengths[i]) == rows[i][..past][past - lengths[i]..];
      }
    }
  }
}

/** Independent compact rows. */
module DenseStore {
  import opened Options
  import opened KvViews

  class DenseKV<Id(==,!new), Cell> {
    const zero: Cell
    var rows: map<Id, seq<Cell>>

    constructor (zero: Cell)
      ensures rows == map[] && this.zero == zero
    {
      this.zero, rows := zero, map[];
    }

    method Pack(ids: seq<Id>, lengths: seq<nat>) returns (r: Option<seq<seq<Cell>>>, copied: nat)
      requires Call(ids, lengths)
      ensures r.Some? <==> Packable(rows, ids, lengths)
      ensures r.Some? ==> r.value == Packed(rows, ids, lengths, zero, Max(lengths)) && copied == Sum(lengths)
    {
      copied := 0;
      var width := Max(lengths);
      if width == 0 {
        ZeroSum(lengths, |lengths|);
        return Some([]), 0;
      }
      var packed: seq<seq<Cell>> := [];
      for i := 0 to |ids|
        invariant PackedUpTo(rows, ids, lengths, zero, width, packed, i) && copied == SumFirst(lengths, i)
      {
        var row := PackOne(ids[i], lengths[i], width);
        if row.None? { return None, copied; }
        copied := copied + lengths[i];
        PackedUpToStep(rows, ids, lengths, zero, width, packed, i, row.value);
        packed := packed + [row.value];
      }
      PackedAll(rows, ids, lengths, zero, width, packed);
      r := Some(packed);
    }

    /** The batch row of one request; None where the lookup or the length check raises. */
    method PackOne(id: Id, length: nat, width: nat) returns (r: Option<seq<Cell>>)
      requires length <= width
      ensures r.Some? <==> CanPack(rows, id, length)
      ensures r.Some? ==> r.value == PackedRow(rows, id, length, zero, width)
    {
      var row := Zeros(zero, width);
      if length > 0 {
        if id !in rows || |rows[id]| != length { return None; }
        row := row[..width - length] + rows[id];
      }
      assert row == PackedRow(rows, id, length, zero, width);
      r := Some(row);
    }

    /** Keeps each request's past and new cells; a layer that is not dynamic raises on the first request. */
    method Commit(dynamic: bool, cache: seq<seq<Cell>>, ids: seq<Id>, lengths: seq<nat>, additions: seq<nat>)
        returns (ok: bool, copied: nat)
      requires lengths != [] && additions != [] && Fits(ids, lengths, additions, cache, Max(lengths), Max(additions))
      modifies this`rows
      ensures ok == dynamic && (!ok ==> rows == old(rows))
      ensures ok ==>
        var replaced := Replaced(ids, lengths, additions, cache, Max(lengths), Max(additions));
        rows == Put(old(rows), ids, replaced, |ids|) && copied == Sum(lengths) + Sum(additions)
    {
      var past, query := Max(lengths), Max(additions);
      ghost var before, replaced := rows, Replaced(ids, lengths, additions, cache, past, query);
      copied := 0;
      for i := 0 to |ids|
        invariant rows == Put(before, ids, replaced, i) && (i > 0 ==> dynamic)
        invariant copied == SumFirst(lengths, i) + SumFirst(additions, i)
      {
        if !dynamic { return false, copied; }
        var compact := cache[i][past - lengths[i]..past] + cache[i][past + query - additions[i]..past + query];
        CompactIs(cache[i], past, query, lengths[i], additions[i]);
        assert replaced[i] == compact;
        rows := rows[ids[i] := compact];
        copied := copied + |compact|;
      }
      ok := true;
    }

    method Release(id: Id)
      modifies this`rows
      ensures rows == old(rows) - {id}
    {
      rows := rows - {id};
    }
  }
}
