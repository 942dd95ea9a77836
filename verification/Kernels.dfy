/** How a tiling record splits rows over cores and a range into tiles. */
module Geometry {
  import opened Arithmetic
  import opened Tiling

  function RowsFor(t: TilingData, core: nat): nat
    requires WellFormed(t)
  {
    t.baseRows + (if core < t.extraRows then 1 else 0)
  }

  function StartRow(t: TilingData, core: nat): nat
    requires WellFormed(t)
  {
    core * t.baseRows + (if core < t.extraRows then core else t.extraRows)
  }

  /** A record whose row partition adds up; the host only emits such records. */
  ghost predicate Tiled(t: TilingData) {
    WellFormed(t) && t.tileElems >= 1 && t.extraRows < t.blockDim && t.rows == t.blockDim * t.baseRows + t.extraRows
  }

  lemma AcceptedIsTiled(q: Request, limits: Limits)
    requires ValidLimits(limits) && ComputeTiling(q, limits).Accepted?
    ensures var t := ComputeTiling(q, limits).tiling;
      && Tiled(t) && t.rows == q.rows > 0 && t.hidden == q.hidden > 0 && t.tileElems == q.tileElems
      && t.blockDim == q.blockDim && t.bufferCount == q.bufferCount
  {
    var busiest := CheckedMul(BusiestRows(q.rows, q.blockDim), q.hidden);
    RecordIsTiled(q, limits, if q.rowwise then q.hidden else busiest.value);
  }

  lemma RecordIsTiled(q: Request, limits: Limits, units: nat)
    requires ValidLimits(limits) && Refusal(q, limits).None? && WellFormed(Record(q, limits, units))
    ensures var t := Record(q, limits, units);
      && Tiled(t) && t.rows == q.rows > 0 && t.hidden == q.hidden > 0 && t.tileElems == q.tileElems
      && t.blockDim == q.blockDim && t.bufferCount == q.bufferCount
  {
    RowsAdd(q.rows, q.blockDim);
  }

  lemma RowsAdd(rows: nat, blockDim: nat)
    requires blockDim > 0
    ensures rows % blockDim < blockDim && rows == blockDim * (rows / blockDim) + rows % blockDim
  {
    DivFloor(rows, blockDim);
  }

  /** The cores own consecutive, disjoint row ranges that cover all rows. */
  lemma CoreRows(t: TilingData, core: nat)
    requires WellFormed(t)
    ensures StartRow(t, 0) == 0
    ensures StartRow(t, core + 1) == StartRow(t, core) + RowsFor(t, core)
    ensures Tiled(t) ==> StartRow(t, t.blockDim) == t.rows
  {
    assert (core + 1) * t.baseRows == core * t.baseRows + t.baseRows;
  }

  lemma {:induction false} StartRowMono(t: TilingData, a: nat, b: nat)
    requires WellFormed(t) && a <= b
    ensures StartRow(t, a) <= StartRow(t, b)
    decreases b - a
  {
    if a < b {
      CoreRows(t, b - 1);
      StartRowMono(t, a, b - 1);
    }
  }

  /** With any row at all, the first core has one. */
  lemma FirstIsBusy(t: TilingData)
    requires Tiled(t) && t.rows > 0
    ensures RowsFor(t, 0) > 0
  {
    if t.baseRows == 0 { assert t.blockDim * t.baseRows == 0; }
  }

  /** Without rows no core has any; with rows the first one does. */
  lemma BusyIf(t: TilingData, core: nat)
    requires Tiled(t) && core < t.blockDim
    ensures t.rows == 0 ==> RowsFor(t, core) == 0
    ensures t.rows > 0 ==> RowsFor(t, 0) > 0
  {
    CoreRows(t, core);
    StartRowMono(t, core + 1, t.blockDim);
    CoreRows(t, t.blockDim);
    if t.rows > 0 { FirstIsBusy(t); }
  }

  /** With any element at all, the first core has one. */
  lemma FirstHasElements(t: TilingData)
    requires Tiled(t) && t.rows * t.hidden > 0
    ensures RowsFor(t, 0) > 0 && RowsFor(t, 0) * t.hidden > 0
  {
    FirstIsBusy(t);
    MulMono(1, RowsFor(t, 0), t.hidden);
  }

  /** Every row belongs to exactly one core. */
  lemma {:induction false} OwnerOf(t: TilingData, row: nat, core: nat) returns (owner: nat)
    requires Tiled(t) && core <= t.blockDim && row < StartRow(t, core)
    ensures owner < core && StartRow(t, owner) <= row < StartRow(t, owner) + RowsFor(t, owner)
    ensures forall other: nat :: StartRow(t, other) <= row < StartRow(t, other) + RowsFor(t, other) ==> other == owner
    decreases core
  {
    CoreRows(t, core - 1);
    if row < StartRow(t, core - 1) {
      owner := OwnerOf(t, row, core - 1);
    } else {
      owner := core - 1;
      forall other: nat | StartRow(t, other) <= row < StartRow(t, other) + RowsFor(t, other) ensures other == owner {
        CoreRows(t, other);
        if other < owner { StartRowMono(t, other + 1, owner); }
        if owner < other { StartRowMono(t, owner + 1, other); }
      }
    }
  }

  /** The same ranges counted in elements. */
  lemma CoreElements(t: TilingData, core: nat)
    requires WellFormed(t)
    ensures StartRow(t, 0) * t.hidden == 0
    ensures StartRow(t, core + 1) * t.hidden == StartRow(t, core) * t.hidden + RowsFor(t, core) * t.hidden
    ensures Tiled(t) ==> StartRow(t, t.blockDim) * t.hidden == t.rows * t.hidden
  {
    CoreRows(t, core);
    assert (StartRow(t, core) + RowsFor(t, core)) * t.hidden ==
      StartRow(t, core) * t.hidden + RowsFor(t, core) * t.hidden;
  }

  /** A core's elements end inside the tensor. */
  lemma CoreInside(t: TilingData, core: nat)
    requires Tiled(t) && core < t.blockDim
    ensures StartRow(t, core) * t.hidden + RowsFor(t, core) * t.hidden <= t.rows * t.hidden
  {
    CoreElements(t, core);
    CoreRows(t, core);
    StartRowMono(t, core + 1, t.blockDim);
    MulMono(StartRow(t, core + 1), t.rows, t.hidden);
  }

  // ---- tiles ----

  /** How far the first `k` tiles reach into a range. */
  function Reach(length: nat, tile: nat, k: nat): (r: nat)
    ensures r <= length
  {
    if k == 0 then 0
    else
      var before := Reach(length, tile, k - 1);
      if before + tile < length then before + tile else length
  }

  lemma {:induction false} ReachIs(length: nat, tile: nat, k: nat)
    ensures Reach(length, tile, k) == if k * tile < length then k * tile else length
    decreases k
  {
    if k > 0 {
      ReachIs(length, tile, k - 1);
      assert k * tile == (k - 1) * tile + tile;
    }
  }

  /** The host's loop count and tail, without a division. */
  lemma TileLoopIs(length: nat, tile: nat)
    requires tile > 0
    ensures TileLoop(length, tile) == (BlocksFor(length, tile), Rem(length, tile))
  {
    QuotRem(length, tile);
    BlocksForIsCeil(length, tile);
    CeilDivIs(length, tile, length / tile, length % tile);
  }

  lemma CeilDivIs(length: nat, tile: nat, q: nat, r: nat)
    requires tile > 0 && q == length / tile && r == length % tile
    ensures CeilDiv(length, tile) == q + (if r != 0 then 1 else 0)
  {
    DivFloor(length, tile);
    if r == 0 {
      DivUnique(length + tile - 1, tile, q, tile - 1);
    } else {
      assert (q + 1) * tile == q * tile + tile;
      DivUnique(length + tile - 1, tile, q + 1, r - 1);
    }
  }

  /** The device's own loop count and tail. */
  method LoopAndTail(length: nat, tile: nat) returns (loops: nat, tail: nat)
    requires tile > 0
    ensures loops == BlocksFor(length, tile) && tail == Rem(length, tile)
  {
    TileLoopIs(length, tile);
    loops := length / tile;
    tail := length % tile;
    if tail != 0 { loops := loops + 1; }
  }

  /** The lanes of tile `k` of `loops`: a whole tile, or the tail in the last one. */
  function Lanes(tile: nat, loops: nat, tail: nat, k: nat): nat {
    if k < loops - 1 || tail == 0 then tile else tail
  }

  lemma LanesOf(length: nat, tile: nat, loops: nat, tail: nat, k: nat)
    requires tile > 0 && loops == BlocksFor(length, tile) && tail == Rem(length, tile) && k < loops
    ensures k * tile == Reach(length, tile, k) < length
    ensures 0 < Lanes(tile, loops, tail, k) <= length - k * tile
    ensures Reach(length, tile, k + 1) == k * tile + Lanes(tile, loops, tail, k)
  {
    var q := Quot(length - 1, tile);
    QuotRem(length - 1, tile);
    QuotRem(length, tile);
    ReachIs(length, tile, k);
    MulMono(k, q, tile);
    if k < q {
      MulMono(k + 1, q, tile);
      assert (k + 1) * tile == k * tile + tile;
    } else {
      LastTile(length, tile, q);
    }
  }

  /** What is left of a range after its whole tiles but the last. */
  lemma LastTile(length: nat, tile: nat, q: nat)
    requires tile > 0 && 0 < length && q * tile < length <= q * tile + tile
    ensures length - q * tile == if Rem(length, tile) == 0 then tile else Rem(length, tile)
  {
    QuotRem(length, tile);
    if length == q * tile + tile {
      assert (q + 1) * tile == q * tile + tile;
      DivUnique(length, tile, q + 1, 0);
    } else {
      DivUnique(length, tile, q, length - q * tile);
    }
  }

  /** The tiles of a loop abut, stay in range and end exactly at its end. */
  method TileAt(length: nat, tile: nat, loops: nat, tail: nat, k: nat) returns (offset: nat, count: nat, valid: nat)
    requires tile > 0 && loops == BlocksFor(length, tile) && tail == Rem(length, tile) && k < loops
    ensures offset == Reach(length, tile, k) && 0 < count == valid
    ensures Reach(length, tile, k + 1) == offset + count
  {
    LanesOf(length, tile, loops, tail, k);
    offset := k * tile;
    count := Lanes(tile, loops, tail, k);
    valid := if count < length - offset then count else length - offset;
  }

  lemma TileEnd(length: nat, tile: nat)
    requires tile > 0
    ensures Reach(length, tile, BlocksFor(length, tile)) == length
  {
    ReachIs(length, tile, BlocksFor(length, tile));
    TileLoopIs(length, tile);
    DivFloor(length, tile);
    assert (length / tile + 1) * tile == (length / tile) * tile + tile;
  }
}

/** What the kernels compute, element by element and without any tiling. */
module Oracles {
  import opened Arithmetic
  import opened Tiling
  import opened Geometry
  import opened Device

  /** Rounding to the element and accumulation types, the memory encoding, and the reciprocal square root. */
  datatype Arith = Arith(encode: real -> real, round: real -> real, roundAcc: real -> real, rsqrt: real -> real) {
    function Scale(value: real, rstd: real, weight: real): real { round(value * rstd * weight) }
  }

  /** An exact sum. */
  function Total(s: seq<real>): real {
    if s == [] then 0.0 else Total(s[..|s| - 1]) + s[|s| - 1]
  }

  function Squares(s: seq<real>): (r: seq<real>)
    ensures |r| == |s|
  {
    seq(|s|, i requires 0 <= i < |s| => s[i] * s[i])
  }

  lemma {:induction false} TotalConcat(a: seq<real>, b: seq<real>)
    ensures Total(a + b) == Total(a) + Total(b)
    decreases |b|
  {
    if b == [] {
      assert a + b == a;
    } else {
      assert (a + b)[..|a + b| - 1] == a + b[..|b| - 1];
      TotalConcat(a, b[..|b| - 1]);
    }
  }

  /** With TotalConcat this says what a sum is. */
  lemma TotalOne(v: real)
    ensures Total([v]) == v && Total([]) == 0.0
  {
    assert [v][..0] == [];
  }

  /** Padding lanes do not change a sum. */
  lemma {:induction false} TotalNeutral(n: nat)
    ensures Total(Neutral(n)) == 0.0
    decreases n
  {
    if n > 0 {
      assert Neutral(n)[..n - 1] == Neutral(n - 1);
      TotalNeutral(n - 1);
    }
  }

  lemma SquaresConcat(a: seq<real>, b: seq<real>)
    ensures Squares(a + b) == Squares(a) + Squares(b)
  {
    forall i | 0 <= i < |a + b| ensures Squares(a + b)[i] == (Squares(a) + Squares(b))[i] {
    }
  }

  lemma ValuesConcat(s: seq<Cell>, start: nat, n: nat, m: nat)
    requires start + n + m <= |s| && AllNum(s)
    ensures Values(s[start..start + (n + m)]) == Values(s[start..start + n]) + Values(s[start + n..start + n + m])
  {
  }

  /** Element by element, the rounded and encoded sum. */
  ghost function AddOracle(a: Arith, x1: seq<Cell>, x2: seq<Cell>): (y: seq<Cell>)
    requires |x1| == |x2| && AllNum(x1) && AllNum(x2)
    ensures |y| == |x1|
  {
    if x1 == [] then []
    else
      var n := |x1| - 1;
      AddOracle(a, x1[..n], x2[..n]) + [Num(a.encode(a.round(x1[n].v + x2[n].v)))]
  }

  lemma {:induction false} AddOracleAt(a: Arith, x1: seq<Cell>, x2: seq<Cell>, k: nat)
    requires |x1| == |x2| && AllNum(x1) && AllNum(x2) && k < |x1|
    ensures AddOracle(a, x1, x2)[k] == Num(a.encode(a.round(x1[k].v + x2[k].v)))
    decreases |x1|
  {
    var n := |x1| - 1;
    if k < n { AddOracleAt(a, x1[..n], x2[..n], k); }
  }

  lemma AddOracleIsNum(a: Arith, x1: seq<Cell>, x2: seq<Cell>)
    requires |x1| == |x2| && AllNum(x1) && AllNum(x2)
    ensures AllNum(AddOracle(a, x1, x2))
  {
    forall k | 0 <= k < |x1| ensures AddOracle(a, x1, x2)[k].Num? { AddOracleAt(a, x1, x2, k); }
  }

  /** Row `r` of a matrix stored row by row. */
  ghost function RowOf(x: seq<Cell>, hidden: nat, r: nat): seq<Cell>
    requires r * hidden + hidden <= |x|
  {
    x[r * hidden..r * hidden + hidden]
  }

  lemma RowInside(rows: nat, hidden: nat, r: nat)
    requires r < rows
    ensures r * hidden + hidden <= rows * hidden
  {
    MulMono(r + 1, rows, hidden);
    assert (r + 1) * hidden == r * hidden + hidden;
  }

  ghost function SumOracle(a: Arith, x: seq<Cell>, rows: nat, hidden: nat): (y: seq<Cell>)
    requires |x| == rows * hidden && AllNum(x)
    ensures |y| == rows
  {
    seq(rows, r requires 0 <= r < rows =>
      RowInside(rows, hidden, r); Num(a.encode(a.roundAcc(Total(Values(RowOf(x, hidden, r)))))))
  }

  /** The numbers of `n` elements from `base` on. */
  ghost function ValuesFrom(x: seq<Cell>, base: nat, n: nat): (s: seq<real>)
    requires base + n <= |x| && AllNum(x)
    ensures |s| == n && forall i :: 0 <= i < n ==> s[i] == x[base + i].v
  {
    seq(n, i requires 0 <= i < n => x[base + i].v)
  }

  /** Element `r` of the result is the rounded, encoded sum of row `r`. */
  lemma SumOracleAt(a: Arith, x: seq<Cell>, rows: nat, hidden: nat, r: nat)
    requires |x| == rows * hidden && AllNum(x) && r < rows
    ensures r * hidden + hidden <= |x|
    ensures SumOracle(a, x, rows, hidden)[r] == Num(a.encode(a.roundAcc(Total(ValuesFrom(x, r * hidden, hidden)))))
  {
    RowInside(rows, hidden, r);
    assert Values(RowOf(x, hidden, r)) == ValuesFrom(x, r * hidden, hidden);
  }

  function Rstd(a: Arith, squares: real, hidden: nat, eps: real): real
    requires hidden > 0
  {
    a.rsqrt(squares / (hidden as real) + eps)
  }

  /** A row times a factor times the per-column weights. */
  ghost function Weighted(a: Arith, row: seq<Cell>, gamma: seq<Cell>, rstd: real): (y: seq<Cell>)
    requires |row| == |gamma| && AllNum(row) && AllNum(gamma)
    ensures |y| == |row|
  {
    seq(|row|, j requires 0 <= j < |row| => Num(a.encode(a.Scale(row[j].v, rstd, gamma[j].v))))
  }

  /** RMSNorm of one row. */
  ghost function NormRow(a: Arith, row: seq<Cell>, gamma: seq<Cell>, eps: real): (y: seq<Cell>)
    requires |row| == |gamma| > 0 && AllNum(row) && AllNum(gamma)
    ensures |y| == |row|
  {
    Weighted(a, row, gamma, Rstd(a, Total(Squares(Values(row))), |row|, eps))
  }

  /** `n` rows of `hidden` elements, counted row by row. */
  function Area(n: nat, hidden: nat): nat {
    if n == 0 then 0 else Area(n - 1, hidden) + hidden
  }

  lemma {:induction false} AreaIs(n: nat, hidden: nat)
    ensures Area(n, hidden) == n * hidden
    decreases n
  {
    if n > 0 {
      AreaIs(n - 1, hidden);
      assert n * hidden == (n - 1) * hidden + hidden;
    }
  }

  lemma {:induction false} AreaSum(m: nat, n: nat, hidden: nat)
    ensures Area(m + n, hidden) == Area(m, hidden) + Area(n, hidden)
    decreases n
  {
    if n > 0 { AreaSum(m, n - 1, hidden); }
  }

  /** A core's rows join those of the cores before it. */
  lemma CoreArea(t: TilingData, core: nat, n: nat)
    requires WellFormed(t)
    ensures Area(StartRow(t, 0), n) == 0
    ensures Area(StartRow(t, core + 1), n) == Area(StartRow(t, core), n) + Area(RowsFor(t, core), n)
    ensures Tiled(t) ==> StartRow(t, t.blockDim) == t.rows
  {
    CoreRows(t, core);
    AreaSum(StartRow(t, core), RowsFor(t, core), n);
  }

  lemma {:induction false} AreaMono(m: nat, n: nat, hidden: nat)
    requires m <= n
    ensures Area(m, hidden) <= Area(n, hidden)
    decreases n
  {
    if m < n { AreaMono(m, n - 1, hidden); }
  }

  /** RMSNorm of the first `n` rows of a matrix stored row by row. */
  ghost function NormOracle(a: Arith, x: seq<Cell>, gamma: seq<Cell>, eps: real, n: nat): (y: seq<Cell>)
    requires |gamma| > 0 && Area(n, |gamma|) <= |x| && AllNum(x) && AllNum(gamma)
    ensures |y| == Area(n, |gamma|)
  {
    if n == 0 then []
    else NormOracle(a, x, gamma, eps, n - 1) + NormRow(a, x[Area(n - 1, |gamma|)..Area(n, |gamma|)], gamma, eps)
  }

  /** The stretch of the result that belongs to row `r` is that row, normalised. */
  lemma {:induction false} NormOracleRow(a: Arith, x: seq<Cell>, gamma: seq<Cell>, eps: real, n: nat, r: nat, base: nat)
    requires |gamma| > 0 && Area(n, |gamma|) <= |x| && AllNum(x) && AllNum(gamma) && r < n && base == Area(r, |gamma|)
    ensures base + |gamma| <= Area(n, |gamma|)
    ensures NormOracle(a, x, gamma, eps, n)[base..base + |gamma|] == NormRow(a, x[base..base + |gamma|], gamma, eps)
    decreases n
  {
    var hidden := |gamma|;
    var init, last := NormOracle(a, x, gamma, eps, n - 1),
      NormRow(a, x[Area(n - 1, hidden)..Area(n, hidden)], gamma, eps);
    if r < n - 1 { NormOracleRow(a, x, gamma, eps, n - 1, r, base); }
    StretchOf(init, last, base, hidden);
  }

  lemma StretchOf(init: seq<Cell>, last: seq<Cell>, base: nat, n: nat)
    ensures base + n <= |init| ==> (init + last)[base..base + n] == init[base..base + n]
    ensures base == |init| && n == |last| ==> (init + last)[base..base + n] == last
  {
  }

  /** The published formula for an element, given the reciprocal root of its row and the weight of its column. */
  ghost function NormCell(a: Arith, value: real, root: real, weight: real): Cell {
    Num(a.encode(a.round(value * root * weight)))
  }

  /** The squares of `n` elements from `base` on. */
  ghost function SquaresFrom(x: seq<Cell>, base: nat, n: nat): (s: seq<real>)
    requires base + n <= |x| && AllNum(x)
    ensures |s| == n && forall i :: 0 <= i < n ==> s[i] == x[base + i].v * x[base + i].v
  {
    seq(n, i requires 0 <= i < n => x[base + i].v * x[base + i].v)
  }

  /** Column `j` of row `r` of the result is what the formula says of that row and weight `j`. */
  lemma NormOracleAt(a: Arith, x: seq<Cell>, gamma: seq<Cell>, eps: real, n: nat, r: nat, j: nat, base: nat)
    requires |gamma| > 0 && |x| == n * |gamma| && AllNum(x) && AllNum(gamma) && r < n && j < |gamma|
    requires base == r * |gamma|
    ensures Area(n, |gamma|) == |x| && base + |gamma| <= |x|
    ensures var q := Total(SquaresFrom(x, base, |gamma|));
      NormOracle(a, x, gamma, eps, n)[base + j] ==
        NormCell(a, x[base + j].v, a.rsqrt(q / (|gamma| as real) + eps), gamma[j].v)
  {
    AreaIs(n, |gamma|);
    AreaIs(r, |gamma|);
    NormOracleFrom(a, x, gamma, eps, n, r, base, j);
  }

  lemma NormOracleFrom(a: Arith, x: seq<Cell>, gamma: seq<Cell>, eps: real, n: nat, r: nat, base: nat, j: nat)
    requires |gamma| > 0 && Area(n, |gamma|) <= |x| && AllNum(x) && AllNum(gamma) && r < n && j < |gamma|
    requires base == Area(r, |gamma|)
    ensures base + |gamma| <= Area(n, |gamma|)
    ensures var h := |gamma|;
      var q := Total(SquaresFrom(x, base, h));
      NormOracle(a, x, gamma, eps, n)[base + j] ==
        NormCell(a, x[base + j].v, a.rsqrt(q / (h as real) + eps), gamma[j].v)
  {
    NormOracleCell(a, x, gamma, eps, n, r, base, j);
    NormRowFrom(a, x, gamma, eps, base, j);
  }

  lemma NormRowFrom(a: Arith, x: seq<Cell>, gamma: seq<Cell>, eps: real, base: nat, j: nat)
    requires base + |gamma| <= |x| && AllNum(x) && AllNum(gamma) && j < |gamma|
    ensures NormRow(a, x[base..base + |gamma|], gamma, eps)[j] ==
      NormCell(a, x[base + j].v, a.rsqrt(Total(SquaresFrom(x, base, |gamma|)) / (|gamma| as real) + eps), gamma[j].v)
  {
    var row := x[base..base + |gamma|];
    SquaresOf(x, base, |gamma|);
    NormRowIs(a, row, gamma, eps, Total(SquaresFrom(x, base, |gamma|)), j);
    assert row[j] == x[base + j];
  }

  lemma NormRowIs(a: Arith, row: seq<Cell>, gamma: seq<Cell>, eps: real, q: real, j: nat)
    requires |row| == |gamma| && AllNum(row) && AllNum(gamma) && j < |row| && q == Total(Squares(Values(row)))
    ensures NormRow(a, row, gamma, eps)[j] ==
      NormCell(a, row[j].v, a.rsqrt(q / (|row| as real) + eps), gamma[j].v)
  {
    RstdIs(a, q, |row|, eps);
    WeightedAt(a, row, gamma, Rstd(a, q, |row|, eps), j);
  }

  lemma SquaresOf(x: seq<Cell>, base: nat, n: nat)
    requires base + n <= |x| && AllNum(x)
    ensures Squares(Values(x[base..base + n])) == SquaresFrom(x, base, n)
  {
    var row := Values(x[base..base + n]);
    forall i | 0 <= i < n ensures Squares(row)[i] == SquaresFrom(x, base, n)[i] {
      assert row[i] == x[base + i].v;
    }
  }

  lemma RstdIs(a: Arith, squares: real, hidden: nat, eps: real)
    requires hidden > 0
    ensures Rstd(a, squares, hidden, eps) == a.rsqrt(squares / (hidden as real) + eps)
  {
  }

  lemma WeightedAt(a: Arith, row: seq<Cell>, gamma: seq<Cell>, root: real, j: nat)
    requires |row| == |gamma| && AllNum(row) && AllNum(gamma) && j < |row|
    ensures Weighted(a, row, gamma, root)[j] == NormCell(a, row[j].v, root, gamma[j].v)
  {
    assert a.Scale(row[j].v, root, gamma[j].v) == a.round(row[j].v * root * gamma[j].v);
  }

  lemma NormOracleCell(a: Arith, x: seq<Cell>, gamma: seq<Cell>, eps: real, n: nat, r: nat, base: nat, j: nat)
    requires |gamma| > 0 && Area(n, |gamma|) <= |x| && AllNum(x) && AllNum(gamma) && r < n && j < |gamma|
    requires base == Area(r, |gamma|)
    ensures base + |gamma| <= Area(n, |gamma|)
    ensures NormOracle(a, x, gamma, eps, n)[base + j] == NormRow(a, x[base..base + |gamma|], gamma, eps)[j]
  {
    NormOracleRow(a, x, gamma, eps, n, r, base);
    var oracle := NormOracle(a, x, gamma, eps, n);
    assert oracle[base..base + |gamma|][j] == oracle[base + j];
  }
}

/** What the kernels share: their faults and what a core claims on chip. */
module Plans {
  import opened Device

  datatype Fault =
    | Overrun | OutOfBounds | BadTile | ZeroDivision | BadEpsilon | Leak | OutOfMemory | NoEncoding
    | NoRounding | NoElementType | BadLengths | NoGamma

  function Tags(plan: Live): (tags: seq<Tag>)
    ensures |tags| == |plan| && forall i :: 0 <= i < |plan| ==> tags[i] == plan[i].0
  {
    seq(|plan|, i requires 0 <= i < |plan| => plan[i].0)
  }

  /** The tags of a plan are exactly what lives after claiming it. */
  lemma LivePlan(plan: Live)
    requires DistinctTags(plan)
    ensures forall i, j :: 0 <= i < j < |Tags(plan)| ==> Tags(plan)[i] != Tags(plan)[j]
    ensures forall tag :: tag in Tags(plan) <==> IsLive(plan, tag)
  {
    forall tag ensures tag in Tags(plan) <==> IsLive(plan, tag) {
      if IsLive(plan, tag) {
        var i :| 0 <= i < |plan| && plan[i].0 == tag;
        assert Tags(plan)[i] == tag;
      }
    }
  }

  function Peak(a: nat, b: nat): nat { if a < b then b else a }

  /** A slot per buffer. */
  function Doubled(bytes: nat, buffers: nat): nat { if buffers == 2 then bytes + bytes else bytes }
}

/** Elementwise addition on the simulated device. */
module AddKernel {
  import opened Options
  import opened Arithmetic
  import opened Tiling
  import opened Geometry
  import opened Device
  import opened Oracles
  import opened Plans

  /** Slots held by one core: two inputs and one output, once per buffer. */
  function AddPlan(core: nat, buffers: nat, bytes: nat): Live {
    if buffers == 2 then AddSlot(core, 0, bytes) + AddSlot(core, 1, bytes) else AddSlot(core, 0, bytes)
  }

  function AddSlot(core: nat, slot: nat, bytes: nat): Live {
    [(Tag(AddLeft, core, slot), bytes)] + [(Tag(AddRight, core, slot), bytes)] + [(Tag(AddOut, core, slot), bytes)]
  }

  lemma AddSlotBytes(core: nat, slot: nat, bytes: nat)
    ensures InUse(AddSlot(core, slot, bytes)) == 3 * bytes
  {
    var a, b, c := [(Tag(AddLeft, core, slot), bytes)], [(Tag(AddRight, core, slot), bytes)],
      [(Tag(AddOut, core, slot), bytes)];
    InUseConcat(a, b);
    InUseConcat(a + b, c);
    InUseOne(Tag(AddLeft, core, slot), bytes);
    InUseOne(Tag(AddRight, core, slot), bytes);
    InUseOne(Tag(AddOut, core, slot), bytes);
  }

  lemma AddPlanBytes(core: nat, buffers: nat, bytes: nat)
    requires buffers == 1 || buffers == 2
    ensures DistinctTags(AddPlan(core, buffers, bytes))
    ensures InUse(AddPlan(core, buffers, bytes)) == 3 * bytes * buffers
  {
    AddSlotBytes(core, 0, bytes);
    AddSlotBytes(core, 1, bytes);
    InUseConcat(AddSlot(core, 0, bytes), AddSlot(core, 1, bytes));
  }

  /** The three buffers of a launch. */
  datatype AddJob = AddJob(arith: Arith, x1: Buffer, x2: Buffer, y: Buffer) {
    /** Inputs are numbers and lie below the output, which lies inside memory. */
    ghost predicate Ready(cells: seq<Cell>) {
      && x1.offset + x1.length <= y.offset && x2.offset + x2.length <= y.offset && Inside(y, |cells|)
      && AllNum(Slice(cells, x1)) && AllNum(Slice(cells, x2))
    }

    function Common(): nat { if x1.length < x2.length then x1.length else x2.length }

    /** Elements `start..start + length` lie inside all three buffers. */
    ghost predicate Spans(start: nat, length: nat) {
      length > 0 ==> start + length <= Common() && start + length <= y.length
    }

    /** The sums over the common length of the inputs. */
    ghost function Oracle(cells: seq<Cell>): (r: seq<Cell>)
      requires Ready(cells)
      ensures |r| == Common()
    {
      AddOracle(arith, Slice(cells, x1)[..Common()], Slice(cells, x2)[..Common()])
    }

    /** Writes to the output leave the inputs, and so the oracle, alone. */
    lemma OracleKept(before: seq<Cell>, after: seq<Cell>)
      requires Ready(before) && OnlyIn(before, after, y)
      ensures Ready(after) && Oracle(after) == Oracle(before)
    {
      KeptBelow(before, after, x1, y);
      KeptBelow(before, after, x2, y);
    }

    /** The cells hold numbers, and `oracle` is what the output must become. */
    ghost predicate Aims(oracle: seq<Cell>, cells: seq<Cell>) { Ready(cells) && oracle == Oracle(cells) }

    lemma AimsKept(oracle: seq<Cell>, before: seq<Cell>, after: seq<Cell>)
      requires Aims(oracle, before) && OnlyIn(before, after, y)
      ensures Aims(oracle, after)
    {
      OracleKept(before, after);
    }

    /** From `before`, elements `start..start + done` of `oracle` were written, in order. */
    ghost predicate Stretch(oracle: seq<Cell>, before: seq<Cell>, after: seq<Cell>, log: seq<nat>, log': seq<nat>,
        start: nat, done: nat) {
      && |oracle| == Common() && Spans(start, done) && OnlyIn(before, after, y)
      && Wrote(before, after, y.offset + start, if done == 0 then [] else oracle[start..start + done])
      && log' == log + Range(y.offset + start, done)
    }

    lemma StretchStep(oracle: seq<Cell>, before: seq<Cell>, mid: seq<Cell>, after: seq<Cell>, log: seq<nat>,
        log': seq<nat>, log'': seq<nat>, start: nat, done: nat, n: nat)
      requires Stretch(oracle, before, mid, log, log', start, done) && 0 < n && Spans(start, done + n)
      requires OnlyIn(mid, after, y) &&
        Wrote(mid, after, y.offset + (start + done), oracle[start + done..start + done + n])
      requires log'' == log' + Range(y.offset + (start + done), n)
      ensures Stretch(oracle, before, after, log, log'', start, done + n)
    {
      assert done == 0 ==> oracle[start..start + done] == [];
      OnlyInTrans(before, mid, after, y);
      WroteStep(before, mid, after, y.offset + start, oracle, start, done, n);
      RangeStep(y.offset + start, done, n);
    }

    /** What one more tile comes to, stored or not. */
    lemma TileDone(oracle: seq<Cell>, before: seq<Cell>, mid: seq<Cell>, after: seq<Cell>, log: seq<nat>,
        log': seq<nat>, log'': seq<nat>,
        start: nat, done: nat, n: nat, ok: bool)
      requires Stretch(oracle, before, mid, log, log', start, done) && 0 < n
      requires OnlyIn(mid, after, y) && (ok ==> Spans(start + done, n))
      requires ok ==> Wrote(mid, after, y.offset + (start + done), oracle[start + done..start + done + n])
      requires ok ==> log'' == log' + Range(y.offset + (start + done), n)
      ensures OnlyIn(before, after, y) && (Spans(start + done, n) <==> Spans(start, done + n))
      ensures ok ==> Stretch(oracle, before, after, log, log'', start, done + n)
    {
      OnlyInTrans(before, mid, after, y);
      if ok { StretchStep(oracle, before, mid, after, log, log', log'', start, done, n); }
    }

    /** Once the whole output was written it is the oracle. */
    lemma StretchAll(oracle: seq<Cell>, before: seq<Cell>, after: seq<Cell>, log: seq<nat>, log': seq<nat>)
      requires Stretch(oracle, before, after, log, log', 0, y.length) && x1.length == x2.length == y.length &&
        Inside(y, |before|)
      ensures Slice(after, y) == oracle
    {
      assert oracle[0..y.length] == oracle;
    }

    /** Two consecutive stretches make one. */
    lemma StretchConcat(oracle: seq<Cell>, before: seq<Cell>, mid: seq<Cell>, after: seq<Cell>, log: seq<nat>,
        log': seq<nat>, log'': seq<nat>, start: nat, done: nat, n: nat)
      requires Stretch(oracle, before, mid, log, log', start, done) &&
        Stretch(oracle, mid, after, log', log'', start + done, n) && Spans(start, done + n)
      ensures Stretch(oracle, before, after, log, log'', start, done + n)
    {
      if n > 0 {
        StretchStep(oracle, before, mid, after, log, log', log'', start, done, n);
      } else {
        assert after == mid;
      }
    }

    lemma OracleAt(cells: seq<Cell>, k: nat)
      requires Ready(cells) && k < Common()
      ensures Oracle(cells)[k] == Num(arith.encode(arith.round(Slice(cells, x1)[k].v + Slice(cells, x2)[k].v)))
    {
      AddOracleAt(arith, Slice(cells, x1)[..Common()], Slice(cells, x2)[..Common()], k);
    }

    /** Staged lanes, added, rounded and encoded, are that stretch of the oracle. */
    lemma TileSums(cells: seq<Cell>, first: nat, n: nat, a: seq<real>, b: seq<real>, sums: seq<real>,
        encoded: seq<Cell>)
      requires Ready(cells) && first + n <= Common() && n <= |a| && n <= |b| && |sums| == |encoded| == n
      requires a[..n] == Values(Slice(cells, x1)[first..first + n]) &&
        b[..n] == Values(Slice(cells, x2)[first..first + n])
      requires forall i :: 0 <= i < n ==> sums[i] == arith.round(a[i] + b[i])
      requires forall i :: 0 <= i < n ==> encoded[i] == Num(arith.encode(sums[i]))
      ensures encoded == Oracle(cells)[first..first + n]
    {
      forall i | 0 <= i < n ensures Oracle(cells)[first + i] == encoded[i] {
        OracleAt(cells, first + i);
        assert a[i] == a[..n][i] && b[i] == b[..n][i];
        assert Slice(cells, x1)[first..first + n][i] == Slice(cells, x1)[first + i];
        assert Slice(cells, x2)[first..first + n][i] == Slice(cells, x2)[first + i];
      }
    }
  }

  /** The active cores among the first `n` whose own loop count differs from the record's. */
  ghost function Mismatched(t: TilingData, n: nat): seq<nat>
    requires WellFormed(t) && t.tileElems > 0
  {
    if n == 0 then []
    else
      Mismatched(t, n - 1)
      + (if RowsFor(t, n - 1) > 0 && BlocksFor(RowsFor(t, n - 1) * t.hidden, t.tileElems) != t.loopCount then [n - 1]
        else [])
  }

  class AddRun {
    const gm: GlobalMemory
    const ub: OnChip
    const job: AddJob
    const tile: nat
    const buffers: nat
    const item: nat
    /** Whether values can be rounded to the element type. */
    const rounds: bool
    var mismatches: seq<nat>
    var queues: seq<Queue<(seq<real>, seq<real>)>>

    constructor (gm: GlobalMemory, ub: OnChip, job: AddJob, t: TilingData, item: nat, rounds: bool)
      requires WellFormed(t)
      ensures this.gm == gm && this.ub == ub && this.job == job
      ensures tile == t.tileElems && buffers == t.bufferCount && this.item == item && this.rounds == rounds &&
        mismatches == [] && queues == []
    {
      this.gm, this.ub, this.job := gm, ub, job;
      tile, buffers, this.item, this.rounds := t.tileElems, t.bufferCount, item, rounds;
      mismatches, queues := [], [];
    }

    /** Copies one tile of both inputs in and passes it through the queue. */
    method Stage(queue: Queue<(seq<real>, seq<real>)>, first: nat, valid: nat, count: nat)
        returns (r: Option<(seq<real>, seq<real>)>)
      requires job.Ready(gm.cells[..]) && 0 < valid <= count && queue.items == [] && 0 < queue.depth
      modifies gm`loads, queue
      ensures r.Some? <==> first + valid <= job.x1.length && first + valid <= job.x2.length
      ensures queue.blocked == old(queue.blocked) && queue.underflows == old(queue.underflows) && queue.items == []
      ensures r.Some? ==>
        r.value.0 == Values(Slice(gm.cells[..], job.x1)[first..first + valid]) + Neutral(count - valid)
      ensures r.Some? ==>
        r.value.1 == Values(Slice(gm.cells[..], job.x2)[first..first + valid]) + Neutral(count - valid)
      ensures r.Some? ==> gm.loads == old(gm.loads) + 2 * valid
    {
      var left := gm.CopyIn(job.x1, first, valid, count);
      if left.None? { return None; }
      var right := gm.CopyIn(job.x2, first, valid, count);
      if right.None? { return None; }
      var queued := queue.Enqueue((left.value, right.value));
      if !queued { return None; }
      r := queue.Dequeue();
    }

    /** Stages one tile and adds it lane by lane. */
    method Compute(ghost oracle: seq<Cell>, queue: Queue<(seq<real>, seq<real>)>, first: nat, valid: nat, count: nat)
        returns (r: Option<seq<real>>, fault: Fault)
      requires job.Aims(oracle, gm.cells[..]) && job.arith.encode == gm.encode
      requires 0 < valid <= count && queue.items == [] && 0 < queue.depth
      modifies gm`loads, queue
      ensures r.Some? <==> rounds && first + valid <= job.Common()
      ensures fault == if first + valid <= job.Common() then NoRounding else OutOfBounds
      ensures queue.blocked == old(queue.blocked) && queue.underflows == old(queue.underflows) && queue.items == []
      ensures r.Some? ==> gm.Encoded(r.value) == oracle[first..first + valid] && gm.loads == old(gm.loads) + 2 * valid
    {
      var staged := Stage(queue, first, valid, count);
      if staged.None? { return None, OutOfBounds; }
      if !rounds { return None, NoRounding; }
      var sums := Lanes(first, valid, staged.value.0, staged.value.1);
      r, fault := Some(sums), NoRounding;
    }

    /** The valid lanes of a staged tile, added and rounded. */
    method Lanes(first: nat, valid: nat, a: seq<real>, b: seq<real>) returns (sums: seq<real>)
      requires job.Ready(gm.cells[..]) && job.arith.encode == gm.encode && first + valid <= job.Common()
      requires valid <= |a| && a[..valid] == Values(Slice(gm.cells[..], job.x1)[first..first + valid])
      requires valid <= |b| && b[..valid] == Values(Slice(gm.cells[..], job.x2)[first..first + valid])
      ensures |sums| == valid && gm.Encoded(sums) == job.Oracle(gm.cells[..])[first..first + valid]
    {
      sums := seq(valid, i requires 0 <= i < valid => job.arith.round(a[i] + b[i]));
      job.TileSums(gm.cells[..], first, valid, a, b, sums, gm.Encoded(sums));
    }

    /** Nothing has been stored. */
    ghost predicate Untouched(before: seq<Cell>, log: seq<nat>)
      reads gm, gm.cells
    {
      gm.cells[..] == before && gm.log == log
    }

    /** Copies the computed lanes out. */
    method Store(ghost encoded: seq<Cell>, first: nat, values: seq<real>) returns (fault: Option<Fault>)
      requires Inside(job.y, gm.cells.Length) && values != [] && gm.Encoded(values) == encoded
      modifies gm`log, gm.cells
      ensures fault == if first + |values| <= job.y.length then None else Some(OutOfBounds)
      ensures OnlyIn(old(gm.cells[..]), gm.cells[..], job.y)
      ensures fault.None? ==>
        && Wrote(old(gm.cells[..]), gm.cells[..], job.y.offset + first, encoded)
        && gm.log == old(gm.log) + Range(job.y.offset + first, |values|)
    {
      var stored := gm.CopyOut(job.y, first, values);
      fault := if stored then None else Some(OutOfBounds);
    }

    /** One tile: compute, then copy the valid lanes out. */
    method Tile(ghost oracle: seq<Cell>, queue: Queue<(seq<real>, seq<real>)>, first: nat, valid: nat, count: nat)
        returns (fault: Option<Fault>)
      requires job.Aims(oracle, gm.cells[..]) && job.arith.encode == gm.encode
      requires 0 < valid <= count && queue.items == [] && 0 < queue.depth
      modifies gm`loads, gm`log, gm.cells, queue
      ensures fault.None? <==> rounds && job.Spans(first, valid)
      ensures !rounds ==>
        Untouched(old(gm.cells[..]), old(gm.log)) && (job.Spans(first, valid) ==> fault == Some(NoRounding))
      ensures OnlyIn(old(gm.cells[..]), gm.cells[..], job.y)
      ensures queue.blocked == old(queue.blocked) && queue.underflows == old(queue.underflows) && queue.items == []
      ensures fault.None? ==> Wrote(old(gm.cells[..]), gm.cells[..], job.y.offset + first, oracle[first..first + valid])
      ensures fault.None? ==> gm.log == old(gm.log) + Range(job.y.offset + first, valid)
      ensures fault.None? ==> gm.loads == old(gm.loads) + 2 * valid
    {
      var computed, failure := Compute(oracle, queue, first, valid, count);
      if computed.None? { return Some(failure); }
      fault := Store(oracle[first..first + valid], first, computed.value);
    }

    method NextTile(ghost oracle: seq<Cell>, ghost before: seq<Cell>, ghost log: seq<nat>,
        queue: Queue<(seq<real>, seq<real>)>,
        start: nat, done: nat, valid: nat, count: nat) returns (fault: Option<Fault>)
      requires job.arith.encode == gm.encode && job.Aims(oracle, before) &&
        job.Stretch(oracle, before, gm.cells[..], log, gm.log, start, done)
      requires 0 < valid <= count && queue.items == [] && 0 < queue.depth
      modifies gm`loads, gm`log, gm.cells, queue
      ensures fault.None? <==> rounds && job.Spans(start, done + valid)
      ensures !rounds ==>
        Untouched(old(gm.cells[..]), old(gm.log)) && (job.Spans(start, done + valid) ==> fault == Some(NoRounding))
      ensures OnlyIn(before, gm.cells[..], job.y)
      ensures queue.blocked == old(queue.blocked) && queue.underflows == old(queue.underflows) && queue.items == []
      ensures fault.None? ==> job.Stretch(oracle, before, gm.cells[..], log, gm.log, start, done + valid)
      ensures fault.None? ==> gm.loads == old(gm.loads) + 2 * valid
    {
      ghost var mid, log' := gm.cells[..], gm.log;
      job.AimsKept(oracle, before, mid);
      fault := Tile(oracle, queue, start + done, valid, count);
      job.TileDone(oracle, before, mid, gm.cells[..], log, log', gm.log, start, done, valid, fault.None?);
    }

    /** Tile number `k` of a core's loop, after `done` elements. */
    method LoopTurn(ghost oracle: seq<Cell>, ghost before: seq<Cell>, ghost log: seq<nat>,
        queue: Queue<(seq<real>, seq<real>)>,
        start: nat, length: nat, loops: nat, tail: nat, k: nat, ghost done: nat) returns (fault: Option<Fault>,
          ghost done': nat)
      requires job.arith.encode == gm.encode && job.Aims(oracle, before) &&
        job.Stretch(oracle, before, gm.cells[..], log, gm.log, start, done)
      requires 0 < tile && queue.items == [] && 0 < queue.depth
      requires loops == BlocksFor(length, tile) && tail == Rem(length, tile) && k < loops &&
        done == Reach(length, tile, k)
      modifies gm`loads, gm`log, gm.cells, queue
      ensures done' == Reach(length, tile, k + 1) && (fault.None? <==> rounds && job.Spans(start, done'))
      ensures !rounds ==>
        Untouched(old(gm.cells[..]), old(gm.log)) && (job.Spans(start, done') ==> fault == Some(NoRounding))
      ensures OnlyIn(before, gm.cells[..], job.y)
      ensures queue.blocked == old(queue.blocked) && queue.underflows == old(queue.underflows) && queue.items == []
      ensures fault.None? ==> job.Stretch(oracle, before, gm.cells[..], log, gm.log, start, done')
      ensures fault.None? ==> gm.loads == old(gm.loads) + 2 * (done' - done)
    {
      var offset, count, valid := TileAt(length, tile, loops, tail, k);
      done' := offset + valid;
      fault := NextTile(oracle, before, log, queue, start, offset, valid, count);
    }

    /** The tile loop of one core. */
    method Tiles(ghost oracle: seq<Cell>, queue: Queue<(seq<real>, seq<real>)>, start: nat, length: nat)
        returns (fault: Option<Fault>)
      requires job.Aims(oracle, gm.cells[..]) && job.arith.encode == gm.encode && 0 < tile && queue.items == [] &&
        0 < queue.depth
      modifies gm`loads, gm`log, gm.cells, queue
      ensures fault.None? <==> (rounds || length == 0) && job.Spans(start, length)
      ensures !rounds ==> Untouched(old(gm.cells[..]), old(gm.log))
      ensures !rounds && length > 0 && job.Spans(start, length) ==> fault == Some(NoRounding)
      ensures OnlyIn(old(gm.cells[..]), gm.cells[..], job.y)
      ensures queue.blocked == old(queue.blocked) && queue.underflows == old(queue.underflows) && queue.items == []
      ensures fault.None? ==> job.Stretch(oracle, old(gm.cells[..]), gm.cells[..], old(gm.log), gm.log, start, length)
      ensures fault.None? ==> gm.loads == old(gm.loads) + 2 * length
    {
      ghost var before, log := gm.cells[..], gm.log;
      var loops, tail := LoopAndTail(length, tile);
      TileEnd(length, tile);
      ghost var done := 0;
      for iteration := 0 to loops
        invariant done == Reach(length, tile, iteration) && gm.loads == old(gm.loads) + 2 * done
        invariant job.Stretch(oracle, before, gm.cells[..], log, gm.log, start, done)
        invariant !rounds ==> iteration == 0 && Untouched(before, log)
        invariant queue.blocked == old(queue.blocked) && queue.underflows == old(queue.underflows) && queue.items == []
      {
        fault, done := LoopTurn(oracle, before, log, queue, start, length, loops, tail, iteration, done);
        if fault.Some? { return; }
      }
      fault := None;
    }

    /** On-chip bytes one active core holds. */
    function Need(): nat { 3 * (tile * item) * buffers }

    /** One active core: claim its slots, run its tiles, give the slots back. */
    method Core(ghost oracle: seq<Cell>, core: nat, start: nat, length: nat, loopCount: int)
        returns (fault: Option<Fault>, queue: Queue<(seq<real>, seq<real>)>)
      requires job.Aims(oracle, gm.cells[..]) && job.arith.encode == gm.encode && ub.live == [] &&
        (buffers == 1 || buffers == 2)
      modifies this`mismatches, gm`loads, gm`log, gm.cells, ub
      ensures fresh(queue) && queue.items == [] && queue.blocked == 0 && queue.underflows == 0
      ensures fault.None? <==> Need() <= ub.usable && 0 < tile && (rounds || length == 0) && job.Spans(start, length)
      ensures !rounds ==> Untouched(old(gm.cells[..]), old(gm.log))
      ensures !rounds && length > 0 && Need() <= ub.usable && 0 < tile && job.Spans(start, length) ==>
        fault == Some(NoRounding) && ub.live != []
      ensures OnlyIn(old(gm.cells[..]), gm.cells[..], job.y)
      ensures fault.None? ==> job.Stretch(oracle, old(gm.cells[..]), gm.cells[..], old(gm.log), gm.log, start, length)
      ensures fault.None? ==> ub.live == [] && ub.highWater == Peak(old(ub.highWater), Need())
      ensures fault.None? ==> gm.loads == old(gm.loads) + 2 * length
      ensures fault.None? ==>
        mismatches == old(mismatches) + (if BlocksFor(length, tile) != loopCount then [core] else [])
    {
      queue := new Queue<(seq<real>, seq<real>)>(buffers);
      var plan := AddPlan(core, buffers, tile * item);
      AddPlanBytes(core, buffers, tile * item);
      var acquired := ub.Acquire(plan);
      if !acquired { return Some(Overrun), queue; }
      if tile == 0 { return Some(BadTile), queue; }
      var loops, tail := LoopAndTail(length, tile);
      if loops != loopCount { mismatches := mismatches + [core]; }
      fault := Tiles(oracle, queue, start, length);
      if fault.Some? { return; }
      LivePlan(plan);
      var dropped := ub.Drop(Tags(plan));
      if !dropped { fault := Some(Leak); }
    }

    /** Every queue so far was drained without blocking or running dry. */
    ghost predicate Drained()
      reads this, queues
    {
      forall q :: q in queues ==> q.items == [] && q.blocked == 0 && q.underflows == 0
    }

    /** The record and the buffers this run was set up for. */
    ghost predicate Matches(t: TilingData) {
      && WellFormed(t) && tile == t.tileElems && buffers == t.bufferCount
      && job.arith.encode == gm.encode
    }

    /** A record whose partition adds up, buffers of its size, and slots that fit. */
    ghost predicate Good(t: TilingData)
      requires WellFormed(t)
    {
      Tiled(t) && job.x1.length == job.x2.length == job.y.length == t.rows * t.hidden && Need() <= ub.usable
    }

    /** For a good record: the elements of the first `core` cores are stored. */
    ghost predicate Along(oracle: seq<Cell>, before: seq<Cell>, log: seq<nat>, t: TilingData, core: nat)
      requires WellFormed(t) && t.tileElems == tile
      reads this, gm, gm.cells, ub
    {
      Good(t) ==>
        && job.Stretch(oracle, before, gm.cells[..], log, gm.log, 0, StartRow(t, core) * t.hidden)
        && mismatches == Mismatched(t, core) && ub.highWater <= Need()
    }

    /** Sums can be rounded, or there are none. */
    predicate CanRound() { rounds || job.y.length == 0 }

    /** An active core's turn: its elements join those stored so far. */
    method Busy(ghost oracle: seq<Cell>, ghost before: seq<Cell>, ghost log: seq<nat>, ghost good: bool, core: nat,
        start: nat, length: nat, loopCount: int) returns (fault: Option<Fault>)
      requires job.Aims(oracle, before) && OnlyIn(before, gm.cells[..], job.y) && job.arith.encode == gm.encode
      requires ub.live == [] && Drained() && (buffers == 1 || buffers == 2)
      requires good ==>
        && job.Stretch(oracle, before, gm.cells[..], log, gm.log, 0, start) && job.Spans(start, length)
        && 0 < tile && Need() <= ub.usable && ub.highWater <= Need()
      modifies this`mismatches, this`queues, gm`loads, gm`log, gm.cells, ub
      ensures OnlyIn(before, gm.cells[..], job.y) && Drained() && (fault.None? ==> ub.live == [])
      ensures good ==> (fault.None? <==> rounds || length == 0)
      ensures good && fault.None? ==>
        && job.Stretch(oracle, before, gm.cells[..], log, gm.log, 0, start + length) && ub.highWater <= Need()
        && mismatches == old(mismatches) + (if BlocksFor(length, tile) != loopCount then [core] else [])
      ensures !rounds ==> Untouched(old(gm.cells[..]), old(gm.log))
      ensures good && fault.Some? ==> fault == Some(NoRounding) && ub.live != []
      ensures fault.None? ==> gm.loads == old(gm.loads) + 2 * length
    {
      ghost var mid, log' := gm.cells[..], gm.log;
      job.AimsKept(oracle, before, mid);
      var queue;
      fault, queue := Core(oracle, core, start, length, loopCount);
      queues := queues + [queue];
      OnlyInTrans(before, mid, gm.cells[..], job.y);
      if good && fault.None? {
        job.StretchConcat(oracle, before, mid, gm.cells[..], log, log', gm.log, 0, start, length);
      }
    }

    /** One turn of the core loop, idle cores included. */
    method Turn(ghost oracle: seq<Cell>, ghost before: seq<Cell>, ghost log: seq<nat>, t: TilingData, core: nat)
        returns (fault: Option<Fault>)
      requires Matches(t) && core < t.blockDim && ub.live == [] && Drained()
      requires job.Aims(oracle, before) && OnlyIn(before, gm.cells[..], job.y) && Along(oracle, before, log, t, core)
      modifies this`mismatches, this`queues, gm`loads, gm`log, gm.cells, ub
      ensures OnlyIn(before, gm.cells[..], job.y) && Drained() && (fault.None? ==> ub.live == [])
      ensures (Good(t) && CanRound() ==> fault.None?) && (fault.None? ==> Along(oracle, before, log, t, core + 1))
      ensures !rounds ==> Untouched(old(gm.cells[..]), old(gm.log))
      ensures Good(t) && !CanRound() && core == 0 ==> fault == Some(NoRounding) && ub.live != []
      ensures fault.None? ==>
        gm.loads == old(gm.loads) + 2 * (StartRow(t, core + 1) * t.hidden - StartRow(t, core) * t.hidden)
    {
      var rowsHere := RowsFor(t, core);
      CoreElements(t, core);
      if rowsHere == 0 { return None; }
      if Good(t) {
        CoreInside(t, core);
        if core == 0 && !CanRound() { FirstHasElements(t); }
      }
      fault := Busy(oracle, before, log, Good(t), core, StartRow(t, core) * t.hidden, rowsHere * t.hidden, t.loopCount);
    }

    /**
     * The whole kernel. Whatever the record says, only the output changes; for a record
     * that adds up, the output is the oracle, each element stored once and in order and each
     * input element loaded once, or, when the element type has no rounding, nothing is stored
     * and the slots are still held.
     */
    method Run(t: TilingData) returns (fault: Option<Fault>)
      requires Matches(t) && job.Ready(gm.cells[..]) && ub.live == [] && ub.highWater == 0 && mismatches == [] &&
        queues == []
      modifies this`mismatches, this`queues, gm`loads, gm`log, gm.cells, ub
      ensures OnlyIn(old(gm.cells[..]), gm.cells[..], job.y) && Drained()
      ensures Good(t) && CanRound() ==>
        && fault.None? && ub.live == [] && ub.highWater <= Need()
        && mismatches == Mismatched(t, t.blockDim)
        && Slice(gm.cells[..], job.y) == job.Oracle(old(gm.cells[..]))
        && gm.log == old(gm.log) + Range(job.y.offset, job.y.length)
        && gm.loads == old(gm.loads) + 2 * job.y.length
      ensures Good(t) && !CanRound() ==>
        fault == Some(NoRounding) && Untouched(old(gm.cells[..]), old(gm.log)) && ub.live != []
    {
      ghost var before, log, oracle := gm.cells[..], gm.log, job.Oracle(gm.cells[..]);
      CoreElements(t, 0);
      for core := 0 to t.blockDim
        invariant ub.live == [] && Drained() && OnlyIn(before, gm.cells[..], job.y) &&
          Along(oracle, before, log, t, core)
        invariant Good(t) && !CanRound() ==> core == 0 && Untouched(before, log)
        invariant gm.loads == old(gm.loads) + 2 * (StartRow(t, core) * t.hidden)
      {
        fault := Turn(oracle, before, log, t, core);
        if fault.Some? { return; }
      }
      fault := None;
      CoreElements(t, t.blockDim);
      if Good(t) && CanRound() {
        job.StretchAll(oracle, before, gm.cells[..], log, gm.log);
      }
    }
  }
}

/** Row sums on the simulated device. */
module RowSumKernel {
  import opened Options
  import opened Tiling
  import opened Geometry
  import opened Device
  import opened Oracles
  import opened Plans

  /** Input slots of one core, once per buffer, and one accumulator. */
  function RowPlan(core: nat, buffers: nat, bytes: nat, accum: nat): Live {
    [(Tag(RowIn, core, 0), bytes)]
    + (if buffers == 2 then [(Tag(RowIn, core, 1), bytes)] else [])
    + [(Tag(RowSum, core, 0), accum)]
  }

  lemma RowPlanBytes(core: nat, buffers: nat, bytes: nat, accum: nat)
    requires buffers == 1 || buffers == 2
    ensures DistinctTags(RowPlan(core, buffers, bytes, accum))
    ensures InUse(RowPlan(core, buffers, bytes, accum)) == Doubled(bytes, buffers) + accum
  {
    var first, last := [(Tag(RowIn, core, 0), bytes)], [(Tag(RowSum, core, 0), accum)];
    var second := if buffers == 2 then [(Tag(RowIn, core, 1), bytes)] else [];
    InUseConcat(first, second);
    InUseConcat(first + second, last);
    InUseOne(Tag(RowIn, core, 0), bytes);
    InUseOne(Tag(RowIn, core, 1), bytes);
    InUseOne(Tag(RowSum, core, 0), accum);
  }

  /** Adds one tile of a row to the accumulator. */
  method SumTile(gm: GlobalMemory, x: Buffer, base: nat, offset: nat, valid: nat, count: nat, accumulator: real)
      returns (r: Option<real>)
    requires Inside(x, gm.cells.Length) && AllNum(Slice(gm.cells[..], x)) && 0 < valid <= count
    modifies gm`loads
    ensures r.Some? <==> base + offset + valid <= x.length
    ensures r.Some? && accumulator == SumUpTo(Slice(gm.cells[..], x), base, offset) ==>
      r.value == SumUpTo(Slice(gm.cells[..], x), base, offset + valid)
    ensures r.Some? ==> gm.loads == old(gm.loads) + valid
  {
    var staged := gm.CopyIn(x, base + offset, valid, count);
    if staged.None? { return None; }
    SumStep(Slice(gm.cells[..], x), base, offset, valid, count, staged.value);
    r := Some(accumulator + Total(staged.value));
  }

  /** Sums the row at `base`, tile by tile; None where a load leaves the buffer. */
  method SumRow(gm: GlobalMemory, x: Buffer, base: nat, hidden: nat, tile: nat) returns (r: Option<real>)
    requires Inside(x, gm.cells.Length) && AllNum(Slice(gm.cells[..], x)) && 0 < tile
    modifies gm`loads
    ensures r.Some? <==> hidden == 0 || base + hidden <= x.length
    ensures r.Some? ==> r.value == SumUpTo(Slice(gm.cells[..], x), base, hidden) && gm.loads == old(gm.loads) + hidden
  {
    var loops, tail := LoopAndTail(hidden, tile);
    TileEnd(hidden, tile);
    r := Some(0.0);
    ghost var done := 0;
    for iteration := 0 to loops
      invariant done == Reach(hidden, tile, iteration) && r.Some? && gm.loads == old(gm.loads) + done
      invariant done > 0 ==> base + done <= x.length
      invariant r.value == SumUpTo(Slice(gm.cells[..], x), base, done)
    {
      var offset, count, valid := TileAt(hidden, tile, loops, tail, iteration);
      r := SumTile(gm, x, base, offset, valid, count, r.value);
      if r.None? { return; }
      done := offset + valid;
    }
  }

  /** The sum of `done` cells from `base` on, as far as they exist. */
  ghost function SumUpTo(cells: seq<Cell>, base: nat, done: nat): real
    requires AllNum(cells)
  {
    if done == 0 || base + done > |cells| then 0.0 else Total(Values(cells[base..base + done]))
  }

  lemma SumStep(cells: seq<Cell>, base: nat, done: nat, n: nat, count: nat, staged: seq<real>)
    requires AllNum(cells) && 0 < n <= count && base + done + n <= |cells|
    requires staged == Values(cells[base + done..base + done + n]) + Neutral(count - n)
    ensures SumUpTo(cells, base, done + n) == SumUpTo(cells, base, done) + Total(staged)
  {
    TotalConcat(Values(cells[base + done..base + done + n]), Neutral(count - n));
    TotalNeutral(count - n);
    if done > 0 {
      ValuesConcat(cells, base, done, n);
      TotalConcat(Values(cells[base..base + done]), Values(cells[base + done..base + done + n]));
    }
  }

  /** Input and output of a row-sum launch. */
  datatype RowJob = RowJob(arith: Arith, x: Buffer, y: Buffer, rows: nat, hidden: nat) {
    ghost predicate Ready(cells: seq<Cell>) {
      x.offset + x.length <= y.offset && Inside(y, |cells|) && AllNum(Slice(cells, x))
    }

    /** Buffers of the record's size. */
    ghost predicate Sized() { hidden > 0 && x.length == rows * hidden && y.length == rows }

    ghost function Oracle(cells: seq<Cell>): (r: seq<Cell>)
      requires Ready(cells) && Sized()
      ensures |r| == rows
    {
      SumOracle(arith, Slice(cells, x), rows, hidden)
    }

    /** What row `row`, which starts at `base`, must become. */
    lemma OracleAt(cells: seq<Cell>, row: nat, base: nat)
      requires Ready(cells) && Sized() && row < rows && base == row * hidden
      ensures base + hidden <= x.length
      ensures Oracle(cells)[row] == Num(arith.encode(arith.roundAcc(SumUpTo(Slice(cells, x), base, hidden))))
    {
      RowInside(rows, hidden, row);
    }

    lemma OracleKept(before: seq<Cell>, after: seq<Cell>)
      requires Ready(before) && OnlyIn(before, after, y)
      ensures Ready(after) && Slice(after, x) == Slice(before, x)
      ensures Sized() ==> Oracle(after) == Oracle(before)
    {
      KeptBelow(before, after, x, y);
    }

    /** The first `done` rows of the output hold their sums, stored in order. */
    ghost predicate Done(before: seq<Cell>, after: seq<Cell>, log: seq<nat>, log': seq<nat>, done: nat) {
      && Ready(before) && Sized() && done <= rows
      && Wrote(before, after, y.offset, Oracle(before)[..done]) && log' == log + Range(y.offset, done)
    }

    lemma DoneStep(before: seq<Cell>, mid: seq<Cell>, after: seq<Cell>, log: seq<nat>, log': seq<nat>,
        log'': seq<nat>, done: nat)
      requires Done(before, mid, log, log', done) && done < rows
      requires after == mid[y.offset + done := Oracle(before)[done]] && log'' == log' + [y.offset + done]
      ensures Done(before, after, log, log'', done + 1)
    {
      var oracle := Oracle(before);
      assert oracle[..done + 1] == oracle[..done] + [oracle[done]];
      assert Range(y.offset, done + 1) == Range(y.offset, done) + [y.offset + done];
    }
  }

  class RowSumRun {
    const gm: GlobalMemory
    const ub: OnChip
    const job: RowJob
    const tile: nat
    const buffers: nat
    const slot: nat
    const accum: nat
    /** Whether sums can be rounded to the accumulation type. */
    const rounds: bool

    constructor (gm: GlobalMemory, ub: OnChip, job: RowJob, t: TilingData, item: nat, accum: nat, rounds: bool)
      requires WellFormed(t)
      ensures this.gm == gm && this.ub == ub && this.job == job && this.accum == accum && this.rounds == rounds
      ensures tile == t.tileElems && buffers == t.bufferCount &&
        slot == (if tile < job.hidden then tile else job.hidden) * item
    {
      this.gm, this.ub, this.job, this.accum := gm, ub, job, accum;
      tile, buffers, this.rounds := t.tileElems, t.bufferCount, rounds;
      slot := (if t.tileElems < job.hidden then t.tileElems else job.hidden) * item;
    }

    /** On-chip bytes one active core holds. */
    function Need(): nat { Doubled(slot, buffers) + accum }

    /** Nothing has been stored. */
    ghost predicate Untouched(before: seq<Cell>, log: seq<nat>)
      reads gm, gm.cells
    {
      gm.cells[..] == before && gm.log == log
    }

    /** One row, which starts at `base`: sum it and store the rounded sum. */
    method RowAt(row: nat, base: nat) returns (fault: Option<Fault>)
      requires job.Ready(gm.cells[..]) && job.arith.encode == gm.encode && 0 < tile
      modifies gm`loads, gm`log, gm.cells
      ensures OnlyIn(old(gm.cells[..]), gm.cells[..], job.y)
      ensures !rounds ==> Untouched(old(gm.cells[..]), old(gm.log))
      ensures !rounds && base + job.hidden <= job.x.length ==> fault == Some(NoRounding)
      ensures rounds && 0 < job.hidden && base + job.hidden <= job.x.length && row < job.y.length ==>
        && fault.None? && gm.log == old(gm.log) + [job.y.offset + row]
        && gm.cells[..] == old(gm.cells[..])[job.y.offset + row :=
             Num(gm.encode(job.arith.roundAcc(SumUpTo(Slice(old(gm.cells[..]), job.x), base, job.hidden))))]
      ensures fault.None? ==> gm.loads == old(gm.loads) + job.hidden
    {
      var total := SumRow(gm, job.x, base, job.hidden, tile);
      if total.None? { return Some(OutOfBounds); }
      if !rounds { return Some(NoRounding); }
      var stored := gm.Store(job.y, row, job.arith.roundAcc(total.value));
      fault := if stored then None else Some(OutOfBounds);
    }

    method Row(row: nat) returns (fault: Option<Fault>)
      requires job.Ready(gm.cells[..]) && job.arith.encode == gm.encode && 0 < tile
      modifies gm`loads, gm`log, gm.cells
      ensures OnlyIn(old(gm.cells[..]), gm.cells[..], job.y)
      ensures !rounds ==> Untouched(old(gm.cells[..]), old(gm.log))
      ensures job.Sized() && row < job.rows && !rounds ==> fault == Some(NoRounding)
      ensures job.Sized() && row < job.rows && rounds ==>
        && fault.None? && gm.log == old(gm.log) + [job.y.offset + row]
        && gm.cells[..] == old(gm.cells[..])[job.y.offset + row := job.Oracle(old(gm.cells[..]))[row]]
      ensures fault.None? ==> gm.loads == old(gm.loads) + job.hidden
    {
      var base := row * job.hidden;
      if job.Sized() && row < job.rows { job.OracleAt(gm.cells[..], row, base); }
      fault := RowAt(row, base);
    }

    method NextRow(ghost before: seq<Cell>, ghost log: seq<nat>, row: nat) returns (fault: Option<Fault>)
      requires job.Ready(before) && OnlyIn(before, gm.cells[..], job.y) && job.arith.encode == gm.encode && 0 < tile
      modifies gm`loads, gm`log, gm.cells
      ensures OnlyIn(before, gm.cells[..], job.y)
      ensures !rounds ==> Untouched(old(gm.cells[..]), old(gm.log))
      ensures old(job.Done(before, gm.cells[..], log, gm.log, row)) && row < job.rows ==>
        if rounds then fault.None? && job.Done(before, gm.cells[..], log, gm.log, row + 1)
          else fault == Some(NoRounding)
      ensures fault.None? ==> gm.loads == old(gm.loads) + job.hidden
    {
      ghost var mid, log' := gm.cells[..], gm.log;
      job.OracleKept(before, mid);
      fault := Row(row);
      OnlyInTrans(before, mid, gm.cells[..], job.y);
      if job.Done(before, mid, log, log', row) && row < job.rows && rounds {
        job.DoneStep(before, mid, gm.cells[..], log, log', gm.log, row);
      }
    }

    /** The rows of one core. */
    method Rows(ghost before: seq<Cell>, ghost log: seq<nat>, first: nat, count: nat) returns (fault: Option<Fault>)
      requires job.Ready(before) && OnlyIn(before, gm.cells[..], job.y) && job.arith.encode == gm.encode && 0 < tile
      modifies gm`loads, gm`log, gm.cells
      ensures OnlyIn(before, gm.cells[..], job.y)
      ensures !rounds ==> Untouched(old(gm.cells[..]), old(gm.log))
      ensures old(job.Done(before, gm.cells[..], log, gm.log, first)) && first + count <= job.rows ==>
        if rounds || count == 0 then fault.None? && job.Done(before, gm.cells[..], log, gm.log, first + count)
        else fault == Some(NoRounding)
      ensures fault.None? ==> gm.loads == old(gm.loads) + Area(count, job.hidden)
    {
      ghost var good := job.Done(before, gm.cells[..], log, gm.log, first) && first + count <= job.rows;
      var row := first;
      while row < first + count
        invariant first <= row <= first + count && OnlyIn(before, gm.cells[..], job.y)
        invariant good ==> job.Done(before, gm.cells[..], log, gm.log, row) && (rounds || row == first)
        invariant gm.loads == old(gm.loads) + Area(row - first, job.hidden)
        invariant !rounds ==> Untouched(old(gm.cells[..]), old(gm.log))
      {
        fault := NextRow(before, log, row);
        if fault.Some? { return; }
        row := row + 1;
      }
      fault := None;
    }

    /** A record whose partition adds up, buffers of its size, and slots that fit. */
    ghost predicate Good(t: TilingData) {
      Tiled(t) && job.rows == t.rows && job.hidden == t.hidden && job.Sized() && Need() <= ub.usable
    }

    /** One active core: claim its slots, run its rows, give the slots back. */
    method Core(ghost before: seq<Cell>, ghost log: seq<nat>, core: nat, first: nat, count: nat)
        returns (fault: Option<Fault>)
      requires job.Ready(before) && OnlyIn(before, gm.cells[..], job.y) && job.arith.encode == gm.encode
      requires ub.live == [] && (buffers == 1 || buffers == 2)
      modifies gm`loads, gm`log, gm.cells, ub
      ensures OnlyIn(before, gm.cells[..], job.y) && (fault.None? ==> ub.live == [])
      ensures Need() <= ub.usable && 0 < tile && old(job.Done(before, gm.cells[..], log, gm.log, first)) &&
              first + count <= job.rows ==>
        if rounds || count == 0 then
          && fault.None? && job.Done(before, gm.cells[..], log, gm.log, first + count)
          && ub.highWater == Peak(old(ub.highWater), Need())
        else fault == Some(NoRounding) && ub.live != []
      ensures fault.None? ==> gm.loads == old(gm.loads) + Area(count, job.hidden)
      ensures !rounds ==> Untouched(old(gm.cells[..]), old(gm.log))
    {
      var plan := RowPlan(core, buffers, slot, accum);
      RowPlanBytes(core, buffers, slot, accum);
      var acquired := ub.Acquire(plan);
      if !acquired { return Some(Overrun); }
      if tile == 0 { return Some(BadTile); }
      fault := Rows(before, log, first, count);
      if fault.Some? { return; }
      LivePlan(plan);
      var dropped := ub.Drop(Tags(plan));
      if !dropped { fault := Some(Leak); }
    }

    /** One turn of the core loop, idle cores included. */
    method Turn(ghost before: seq<Cell>, ghost log: seq<nat>, t: TilingData, core: nat) returns (fault: Option<Fault>)
      requires WellFormed(t) && tile == t.tileElems && buffers == t.bufferCount && core < t.blockDim && ub.live == []
      requires job.Ready(before) && OnlyIn(before, gm.cells[..], job.y) && job.arith.encode == gm.encode
      requires Good(t) ==> job.Done(before, gm.cells[..], log, gm.log, StartRow(t, core)) && ub.highWater <= Need()
      modifies gm`loads, gm`log, gm.cells, ub
      ensures OnlyIn(before, gm.cells[..], job.y) && (fault.None? ==> ub.live == [])
      ensures !rounds ==> Untouched(old(gm.cells[..]), old(gm.log))
      ensures Good(t) ==>
        if rounds || RowsFor(t, core) == 0 then
          fault.None? && job.Done(before, gm.cells[..], log, gm.log, StartRow(t, core + 1)) && ub.highWater <= Need()
        else fault == Some(NoRounding) && ub.live != []
      ensures fault.None? ==> gm.loads == old(gm.loads) + Area(RowsFor(t, core), job.hidden)
    {
      var rowsHere, firstRow := RowsFor(t, core), StartRow(t, core);
      CoreRows(t, core);
      if Good(t) { StartRowMono(t, core + 1, t.blockDim); }
      if rowsHere == 0 { return None; }
      fault := Core(before, log, core, firstRow, rowsHere);
    }

    /** Sums can be rounded, or there are none. */
    predicate CanRound() { rounds || job.rows == 0 }

    /**
     * The whole kernel: only the output changes, and for a record that adds up it becomes the
     * oracle, or, when the accumulation type has no rounding, nothing is stored.
     */
    method Run(t: TilingData) returns (fault: Option<Fault>)
      requires WellFormed(t) && tile == t.tileElems && buffers == t.bufferCount
      requires job.Ready(gm.cells[..]) && job.arith.encode == gm.encode && ub.live == [] && ub.highWater == 0
      modifies gm`loads, gm`log, gm.cells, ub
      ensures OnlyIn(old(gm.cells[..]), gm.cells[..], job.y)
      ensures Good(t) && CanRound() ==>
        && fault.None? && ub.live == [] && ub.highWater <= Need()
        && Slice(gm.cells[..], job.y) == job.Oracle(old(gm.cells[..]))
        && gm.log == old(gm.log) + Range(job.y.offset, job.y.length)
        && gm.loads == old(gm.loads) + Area(job.rows, job.hidden)
      ensures Good(t) && !CanRound() ==>
        fault == Some(NoRounding) && Untouched(old(gm.cells[..]), old(gm.log)) && ub.live != []
    {
      ghost var before, log := gm.cells[..], gm.log;
      CoreRows(t, 0);
      for core := 0 to t.blockDim
        invariant ub.live == [] && OnlyIn(before, gm.cells[..], job.y)
        invariant Good(t) ==> job.Done(before, gm.cells[..], log, gm.log, StartRow(t, core)) && ub.highWater <= Need()
        invariant Good(t) && !CanRound() ==> core == 0
        invariant !rounds ==> Untouched(before, log)
        invariant gm.loads == old(gm.loads) + Area(StartRow(t, core), job.hidden)
      {
        if Good(t) { BusyIf(t, core); }
        CoreArea(t, core, job.hidden);
        fault := Turn(before, log, t, core);
        if fault.Some? { return; }
      }
      fault := None;
    }
  }
}

/** RMSNorm on the simulated device. */
module NormKernel {
  import opened Options
  import opened Arithmetic
  import opened Tiling
  import opened Geometry
  import opened Device
  import opened Oracles
  import opened Plans

  /** Input and output slots per buffer, one accumulator, and the kept row when it is not read twice. */
  function NormPlan(core: nat, buffers: nat, bytes: nat, accum: nat, kept: Option<nat>): Live {
    NormSlot(core, 0, bytes)
    + (if buffers == 2 then NormSlot(core, 1, bytes) else [])
    + [(Tag(NormSquare, core, 0), accum)]
    + (if kept.Some? then [(Tag(NormKeep, core, 0), kept.value)] else [])
  }

  function NormSlot(core: nat, slot: nat, bytes: nat): Live {
    [(Tag(NormIn, core, slot), bytes)] + [(Tag(NormOut, core, slot), bytes)]
  }

  lemma NormPlanBytes(core: nat, buffers: nat, bytes: nat, accum: nat, kept: Option<nat>)
    requires buffers == 1 || buffers == 2
    ensures DistinctTags(NormPlan(core, buffers, bytes, accum, kept))
    ensures InUse(NormPlan(core, buffers, bytes, accum, kept))
         == Doubled(bytes + bytes, buffers) + accum + (if kept.Some? then kept.value else 0)
  {
    var first, square := NormSlot(core, 0, bytes), [(Tag(NormSquare, core, 0), accum)];
    var second := if buffers == 2 then NormSlot(core, 1, bytes) else [];
    var keep := if kept.Some? then [(Tag(NormKeep, core, 0), kept.value)] else [];
    InUseConcat(first, second);
    InUseConcat(first + second, square);
    InUseConcat(first + second + square, keep);
    NormSlotBytes(core, 0, bytes);
    NormSlotBytes(core, 1, bytes);
    InUseOne(Tag(NormSquare, core, 0), accum);
    if kept.Some? { InUseOne(Tag(NormKeep, core, 0), kept.value); }
  }

  lemma NormSlotBytes(core: nat, slot: nat, bytes: nat)
    ensures InUse(NormSlot(core, slot, bytes)) == bytes + bytes
  {
    InUseConcat([(Tag(NormIn, core, slot), bytes)], [(Tag(NormOut, core, slot), bytes)]);
    InUseOne(Tag(NormIn, core, slot), bytes);
    InUseOne(Tag(NormOut, core, slot), bytes);
  }

  /** The sum of squares of `done` cells from `base` on, as far as they exist. */
  ghost function SquaresUpTo(cells: seq<Cell>, base: nat, done: nat): real
    requires AllNum(cells)
  {
    if done == 0 || base + done > |cells| then 0.0 else Total(Squares(Values(cells[base..base + done])))
  }

  ghost function ValuesUpTo(cells: seq<Cell>, base: nat, done: nat): seq<real>
    requires AllNum(cells)
  {
    if done == 0 || base + done > |cells| then [] else Values(cells[base..base + done])
  }

  lemma SquaresStep(cells: seq<Cell>, base: nat, done: nat, n: nat, staged: seq<real>)
    requires AllNum(cells) && 0 < n && base + done + n <= |cells|
    requires staged == Values(cells[base + done..base + done + n])
    ensures SquaresUpTo(cells, base, done + n) == SquaresUpTo(cells, base, done) + Total(Squares(staged))
    ensures ValuesUpTo(cells, base, done + n) == ValuesUpTo(cells, base, done) + staged
  {
    if done > 0 {
      ValuesConcat(cells, base, done, n);
      SquaresConcat(Values(cells[base..base + done]), staged);
      TotalConcat(Squares(Values(cells[base..base + done])), Squares(staged));
    } else {
      assert ValuesUpTo(cells, base, done) == [];
    }
  }

  /** All rows together load their elements twice or three times, weights included. */
  lemma {:induction false} NormLoads(rows: nat, hidden: nat, reread: bool)
    ensures Area(rows, hidden + (hidden + (if reread then hidden else 0)))
         == (if reread then 3 else 2) * Area(rows, hidden)
    decreases rows
  {
    if rows > 0 { NormLoads(rows - 1, hidden, reread); }
  }

  /** The buffers of an RMSNorm launch. */
  datatype NormJob = NormJob(arith: Arith, x: Buffer, gamma: Buffer, y: Buffer, rows: nat, hidden: nat, eps: real) {
    ghost predicate Ready(cells: seq<Cell>) {
      && x.offset + x.length <= y.offset && gamma.offset + gamma.length <= y.offset && Inside(y, |cells|)
      && AllNum(Slice(cells, x)) && AllNum(Slice(cells, gamma))
    }

    /** The row at `base` lies inside every buffer. */
    ghost predicate Spans(base: nat) {
      0 < hidden && base + hidden <= x.length && hidden <= gamma.length && base + hidden <= y.length
    }

    ghost function Scaled(cells: seq<Cell>, base: nat, rstd: real): (r: seq<Cell>)
      requires Ready(cells) && Spans(base)
      ensures |r| == hidden
    {
      Weighted(arith, Slice(cells, x)[base..base + hidden], Slice(cells, gamma)[..hidden], rstd)
    }

    /** Buffers of the record's size. */
    ghost predicate Sized() {
      hidden > 0 && x.length == Area(rows, hidden) && gamma.length == hidden && y.length == Area(rows, hidden)
    }

    ghost function Oracle(cells: seq<Cell>): (r: seq<Cell>)
      requires Ready(cells) && Sized()
      ensures |r| == y.length
    {
      NormOracle(arith, Slice(cells, x), Slice(cells, gamma), eps, rows)
    }

    /** `value` is column `column` of the row at `base`. */
    ghost predicate At(cells: seq<Cell>, base: nat, column: nat, value: real)
      requires Ready(cells)
    {
      Spans(base) && column < hidden && Num(value) == Slice(cells, x)[base + column]
    }

    /** `staged` is the stretch of the row at `base` that starts at column `offset`. */
    ghost predicate Staged(cells: seq<Cell>, base: nat, offset: nat, staged: seq<real>)
      requires Ready(cells)
    {
      offset + |staged| <= hidden && forall i :: 0 <= i < |staged| ==> At(cells, base, offset + i, staged[i])
    }

    /** The first `done` columns of the row at `base` were stored, in order. */
    ghost predicate Part(before: seq<Cell>, after: seq<Cell>, log: seq<nat>, log': seq<nat>, base: nat, rstd: real,
        done: nat) {
      && Ready(before) && Spans(base) && done <= hidden
      && Wrote(before, after, y.offset + base, Scaled(before, base, rstd)[..done]) &&
           log' == log + Range(y.offset + base, done)
    }

    lemma PartStep(before: seq<Cell>, mid: seq<Cell>, after: seq<Cell>, log: seq<nat>, log': seq<nat>, log'': seq<nat>,
        base: nat, rstd: real, done: nat, value: real)
      requires Part(before, mid, log, log', base, rstd, done) && At(before, base, done, value)
      requires after == mid[y.offset + (base + done) :=
        Num(arith.encode(arith.Scale(value, rstd, Slice(before, gamma)[done].v)))]
      requires log'' == log' + [y.offset + (base + done)]
      ensures Part(before, after, log, log'', base, rstd, done + 1)
    {
      var scaled := Scaled(before, base, rstd);
      assert Slice(before, x)[base..base + hidden][done] == Num(value);
      assert scaled[done] == after[y.offset + (base + done)];
      assert scaled[..done + 1] == scaled[..done] + [scaled[done]];
      assert Range(y.offset + base, done + 1) == Range(y.offset + base, done) + [y.offset + base + done];
    }

    /** The whole row at `base` was normalised. */
    ghost predicate RowDone(before: seq<Cell>, after: seq<Cell>, log: seq<nat>, log': seq<nat>, base: nat) {
      Ready(before) && Spans(base) && Part(before, after, log, log', base, RowRstd(before, base), hidden)
    }

    ghost function RowRstd(cells: seq<Cell>, base: nat): real
      requires Ready(cells) && Spans(base)
    {
      Rstd(arith, Total(Squares(Values(Slice(cells, x)[base..base + hidden]))), hidden, eps)
    }

    /** The first `end` elements of `oracle` were stored, in order. */
    ghost predicate Filled(oracle: seq<Cell>, before: seq<Cell>, after: seq<Cell>, log: seq<nat>, log': seq<nat>,
        end: nat) {
      end <= |oracle| && Wrote(before, after, y.offset, oracle[..end]) && log' == log + Range(y.offset, end)
    }

    lemma FilledStep(oracle: seq<Cell>, before: seq<Cell>, mid: seq<Cell>, after: seq<Cell>, log: seq<nat>,
        log': seq<nat>, log'': seq<nat>, end: nat, n: nat)
      requires Filled(oracle, before, mid, log, log', end) && end + n <= |oracle|
      requires Wrote(mid, after, y.offset + end, oracle[end..end + n]) && log'' == log' + Range(y.offset + end, n)
      ensures Filled(oracle, before, after, log, log'', end + n)
    {
      assert oracle[..end + n] == oracle[..end] + oracle[end..end + n];
      WroteBoth(before, mid, after, y.offset, oracle[..end], oracle[end..end + n]);
      RangeStep(y.offset, end, n);
    }

    /** The first `end` elements were normalised, in order. */
    ghost predicate Done(before: seq<Cell>, after: seq<Cell>, log: seq<nat>, log': seq<nat>, end: nat) {
      Ready(before) && Sized() && Filled(Oracle(before), before, after, log, log', end)
    }

    lemma DoneAll(before: seq<Cell>, after: seq<Cell>, log: seq<nat>, log': seq<nat>)
      requires Done(before, after, log, log', y.length)
      ensures Slice(after, y) == Oracle(before)
    {
      assert Oracle(before)[..y.length] == Oracle(before);
    }

    /** What the row at `base` becomes is that row of the oracle. */
    lemma RowIs(before: seq<Cell>, row: nat, base: nat)
      requires Ready(before) && Sized() && row < rows && base == Area(row, hidden)
      ensures Spans(base) && Area(row + 1, hidden) == base + hidden <= y.length
      ensures Oracle(before)[base..base + hidden] == Scaled(before, base, RowRstd(before, base))
    {
      NormOracleRow(arith, Slice(before, x), Slice(before, gamma), eps, rows, row, base);
      ScaledIs(before, base);
    }

    lemma ScaledIs(before: seq<Cell>, base: nat)
      requires Ready(before) && Spans(base) && gamma.length == hidden
      ensures Scaled(before, base, RowRstd(before, base)) ==
        NormRow(arith, Slice(before, x)[base..base + hidden], Slice(before, gamma), eps)
    {
      assert Slice(before, gamma)[..hidden] == Slice(before, gamma);
    }

    /** A normalised row is that stretch of the oracle. */
    lemma RowWrote(before: seq<Cell>, mid: seq<Cell>, after: seq<Cell>, log': seq<nat>, log'': seq<nat>, row: nat,
        base: nat)
      requires Ready(before) && Sized() && row < rows && base == Area(row, hidden) && OnlyIn(before, mid, y)
      requires RowDone(mid, after, log', log'', base)
      ensures base + hidden <= y.length && Wrote(mid, after, y.offset + base, Oracle(before)[base..base + hidden])
      ensures log'' == log' + Range(y.offset + base, hidden)
    {
      RowIs(before, row, base);
      RowKept(before, mid, base);
    }

    lemma DoneStep(before: seq<Cell>, mid: seq<Cell>, after: seq<Cell>, log: seq<nat>, log': seq<nat>,
        log'': seq<nat>, row: nat, base: nat)
      requires Done(before, mid, log, log', base) && row < rows && base == Area(row, hidden) && OnlyIn(before, mid, y)
      requires RowDone(mid, after, log', log'', base)
      ensures Done(before, after, log, log'', base + hidden)
    {
      RowWrote(before, mid, after, log', log'', row, base);
      FilledStep(Oracle(before), before, mid, after, log, log', log'', base, hidden);
    }

    lemma RowKept(before: seq<Cell>, after: seq<Cell>, base: nat)
      requires Ready(before) && OnlyIn(before, after, y) && Spans(base)
      ensures Ready(after) && Scaled(after, base, RowRstd(after, base))[..hidden] ==
        Scaled(before, base, RowRstd(before, base))
    {
      Kept(before, after);
    }

    lemma Kept(before: seq<Cell>, after: seq<Cell>)
      requires Ready(before) && OnlyIn(before, after, y)
      ensures Ready(after) && Slice(after, x) == Slice(before, x) && Slice(after, gamma) == Slice(before, gamma)
    {
      KeptBelow(before, after, x, y);
      KeptBelow(before, after, gamma, y);
    }
  }

  class NormRun {
    const gm: GlobalMemory
    const ub: OnChip
    const job: NormJob
    const tile: nat
    const buffers: nat
    const slot: nat
    const accum: nat
    const kept: Option<nat>
    const loopCount: int
    /** Whether values can be rounded to the element type. */
    const rounds: bool
    var mismatches: seq<nat>

    constructor (gm: GlobalMemory, ub: OnChip, job: NormJob, t: TilingData, item: nat, accum: nat, rounds: bool,
        reread: bool)
      requires WellFormed(t)
      ensures this.gm == gm && this.ub == ub && this.job == job && this.accum == accum && this.rounds == rounds &&
        mismatches == []
      ensures tile == t.tileElems && buffers == t.bufferCount &&
        slot == (if tile < job.hidden then tile else job.hidden) * item
      ensures kept == (if reread then None else Some(job.hidden * item)) && loopCount == t.loopCount
    {
      this.gm, this.ub, this.job, this.accum := gm, ub, job, accum;
      tile, buffers, this.rounds := t.tileElems, t.bufferCount, rounds;
      slot := (if t.tileElems < job.hidden then t.tileElems else job.hidden) * item;
      kept := if reread then None else Some(job.hidden * item);
      loopCount, mismatches := t.loopCount, [];
    }

    /** On-chip bytes one active core holds. */
    function Need(): nat { Doubled(slot + slot, buffers) + accum + (if kept.Some? then kept.value else 0) }

    /** Nothing has been stored. */
    ghost predicate Untouched(before: seq<Cell>, log: seq<nat>)
      reads gm, gm.cells
    {
      gm.cells[..] == before && gm.log == log
    }

    /** Stages one tile of a row and drops the padding. */
    method StageTile(base: nat, offset: nat, valid: nat, count: nat) returns (r: Option<seq<real>>)
      requires job.Ready(gm.cells[..]) && 0 < valid <= count
      modifies gm`loads
      ensures r.Some? <==> base + offset + valid <= job.x.length
      ensures r.Some? ==> r.value == Values(Slice(gm.cells[..], job.x)[base + offset..base + offset + valid])
      ensures r.Some? ==> gm.loads == old(gm.loads) + valid
    {
      r := gm.CopyIn(job.x, base + offset, valid, count);
      if r.Some? { r := Some(r.value[..valid]); }
    }

    /** Adds the squares of one tile to the accumulator and keeps the tile if rows are kept. */
    method SquareTile(ghost cells: seq<Cell>, base: nat, offset: nat, valid: nat, count: nat, accumulator: real,
        cached: seq<real>) returns (r: Option<real>, cached': seq<real>)
      requires cells == gm.cells[..] && job.Ready(cells) && 0 < valid <= count
      modifies gm`loads
      ensures cells == gm.cells[..] && (r.Some? <==> base + offset + valid <= job.x.length)
      ensures r.Some? && Squared(cells, base, offset, accumulator, cached) ==>
        Squared(cells, base, offset + valid, r.value, cached')
      ensures r.Some? ==> gm.loads == old(gm.loads) + valid
    {
      var staged := StageTile(base, offset, valid, count);
      if staged.None? { return None, cached; }
      SquaresStep(Slice(cells, job.x), base, offset, valid, staged.value);
      r := Some(accumulator + Total(Squares(staged.value)));
      cached' := if kept.Some? then cached + staged.value else cached;
    }

    /** What the first pass knows of the row at `base` after `done` columns. */
    ghost predicate Squared(cells: seq<Cell>, base: nat, done: nat, accumulator: real, cached: seq<real>)
      requires job.Ready(cells)
    {
      && accumulator == SquaresUpTo(Slice(cells, job.x), base, done)
      && cached == if kept.Some? then ValuesUpTo(Slice(cells, job.x), base, done) else []
    }

    /** First pass over a row: its sum of squares, and its values if they are to be kept. */
    method PassOne(base: nat) returns (r: Option<real>, cached: seq<real>)
      requires job.Ready(gm.cells[..]) && 0 < tile
      modifies gm`loads
      ensures r.Some? <==> job.hidden == 0 || base + job.hidden <= job.x.length
      ensures r.Some? ==> Squared(gm.cells[..], base, job.hidden, r.value, cached)
      ensures r.Some? ==> gm.loads == old(gm.loads) + job.hidden
    {
      var loops, tail := LoopAndTail(job.hidden, tile);
      TileEnd(job.hidden, tile);
      r, cached := Some(0.0), [];
      ghost var done, cells := 0, gm.cells[..];
      for iteration := 0 to loops
        invariant done == Reach(job.hidden, tile, iteration) && r.Some? && gm.loads == old(gm.loads) + done
        invariant done > 0 ==> base + done <= job.x.length
        invariant cells == gm.cells[..] && Squared(cells, base, done, r.value, cached)
      {
        r, cached, done := FirstTurn(cells, base, loops, tail, iteration, done, r.value, cached);
        if r.None? { return; }
      }
    }

    /** Tile number `k` of the first pass, after `done` columns. */
    method FirstTurn(ghost cells: seq<Cell>, base: nat, loops: nat, tail: nat, k: nat, ghost done: nat,
        accumulator: real, cached: seq<real>) returns (r: Option<real>, cached': seq<real>, ghost done': nat)
      requires cells == gm.cells[..] && job.Ready(cells) && 0 < tile && k < loops
      requires loops == BlocksFor(job.hidden, tile) && tail == Rem(job.hidden, tile)
      requires done == Reach(job.hidden, tile, k)
      requires Squared(cells, base, done, accumulator, cached)
      modifies gm`loads
      ensures cells == gm.cells[..] && done' == Reach(job.hidden, tile, k + 1) && 0 < done'
      ensures r.Some? <==> base + done' <= job.x.length
      ensures r.Some? ==> Squared(cells, base, done', r.value, cached') && gm.loads == old(gm.loads) + (done' - done)
    {
      var offset, count, valid := TileAt(job.hidden, tile, loops, tail, k);
      done' := offset + valid;
      r, cached' := SquareTile(cells, base, offset, valid, count, accumulator, cached);
    }

    /** Stores one scaled lane, reading its weight by the column. */
    method StoreLane(base: nat, column: nat, value: real, rstd: real) returns (fault: Option<Fault>)
      requires job.Ready(gm.cells[..]) && job.arith.encode == gm.encode
      modifies gm`loads, gm`log, gm.cells
      ensures OnlyIn(old(gm.cells[..]), gm.cells[..], job.y)
      ensures !rounds ==> Untouched(old(gm.cells[..]), old(gm.log))
      ensures !rounds && column < job.gamma.length ==> fault == Some(NoRounding)
      ensures rounds && column < job.gamma.length && base + column < job.y.length ==>
        && fault.None? && gm.log == old(gm.log) + [job.y.offset + (base + column)]
        && gm.cells[..] == old(gm.cells[..])[job.y.offset + (base + column) :=
             Num(gm.encode(job.arith.Scale(value, rstd, Slice(old(gm.cells[..]), job.gamma)[column].v)))]
      ensures fault.None? ==> gm.loads == old(gm.loads) + 1
    {
      var weight := gm.Load(job.gamma, column);
      if weight.None? { return Some(OutOfBounds); }
      if !rounds { return Some(NoRounding); }
      assert weight.value == Slice(gm.cells[..], job.gamma)[column];
      var stored := gm.Store(job.y, base + column, job.arith.Scale(value, rstd, weight.value.v));
      fault := if stored then None else Some(OutOfBounds);
    }

    /** The next lane of a row whose first `column` lanes are stored. */
    method NextLane(ghost before: seq<Cell>, ghost log: seq<nat>, base: nat, column: nat, value: real, rstd: real)
        returns (fault: Option<Fault>)
      requires job.Ready(before) && OnlyIn(before, gm.cells[..], job.y) && job.arith.encode == gm.encode
      modifies gm`loads, gm`log, gm.cells
      ensures OnlyIn(before, gm.cells[..], job.y)
      ensures !rounds ==> Untouched(old(gm.cells[..]), old(gm.log))
      ensures old(job.Part(before, gm.cells[..], log, gm.log, base, rstd, column)) &&
              job.At(before, base, column, value) ==>
        if rounds then fault.None? && job.Part(before, gm.cells[..], log, gm.log, base, rstd, column + 1)
        else fault == Some(NoRounding)
      ensures fault.None? ==> gm.loads == old(gm.loads) + 1
    {
      ghost var mid, log' := gm.cells[..], gm.log;
      job.Kept(before, mid);
      fault := StoreLane(base, column, value, rstd);
      OnlyInTrans(before, mid, gm.cells[..], job.y);
      if job.Part(before, mid, log, log', base, rstd, column) && job.At(before, base, column, value) && rounds {
        job.PartStep(before, mid, gm.cells[..], log, log', gm.log, base, rstd, column, value);
      }
    }

    /** Stores one scaled tile. */
    method StoreTile(ghost before: seq<Cell>, ghost log: seq<nat>, base: nat, offset: nat, staged: seq<real>,
        rstd: real) returns (fault: Option<Fault>)
      requires job.Ready(before) && OnlyIn(before, gm.cells[..], job.y) && job.arith.encode == gm.encode
      modifies gm`loads, gm`log, gm.cells
      ensures OnlyIn(before, gm.cells[..], job.y)
      ensures !rounds ==> Untouched(old(gm.cells[..]), old(gm.log))
      ensures old(job.Part(before, gm.cells[..], log, gm.log, base, rstd, offset)) &&
              job.Staged(before, base, offset, staged) ==>
        if rounds || staged == [] then
          fault.None? && job.Part(before, gm.cells[..], log, gm.log, base, rstd, offset + |staged|)
        else fault == Some(NoRounding)
      ensures fault.None? ==> gm.loads == old(gm.loads) + |staged|
    {
      ghost var good := job.Part(before, gm.cells[..], log, gm.log, base, rstd, offset) &&
        job.Staged(before, base, offset, staged);
      for index := 0 to |staged|
        invariant OnlyIn(before, gm.cells[..], job.y)
        invariant good ==>
          job.Part(before, gm.cells[..], log, gm.log, base, rstd, offset + index) && (rounds || index == 0)
        invariant !rounds ==> Untouched(old(gm.cells[..]), old(gm.log))
        invariant gm.loads == old(gm.loads) + index
      {
        fault := NextLane(before, log, base, offset + index, staged[index], rstd);
        if fault.Some? { return; }
      }
      fault := None;
    }

    /** The row at `base` exists, and is kept if rows are to be kept. */
    ghost predicate Keeps(cells: seq<Cell>, base: nat, cached: seq<real>)
      requires job.Ready(cells)
    {
      job.Spans(base) && (kept.Some? ==> cached == ValuesUpTo(Slice(cells, job.x), base, job.hidden))
    }

    /** One tile of the second pass: read it again or take it from the kept row. */
    method Again(base: nat, offset: nat, valid: nat, count: nat, cached: seq<real>) returns (r: Option<seq<real>>)
      requires job.Ready(gm.cells[..]) && 0 < valid <= count
      modifies gm`loads
      ensures Keeps(gm.cells[..], base, cached) && offset + valid <= job.hidden ==>
        r.Some? && |r.value| == valid && job.Staged(gm.cells[..], base, offset, r.value)
      ensures r.Some? ==> gm.loads == old(gm.loads) + (if kept.None? then valid else 0)
    {
      if kept.None? {
        r := StageTile(base, offset, valid, count);
      } else {
        var end := if offset + valid < |cached| then offset + valid else |cached|;
        r := Some(if offset < end then cached[offset..end] else []);
      }
    }

    /** What the second pass loads for `n` columns: their weights, and their values unless they were kept. */
    function SecondLoads(n: nat): nat { n + (if kept.None? then n else 0) }

    /** What one row loads. */
    function RowLoads(): nat { job.hidden + SecondLoads(job.hidden) }

    lemma AllLoads()
      requires job.Sized()
      ensures Area(job.rows, RowLoads()) == (if kept.None? then 3 else 2) * job.y.length
    {
      NormLoads(job.rows, job.hidden, kept.None?);
    }

    /** Stages the next tile again and stores it scaled. */
    method NextTile(ghost before: seq<Cell>, ghost log: seq<nat>, base: nat, offset: nat, valid: nat, count: nat,
        cached: seq<real>, rstd: real) returns (fault: Option<Fault>)
      requires job.Ready(before) && OnlyIn(before, gm.cells[..], job.y) && job.arith.encode == gm.encode &&
        0 < valid <= count
      modifies gm`loads, gm`log, gm.cells
      ensures OnlyIn(before, gm.cells[..], job.y)
      ensures Keeps(before, base, cached) && old(job.Part(before, gm.cells[..], log, gm.log, base, rstd, offset)) &&
              offset + valid <= job.hidden ==>
        if rounds then fault.None? && job.Part(before, gm.cells[..], log, gm.log, base, rstd, offset + valid)
        else fault == Some(NoRounding)
      ensures !rounds ==> Untouched(old(gm.cells[..]), old(gm.log))
      ensures Keeps(before, base, cached) && offset + valid <= job.hidden && fault.None? ==>
        gm.loads == old(gm.loads) + SecondLoads(valid)
    {
      job.Kept(before, gm.cells[..]);
      var staged := Again(base, offset, valid, count, cached);
      if staged.None? { return Some(OutOfBounds); }
      fault := StoreTile(before, log, base, offset, staged.value, rstd);
    }

    /** Tile number `k` of the second pass, after `done` columns. */
    method SecondTurn(ghost before: seq<Cell>, ghost log: seq<nat>, base: nat, loops: nat, tail: nat, k: nat,
        ghost done: nat, cached: seq<real>, rstd: real, ghost keeps: bool)
        returns (fault: Option<Fault>, ghost done': nat)
      requires job.Ready(before) && OnlyIn(before, gm.cells[..], job.y) && job.arith.encode == gm.encode && 0 < tile
      requires loops == BlocksFor(job.hidden, tile) && tail == Rem(job.hidden, tile) && k < loops
      requires done == Reach(job.hidden, tile, k)
      requires keeps ==> Keeps(before, base, cached) && job.Part(before, gm.cells[..], log, gm.log, base, rstd, done)
      modifies gm`loads, gm`log, gm.cells
      ensures done' == Reach(job.hidden, tile, k + 1) && OnlyIn(before, gm.cells[..], job.y)
      ensures keeps ==>
        if rounds then
          && fault.None? && job.Part(before, gm.cells[..], log, gm.log, base, rstd, done')
          && gm.loads == old(gm.loads) + (SecondLoads(done') - SecondLoads(done))
        else fault == Some(NoRounding)
      ensures !rounds ==> Untouched(old(gm.cells[..]), old(gm.log))
    {
      var offset, count, valid := TileAt(job.hidden, tile, loops, tail, k);
      done' := offset + valid;
      fault := NextTile(before, log, base, offset, valid, count, cached, rstd);
    }

    /** Second pass over a row: scale and store it tile by tile. */
    method PassTwo(ghost before: seq<Cell>, base: nat, rstd: real, cached: seq<real>) returns (fault: Option<Fault>)
      requires job.Ready(before) && before == gm.cells[..] && job.arith.encode == gm.encode && 0 < tile
      modifies gm`loads, gm`log, gm.cells
      ensures OnlyIn(before, gm.cells[..], job.y)
      ensures !rounds ==> Untouched(old(gm.cells[..]), old(gm.log))
      ensures Keeps(before, base, cached) ==>
        if rounds then fault.None? && job.Part(before, gm.cells[..], old(gm.log), gm.log, base, rstd, job.hidden)
        else fault == Some(NoRounding)
      ensures Keeps(before, base, cached) && fault.None? ==> gm.loads == old(gm.loads) + SecondLoads(job.hidden)
    {
      ghost var log, keeps := gm.log, Keeps(before, base, cached);
      var loops, tail := LoopAndTail(job.hidden, tile);
      TileEnd(job.hidden, tile);
      ghost var done := 0;
      for iteration := 0 to loops
        invariant done == Reach(job.hidden, tile, iteration) && OnlyIn(before, gm.cells[..], job.y)
        invariant keeps ==> job.Part(before, gm.cells[..], log, gm.log, base, rstd, done) && (rounds || iteration == 0)
        invariant keeps ==> gm.loads == old(gm.loads) + SecondLoads(done)
        invariant !rounds ==> Untouched(before, log)
      {
        fault, done := SecondTurn(before, log, base, loops, tail, iteration, done, cached, rstd, keeps);
        if fault.Some? { return; }
      }
      fault := None;
    }

    lemma FirstPassDone(cells: seq<Cell>, base: nat, squares: real, cached: seq<real>)
      requires job.Ready(cells) && job.Spans(base) && Squared(cells, base, job.hidden, squares, cached)
      ensures Keeps(cells, base, cached) && Rstd(job.arith, squares, job.hidden, job.eps) == job.RowRstd(cells, base)
    {
    }

    /** One row, which starts at `base`: accumulate its squares, then scale and store it. */
    method RowAt(base: nat) returns (fault: Option<Fault>)
      requires job.Ready(gm.cells[..]) && job.arith.encode == gm.encode && 0 < tile
      modifies gm`loads, gm`log, gm.cells
      ensures OnlyIn(old(gm.cells[..]), gm.cells[..], job.y)
      ensures !rounds ==> Untouched(old(gm.cells[..]), old(gm.log))
      ensures job.Spans(base) ==>
        if rounds then fault.None? && job.RowDone(old(gm.cells[..]), gm.cells[..], old(gm.log), gm.log, base)
        else fault == Some(NoRounding)
      ensures job.Spans(base) && fault.None? ==> gm.loads == old(gm.loads) + RowLoads()
    {
      ghost var before, log := gm.cells[..], gm.log;
      var squares, cached := PassOne(base);
      if squares.None? { return Some(OutOfBounds); }
      if job.hidden == 0 { return Some(ZeroDivision); }
      var rstd := Rstd(job.arith, squares.value, job.hidden, job.eps);
      if job.Spans(base) { FirstPassDone(before, base, squares.value, cached); }
      fault := PassTwo(before, base, rstd, cached);
    }

    /** The next row, which starts at `base`, after those before it were normalised. */
    method NextRow(ghost before: seq<Cell>, ghost log: seq<nat>, row: nat, base: nat) returns (fault: Option<Fault>)
      requires job.Ready(before) && OnlyIn(before, gm.cells[..], job.y) && job.arith.encode == gm.encode && 0 < tile
      requires base == Area(row, job.hidden)
      modifies gm`loads, gm`log, gm.cells
      ensures OnlyIn(before, gm.cells[..], job.y)
      ensures old(job.Done(before, gm.cells[..], log, gm.log, base)) && row < job.rows ==>
        if rounds then fault.None? && job.Done(before, gm.cells[..], log, gm.log, base + job.hidden)
        else fault == Some(NoRounding)
      ensures !rounds ==> Untouched(old(gm.cells[..]), old(gm.log))
      ensures job.Sized() && row < job.rows && fault.None? ==> gm.loads == old(gm.loads) + RowLoads()
    {
      ghost var mid, log' := gm.cells[..], gm.log;
      job.Kept(before, mid);
      if job.Sized() && row < job.rows { job.RowIs(before, row, base); }
      fault := RowAt(base);
      OnlyInTrans(before, mid, gm.cells[..], job.y);
      if job.Done(before, mid, log, log', base) && row < job.rows && rounds {
        job.DoneStep(before, mid, gm.cells[..], log, log', gm.log, row, base);
      }
    }

    /** Compares the device's loop count with the record's. */
    method Compare(row: nat)
      requires 0 < tile
      modifies this`mismatches
      ensures old(mismatches) == Mismatches(row) ==> mismatches == Mismatches(row + 1)
    {
      var loops, tail := LoopAndTail(job.hidden, tile);
      if loops != loopCount { mismatches := mismatches + [row]; }
      assert Range(0, row + 1) == Range(0, row) + [row];
    }

    /** The rows reported by the time `row` rows have run: all of them or none. */
    ghost function Mismatches(row: nat): seq<nat>
      requires 0 < tile
    {
      if BlocksFor(job.hidden, tile) == loopCount then [] else Range(0, row)
    }

    /** The first `row` rows are done and those that had to be reported were. */
    ghost predicate Reached(before: seq<Cell>, log: seq<nat>, row: nat)
      requires 0 < tile
      reads this, gm, gm.cells
    {
      job.Done(before, gm.cells[..], log, gm.log, Area(row, job.hidden)) && mismatches == Mismatches(row)
    }

    /** One row: compare the loop counts, then normalise it. */
    method Row(ghost before: seq<Cell>, ghost log: seq<nat>, row: nat, ghost good: bool) returns (fault: Option<Fault>)
      requires job.Ready(before) && OnlyIn(before, gm.cells[..], job.y) && job.arith.encode == gm.encode && 0 < tile
      requires good ==> Reached(before, log, row) && row < job.rows
      modifies this`mismatches, gm`loads, gm`log, gm.cells
      ensures OnlyIn(before, gm.cells[..], job.y)
      ensures good ==>
        if rounds then fault.None? && Reached(before, log, row + 1) else fault == Some(NoRounding)
      ensures !rounds ==> Untouched(old(gm.cells[..]), old(gm.log))
      ensures job.Sized() && row < job.rows && fault.None? ==> gm.loads == old(gm.loads) + RowLoads()
    {
      Compare(row);
      AreaIs(row, job.hidden);
      var base := row * job.hidden;
      fault := NextRow(before, log, row, base);
    }

    /** The rows of one core. */
    method Rows(ghost before: seq<Cell>, ghost log: seq<nat>, first: nat, count: nat) returns (fault: Option<Fault>)
      requires job.Ready(before) && OnlyIn(before, gm.cells[..], job.y) && job.arith.encode == gm.encode && 0 < tile
      modifies this`mismatches, gm`loads, gm`log, gm.cells
      ensures OnlyIn(before, gm.cells[..], job.y)
      ensures old(Reached(before, log, first)) && first + count <= job.rows ==>
        if rounds || count == 0 then fault.None? && Reached(before, log, first + count) else fault == Some(NoRounding)
      ensures !rounds ==> Untouched(old(gm.cells[..]), old(gm.log))
      ensures job.Sized() && first + count <= job.rows && fault.None? ==>
        gm.loads == old(gm.loads) + Area(count, RowLoads())
    {
      var row, end := first, first + count;
      ghost var good, sized := Reached(before, log, first) && end <= job.rows, job.Sized() && end <= job.rows;
      while row < end
        invariant first <= row <= end && OnlyIn(before, gm.cells[..], job.y)
        invariant good ==> Reached(before, log, row) && (rounds || row == first)
        invariant !rounds ==> Untouched(old(gm.cells[..]), old(gm.log))
        invariant sized ==> gm.loads == old(gm.loads) + Area(row - first, RowLoads())
      {
        fault := Row(before, log, row, good);
        if fault.Some? { return; }
        row := row + 1;
      }
      fault := None;
    }

    /** A record whose partition adds up, buffers of its size, a positive epsilon and slots that fit. */
    ghost predicate Good(t: TilingData) {
      Tiled(t) && job.rows == t.rows && job.hidden == t.hidden && job.Sized() && 0.0 < job.eps && Need() <= ub.usable
    }

    /** One active core: claim its slots, run its rows, give the slots back. */
    method Core(ghost before: seq<Cell>, ghost log: seq<nat>, core: nat, first: nat, count: nat)
        returns (fault: Option<Fault>)
      requires job.Ready(before) && OnlyIn(before, gm.cells[..], job.y) && job.arith.encode == gm.encode
      requires ub.live == [] && (buffers == 1 || buffers == 2)
      modifies this`mismatches, gm`loads, gm`log, gm.cells, ub
      ensures OnlyIn(before, gm.cells[..], job.y) && (fault.None? ==> ub.live == [])
      ensures Need() > ub.usable ==> fault == Some(Overrun)
      ensures Need() <= ub.usable && 0 < tile && old(Reached(before, log, first)) && first + count <= job.rows ==>
        if rounds || count == 0 then
          fault.None? && Reached(before, log, first + count) && ub.highWater == Peak(old(ub.highWater), Need())
        else fault == Some(NoRounding) && ub.live != []
      ensures !rounds ==> Untouched(old(gm.cells[..]), old(gm.log))
      ensures job.Sized() && first + count <= job.rows && fault.None? ==>
        gm.loads == old(gm.loads) + Area(count, RowLoads())
    {
      var plan := NormPlan(core, buffers, slot, accum, kept);
      NormPlanBytes(core, buffers, slot, accum, kept);
      var acquired := ub.Acquire(plan);
      if !acquired { return Some(Overrun); }
      if tile == 0 { return Some(BadTile); }
      fault := Rows(before, log, first, count);
      if fault.Some? { return; }
      LivePlan(plan);
      var dropped := ub.Drop(Tags(plan));
      if !dropped { fault := Some(Leak); }
    }

    /** For a good record: the rows of the first `core` cores are done. */
    ghost predicate Along(before: seq<Cell>, log: seq<nat>, t: TilingData, core: nat)
      requires WellFormed(t) && tile == t.tileElems
      reads this, gm, gm.cells, ub
    {
      Good(t) ==> Reached(before, log, StartRow(t, core)) && ub.highWater <= Need()
    }

    /** One turn of the core loop, idle cores included. */
    method Turn(ghost before: seq<Cell>, ghost log: seq<nat>, t: TilingData, core: nat) returns (fault: Option<Fault>)
      requires WellFormed(t) && tile == t.tileElems && buffers == t.bufferCount && core < t.blockDim && ub.live == []
      requires job.Ready(before) && OnlyIn(before, gm.cells[..], job.y) && job.arith.encode == gm.encode &&
        Along(before, log, t, core)
      modifies this`mismatches, gm`loads, gm`log, gm.cells, ub
      ensures OnlyIn(before, gm.cells[..], job.y) && (fault.None? ==> ub.live == [])
      ensures Need() > ub.usable && RowsFor(t, core) > 0 ==> fault == Some(Overrun)
      ensures Good(t) ==>
        if rounds || RowsFor(t, core) == 0 then fault.None? else fault == Some(NoRounding) && ub.live != []
      ensures fault.None? ==> Along(before, log, t, core + 1)
      ensures !rounds ==> Untouched(old(gm.cells[..]), old(gm.log))
      ensures Good(t) && fault.None? ==>
        gm.loads == old(gm.loads) + (Area(StartRow(t, core + 1), RowLoads()) - Area(StartRow(t, core), RowLoads()))
    {
      var rowsHere, firstRow := RowsFor(t, core), StartRow(t, core);
      CoreRows(t, core);
      CoreArea(t, core, RowLoads());
      if Good(t) { StartRowMono(t, core + 1, t.blockDim); }
      if rowsHere == 0 { return None; }
      fault := Core(before, log, core, firstRow, rowsHere);
    }

    /** Values can be rounded, or there are none. */
    predicate CanRound() { rounds || job.rows == 0 }

    /** The core loop. */
    method Cores(ghost before: seq<Cell>, ghost log: seq<nat>, t: TilingData) returns (fault: Option<Fault>)
      requires WellFormed(t) && tile == t.tileElems && buffers == t.bufferCount && ub.live == []
      requires job.Ready(before) && OnlyIn(before, gm.cells[..], job.y) && job.arith.encode == gm.encode &&
        Along(before, log, t, 0)
      modifies this`mismatches, gm`loads, gm`log, gm.cells, ub
      ensures OnlyIn(before, gm.cells[..], job.y) && (fault.None? ==> ub.live == [])
      ensures Need() > ub.usable && RowsFor(t, 0) > 0 ==> fault == Some(Overrun)
      ensures Good(t) ==> if CanRound() then fault.None? else fault == Some(NoRounding) && ub.live != []
      ensures fault.None? ==> Along(before, log, t, t.blockDim)
      ensures !rounds ==> Untouched(old(gm.cells[..]), old(gm.log))
      ensures Good(t) && fault.None? ==> gm.loads == old(gm.loads) + Area(job.rows, RowLoads())
    {
      CoreRows(t, 0);
      ghost var good, fits := Good(t), Need() <= ub.usable || RowsFor(t, 0) == 0;
      for core := 0 to t.blockDim
        invariant ub.live == [] && OnlyIn(before, gm.cells[..], job.y) && Along(before, log, t, core)
        invariant !fits || (good && !CanRound()) ==> core == 0
        invariant !rounds ==> Untouched(old(gm.cells[..]), old(gm.log))
        invariant good ==> gm.loads == old(gm.loads) + Area(StartRow(t, core), RowLoads())
      {
        if good { BusyIf(t, core); }
        fault := Turn(before, log, t, core);
        if fault.Some? { return; }
      }
      fault := None;
    }

    /**
     * The whole kernel: only the output changes, for a record that adds up it becomes the
     * oracle, slots and a kept row that do not fit are a fault, and when the element type has
     * no rounding nothing is stored.
     */
    method Run(t: TilingData) returns (fault: Option<Fault>)
      requires WellFormed(t) && tile == t.tileElems && buffers == t.bufferCount && mismatches == []
      requires job.Ready(gm.cells[..]) && job.arith.encode == gm.encode && ub.live == [] && ub.highWater == 0
      modifies this`mismatches, gm`loads, gm`log, gm.cells, ub
      ensures OnlyIn(old(gm.cells[..]), gm.cells[..], job.y)
      ensures 0.0 < job.eps && RowsFor(t, 0) > 0 && Need() > ub.usable ==> fault == Some(Overrun)
      ensures Good(t) && CanRound() ==>
        && fault.None? && ub.live == [] && ub.highWater <= Need()
        && Slice(gm.cells[..], job.y) == job.Oracle(old(gm.cells[..]))
        && gm.log == old(gm.log) + Range(job.y.offset, job.y.length)
        && gm.loads == old(gm.loads) + (if kept.None? then 3 else 2) * job.y.length
        && mismatches == Mismatches(job.rows)
      ensures Good(t) && !CanRound() ==>
        fault == Some(NoRounding) && Untouched(old(gm.cells[..]), old(gm.log)) && ub.live != []
    {
      if job.eps <= 0.0 { return Some(BadEpsilon); }
      ghost var before, log := gm.cells[..], gm.log;
      CoreRows(t, 0);
      fault := Cores(before, log, t);
      if job.Sized() { AllLoads(); }
      if Good(t) && CanRound() { job.DoneAll(before, gm.cells[..], log, gm.log); }
    }
  }
}
