/** Block arithmetic and block tables, as values. */
module BlockTables {
  import opened Arithmetic
  import opened KvViews

  datatype Entry = Entry(valid: nat, blocks: seq<nat>)

  /** Block numbers from the highest down: the initial free list. */
  function Countdown(capacity: nat): (r: seq<nat>)
    ensures |r| == capacity
  {
    if capacity == 0 then [] else [capacity - 1] + Countdown(capacity - 1)
  }

  lemma {:induction false} CountdownIsPool(capacity: nat)
    ensures multiset(Countdown(capacity)) == Pool(capacity)
    decreases capacity
  {
    if capacity > 0 { CountdownIsPool(capacity - 1); }
  }

  ghost predicate Distinct(s: seq<nat>) {
    forall i, j :: 0 <= i < j < |s| ==> s[i] != s[j]
  }

  // ---- the pool: free list plus all block tables ----

  /** All blocks held by any request, with multiplicity. */
  ghost function Held<Id>(rows: map<Id, Entry>): multiset<nat>
    decreases |rows|
  {
    if rows == map[] then multiset{}
    else
      var id :| id in rows;
      multiset(rows[id].blocks) + Held(rows - {id})
  }

  lemma {:induction false} HeldSplit<Id>(rows: map<Id, Entry>, id: Id)
    requires id in rows
    ensures Held(rows) == multiset(rows[id].blocks) + Held(rows - {id})
    decreases |rows|
  {
    var first :| first in rows && Held(rows) == multiset(rows[first].blocks) + Held(rows - {first});
    if first != id {
      HeldSplit(rows - {first}, id);
      HeldSplit(rows - {id}, first);
      assert rows - {first} - {id} == rows - {id} - {first};
    }
  }

  lemma HeldUpdate<Id>(rows: map<Id, Entry>, id: Id, row: Entry)
    ensures Held(rows[id := row]) == multiset(row.blocks) + Held(rows - {id})
  {
    HeldSplit(rows[id := row], id);
    assert rows[id := row] - {id} == rows - {id};
  }

  /** All cells of all requests. */
  ghost function Stored<Id, Cell>(view: map<Id, seq<Cell>>): nat
    decreases |view|
  {
    if view == map[] then 0
    else
      var id :| id in view;
      |view[id]| + Stored(view - {id})
  }

  lemma {:induction false} StoredSplit<Id, Cell>(view: map<Id, seq<Cell>>, id: Id)
    requires id in view
    ensures Stored(view) == |view[id]| + Stored(view - {id})
    decreases |view|
  {
    var first :| first in view && Stored(view) == |view[first]| + Stored(view - {first});
    if first != id {
      StoredSplit(view - {first}, id);
      StoredSplit(view - {id}, first);
      assert view - {first} - {id} == view - {id} - {first};
    }
  }

  /** A table of just enough blocks wastes fewer cells than one block has. */
  lemma TableWaste(cells: nat, size: nat)
    requires size > 0
    ensures cells <= BlocksFor(cells, size) * size <= cells + (size - 1)
  {
    if cells > 0 {
      QuotRem(cells - 1, size);
      assert BlocksFor(cells, size) * size == Quot(cells - 1, size) * size + size;
    }
  }

  /** Tables and views of the same requests with the same lengths. */
  ghost predicate Matching<Id, Cell>(rows: map<Id, Entry>, view: map<Id, seq<Cell>>) {
    rows.Keys == view.Keys && forall id :: id in rows ==> |view[id]| == rows[id].valid
  }

  /** All tables together waste less than one block each. */
  lemma {:induction false} TablesWaste<Id, Cell>(rows: map<Id, Entry>, view: map<Id, seq<Cell>>, size: nat)
    requires size > 0 && Matching(rows, view)
    requires forall id :: id in rows ==> |rows[id].blocks| == BlocksFor(rows[id].valid, size)
    ensures Stored(view) <= |Held(rows)| * size <= Stored(view) + |rows| * (size - 1)
    decreases |rows|
  {
    if rows == map[] {
      assert view == map[];
    } else {
      var id :| id in rows;
      HeldSplit(rows, id);
      StoredSplit(view, id);
      var rows', view' := rows - {id}, view - {id};
      assert |rows'| == |rows| - 1 && Matching(rows', view');
      TablesWaste(rows', view', size);
      TailWaste(|Held(rows')|, Stored(view'), |rows'|, |rows[id].blocks|, rows[id].valid, size,
        |Held(rows)|, Stored(view), |rows|);
    }
  }

  /** One more table adds its cells and at most one block's waste. */
  lemma TailWaste(active: nat, valid: nat, n: nat, blocks: nat, cells: nat, size: nat,
      active': nat, valid': nat, n': nat)
    requires size > 0 && blocks == BlocksFor(cells, size)
    requires valid <= active * size <= valid + n * (size - 1)
    requires active' == active + blocks && valid' == valid + cells && n' == n + 1
    ensures valid' <= active' * size <= valid' + n' * (size - 1)
  {
    TableWaste(cells, size);
    assert (active + blocks) * size == active * size + blocks * size;
    assert (n + 1) * (size - 1) == n * (size - 1) + (size - 1);
  }

  /** Bytes in use are bytes of cells and of waste. */
  lemma ReceiptBytes(active: nat, valid: nat, size: nat, bytes: nat)
    requires valid <= active * size
    ensures valid * bytes <= active * size * bytes == valid * bytes + (active * size - valid) * bytes
  {
    MulMono(valid, active * size, bytes);
    assert (valid + (active * size - valid)) * bytes == valid * bytes + (active * size - valid) * bytes;
  }

  /** Every block number once. */
  ghost function Pool(capacity: nat): multiset<nat> {
    if capacity == 0 then multiset{} else Pool(capacity - 1) + multiset{capacity - 1}
  }

  lemma {:induction false} PoolCounts(capacity: nat, b: nat)
    ensures Pool(capacity)[b] == if b < capacity then 1 else 0
    ensures |Pool(capacity)| == capacity
    decreases capacity
  {
    if capacity > 0 { PoolCounts(capacity - 1, b); }
  }

  /** Free list and block tables together hold every block of the pool exactly once. */
  ghost predicate Partitions<Id>(free: seq<nat>, rows: map<Id, Entry>, capacity: nat) {
    multiset(free) + Held(rows) == Pool(capacity)
  }

  lemma Regrouped<Id>(free: seq<nat>, rows: map<Id, Entry>, capacity: nat, blocks: seq<nat>, others: multiset<nat>)
    requires Held(rows) == multiset(blocks) + others && multiset(free) + multiset(blocks) + others == Pool(capacity)
    ensures Partitions(free, rows, capacity)
  {
  }

  lemma TwiceInSeq(s: seq<nat>, i: nat, j: nat)
    requires i < j < |s| && s[i] == s[j]
    ensures multiset(s)[s[i]] >= 2
  {
    assert s == s[..j] + s[j..];
    assert s[i] in s[..j] && s[j] in s[j..];
    assert multiset(s) == multiset(s[..j]) + multiset(s[j..]);
  }

  /** No other request holds a block of this one. */
  ghost predicate Exclusive<Id>(rows: map<Id, Entry>, id: Id)
    requires id in rows
  {
    forall other, b :: other in rows && other != id && b in rows[id].blocks ==> b !in rows[other].blocks
  }

  /** What a partition gives each request: distinct blocks of the pool that nobody else holds. */
  lemma Private<Id>(free: seq<nat>, rows: map<Id, Entry>, capacity: nat, id: Id)
    requires Partitions(free, rows, capacity) && id in rows
    ensures Distinct(rows[id].blocks)
    ensures forall k :: 0 <= k < |rows[id].blocks| ==> rows[id].blocks[k] < capacity && rows[id].blocks[k] !in free
    ensures Exclusive(rows, id)
  {
    HeldSplit(rows, id);
    var blocks := rows[id].blocks;
    forall i, j | 0 <= i < j < |blocks| ensures blocks[i] != blocks[j] {
      PoolCounts(capacity, blocks[i]);
      if blocks[i] == blocks[j] { TwiceInSeq(blocks, i, j); }
    }
    forall k | 0 <= k < |blocks| ensures blocks[k] < capacity && blocks[k] !in free {
      PoolCounts(capacity, blocks[k]);
    }
    forall other, b | other in rows && other != id && b in blocks ensures b !in rows[other].blocks {
      PoolCounts(capacity, b);
      HeldSplit(rows - {id}, other);
    }
  }

  /** Every block is free or held by someone. */
  lemma {:induction false} HeldBySomeone<Id>(rows: map<Id, Entry>, b: nat)
    ensures b in Held(rows) <==> exists id :: id in rows && b in rows[id].blocks
    decreases |rows|
  {
    if rows != map[] {
      var first :| first in rows && Held(rows) == multiset(rows[first].blocks) + Held(rows - {first});
      HeldBySomeone(rows - {first}, b);
      assert forall id :: id in rows <==> id == first || id in rows - {first};
    }
  }

  /** A partition leaves no block out, in no two places and nowhere twice. */
  lemma EveryBlockOnce<Id>(free: seq<nat>, rows: map<Id, Entry>, capacity: nat, b: nat)
    requires Partitions(free, rows, capacity)
    ensures b < capacity <==> b in free || exists id :: id in rows && b in rows[id].blocks
    ensures !(b in free && exists id :: id in rows && b in rows[id].blocks)
    ensures Distinct(free)
  {
    PoolCounts(capacity, b);
    HeldBySomeone(rows, b);
    forall i, j | 0 <= i < j < |free| ensures free[i] != free[j] {
      PoolCounts(capacity, free[i]);
      if free[i] == free[j] { TwiceInSeq(free, i, j); }
    }
  }

  // ---- reading a request through its block table ----

  /** A table of `count` blocks has a block for each of the first `valid` positions. */
  ghost predicate Reaches(valid: nat, size: nat, count: nat)
    requires size > 0
  {
    forall i: nat :: i < valid ==> Quot(i, size) < count
  }

  lemma BlocksMono(a: nat, b: nat, size: nat)
    requires size > 0 && a <= b
    ensures BlocksFor(a, size) <= BlocksFor(b, size)
  {
    if a > 0 { QuotMono(a - 1, b - 1, size); }
  }

  lemma BlocksReach(valid: nat, size: nat, count: nat)
    requires size > 0 && BlocksFor(valid, size) <= count
    ensures Reaches(valid, size, count)
  {
    forall i: nat | i < valid ensures Quot(i, size) < count {
      QuotMono(i, valid - 1, size);
    }
  }

  ghost predicate Shaped<Cell>(slab: seq<seq<Cell>>, size: nat) {
    forall b :: 0 <= b < |slab| ==> |slab[b]| == size
  }

  /** A table of pool blocks that is long enough for its valid cells. */
  ghost predicate Tabled<Cell>(slab: seq<seq<Cell>>, size: nat, row: Entry) {
    && size > 0 && Shaped(slab, size)
    && Reaches(row.valid, size, |row.blocks|)
    && forall k :: 0 <= k < |row.blocks| ==> row.blocks[k] < |slab|
  }

  ghost function At<Cell>(slab: seq<seq<Cell>>, size: nat, blocks: seq<nat>, i: nat): Cell
    requires size > 0 && Shaped(slab, size) && Quot(i, size) < |blocks|
    requires forall k :: 0 <= k < |blocks| ==> blocks[k] < |slab|
  {
    slab[blocks[Quot(i, size)]][Rem(i, size)]
  }

  ghost function Gather<Cell>(slab: seq<seq<Cell>>, size: nat, row: Entry): (cells: seq<Cell>)
    requires Tabled(slab, size, row)
    ensures |cells| == row.valid
  {
    seq(row.valid, i requires 0 <= i < row.valid => At(slab, size, row.blocks, i))
  }

  /** A request's cells depend only on the blocks in its table. */
  lemma GatherFrame<Cell>(slab: seq<seq<Cell>>, slab': seq<seq<Cell>>, size: nat, row: Entry)
    requires Tabled(slab, size, row) && Tabled(slab', size, row)
    requires forall k :: 0 <= k < |row.blocks| ==> slab[row.blocks[k]] == slab'[row.blocks[k]]
    ensures Gather(slab, size, row) == Gather(slab', size, row)
  {
    forall i | 0 <= i < row.valid ensures Gather(slab, size, row)[i] == Gather(slab', size, row)[i] {
      assert Quot(i, size) < |row.blocks|;
    }
  }

  /** One block with `cells` written from `within` on. */
  function Write<Cell>(block: seq<Cell>, within: nat, cells: seq<Cell>): (r: seq<Cell>)
    requires within + |cells| <= |block|
    ensures |r| == |block|
    ensures forall k :: 0 <= k < |block| ==>
      r[k] == if within <= k < within + |cells| then cells[k - within] else block[k]
  {
    block[..within] + cells + block[within + |cells|..]
  }

  /** Which positions of a request a write at `p` of `n` cells inside one block touches. */
  lemma WriteRange(size: nat, p: nat, n: nat, i: nat)
    requires size > 0 && Rem(p, size) + n <= size
    ensures p <= i < p + n <==> Quot(i, size) == Quot(p, size) && Rem(p, size) <= Rem(i, size) < Rem(p, size) + n
    ensures p <= i < p + n ==> Rem(i, size) - Rem(p, size) == i - p
  {
    var q, w := Quot(p, size), Rem(p, size);
    QuotRem(p, size);
    QuotRem(i, size);
    if p <= i < p + n {
      DivUnique(i, size, q, w + (i - p));
    }
  }

  lemma WriteCell<Cell>(slab: seq<seq<Cell>>, size: nat, blocks: seq<nat>, q: nat, w: nat, cells: seq<Cell>, q': nat,
      w': nat)
    requires Shaped(slab, size) && Distinct(blocks)
    requires forall k :: 0 <= k < |blocks| ==> blocks[k] < |slab|
    requires q < |blocks| && w + |cells| <= size && q' < |blocks| && w' < size
    ensures var slab' := slab[blocks[q] := Write(slab[blocks[q]], w, cells)];
      && Shaped(slab', size)
      && slab'[blocks[q']][w'] == if q' == q && w <= w' < w + |cells| then cells[w' - w] else slab[blocks[q']][w']
  {
    if q' != q {
      assert blocks[q'] != blocks[q];
    }
  }

  /** The slab after writing `cells` at position `p` of the request that owns `blocks`. */
  ghost function Written<Cell>(slab: seq<seq<Cell>>, size: nat, blocks: seq<nat>, p: nat,
      cells: seq<Cell>): (r: seq<seq<Cell>>)
    requires size > 0 && Shaped(slab, size) && Quot(p, size) < |blocks| && Rem(p, size) + |cells| <= size
    requires forall k :: 0 <= k < |blocks| ==> blocks[k] < |slab|
    ensures |r| == |slab| && Shaped(r, size)
  {
    var physical := blocks[Quot(p, size)];
    slab[physical := Write(slab[physical], Rem(p, size), cells)]
  }

  /** Writing inside one block of a private table changes exactly the positions written. */
  lemma WriteIsLocal<Cell>(slab: seq<seq<Cell>>, size: nat, blocks: seq<nat>, p: nat, cells: seq<Cell>, i: nat)
    requires size > 0 && Shaped(slab, size) && Distinct(blocks)
    requires forall k :: 0 <= k < |blocks| ==> blocks[k] < |slab|
    requires Quot(p, size) < |blocks| && Rem(p, size) + |cells| <= size && Quot(i, size) < |blocks|
    ensures At(Written(slab, size, blocks, p, cells), size, blocks, i)
         == if p <= i < p + |cells| then cells[i - p] else At(slab, size, blocks, i)
  {
    var q, w, q', w' := Quot(p, size), Rem(p, size), Quot(i, size), Rem(i, size);
    WriteRange(size, p, |cells|, i);
    WriteCell(slab, size, blocks, q, w, cells, q', w');
  }

  /** Positions `start..start + n` of a table now hold the first `n` cells of `source`; nothing else changed. */
  ghost predicate Copied<Cell>(slab: seq<seq<Cell>>, slab': seq<seq<Cell>>, size: nat, blocks: seq<nat>, start: nat,
      source: seq<Cell>, n: nat) {
    && size > 0 && Shaped(slab, size) && Shaped(slab', size) && |slab'| == |slab| && n <= |source|
    && (forall k :: 0 <= k < |blocks| ==> blocks[k] < |slab|)
    && (forall b :: 0 <= b < |slab| && b !in blocks ==> slab'[b] == slab[b])
    && forall i: nat :: Quot(i, size) < |blocks| ==>
         At(slab', size, blocks, i) == if start <= i < start + n then source[i - start] else At(slab, size, blocks, i)
  }

  lemma CopiedMore<Cell>(slab: seq<seq<Cell>>, slab': seq<seq<Cell>>, size: nat, blocks: seq<nat>, start: nat,
      source: seq<Cell>, n: nat, count: nat)
    requires Copied(slab, slab', size, blocks, start, source, n) && Distinct(blocks)
    requires Quot(start + n, size) < |blocks| && Rem(start + n, size) + count <= size && n + count <= |source|
    ensures var slab'' := Written(slab', size, blocks, start + n, source[n..n + count]);
      Copied(slab, slab'', size, blocks, start, source, n + count)
  {
    var p, cells := start + n, source[n..n + count];
    var slab'' := Written(slab', size, blocks, p, cells);
    forall i: nat | Quot(i, size) < |blocks|
      ensures At(slab'', size, blocks, i) ==
        if start <= i < p + count then source[i - start] else At(slab, size, blocks, i)
    {
      WriteIsLocal(slab', size, blocks, p, cells, i);
    }
  }

  // ---- all requests together ----

  ghost predicate AllTabled<Id, Cell>(rows: map<Id, Entry>, slab: seq<seq<Cell>>, size: nat) {
    forall id :: id in rows ==> Tabled(slab, size, rows[id])
  }

  /** The cells of every request, read through its block table. */
  ghost function ViewOf<Id, Cell>(rows: map<Id, Entry>, slab: seq<seq<Cell>>, size: nat): map<Id, seq<Cell>>
    requires AllTabled(rows, slab, size)
  {
    map id | id in rows :: Gather(slab, size, rows[id])
  }

  function EntryOf<Id>(rows: map<Id, Entry>, id: Id): Entry {
    if id in rows then rows[id] else Entry(0, [])
  }

  /** A request whose table grew and whose new positions were filled reads as before, plus the new cells. */
  lemma GatherExtended<Cell>(slab: seq<seq<Cell>>, slab': seq<seq<Cell>>, size: nat, entry: Entry, blocks: seq<nat>,
      source: seq<Cell>)
    requires Tabled(slab, size, entry) && entry.blocks <= blocks
    requires Copied(slab, slab', size, blocks, entry.valid, source, |source|)
    requires Reaches(entry.valid + |source|, size, |blocks|)
    ensures Tabled(slab', size, Entry(entry.valid + |source|, blocks))
    ensures Gather(slab', size, Entry(entry.valid + |source|, blocks)) == Gather(slab, size, entry) + source
  {
    var entry' := Entry(entry.valid + |source|, blocks);
    var g, g' := Gather(slab, size, entry), Gather(slab', size, entry');
    forall i | 0 <= i < entry'.valid ensures g'[i] == (g + source)[i] {
      assert Quot(i, size) < |blocks|;
      assert At(slab', size, blocks, i) ==
        if entry.valid <= i then source[i - entry.valid] else At(slab, size, blocks, i);
      if i < entry.valid {
        assert Quot(i, size) < |entry.blocks|;
      }
    }
  }

  /** Filling one request's new positions changes that request and no other. */
  lemma ViewExtended<Id, Cell>(rows: map<Id, Entry>, rows': map<Id, Entry>, slab: seq<seq<Cell>>,
      slab': seq<seq<Cell>>, size: nat, id: Id, source: seq<Cell>)
    requires size > 0 && Shaped(slab, size) && AllTabled(rows, slab, size)
    requires id in rows' && rows' == rows[id := rows'[id]] && Exclusive(rows', id)
    requires rows'[id].valid == EntryOf(rows, id).valid + |source| && EntryOf(rows, id).blocks <= rows'[id].blocks
    requires Reaches(rows'[id].valid, size, |rows'[id].blocks|)
    requires Copied(slab, slab', size, rows'[id].blocks, EntryOf(rows, id).valid, source, |source|)
    ensures AllTabled(rows', slab', size)
    ensures ViewOf(rows', slab', size) == ViewOf(rows, slab, size)[id := CellsOf(ViewOf(rows, slab, size), id) + source]
  {
    GatherExtended(slab, slab', size, EntryOf(rows, id), rows'[id].blocks, source);
    assert rows'[id] == Entry(EntryOf(rows, id).valid + |source|, rows'[id].blocks);
    forall other | other in rows' && other != id
      ensures other in rows && rows[other] == rows'[other] && Tabled(slab', size, rows'[other])
      ensures Gather(slab', size, rows'[other]) == Gather(slab, size, rows[other])
    {
      assert rows'[other] == rows[id := rows'[id]][other];
      GatherFrame(slab, slab', size, rows[other]);
    }
  }

  lemma ViewWithout<Id, Cell>(rows: map<Id, Entry>, slab: seq<seq<Cell>>, size: nat, id: Id)
    requires AllTabled(rows, slab, size)
    ensures AllTabled(rows - {id}, slab, size)
    ensures ViewOf(rows - {id}, slab, size) == ViewOf(rows, slab, size) - {id}
  {
  }

  // ---- packing ----

  /** Where the cells of table slot `k` start, and how far slots `..k` reach into `valid` cells. */
  ghost function Filled(valid: nat, size: nat, k: nat): nat {
    if k * size < valid then k * size else valid
  }

  /** Slot `k` of a full table holds the cells from `k * size` on, cut at the valid length. */
  lemma GatherSlot<Cell>(slab: seq<seq<Cell>>, size: nat, entry: Entry, k: nat)
    requires Tabled(slab, size, entry) && |entry.blocks| == BlocksFor(entry.valid, size) && k < |entry.blocks|
    ensures k * size < entry.valid && Filled(entry.valid, size, k) == k * size
    ensures var filled := Filled(entry.valid, size, k + 1);
      && k * size < filled <= k * size + size && filled <= entry.valid
      && (filled == k * size + size || filled == entry.valid)
      && Gather(slab, size, entry)[k * size..filled] == slab[entry.blocks[k]][..filled - k * size]
  {
    SlotRange(entry.valid, size, k);
    var start, filled := k * size, Filled(entry.valid, size, k + 1);
    forall i | start <= i < filled ensures Quot(i, size) == k && Rem(i, size) == i - start {
      SlotOf(k, size, i - start);
    }
    SlotCells(slab, size, entry, k, start, filled);
  }

  lemma SlotRange(valid: nat, size: nat, k: nat)
    requires size > 0 && k < BlocksFor(valid, size)
    ensures k * size < valid && Filled(valid, size, k) == k * size
    ensures var filled := Filled(valid, size, k + 1);
      && k * size < filled <= k * size + size && filled <= valid
      && (filled == k * size + size || filled == valid)
  {
    QuotRem(valid - 1, size);
    MulMono(k, Quot(valid - 1, size), size);
    assert (k + 1) * size == k * size + size;
  }

  lemma SlotCells<Cell>(slab: seq<seq<Cell>>, size: nat, entry: Entry, k: nat, start: nat, end: nat)
    requires Tabled(slab, size, entry) && k < |entry.blocks| && start <= end <= entry.valid && end - start <= size
    requires forall i :: start <= i < end ==> Quot(i, size) == k && Rem(i, size) == i - start
    ensures Gather(slab, size, entry)[start..end] == slab[entry.blocks[k]][..end - start]
  {
    var g := Gather(slab, size, entry);
    forall j | 0 <= j < end - start ensures g[start..end][j] == slab[entry.blocks[k]][j] {
      assert g[start + j] == At(slab, size, entry.blocks, start + j);
    }
  }

  lemma SlotOf(k: nat, size: nat, j: nat)
    requires j < size
    ensures Quot(k * size + j, size) == k && Rem(k * size + j, size) == j
  {
    QuotRem(k * size + j, size);
    DivUnique(k * size + j, size, k, j);
  }

  lemma FullTable(valid: nat, size: nat)
    requires size > 0
    ensures Filled(valid, size, BlocksFor(valid, size)) == valid
  {
    if valid > 0 {
      QuotRem(valid - 1, size);
      assert BlocksFor(valid, size) * size == Quot(valid - 1, size) * size + size;
    }
  }

  /** A left-padded row of which the first `filled` cells have been copied. */
  ghost function Partial<Cell>(zero: Cell, width: nat, cells: seq<Cell>, filled: nat): seq<Cell>
    requires filled <= |cells| <= width
  {
    Zeros(zero, width - |cells|) + cells[..filled] + Zeros(zero, |cells| - filled)
  }

  lemma PartialStep<Cell>(zero: Cell, width: nat, cells: seq<Cell>, filled: nat, filled': nat)
    requires filled <= filled' <= |cells| <= width
    ensures Write(Partial(zero, width, cells, filled), width - |cells| + filled, cells[filled..filled'])
         == Partial(zero, width, cells, filled')
  {
  }

  /** Writing slot `k` of a table fills the row up to the next slot. */
  lemma PartialNext<Cell>(zero: Cell, width: nat, cells: seq<Cell>, valid: nat, size: nat, k: nat, offset: nat,
      piece: seq<Cell>)
    requires |cells| == valid <= width && Filled(valid, size, k) == offset &&
      offset + |piece| == Filled(valid, size, k + 1)
    requires offset + |piece| <= valid && piece == cells[offset..offset + |piece|]
    ensures Write(Partial(zero, width, cells, Filled(valid, size, k)), width - valid + offset, piece)
         == Partial(zero, width, cells, Filled(valid, size, k + 1))
  {
    PartialStep(zero, width, cells, offset, offset + |piece|);
  }
}

/** A bounded pool of device blocks behind per-request block tables. */
module BlockStore {
  import opened Options
  import opened Arithmetic
  import opened KvViews
  import opened BlockTables

  datatype Refusal = StaleLength | PoolCapacity | NotDynamicLayers | NonUniformGeometry | ByteBudget

  datatype Geometry = Uniform | OtherLayers | Mixed

  /** The updated cache of a forward pass: its layer geometry and one row of cells per request. */
  datatype Cache<Cell> = Cache(geometry: Geometry, bytesPerToken: nat, rows: seq<seq<Cell>>)

  /** Blocks that the requests of a call from the `n`-th on still have to be given. */
  ghost function Need(lengths: seq<nat>, additions: seq<nat>, size: nat, n: nat): int
    requires size > 0 && n <= |lengths| == |additions|
    decreases |lengths| - n
  {
    if n == |lengths| then 0
    else
      BlocksFor(lengths[n] + additions[n], size) - BlocksFor(lengths[n], size) + Need(lengths, additions, size, n + 1)
  }

  lemma {:induction false} NeedIsNat(lengths: seq<nat>, additions: seq<nat>, size: nat, n: nat)
    requires size > 0 && n <= |lengths| == |additions|
    ensures Need(lengths, additions, size, n) >= 0
    decreases |lengths| - n
  {
    if n < |lengths| {
      NeedIsNat(lengths, additions, size, n + 1);
      BlocksMono(lengths[n], lengths[n] + additions[n], size);
    }
  }

  /** Serving one request of a call leaves enough free blocks for the rest of it. */
  lemma NeedSpent(lengths: seq<nat>, additions: seq<nat>, size: nat, n: nat, available: nat)
    requires size > 0 && n < |lengths| == |additions| && Need(lengths, additions, size, n) <= available
    ensures BlocksFor(lengths[n] + additions[n], size) <= available + BlocksFor(lengths[n], size)
    ensures Need(lengths, additions, size, n + 1)
         <= available + BlocksFor(lengths[n], size) - BlocksFor(lengths[n] + additions[n], size)
  {
    NeedIsNat(lengths, additions, size, n + 1);
  }

  /** Why a call is refused, in the order in which the reasons are looked for. */
  function RefusalFor(current: bool, need: int, free: nat, geometry: Geometry, affordable: bool): Option<Refusal> {
    if !current then Some(StaleLength)
    else if need > free then Some(PoolCapacity)
    else if geometry.OtherLayers? then Some(NotDynamicLayers)
    else if geometry.Mixed? then Some(NonUniformGeometry)
    else if !affordable then Some(ByteBudget)
    else None
  }

  /** What the store reports of itself. */
  datatype PoolReceipt = PoolReceipt(
    active: nat, free: nat, valid: nat, tailWaste: int, storageBytes: nat, capacityBytes: int, validBytes: int,
    allocations: nat, released: nat, reused: nat)

  /** A receipt's figures agree: less than a block wasted per table, cells and waste make up the capacity in use. */
  ghost predicate Accounts(r: PoolReceipt, tables: nat, size: nat, bytes: nat)
    requires size > 0
  {
    && r.tailWaste == r.active * size - r.valid && 0 <= r.tailWaste <= tables * (size - 1)
    && r.validBytes == r.valid * bytes && r.capacityBytes == r.validBytes + r.tailWaste * bytes
    && 0 <= r.validBytes <= r.capacityBytes <= r.storageBytes
  }

  class BlockKV<Id(==,!new), Cell> {
    const blockSize: nat
    const capacity: nat
    const maxBytes: nat
    const zero: Cell
    const garbage: Cell
    var rows: map<Id, Entry>
    var free: seq<nat>
    var slabs: array?<seq<Cell>>
    var allocations: nat
    var releases: nat
    var reuses: nat
    var usedBefore: set<nat>
    var bytesPerToken: nat

    ghost function Slab(): seq<seq<Cell>>
      reads this, slabs
    {
      if slabs == null then [] else slabs[..]
    }

    /** Blocks in use are those allocated and not released; reuses are allocations of a block used before. */
    ghost predicate Counted()
      reads this
    {
      allocations - releases == capacity - |free| && allocations == reuses + |usedBefore|
    }

    lemma InUse()
      requires Partitions(free, rows, capacity)
      ensures |Held(rows)| == capacity - |free|
    {
      PoolCounts(capacity, 0);
      assert |multiset(free) + Held(rows)| == |free| + |Held(rows)|;
    }

    ghost predicate Valid()
      reads this, slabs
    {
      && blockSize > 0 && Sound()
      && (slabs == null ==> rows == map[])
      && (slabs != null ==> slabs.Length == capacity && Shaped(slabs[..], blockSize))
      && AllTabled(rows, Slab(), blockSize)
    }

    /** Bytes of the allocated slabs. */
    function StorageBytes(): nat
      reads this`slabs, this`bytesPerToken
    {
      if slabs == null then 0 else capacity * blockSize * bytesPerToken
    }

    /** The slabs keep to the byte budget; only allocating and dropping them matters. */
    ghost predicate Affordable()
      reads this`slabs, this`bytesPerToken
    {
      StorageBytes() <= maxBytes
    }

    /** The cells of every request, read through its block table. */
    ghost function View(): map<Id, seq<Cell>>
      requires Valid()
      reads this, slabs
    {
      ViewOf(rows, Slab(), blockSize)
    }

    constructor (blockSize: nat, capacity: nat, maxBytes: nat, zero: Cell, garbage: Cell)
      requires blockSize > 0
      ensures Valid() && Affordable() && View() == map[] && slabs == null && |free| == capacity
      ensures this.blockSize == blockSize && this.capacity == capacity && this.maxBytes == maxBytes && this.zero == zero
    {
      this.blockSize, this.capacity, this.maxBytes, this.zero, this.garbage :=
        blockSize, capacity, maxBytes, zero, garbage;
      rows, slabs, bytesPerToken := map[], null, 0;
      allocations, releases, reuses, usedBefore := 0, 0, 0, {};
      free := Countdown(capacity);
      new;
      CountdownIsPool(capacity);
    }

    /** How many blocks hold `n` cells. */
    method BlockCount(n: nat) returns (blocks: nat)
      requires blockSize > 0
      ensures blocks == BlocksFor(n, blockSize)
    {
      BlocksForIsCeil(n, blockSize);
      blocks := (n + blockSize - 1) / blockSize;
    }

    /** The caller's lengths are the recorded ones. */
    ghost predicate UpToDate(ids: seq<Id>, lengths: seq<nat>)
      requires |ids| == |lengths|
      reads this
    {
      forall i :: 0 <= i < |ids| ==> EntryOf(rows, ids[i]).valid == lengths[i]
    }

    lemma UpToDateIsCurrent(ids: seq<Id>, lengths: seq<nat>)
      requires Valid() && |ids| == |lengths|
      ensures UpToDate(ids, lengths) <==> Current(View(), ids, lengths)
    {
      assert forall i :: 0 <= i < |ids| ==> |CellsOf(View(), ids[i])| == EntryOf(rows, ids[i]).valid;
    }

    /** Every table has exactly the blocks its length needs. */
    ghost predicate Sized()
      reads this
    {
      blockSize > 0 && forall id :: id in rows ==> |rows[id].blocks| == BlocksFor(rows[id].valid, blockSize)
    }

    lemma SizedEntry(id: Id)
      requires Sized()
      ensures |EntryOf(rows, id).blocks| == BlocksFor(EntryOf(rows, id).valid, blockSize)
    {
    }

    /** Why a call cannot be committed, or None. */
    method Refuse(ids: seq<Id>, lengths: seq<nat>, additions: seq<nat>) returns (r: Option<Refusal>)
      requires Sized() && |ids| == |lengths| == |additions|
      ensures r == Some(StaleLength) <==> !UpToDate(ids, lengths)
      ensures r == Some(PoolCapacity) <==> UpToDate(ids, lengths) && Need(lengths, additions, blockSize, 0) > |free|
      ensures r.Some? ==> r.value.StaleLength? || r.value.PoolCapacity?
    {
      var needed: int := 0;
      for i := 0 to |ids|
        invariant forall k :: 0 <= k < i ==> EntryOf(rows, ids[k]).valid == lengths[k]
        invariant needed == Need(lengths, additions, blockSize, 0) - Need(lengths, additions, blockSize, i)
      {
        var entry := if ids[i] in rows then rows[ids[i]] else Entry(0, []);
        if entry.valid != lengths[i] { return Some(StaleLength); }
        var blocks := BlockCount(lengths[i] + additions[i]);
        needed := needed + (blocks - |entry.blocks|);
      }
      r := if needed > |free| then Some(PoolCapacity) else None;
    }

    /** The new blocks of a table are the last ones of the free list, the very last first. */
    ghost predicate Popped(before: seq<nat>, after: seq<nat>, table: seq<nat>, blocks: seq<nat>) {
      && table <= blocks && after <= before && |after| + |blocks| == |before| + |table|
      && forall k :: |table| <= k < |blocks| ==> blocks[k] == before[|before| - 1 - (k - |table|)]
    }

    /** Exactly these blocks have come to be used. */
    ghost predicate Used(before: set<nat>, after: set<nat>, blocks: seq<nat>) {
      forall b :: b in after <==> b in before || b in blocks
    }

    /** Takes blocks from the free list until the table has `target` of them. */
    method Grow(table: seq<nat>, target: nat, ghost others: multiset<nat>) returns (blocks: seq<nat>)
      requires |table| <= target <= |table| + |free|
      requires multiset(free) + multiset(table) + others == Pool(capacity)
      requires allocations == reuses + |usedBefore|
      modifies this`free, this`allocations, this`reuses, this`usedBefore
      ensures table <= blocks && |blocks| == target
      ensures multiset(free) + multiset(blocks) + others == Pool(capacity)
      ensures |free| == |old(free)| - (target - |table|)
      ensures allocations == old(allocations) + (target - |table|)
      ensures allocations == reuses + |usedBefore|
      ensures Popped(old(free), free, table, blocks) && Used(old(usedBefore), usedBefore, blocks[|table|..])
    {
      blocks := table;
      assert free[..|free|] == free && blocks[|table|..] == [];
      while |blocks| < target
        invariant table <= blocks && |blocks| <= target
        invariant |free| == |old(free)| - (|blocks| - |table|)
        invariant multiset(free) + multiset(blocks) + others == Pool(capacity)
        invariant allocations == old(allocations) + (|blocks| - |table|)
        invariant allocations == reuses + |usedBefore|
        invariant Popped(old(free), free, table, blocks) && Used(old(usedBefore), usedBefore, blocks[|table|..])
        decreases target - |blocks|
      {
        ghost var before, was, had := free, blocks, usedBefore;
        var physical := free[|free| - 1];
        assert free == free[..|free| - 1] + [physical];
        free := free[..|free| - 1];
        assert physical in usedBefore ==> usedBefore + {physical} == usedBefore;
        reuses := reuses + (if physical in usedBefore then 1 else 0);
        usedBefore := usedBefore + {physical};
        allocations := allocations + 1;
        blocks := blocks + [physical];
        PopNext(old(free), before, table, was, old(usedBefore), had);
      }
    }

    /** Popping one more block. */
    lemma PopNext(start: seq<nat>, before: seq<nat>, table: seq<nat>, blocks: seq<nat>, used: set<nat>, had: set<nat>)
      requires before != [] && Popped(start, before, table, blocks) && Used(used, had, blocks[|table|..])
      ensures var b := before[|before| - 1];
        && Popped(start, before[..|before| - 1], table, blocks + [b])
        && Used(used, had + {b}, (blocks + [b])[|table|..])
    {
      var b := before[|before| - 1];
      assert (blocks + [b])[|table|..] == blocks[|table|..] + [b];
    }

    /** Copies as many of the remaining cells as fit into the block of position `p`. */
    method CopyBlock(blocks: seq<nat>, p: nat, source: seq<Cell>, offset: nat) returns (count: nat)
      requires blockSize > 0 && slabs != null && Shaped(slabs[..], blockSize)
      requires forall k :: 0 <= k < |blocks| ==> blocks[k] < slabs.Length
      requires Quot(p, blockSize) < |blocks| && offset < |source|
      modifies slabs
      ensures 0 < count <= |source| - offset && Rem(p, blockSize) + count <= blockSize
      ensures slabs[..] == Written(old(slabs[..]), blockSize, blocks, p, source[offset..offset + count])
    {
      QuotRem(p, blockSize);
      var logical, within := p / blockSize, p % blockSize;
      count := if |source| - offset < blockSize - within then |source| - offset else blockSize - within;
      var physical := blocks[logical];
      slabs[physical] := Write(slabs[physical], within, source[offset..offset + count]);
    }

    /** Copies `source` into positions `start..` of a private table, block by block. */
    method Scatter(blocks: seq<nat>, start: nat, source: seq<Cell>) returns (copied: nat)
      requires blockSize > 0 && slabs != null && Shaped(slabs[..], blockSize) && Distinct(blocks)
      requires forall k :: 0 <= k < |blocks| ==> blocks[k] < slabs.Length
      requires Reaches(start + |source|, blockSize, |blocks|)
      modifies slabs
      ensures Copied(old(slabs[..]), slabs[..], blockSize, blocks, start, source, |source|) && copied == |source|
    {
      var offset := 0;
      copied := 0;
      while offset < |source|
        invariant copied == offset <= |source|
        invariant Copied(old(slabs[..]), slabs[..], blockSize, blocks, start, source, offset)
        decreases |source| - offset
      {
        ghost var before := slabs[..];
        assert Quot(start + offset, blockSize) < |blocks|;
        var count := CopyBlock(blocks, start + offset, source, offset);
        CopiedMore(old(slabs[..]), before, blockSize, blocks, start, source, offset, count);
        copied := copied + count;
        offset := offset + count;
      }
    }

    /** The pool without one request's table. */
    lemma WithoutRow(id: Id)
      requires Partitions(free, rows, capacity)
      ensures multiset(free) + multiset(EntryOf(rows, id).blocks) + Held(rows - {id}) == Pool(capacity)
    {
      if id in rows {
        HeldSplit(rows, id);
      } else {
        assert rows - {id} == rows;
      }
    }

    /** Books, free list and tables agree; says nothing about the cells. */
    ghost predicate Sound()
      reads this
    {
      Partitions(free, rows, capacity) && Counted() && Sized()
    }

    /** Gives one request the `target` blocks that `valid` cells need. */
    method GrowRow(id: Id, valid: nat, target: nat) returns (blocks: seq<nat>)
      requires Sound() && target == BlocksFor(valid, blockSize)
      requires |EntryOf(rows, id).blocks| <= target <= |EntryOf(rows, id).blocks| + |free|
      modifies this`rows, this`free, this`allocations, this`reuses, this`usedBefore
      ensures rows == old(rows)[id := Entry(valid, blocks)]
      ensures Sound() && EntryOf(old(rows), id).blocks <= blocks
      ensures |free| + |blocks| == |old(free)| + |EntryOf(old(rows), id).blocks|
      ensures Popped(old(free), free, EntryOf(old(rows), id).blocks, blocks)
      ensures Used(old(usedBefore), usedBefore, blocks[|EntryOf(old(rows), id).blocks|..])
    {
      WithoutRow(id);
      ghost var others := Held(rows - {id});
      blocks := Grow(EntryOf(rows, id).blocks, target, others);
      HeldUpdate(rows, id, Entry(valid, blocks));
      rows := rows[id := Entry(valid, blocks)];
      Regrouped(free, rows, capacity, blocks, others);
    }

    /** Grows one request's table to hold `valid` cells; the table stays private. */
    method Claim(id: Id, valid: nat) returns (blocks: seq<nat>)
      requires Sound() && EntryOf(rows, id).valid <= valid
      requires BlocksFor(valid, blockSize) <= |free| + |EntryOf(rows, id).blocks|
      modifies this`rows, this`free, this`allocations, this`reuses, this`usedBefore
      ensures rows == old(rows)[id := Entry(valid, blocks)]
      ensures Sound() && EntryOf(old(rows), id).blocks <= blocks && |blocks| == BlocksFor(valid, blockSize)
      ensures |free| + |blocks| == |old(free)| + |EntryOf(old(rows), id).blocks|
      ensures Distinct(blocks) && Exclusive(rows, id) && Reaches(valid, blockSize, |blocks|)
      ensures forall k :: 0 <= k < |blocks| ==> blocks[k] < capacity
    {
      var target := BlockCount(valid);
      BlocksMono(EntryOf(rows, id).valid, valid, blockSize);
      SizedEntry(id);
      blocks := GrowRow(id, valid, target);
      Private(free, rows, capacity, id);
      BlocksReach(valid, blockSize, |blocks|);
    }

    /** Grows one request's table to `valid` cells and fills the new positions. */
    method CommitRow(id: Id, source: seq<Cell>, valid: nat) returns (copied: nat)
      requires Valid() && slabs != null && valid == EntryOf(rows, id).valid + |source|
      requires BlocksFor(valid, blockSize) <= |free| + |EntryOf(rows, id).blocks|
      modifies this`rows, this`free, this`allocations, this`reuses, this`usedBefore, slabs
      ensures Valid() && copied == |source|
      ensures View() == old(View())[id := CellsOf(old(View()), id) + source]
      ensures id in rows && rows == old(rows)[id := rows[id]] && rows[id].valid == valid
      ensures |free| + BlocksFor(valid, blockSize) == |old(free)| + |EntryOf(old(rows), id).blocks|
    {
      ghost var slab, before := slabs[..], rows;
      var start := EntryOf(rows, id).valid;
      var blocks := Claim(id, valid);
      copied := Scatter(blocks, start, source);
      ViewExtended(before, rows, slab, slabs[..], blockSize, id, source);
    }

    /** Allocates the slabs on first use, if the byte budget allows. */
    method Reserve(bytes: nat) returns (ok: bool)
      requires Valid()
      modifies this`slabs, this`bytesPerToken
      ensures Valid() && View() == old(View())
      ensures ok <==> old(slabs) != null || capacity * blockSize * bytes <= maxBytes
      ensures old(Affordable()) ==> Affordable()
      ensures if ok then slabs != null else slabs == old(slabs)
      ensures slabs == old(slabs) || fresh(slabs)
    {
      if slabs == null {
        bytesPerToken := bytes;
        if capacity * blockSize * bytes > maxBytes { return false; }
        var block := seq(blockSize, _ => garbage);
        slabs := new seq<Cell>[capacity](_ => block);
      }
      ok := true;
    }

    /** One request of an admitted call. */
    method CommitNext(i: nat, cells: seq<seq<Cell>>, ids: seq<Id>, lengths: seq<nat>, additions: seq<nat>, past: nat,
        query: nat) returns (copied: nat)
      requires Valid() && slabs != null && Fits(ids, lengths, additions, cells, past, query) && i < |ids|
      requires EntryOf(rows, ids[i]).valid == lengths[i] && Need(lengths, additions, blockSize, i) <= |free|
      modifies this`rows, this`free, this`allocations, this`reuses, this`usedBefore, slabs
      ensures Valid() && copied == additions[i]
      ensures |free| - Need(lengths, additions, blockSize, i + 1) ==
        |old(free)| - Need(lengths, additions, blockSize, i)
      ensures forall k :: i < k < |ids| ==> EntryOf(rows, ids[k]) == EntryOf(old(rows), ids[k])
      ensures View() == old(View())[ids[i] :=
        CellsOf(old(View()), ids[i]) + cells[i][past + query - additions[i]..past + query]]
    {
      var source := cells[i][past + query - additions[i]..past + query];
      assert |source| == additions[i];
      NeedSpent(lengths, additions, blockSize, i, |free|);
      SizedEntry(ids[i]);
      copied := CommitRow(ids[i], source, lengths[i] + additions[i]);
    }

    /** The state once the first `i` requests of a call have been served, with `spare` blocks to be left over. */
    ghost predicate Served(stage: map<Id, seq<Cell>>, spare: nat, ids: seq<Id>, lengths: seq<nat>,
        additions: seq<nat>, i: nat)
      requires i <= |ids| == |lengths| == |additions|
      reads this, slabs
    {
      && Valid() && slabs != null && View() == stage
      && (forall k :: i <= k < |ids| ==> EntryOf(rows, ids[k]).valid == lengths[k])
      && |free| == spare + Need(lengths, additions, blockSize, i)
    }

    /** The rows of an admitted call, one after the other; `stages` are the views in between. */
    method CommitRows(ghost stages: seq<map<Id, seq<Cell>>>, ghost spare: nat, cells: seq<seq<Cell>>, ids: seq<Id>,
        lengths: seq<nat>, additions: seq<nat>, past: nat, query: nat) returns (copied: nat)
      requires Fits(ids, lengths, additions, cells, past, query) && Stages(stages, ids, additions, cells, past, query)
      requires Served(stages[0], spare, ids, lengths, additions, 0)
      modifies this`rows, this`free, this`allocations, this`reuses, this`usedBefore, slabs
      ensures Served(stages[|ids|], spare, ids, lengths, additions, |ids|) && copied == Sum(additions)
    {
      copied := 0;
      for i := 0 to |ids|
        invariant Served(stages[i], spare, ids, lengths, additions, i) && copied == SumFirst(additions, i)
      {
        var moved := ServeNext(i, stages[i], stages[i + 1], spare, cells, ids, lengths, additions, past, query);
        copied := copied + moved;
      }
    }

    /** One request of an admitted call takes the state from stage to stage. */
    method ServeNext(i: nat, ghost stage: map<Id, seq<Cell>>, ghost next: map<Id, seq<Cell>>, ghost spare: nat,
        cells: seq<seq<Cell>>, ids: seq<Id>, lengths: seq<nat>, additions: seq<nat>, past: nat, query: nat)
        returns (copied: nat)
      requires Fits(ids, lengths, additions, cells, past, query) && i < |ids|
      requires Served(stage, spare, ids, lengths, additions, i)
      requires next == stage[ids[i] := CellsOf(stage, ids[i]) + cells[i][past + query - additions[i]..past + query]]
      modifies this`rows, this`free, this`allocations, this`reuses, this`usedBefore, slabs
      ensures Served(next, spare, ids, lengths, additions, i + 1) && copied == additions[i]
    {
      NeedIsNat(lengths, additions, blockSize, i);
      copied := CommitNext(i, cells, ids, lengths, additions, past, query);
    }

    /** An admitted call: every request gets its new cells. */
    method CommitAdmitted(ghost view: map<Id, seq<Cell>>, ghost need: nat, cells: seq<seq<Cell>>, ids: seq<Id>,
        lengths: seq<nat>, additions: seq<nat>, past: nat, query: nat) returns (copied: nat)
      requires Valid() && slabs != null && Fits(ids, lengths, additions, cells, past, query) && view == View()
      requires UpToDate(ids, lengths) && need == Need(lengths, additions, blockSize, 0) <= |free|
      modifies this`rows, this`free, this`allocations, this`reuses, this`usedBefore, slabs
      ensures Valid() && View() == Put(view, ids, Appended(view, ids, lengths, additions, cells, past, query), |ids|)
      ensures |free| == |old(free)| - need && copied == Sum(additions)
    {
      ghost var stages := StagesOf(view, ids, lengths, additions, cells, past, query);
      StagesAreSteps(view, ids, lengths, additions, cells, past, query);
      ghost var spare := |free| - need;
      copied := CommitRows(stages, spare, cells, ids, lengths, additions, past, query);
    }

    /** Commits the new cells of a forward pass, copying nothing else, or refuses and changes no request. */
    method Commit(cache: Cache<Cell>, ids: seq<Id>, lengths: seq<nat>, additions: seq<nat>)
        returns (r: Option<Refusal>, copied: nat)
      requires Valid() && lengths != [] && additions != []
      requires Fits(ids, lengths, additions, cache.rows, Max(lengths), Max(additions))
      modifies this, slabs
      ensures Valid()
      ensures r.None? ==>
        var rows := Appended(old(View()), ids, lengths, additions, cache.rows, Max(lengths), Max(additions));
        View() == Put(old(View()), ids, rows, |ids|)
      ensures r.Some? ==> View() == old(View()) && rows == old(rows) && free == old(free)
      ensures r == RefusalFor(Current(old(View()), ids, lengths), Need(lengths, additions, blockSize, 0), |old(free)|,
        cache.geometry, old(slabs) != null || capacity * blockSize * cache.bytesPerToken <= maxBytes)
      ensures r.None? ==> |free| == |old(free)| - Need(lengths, additions, blockSize, 0) && slabs != null
      ensures r.None? ==> copied == Sum(additions)
      ensures old(Affordable()) ==> Affordable()
      ensures r.Some? ==> slabs == old(slabs)
      ensures slabs == old(slabs) || fresh(slabs)
    {
      ghost var view, need := View(), Need(lengths, additions, blockSize, 0);
      NeedIsNat(lengths, additions, blockSize, 0);
      copied := 0;
      r := Admit(cache, ids, lengths, additions);
      if r.Some? { return; }
      var past, query := Max(lengths), Max(additions);
      copied := CommitAdmitted(view, need, cache.rows, ids, lengths, additions, past, query);
    }

    /** The checks before a commit, and the slabs allocated if they are not there yet. */
    method Admit(cache: Cache<Cell>, ids: seq<Id>, lengths: seq<nat>, additions: seq<nat>) returns (r: Option<Refusal>)
      requires Valid() && |ids| == |lengths| == |additions|
      modifies this`slabs, this`bytesPerToken
      ensures Valid() && View() == old(View()) && (old(Affordable()) ==> Affordable())
      ensures r == RefusalFor(Current(View(), ids, lengths), Need(lengths, additions, blockSize, 0), |free|,
        cache.geometry, old(slabs) != null || capacity * blockSize * cache.bytesPerToken <= maxBytes)
      ensures if r.None? then slabs != null && UpToDate(ids, lengths) else slabs == old(slabs)
      ensures slabs == old(slabs) || fresh(slabs)
    {
      r := Refuse(ids, lengths, additions);
      UpToDateIsCurrent(ids, lengths);
      if r.Some? { return; }
      if cache.geometry.OtherLayers? { return Some(NotDynamicLayers); }
      if cache.geometry.Mixed? { return Some(NonUniformGeometry); }
      var reserved := Reserve(cache.bytesPerToken);
      if !reserved { return Some(ByteBudget); }
    }

    /** Copies the cells of one table slot into a row of a packed batch. */
    method PackSlot(entry: Entry, width: nat, ghost cells: seq<Cell>, row: seq<Cell>, logical: nat)
        returns (row': seq<Cell>, count: nat)
      requires slabs != null && Tabled(slabs[..], blockSize, entry) && entry.valid <= width
      requires |entry.blocks| == BlocksFor(entry.valid, blockSize) && logical < |entry.blocks|
      requires cells == Gather(slabs[..], blockSize, entry)
      requires row == Partial(zero, width, cells, Filled(entry.valid, blockSize, logical))
      ensures row' == Partial(zero, width, cells, Filled(entry.valid, blockSize, logical + 1))
      ensures count == Filled(entry.valid, blockSize, logical + 1) - Filled(entry.valid, blockSize, logical)
    {
      GatherSlot(slabs[..], blockSize, entry, logical);
      var offset := logical * blockSize;
      count := if blockSize < entry.valid - offset then blockSize else entry.valid - offset;
      var piece := slabs[entry.blocks[logical]][..count];
      PartialNext(zero, width, cells, entry.valid, blockSize, logical, offset, piece);
      row' := Write(row, width - entry.valid + offset, piece);
    }

    /** One row of a packed batch, gathered block by block into zeros. */
    method PackRow(entry: Entry, width: nat) returns (row: seq<Cell>, copied: nat)
      requires slabs != null && Tabled(slabs[..], blockSize, entry) &&
        |entry.blocks| == BlocksFor(entry.valid, blockSize)
      requires entry.valid <= width
      ensures row == PadLeft(zero, width, Gather(slabs[..], blockSize, entry)) && copied == entry.valid
    {
      ghost var cells := Gather(slabs[..], blockSize, entry);
      row, copied := Zeros(zero, width), 0;
      assert row == Partial(zero, width, cells, 0);
      for logical := 0 to |entry.blocks|
        invariant row == Partial(zero, width, cells, Filled(entry.valid, blockSize, logical))
        invariant copied == Filled(entry.valid, blockSize, logical)
      {
        var moved;
        row, moved := PackSlot(entry, width, cells, row, logical);
        copied := copied + moved;
      }
      FullTable(entry.valid, blockSize);
      assert Partial(zero, width, cells, entry.valid) == PadLeft(zero, width, cells);
    }

    /** The batch row of one request; None where the lookup or the length check raises. */
    method PackOne(ghost view: map<Id, seq<Cell>>, id: Id, length: nat, width: nat)
        returns (r: Option<seq<Cell>>, copied: nat)
      requires Valid() && view == View() && length <= width
      ensures r.Some? <==> CanPack(view, id, length)
      ensures r.Some? ==> r.value == PackedRow(view, id, length, zero, width) && copied == length
    {
      if length == 0 {
        assert Zeros(zero, width) == PadLeft(zero, width, []);
        return Some(Zeros(zero, width)), 0;
      }
      if id !in rows || rows[id].valid != length { return None, 0; }
      var row;
      row, copied := PackRow(rows[id], width);
      r := Some(row);
    }

    method Pack(ids: seq<Id>, lengths: seq<nat>) returns (r: Option<seq<seq<Cell>>>, copied: nat)
      requires Valid() && Call(ids, lengths)
      ensures r.Some? <==> Packable(View(), ids, lengths)
      ensures r.Some? ==> r.value == Packed(View(), ids, lengths, zero, Max(lengths)) && copied == Sum(lengths)
    {
      copied := 0;
      var width := Max(lengths);
      if width == 0 {
        ZeroSum(lengths, |lengths|);
        return Some([]), 0;
      }
      r, copied := PackAll(View(), ids, lengths, width);
    }

    /** The next row of a batch of which the rows before are packed. */
    method PackNext(ghost view: map<Id, seq<Cell>>, ghost packed: seq<seq<Cell>>, i: nat, ids: seq<Id>,
        lengths: seq<nat>, width: nat) returns (row: Option<seq<Cell>>, copied: nat)
      requires Valid() && view == View() && i < |ids| == |lengths|
      requires forall k :: 0 <= k < |lengths| ==> lengths[k] <= width
      requires PackedUpTo(view, ids, lengths, zero, width, packed, i)
      ensures row.Some? <==> CanPack(view, ids[i], lengths[i])
      ensures row.Some? ==>
        PackedUpTo(view, ids, lengths, zero, width, packed + [row.value], i + 1) && copied == lengths[i]
    {
      row, copied := PackOne(view, ids[i], lengths[i], width);
      if row.Some? { PackedUpToStep(view, ids, lengths, zero, width, packed, i, row.value); }
    }

    method PackAll(ghost view: map<Id, seq<Cell>>, ids: seq<Id>, lengths: seq<nat>, width: nat)
        returns (r: Option<seq<seq<Cell>>>, copied: nat)
      requires Valid() && view == View()
      requires |ids| == |lengths| && 0 < width && forall i :: 0 <= i < |lengths| ==> lengths[i] <= width
      ensures r.Some? <==> Packable(view, ids, lengths)
      ensures r.Some? ==> r.value == Packed(view, ids, lengths, zero, width) && copied == Sum(lengths)
    {
      copied := 0;
      var packed: seq<seq<Cell>> := [];
      for i := 0 to |ids|
        invariant PackedUpTo(view, ids, lengths, zero, width, packed, i) && copied == SumFirst(lengths, i)
      {
        var row, moved := PackNext(view, packed, i, ids, lengths, width);
        if row.None? { return None, copied; }
        copied, packed := copied + moved, packed + [row.value];
      }
      PackedAll(view, ids, lengths, zero, width, packed);
      r := Some(packed);
    }

    /** Moves a request's blocks back to the free list. */
    method Detach(id: Id)
      requires Sound()
      modifies this`rows, this`free, this`releases
      ensures Sound() && rows == old(rows) - {id} && free == old(free) + EntryOf(old(rows), id).blocks
    {
      if id in rows {
        HeldSplit(rows, id);
        free := free + rows[id].blocks;
        releases := releases + |rows[id].blocks|;
        rows := rows - {id};
      } else {
        assert rows - {id} == rows;
      }
    }

    /** Returns a request's blocks to the pool; unknown requests are ignored. */
    method Release(id: Id)
      requires Valid()
      modifies this`rows, this`free, this`releases
      ensures Valid() && View() == old(View()) - {id} && rows == old(rows) - {id}
      ensures free == old(free) + EntryOf(old(rows), id).blocks
      ensures |free| == |old(free)| + BlocksFor(|CellsOf(old(View()), id)|, blockSize)
    {
      SizedEntry(id);
      ViewWithout(rows, Slab(), blockSize, id);
      Detach(id);
    }

    /** Releases every request and drops the slabs. */
    method Clear()
      requires Valid()
      modifies this`rows, this`free, this`releases, this`slabs
      ensures Valid() && Affordable() && rows == map[] && slabs == null && multiset(free) == Pool(capacity)
    {
      while rows != map[]
        invariant Valid() && slabs == old(slabs)
        decreases |rows|
      {
        var id :| id in rows;
        Release(id);
      }
      slabs := null;
    }

    /** The tables walked over for a receipt: blocks and cells in use. */
    method CountTables() returns (active: nat, valid: nat)
      requires Valid()
      ensures active == |Held(rows)| && valid == Stored(View())
    {
      var left := rows;
      ghost var rest := View();
      active, valid := 0, 0;
      while left != map[]
        invariant active + |Held(left)| == |Held(rows)| && valid + Stored(rest) == Stored(View())
        invariant Matching(left, rest)
        decreases |left|
      {
        var id :| id in left;
        HeldSplit(left, id);
        StoredSplit(rest, id);
        active, valid := active + |left[id].blocks|, valid + left[id].valid;
        left, rest := left - {id}, rest - {id};
      }
    }

    /** The receipt: what is in use, what is wasted, what that is in bytes, and the counters. */
    method Receipt() returns (r: PoolReceipt)
      requires Valid() && Affordable()
      ensures r.active == |Held(rows)| == capacity - |free| == allocations - releases && r.free == |free|
      ensures r.valid == Stored(View())
      ensures Accounts(r, |rows|, blockSize, bytesPerToken)
      ensures r.storageBytes == StorageBytes() <= maxBytes
      ensures r.allocations == allocations && r.released == releases && r.reused == reuses
    {
      InUse();
      var active, valid := CountTables();
      TablesWaste(rows, View(), blockSize);
      InStorage();
      r := Figures(active, valid, |rows|, StorageBytes());
    }

    lemma InStorage()
      requires Valid()
      ensures |Held(rows)| * blockSize * bytesPerToken <= StorageBytes()
    {
      InUse();
      if slabs != null {
        MulMono(|Held(rows)|, capacity, blockSize);
        MulMono(|Held(rows)| * blockSize, capacity * blockSize, bytesPerToken);
      }
    }

    /** The figures of a receipt. */
    method Figures(active: nat, valid: nat, tables: nat, storage: nat) returns (r: PoolReceipt)
      requires blockSize > 0 && valid <= active * blockSize <= valid + tables * (blockSize - 1)
      requires active * blockSize * bytesPerToken <= storage
      ensures r.active == active && r.valid == valid && r.storageBytes == storage && r.free == |free|
      ensures Accounts(r, tables, blockSize, bytesPerToken)
      ensures r.allocations == allocations && r.released == releases && r.reused == reuses
    {
      ReceiptBytes(active, valid, blockSize, bytesPerToken);
      r := PoolReceipt(active, |free|, valid, active * blockSize - valid, storage, active * blockSize * bytesPerToken,
        valid * bytesPerToken, allocations, releases, reuses);
    }
  }
}

/** The two stores behind one step executor. */
module KvRefinement {
  import opened Options
  import opened Arithmetic
  import opened KvViews
  import opened DenseStore
  import opened BlockStore

  /** One step of a history: a batched forward pass, or the end of a request. */
  datatype Event<Id, Cell> =
    | Forward(
        ids: seq<Id>, lengths: seq<nat>, additions: seq<nat>, columns: seq<seq<Cell>>, geometry: Geometry,
        bytesPerToken: nat)
    | Finish(id: Id)

  ghost predicate WellFormed<Id, Cell>(e: Event<Id, Cell>) {
    e.Forward? ==>
      && Call(e.ids, e.lengths) && |e.additions| == |e.columns| == |e.ids|
      && forall i :: 0 <= i < |e.columns| ==> |e.columns[i]| == Max(e.additions)
  }

  /** The cache after a forward pass: the packed columns, then the new ones. */
  function Forwarded<Cell>(packed: seq<seq<Cell>>, columns: seq<seq<Cell>>): (rows: seq<seq<Cell>>)
    requires packed == [] || |packed| == |columns|
    ensures |rows| == |columns|
  {
    seq(|columns|, i requires 0 <= i < |columns| => (if packed == [] then [] else packed[i]) + columns[i])
  }

  // ---- the stores as one abstract machine ----

  datatype Pool = Pool(blockSize: nat, capacity: nat, maxBytes: nat)

  /** Per-request cells, the number of free blocks, and whether the slabs are allocated. */
  datatype State<Id, Cell> = State(view: map<Id, seq<Cell>>, free: int, reserved: bool)

  /** What is stored for each request of a forward pass, followed by its own new cells. */
  ghost function Grown<Id, Cell>(view: map<Id, seq<Cell>>, e: Event<Id, Cell>): (rows: seq<seq<Cell>>)
    requires e.Forward? && WellFormed(e)
    ensures |rows| == |e.ids|
  {
    seq(|e.ids|, i requires 0 <= i < |e.ids| =>
      FreshFits(e, i); CellsOf(view, e.ids[i]) + Fresh(e.columns[i], e.additions[i]))
  }

  lemma FreshFits<Id, Cell>(e: Event<Id, Cell>, i: nat)
    requires e.Forward? && WellFormed(e) && i < |e.ids|
    ensures e.additions[i] <= |e.columns[i]|
  {
  }

  /** Why a forward pass is refused in a state, or None. */
  ghost function RefusalOf<Id, Cell>(pool: Pool, s: State<Id, Cell>, e: Event<Id, Cell>): Option<Refusal>
    requires pool.blockSize > 0 && WellFormed(e)
  {
    if e.Finish? || s.free < 0 then None
    else RefusalFor(Current(s.view, e.ids, e.lengths), Need(e.lengths, e.additions, pool.blockSize, 0), s.free,
      e.geometry, s.reserved || pool.capacity * pool.blockSize * e.bytesPerToken <= pool.maxBytes)
  }

  /** What an event does: an admitted forward pass appends to its requests, a release forgets one. */
  ghost function Next<Id, Cell>(pool: Pool, s: State<Id, Cell>, e: Event<Id, Cell>): State<Id, Cell>
    requires pool.blockSize > 0 && WellFormed(e)
  {
    if e.Finish? then
      State(s.view - {e.id}, s.free + BlocksFor(|CellsOf(s.view, e.id)|, pool.blockSize), s.reserved)
    else if RefusalOf(pool, s, e).Some? then s
    else
      State(Put(s.view, e.ids, Grown(s.view, e), |e.ids|),
        s.free - Need(e.lengths, e.additions, pool.blockSize, 0), true)
  }

  /** The batch a forward pass is given. */
  ghost function Handed<Id, Cell>(s: State<Id, Cell>, e: Event<Id, Cell>, zero: Cell): Option<seq<seq<Cell>>>
    requires WellFormed(e)
  {
    if e.Forward? && Packable(s.view, e.ids, e.lengths) then
      Some(Packed(s.view, e.ids, e.lengths, zero, Max(e.lengths)))
    else None
  }

  ghost function PoolOf<Id(!new), Cell>(block: BlockKV<Id, Cell>): Pool {
    Pool(block.blockSize, block.capacity, block.maxBytes)
  }

  ghost function StateOf<Id(!new), Cell>(block: BlockKV<Id, Cell>): State<Id, Cell>
    requires block.Valid()
    reads block, block.slabs
  {
    State(block.View(), |block.free|, block.slabs != null)
  }

  // ---- committing ----

  lemma ForwardedFits<Id, Cell>(view: map<Id, seq<Cell>>, e: Event<Id, Cell>, zero: Cell)
    requires e.Forward? && WellFormed(e) && Current(view, e.ids, e.lengths)
    ensures Packable(view, e.ids, e.lengths)
    ensures var packed := Packed(view, e.ids, e.lengths, zero, Max(e.lengths));
      && (packed == [] || |packed| == |e.columns|)
      && Fits(e.ids, e.lengths, e.additions, Forwarded(packed, e.columns), Max(e.lengths), Max(e.additions))
      && Carries(view, e.ids, e.lengths, e.additions, Forwarded(packed, e.columns), Max(e.lengths), Max(e.additions))
  {
    forall i | 0 <= i < |e.ids| && e.lengths[i] > 0 ensures e.ids[i] in view && |view[e.ids[i]]| == e.lengths[i] {
      assert |CellsOf(view, e.ids[i])| == e.lengths[i];
    }
    var past, query := Max(e.lengths), Max(e.additions);
    var packed := Packed(view, e.ids, e.lengths, zero, past);
    var rows := Forwarded(packed, e.columns);
    assert Fits(e.ids, e.lengths, e.additions, rows, past, query);
    ExtendingCarries(view, e.ids, e.lengths, e.additions, rows, past, query, zero);
  }

  /** Both ways of committing a forward pass come to `next`. */
  ghost predicate Agreed<Id, Cell>(view: map<Id, seq<Cell>>, e: Event<Id, Cell>, cache: seq<seq<Cell>>,
      next: map<Id, seq<Cell>>) {
    && e.Forward? && WellFormed(e) && Fits(e.ids, e.lengths, e.additions, cache, Max(e.lengths), Max(e.additions))
    && var past, query := Max(e.lengths), Max(e.additions);
       && next == Put(view, e.ids, Appended(view, e.ids, e.lengths, e.additions, cache, past, query), |e.ids|)
       && next == Put(view, e.ids, Replaced(e.ids, e.lengths, e.additions, cache, past, query), |e.ids|)
  }

  lemma ForwardAgrees<Id, Cell>(view: map<Id, seq<Cell>>, e: Event<Id, Cell>, zero: Cell, packed: seq<seq<Cell>>)
    requires e.Forward? && WellFormed(e) && Current(view, e.ids, e.lengths) && Packable(view, e.ids, e.lengths)
    requires packed == Packed(view, e.ids, e.lengths, zero, Max(e.lengths))
    ensures packed == [] || |packed| == |e.columns|
    ensures Agreed(view, e, Forwarded(packed, e.columns), Put(view, e.ids, Grown(view, e), |e.ids|))
  {
    ForwardedFits(view, e, zero);
    var cache, past, query := Forwarded(packed, e.columns), Max(e.lengths), Max(e.additions);
    CommitsAgree(view, e.ids, e.lengths, e.additions, cache, past, query);
    GrownIsAppended(view, e, packed, past, query);
  }

  lemma ForwardNext<Id, Cell>(view: map<Id, seq<Cell>>, e: Event<Id, Cell>, zero: Cell, packed: seq<seq<Cell>>)
      returns (next: map<Id, seq<Cell>>)
    requires e.Forward? && WellFormed(e) && Current(view, e.ids, e.lengths) && Packable(view, e.ids, e.lengths)
    requires packed == Packed(view, e.ids, e.lengths, zero, Max(e.lengths))
    ensures packed == [] || |packed| == |e.columns|
    ensures Agreed(view, e, Forwarded(packed, e.columns), next) && next == Put(view, e.ids, Grown(view, e), |e.ids|)
  {
    ForwardAgrees(view, e, zero, packed);
    next := Put(view, e.ids, Grown(view, e), |e.ids|);
  }

  /** The new cells do not depend on the packed columns before them. */
  lemma GrownIsAppended<Id, Cell>(view: map<Id, seq<Cell>>, e: Event<Id, Cell>, packed: seq<seq<Cell>>, past: nat,
      query: nat)
    requires e.Forward? && WellFormed(e) && (packed == [] || |packed| == |e.columns|)
    requires Fits(e.ids, e.lengths, e.additions, Forwarded(packed, e.columns), past, query)
    ensures Appended(view, e.ids, e.lengths, e.additions, Forwarded(packed, e.columns), past, query) == Grown(view, e)
  {
    var appended := Appended(view, e.ids, e.lengths, e.additions, Forwarded(packed, e.columns), past, query);
    forall i | 0 <= i < |e.ids| ensures appended[i] == Grown(view, e)[i] {
      FreshFits(e, i);
      FreshOfSuffix(if packed == [] then [] else packed[i], e.columns[i], e.additions[i]);
    }
  }

  /** The last cells of a row are the last cells of its end. */
  lemma FreshOfSuffix<Cell>(front: seq<Cell>, end: seq<Cell>, added: nat)
    requires added <= |end|
    ensures Fresh(front + end, added) == Fresh(end, added)
  {
  }

  method CommitBlocks<Id(==,!new), Cell>(block: BlockKV<Id, Cell>, e: Event<Id, Cell>, cache: seq<seq<Cell>>,
      ghost view: map<Id, seq<Cell>>, ghost next: map<Id, seq<Cell>>) returns (refused: Option<Refusal>)
    requires block.Valid() && block.View() == view && Agreed(view, e, cache, next)
    modifies block, block.slabs
    ensures block.Valid() && refused == RefusalOf(PoolOf(block), old(StateOf(block)), e)
    ensures StateOf(block) ==
      if refused.Some? then old(StateOf(block))
      else State(next, old(|block.free|) - Need(e.lengths, e.additions, block.blockSize, 0), true)
    ensures block.slabs == old(block.slabs) || fresh(block.slabs)
  {
    var copied;
    refused, copied := block.Commit(Cache(e.geometry, e.bytesPerToken, cache), e.ids, e.lengths, e.additions);
  }

  method CommitDense<Id(==,!new), Cell>(dense: DenseKV<Id, Cell>, e: Event<Id, Cell>, cache: seq<seq<Cell>>,
      ghost view: map<Id, seq<Cell>>, ghost next: map<Id, seq<Cell>>)
    requires dense.rows == view && Agreed(view, e, cache, next) && !e.geometry.OtherLayers?
    modifies dense
    ensures dense.rows == next
  {
    var ok, copied := dense.Commit(!e.geometry.OtherLayers?, cache, e.ids, e.lengths, e.additions);
  }

  /** Commits the same forward pass to both stores, unless the block store refuses it. */
  method CommitBoth<Id(==,!new), Cell>(block: BlockKV<Id, Cell>, dense: DenseKV<Id, Cell>, e: Event<Id, Cell>,
      cache: seq<seq<Cell>>, ghost view: map<Id, seq<Cell>>, ghost next: map<Id, seq<Cell>>)
      returns (refused: Option<Refusal>)
    requires block.Valid() && block.View() == dense.rows == view && Agreed(view, e, cache, next)
    modifies block, block.slabs, dense
    ensures block.Valid() && block.View() == dense.rows
    ensures refused == RefusalOf(PoolOf(block), old(StateOf(block)), e)
    ensures StateOf(block) ==
      if refused.Some? then old(StateOf(block))
      else State(next, old(|block.free|) - Need(e.lengths, e.additions, block.blockSize, 0), true)
    ensures block.slabs == old(block.slabs) || fresh(block.slabs)
  {
    refused := CommitBlocks(block, e, cache, view, next);
    if refused.None? { CommitDense(dense, e, cache, view, next); }
  }

  // ---- histories ----

  /** What each store hands out for an event, and why a forward pass is refused. */
  datatype Given<Cell> =
    Given(fromBlocks: Option<seq<seq<Cell>>>, fromRows: Option<seq<seq<Cell>>>, refused: Option<Refusal>)

  /** What an event is given in a state: the same batch by both stores. */
  ghost function Answer<Id, Cell>(pool: Pool, s: State<Id, Cell>, e: Event<Id, Cell>, zero: Cell): Given<Cell>
    requires pool.blockSize > 0 && WellFormed(e)
  {
    Given(Handed(s, e, zero), Handed(s, e, zero), RefusalOf(pool, s, e))
  }

  /** Runs one event on both stores: they stay equal, and do what the abstract machine does. */
  method Step<Id(==,!new), Cell>(block: BlockKV<Id, Cell>, dense: DenseKV<Id, Cell>, e: Event<Id, Cell>)
      returns (given: Given<Cell>)
    requires block.Valid() && WellFormed(e) && block.View() == dense.rows && block.zero == dense.zero
    modifies block, block.slabs, dense
    ensures block.Valid() && block.View() == dense.rows
    ensures StateOf(block) == Next(PoolOf(block), old(StateOf(block)), e)
    ensures given == Answer(PoolOf(block), old(StateOf(block)), e, block.zero)
    ensures block.slabs == old(block.slabs) || fresh(block.slabs)
  {
    if e.Finish? {
      StepFinish(block, dense, e);
      return Given(None, None, None);
    }
    given := StepForward(block, dense, e);
  }

  /** Both stores forget a request. */
  method StepFinish<Id(==,!new), Cell>(block: BlockKV<Id, Cell>, dense: DenseKV<Id, Cell>, e: Event<Id, Cell>)
    requires block.Valid() && e.Finish? && block.View() == dense.rows
    modifies block`rows, block`free, block`releases, dense
    ensures block.Valid() && block.View() == dense.rows
    ensures StateOf(block) == Next(PoolOf(block), old(StateOf(block)), e)
  {
    block.Release(e.id);
    dense.Release(e.id);
  }

  /** Both stores pack the same batch. */
  method PackBoth<Id(==,!new), Cell>(block: BlockKV<Id, Cell>, dense: DenseKV<Id, Cell>, e: Event<Id, Cell>)
      returns (a: Option<seq<seq<Cell>>>, b: Option<seq<seq<Cell>>>)
    requires block.Valid() && e.Forward? && WellFormed(e) && block.View() == dense.rows && block.zero == dense.zero
    ensures a == b == Handed(StateOf(block), e, block.zero)
  {
    var copied, copied';
    a, copied := block.Pack(e.ids, e.lengths);
    b, copied' := dense.Pack(e.ids, e.lengths);
  }

  /** Runs a forward pass on a packed batch and commits it to both stores. */
  method ForwardBoth<Id(==,!new), Cell>(block: BlockKV<Id, Cell>, dense: DenseKV<Id, Cell>, e: Event<Id, Cell>,
      packed: seq<seq<Cell>>) returns (refused: Option<Refusal>)
    requires block.Valid() && e.Forward? && WellFormed(e) && block.View() == dense.rows
    requires Current(dense.rows, e.ids, e.lengths) && Packable(dense.rows, e.ids, e.lengths)
    requires packed == Packed(dense.rows, e.ids, e.lengths, block.zero, Max(e.lengths))
    modifies block, block.slabs, dense
    ensures block.Valid() && block.View() == dense.rows
    ensures refused == RefusalOf(PoolOf(block), old(StateOf(block)), e)
    ensures StateOf(block) == Next(PoolOf(block), old(StateOf(block)), e)
    ensures block.slabs == old(block.slabs) || fresh(block.slabs)
  {
    ghost var view := dense.rows;
    ghost var next := ForwardNext(view, e, block.zero, packed);
    refused := CommitBoth(block, dense, e, Forwarded(packed, e.columns), view, next);
  }

  method StepForward<Id(==,!new), Cell>(block: BlockKV<Id, Cell>, dense: DenseKV<Id, Cell>, e: Event<Id, Cell>)
      returns (given: Given<Cell>)
    requires block.Valid() && e.Forward? && WellFormed(e) && block.View() == dense.rows && block.zero == dense.zero
    modifies block, block.slabs, dense
    ensures block.Valid() && block.View() == dense.rows
    ensures StateOf(block) == Next(PoolOf(block), old(StateOf(block)), e)
    ensures given == Answer(PoolOf(block), old(StateOf(block)), e, block.zero)
    ensures block.slabs == old(block.slabs) || fresh(block.slabs)
  {
    var a, b := PackBoth(block, dense, e);
    var refused := RefuseEarly(block, e);
    if refused.None? {
      ForwardedFits(block.View(), e, block.zero);
      refused := ForwardBoth(block, dense, e, a.value);
    }
    given := Given(a, b, refused);
  }

  /** The check before a forward pass: a refusal is the machine's, and without one the lengths are current. */
  method RefuseEarly<Id(==,!new), Cell>(block: BlockKV<Id, Cell>, e: Event<Id, Cell>) returns (r: Option<Refusal>)
    requires block.Valid() && e.Forward? && WellFormed(e)
    ensures r.Some? ==> r == RefusalOf(PoolOf(block), StateOf(block), e)
    ensures r.None? ==> Current(block.View(), e.ids, e.lengths)
  {
    r := block.Refuse(e.ids, e.lengths, e.additions);
    block.UpToDateIsCurrent(e.ids, e.lengths);
  }

  /** The first `n` events of a history take the abstract machine from state to state, with its answers. */
  ghost predicate Walk<Id, Cell>(pool: Pool, zero: Cell, history: seq<Event<Id, Cell>>, states: seq<State<Id, Cell>>,
      batches: seq<Given<Cell>>, n: nat)
    requires pool.blockSize > 0 && n <= |history| && forall e :: e in history ==> WellFormed(e)
  {
    && |batches| == n && |states| == n + 1
    && forall i :: 0 <= i < n ==>
         states[i + 1] == Next(pool, states[i], history[i]) && batches[i] == Answer(pool, states[i], history[i], zero)
  }

  lemma WalkOn<Id, Cell>(pool: Pool, zero: Cell, history: seq<Event<Id, Cell>>, states: seq<State<Id, Cell>>,
      batches: seq<Given<Cell>>, n: nat, next: State<Id, Cell>, given: Given<Cell>)
    requires pool.blockSize > 0 && n < |history| && forall e :: e in history ==> WellFormed(e)
    requires Walk(pool, zero, history, states, batches, n)
    requires next == Next(pool, states[n], history[n]) && given == Answer(pool, states[n], history[n], zero)
    ensures Walk(pool, zero, history, states + [next], batches + [given], n + 1)
  {
  }

  // ---- the abstract machine in the caller's terms ----

  /** The blocks a call needs are those its requests need one by one, ceilings before and after. */
  lemma {:induction false} NeedGrows(lengths: seq<nat>, additions: seq<nat>, size: nat, length: nat, added: nat, n: nat)
    requires size > 0 && n <= |lengths| == |additions|
    ensures Need([], [], size, 0) == 0
    ensures Need(lengths + [length], additions + [added], size, n)
         == Need(lengths, additions, size, n) + CeilDiv(length + added, size) - CeilDiv(length, size)
    decreases |lengths| - n
  {
    if n < |lengths| {
      NeedGrows(lengths, additions, size, length, added, n + 1);
    } else {
      BlocksForIsCeil(length + added, size);
      BlocksForIsCeil(length, size);
      assert Need(lengths + [length], additions + [added], size, n + 1) == 0;
    }
  }

  /** Each refusal applies exactly when its reason does and none looked for before it. */
  lemma RefusalIs<Id(!new), Cell>(pool: Pool, s: State<Id, Cell>, e: Event<Id, Cell>)
    requires pool.blockSize > 0 && e.Forward? && WellFormed(e) && 0 <= s.free
    ensures var r := RefusalOf(pool, s, e);
      var stale := exists i ::
        0 <= i < |e.ids| && e.lengths[i] != if e.ids[i] in s.view then |s.view[e.ids[i]]| else 0;
      var short := s.free < Need(e.lengths, e.additions, pool.blockSize, 0);
      var costly := !s.reserved && pool.maxBytes < pool.capacity * pool.blockSize * e.bytesPerToken;
      && (r == Some(StaleLength) <==> stale)
      && (r == Some(PoolCapacity) <==> !stale && short)
      && (r == Some(NotDynamicLayers) <==> !stale && !short && e.geometry == OtherLayers)
      && (r == Some(NonUniformGeometry) <==> !stale && !short && e.geometry == Mixed)
      && (r == Some(ByteBudget) <==> !stale && !short && e.geometry == Uniform && costly)
      && (r == None <==> !stale && !short && e.geometry == Uniform && !costly)
  {
    CurrentIs(s.view, e.ids, e.lengths);
  }

  lemma CurrentIs<Id(!new), Cell>(view: map<Id, seq<Cell>>, ids: seq<Id>, lengths: seq<nat>)
    requires |ids| == |lengths|
    ensures Current(view, ids, lengths) <==>
      !exists i :: 0 <= i < |ids| && lengths[i] != if ids[i] in view then |view[ids[i]]| else 0
  {
    forall i | 0 <= i < |ids|
      ensures |CellsOf(view, ids[i])| == if ids[i] in view then |view[ids[i]]| else 0
    {
    }
    if !Current(view, ids, lengths) {
      var i :| 0 <= i < |ids| && |CellsOf(view, ids[i])| != lengths[i];
      assert lengths[i] != if ids[i] in view then |view[ids[i]]| else 0;
    }
  }

  /** A release forgets one request; an admitted forward pass gives each of its requests its last new cells. */
  lemma NextIs<Id(!new), Cell>(pool: Pool, s: State<Id, Cell>, e: Event<Id, Cell>)
    requires pool.blockSize > 0 && WellFormed(e)
    ensures e.Finish? ==>
      Next(pool, s, e).view == s.view - {e.id} && Next(pool, s, e).reserved == s.reserved &&
      Next(pool, s, e).free == s.free + CeilDiv(if e.id in s.view then |s.view[e.id]| else 0, pool.blockSize)
    ensures e.Forward? && RefusalOf(pool, s, e).Some? ==> Next(pool, s, e) == s
    ensures e.Forward? && RefusalOf(pool, s, e).None? ==>
      var next := Next(pool, s, e);
      && next.reserved && next.free == s.free - Need(e.lengths, e.additions, pool.blockSize, 0)
      && (forall i :: 0 <= i < |e.ids| ==>
           e.ids[i] in next.view && e.additions[i] <= |e.columns[i]| && next.view[e.ids[i]]
             == (if e.ids[i] in s.view then s.view[e.ids[i]] else [])
              + e.columns[i][|e.columns[i]| - e.additions[i]..])
      && (forall id :: id !in e.ids ==>
           (id in next.view <==> id in s.view) && (id in s.view ==> next.view[id] == s.view[id]))
  {
    if e.Finish? {
      BlocksForIsCeil(|CellsOf(s.view, e.id)|, pool.blockSize);
    } else if RefusalOf(pool, s, e).None? {
      PutIsPointwise(s.view, e.ids, Grown(s.view, e), |e.ids|);
      assert e.ids[..|e.ids|] == e.ids;
      var next := Next(pool, s, e);
      forall id | id !in e.ids
        ensures (id in next.view <==> id in s.view) && (id in s.view ==> next.view[id] == s.view[id])
      {
        assert CellsOf(next.view, id) == CellsOf(s.view, id);
      }
      forall i | 0 <= i < |e.ids|
        ensures e.ids[i] in next.view && e.additions[i] <= |e.columns[i]| && next.view[e.ids[i]]
          == (if e.ids[i] in s.view then s.view[e.ids[i]] else []) + e.columns[i][|e.columns[i]| - e.additions[i]..]
      {
        FreshFits(e, i);
        assert next.view[e.ids[i]] == Grown(s.view, e)[i];
      }
    }
  }

  /** One row of a batch: zeros, then the stored cells, flush with the right edge. */
  ghost predicate Padded<Cell>(row: seq<Cell>, cells: seq<Cell>, width: nat, zero: Cell) {
    && |row| == width && |cells| <= width
    && (forall j :: 0 <= j < width - |cells| ==> row[j] == zero)
    && (forall j :: width - |cells| <= j < width ==> row[j] == cells[j - (width - |cells|)])
  }

  /** The batch handed out: one row for each request with its stored cells, unless all lengths are zero. */
  lemma HandedIs<Id(!new), Cell>(s: State<Id, Cell>, e: Event<Id, Cell>, zero: Cell)
    requires e.Forward? && WellFormed(e)
    ensures Handed(s, e, zero).Some? <==>
      forall i :: 0 <= i < |e.ids| && e.lengths[i] > 0 ==> e.ids[i] in s.view && |s.view[e.ids[i]]| == e.lengths[i]
    ensures Handed(s, e, zero).Some? && (forall i :: 0 <= i < |e.ids| ==> e.lengths[i] == 0) ==>
      Handed(s, e, zero).value == []
    ensures Handed(s, e, zero).Some? && (exists i :: 0 <= i < |e.ids| && e.lengths[i] > 0) ==>
      && |Handed(s, e, zero).value| == |e.ids|
      && forall i :: 0 <= i < |e.ids| ==>
           (e.lengths[i] > 0 ==> e.ids[i] in s.view) &&
           Padded(Handed(s, e, zero).value[i], if e.lengths[i] == 0 then [] else s.view[e.ids[i]], Max(e.lengths), zero)
  {
    assert Packable(s.view, e.ids, e.lengths) <==>
      forall i :: 0 <= i < |e.ids| && e.lengths[i] > 0 ==> e.ids[i] in s.view && |s.view[e.ids[i]]| == e.lengths[i] by {
      assert forall i :: 0 <= i < |e.ids| ==> (CanPack(s.view, e.ids[i], e.lengths[i]) <==>
        (e.lengths[i] > 0 ==> e.ids[i] in s.view && |s.view[e.ids[i]]| == e.lengths[i]));
    }
    if Handed(s, e, zero).Some? && exists i :: 0 <= i < |e.ids| && e.lengths[i] > 0 {
      forall i | 0 <= i < |e.ids|
        ensures (e.lengths[i] > 0 ==> e.ids[i] in s.view) &&
          Padded(Handed(s, e, zero).value[i], if e.lengths[i] == 0 then [] else s.view[e.ids[i]], Max(e.lengths), zero)
      {
        assert CanPack(s.view, e.ids[i], e.lengths[i]);
        assert Handed(s, e, zero).value[i] == PackedRow(s.view, e.ids[i], e.lengths[i], zero, Max(e.lengths));
      }
    }
  }

  // ---- what a history stores ----

  /** The new cells a forward pass brings for a request. */
  ghost function NewCells<Id(!new), Cell>(e: Event<Id, Cell>, id: Id): seq<Cell>
    requires e.Forward? && WellFormed(e)
  {
    if i :| 0 <= i < |e.ids| && e.ids[i] == id then FreshFits(e, i); Fresh(e.columns[i], e.additions[i]) else []
  }

  lemma NewCellsAt<Id(!new), Cell>(e: Event<Id, Cell>, i: nat)
    requires e.Forward? && WellFormed(e) && i < |e.ids|
    ensures e.additions[i] <= |e.columns[i]| && NewCells(e, e.ids[i]) == Fresh(e.columns[i], e.additions[i])
  {
    FreshFits(e, i);
  }

  /** An admitted forward pass appends its new cells, request by request. */
  lemma NextAppends<Id(!new), Cell>(view: map<Id, seq<Cell>>, e: Event<Id, Cell>, id: Id)
    requires e.Forward? && WellFormed(e)
    ensures CellsOf(Put(view, e.ids, Grown(view, e), |e.ids|), id) == CellsOf(view, id) + NewCells(e, id)
  {
    PutAll(view, e.ids, Grown(view, e), id);
    if id in e.ids {
      var i :| 0 <= i < |e.ids| && e.ids[i] == id;
      NewCellsAt(e, i);
    } else {
      NoNewCells(e, id);
      assert CellsOf(view, id) + [] == CellsOf(view, id);
    }
  }

  lemma NoNewCells<Id(!new), Cell>(e: Event<Id, Cell>, id: Id)
    requires e.Forward? && WellFormed(e) && id !in e.ids
    ensures NewCells(e, id) == []
  {
  }

  /** The new cells of the forward passes of a request that were not refused, in order, since its last release. */
  ghost function Collected<Id(!new), Cell>(pool: Pool, history: seq<Event<Id, Cell>>, states: seq<State<Id, Cell>>,
      id: Id, n: nat): seq<Cell>
    requires pool.blockSize > 0 && n <= |history| && n < |states| && forall e :: e in history ==> WellFormed(e)
  {
    if n == 0 then CellsOf(states[0].view, id)
    else
      var e, before := history[n - 1], Collected(pool, history, states, id, n - 1);
      if e.Finish? then if e.id == id then [] else before
      else if RefusalOf(pool, states[n - 1], e).Some? then before
      else before + NewCells(e, id)
  }

  /** What is stored for a request is what its forward passes brought, whatever the others did. */
  lemma {:induction false} StoredIsCollected<Id(!new), Cell>(pool: Pool, zero: Cell, history: seq<Event<Id, Cell>>,
      states: seq<State<Id, Cell>>, batches: seq<Given<Cell>>, id: Id, n: nat)
    requires pool.blockSize > 0 && n <= |history| && forall e :: e in history ==> WellFormed(e)
    requires Walk(pool, zero, history, states, batches, |history|)
    ensures CellsOf(states[n].view, id) == Collected(pool, history, states, id, n)
    decreases n
  {
    if n > 0 {
      var e := history[n - 1];
      StoredIsCollected(pool, zero, history, states, batches, id, n - 1);
      assert states[n - 1 + 1] == Next(pool, states[n - 1], e);
      if e.Forward? { NextAppends(states[n - 1].view, e, id); }
    }
  }

  /** Over any history both stores walk through the states of the abstract machine and hand out its batches. */
  method Replay<Id(==,!new), Cell>(block: BlockKV<Id, Cell>, dense: DenseKV<Id, Cell>, history: seq<Event<Id, Cell>>)
      returns (batches: seq<Given<Cell>>, ghost states: seq<State<Id, Cell>>)
    requires block.Valid() && block.View() == dense.rows && block.zero == dense.zero
    requires forall e :: e in history ==> WellFormed(e)
    modifies block, block.slabs, dense
    ensures block.Valid() && block.View() == dense.rows
    ensures Walk(PoolOf(block), block.zero, history, states, batches, |history|)
    ensures states[0] == old(StateOf(block)) && states[|history|] == StateOf(block)
  {
    ghost var start, pool := StateOf(block), PoolOf(block);
    batches, states := [], [start];
    for i := 0 to |history|
      invariant block.Valid() && block.View() == dense.rows
      invariant block.slabs == old(block.slabs) || fresh(block.slabs)
      invariant Walk(pool, block.zero, history, states, batches, i) && states[0] == start && states[i] == StateOf(block)
    {
      var given := Step(block, dense, history[i]);
      WalkOn(pool, block.zero, history, states, batches, i, StateOf(block), given);
      batches, states := batches + [given], states + [StateOf(block)];
    }
  }
}
