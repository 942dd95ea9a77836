/** The host side of the tiling contract: checked arithmetic, the ABI record and the tiling decision. */
module Tiling {
  import opened Options
  import opened Arithmetic
  import opened Bytes

  const MAX_INDEX32 := 0xFFFF_FFFF
  const SCHEMA_VERSION := 1

  // ---- element types ----

  datatype DType = FP32 | FP16 | BF16 | INT8 | INT32 | INT64 | INT4 | OtherType

  function ElementBytes(t: DType): Option<nat> {
    match t
    case FP32 => Some(4)
    case FP16 => Some(2)
    case BF16 => Some(2)
    case INT8 => Some(1)
    case INT32 => Some(4)
    case INT64 => Some(8)
    case INT4 => None
    case OtherType => None
  }

  function Tag(t: DType): nat
    requires ElementBytes(t).Some?
  {
    match t
    case FP32 => 0
    case FP16 => 1
    case BF16 => 2
    case INT8 => 3
    case INT32 => 4
    case INT64 => 5
  }

  /** The bytes of an element, where the type has whole bytes. */
  function BytesOf(t: DType): nat { if ElementBytes(t).Some? then ElementBytes(t).value else 0 }

  /** Values can be rounded to the floating-point types only. */
  predicate HasRounding(t: DType) { t.FP32? || t.FP16? || t.BF16? }

  /** Device memory encodes elements of two, four and eight bytes only. */
  predicate HasEncoding(t: DType) { BytesOf(t) == 2 || BytesOf(t) == 4 || BytesOf(t) == 8 }

  // ---- checked arithmetic ----

  datatype Exception = UsageError | ArithmeticOverflow | ConfigError | StructError

  datatype Checked<+T> = Ok(value: T) | Raise(error: Exception) {
    predicate IsFailure() { Raise? }
    function PropagateFailure<U>(): Checked<U>
      requires Raise?
    {
      Raise(error)
    }
    function Extract(): T
      requires Ok?
    {
      value
    }
  }

  function CheckedMul(a: int, b: int): (r: Checked<nat>)
    ensures r.Ok? <==> a >= 0 && b >= 0 && a * b <= MAX_INDEX32
  {
    if a < 0 || b < 0 then Raise(UsageError)
    else if a * b > MAX_INDEX32 then Raise(ArithmeticOverflow)
    else Ok(a * b)
  }

  // ---- the ABI record ----

  datatype TilingData = TilingData(
    schemaVersion: int, tilingKey: int, dtypeTag: int, blockDim: int, rows: int, hidden: int,
    tileElems: int, loopCount: int, tailElems: int, bufferCount: int, baseRows: int, extraRows: int,
    totalElements: int, workspaceBytes: int, reserved0: int, reserved1: int)

  const WIDTHS: seq<nat> := [4, 4, 4, 4, 4, 4, 4, 4, 4, 4, 4, 4, 8, 8, 4, 4]

  const STRUCT_SIZE := 72

  function Fields(t: TilingData): (s: seq<int>)
    ensures |s| == 16
  {
    [t.schemaVersion, t.tilingKey, t.dtypeTag, t.blockDim, t.rows, t.hidden, t.tileElems, t.loopCount,
     t.tailElems, t.bufferCount, t.baseRows, t.extraRows, t.totalElements, t.workspaceBytes, t.reserved0, t.reserved1]
  }

  function FromFields(s: seq<int>): TilingData
    requires |s| == 16
  {
    TilingData(s[0], s[1], s[2], s[3], s[4], s[5], s[6], s[7], s[8], s[9], s[10], s[11], s[12], s[13], s[14], s[15])
  }

  /** What constructing the record checks. */
  predicate WellFormed(t: TilingData) {
    && t.schemaVersion == SCHEMA_VERSION
    && 0 <= t.tilingKey <= 4
    && 1 <= t.blockDim
    && (t.bufferCount == 1 || t.bufferCount == 2)
    && 0 <= t.rows && 0 <= t.hidden && 0 <= t.tileElems && 0 <= t.loopCount && 0 <= t.tailElems
    && 0 <= t.baseRows && 0 <= t.extraRows && 0 <= t.totalElements && 0 <= t.workspaceBytes
    && !(t.extraRows >= t.blockDim && t.rows != 0)
    && t.tailElems <= t.tileElems
  }

  /** Serialization; None where a field does not fit its width. */
  function ToBytes(t: TilingData): Option<seq<Byte>> {
    Pack(Fields(t), WIDTHS)
  }

  function FromBytes(payload: seq<Byte>): Checked<TilingData> {
    if |payload| != STRUCT_SIZE then Raise(ConfigError)
    else
      StructSize();
      var t := FromFields(Unpack(payload, WIDTHS));
      if WellFormed(t) then Ok(t) else Raise(ConfigError)
  }

  lemma {:induction false} SizeConcat(a: seq<nat>, b: seq<nat>)
    ensures Size(a + b) == Size(a) + Size(b)
    decreases |a|
  {
    if a == [] {
      assert a + b == b;
    } else {
      assert (a + b)[1..] == a[1..] + b;
      SizeConcat(a[1..], b);
    }
  }

  lemma StructSize()
    ensures Size(WIDTHS) == STRUCT_SIZE
  {
    var four: seq<nat>, eight: seq<nat> := [4, 4], [8, 8];
    assert Size(four) == 8 && Size(eight) == 16 by {
      assert four[1..] == [4] && eight[1..] == [8];
    }
    SizeConcat(four, four);
    SizeConcat(four + four, four);
    SizeConcat(four + four + four, four + four + four);
    SizeConcat(four + four + four + (four + four + four), eight);
    SizeConcat(four + four + four + (four + four + four) + eight, four);
    assert WIDTHS == four + four + four + (four + four + four) + eight + four;
  }

  /** A record that is well formed and fits its fields survives the trip to the device. */
  lemma RoundTrip(t: TilingData)
    requires WellFormed(t) && ToBytes(t).Some?
    ensures |ToBytes(t).value| == STRUCT_SIZE && FromBytes(ToBytes(t).value) == Ok(t)
  {
    StructSize();
    UnpackConcat(Fields(t), WIDTHS);
    assert FromFields(Fields(t)) == t;
  }

  /** Every payload the device accepts is the serialization of the record it parsed. */
  lemma RoundTripBack(payload: seq<Byte>)
    requires FromBytes(payload).Ok?
    ensures ToBytes(FromBytes(payload).value) == Some(payload)
  {
    StructSize();
    ConcatUnpack(payload, WIDTHS);
    FieldsOfRecord(Unpack(payload, WIDTHS));
  }

  lemma FieldsOfRecord(s: seq<int>)
    requires |s| == 16
    ensures Fields(FromFields(s)) == s
  {
  }

  /** Where field `i` starts: twelve fields of four bytes, two of eight, and two more of four. */
  function Offset(i: nat): nat { if i <= 12 then 4 * i else if i == 13 then 56 else 64 + 4 * (i - 14) }

  lemma {:induction false} OffsetIs(i: nat)
    requires i <= 15
    ensures Size(WIDTHS[..i]) == Offset(i) && WIDTHS[i] == if i == 12 || i == 13 then 8 else 4
    decreases i
  {
    if i > 0 {
      OffsetIs(i - 1);
      assert WIDTHS[..i] == WIDTHS[..i - 1] + [WIDTHS[i - 1]];
      SizeConcat(WIDTHS[..i - 1], [WIDTHS[i - 1]]);
      assert [WIDTHS[i - 1]][1..] == [];
    }
  }

  lemma FieldAt(payload: seq<Byte>, i: nat)
    requires |payload| == STRUCT_SIZE == Size(WIDTHS) && i < 16
    ensures var width := if i == 12 || i == 13 then 8 else 4;
      Offset(i) + width <= |payload| && Unpack(payload, WIDTHS)[i] == Value(payload[Offset(i)..Offset(i) + width])
  {
    OffsetIs(i);
    FieldInside(WIDTHS, i);
    UnpackAt(payload, WIDTHS, i, Offset(i), payload[Offset(i)..Offset(i) + WIDTHS[i]]);
  }

  /** Which bytes of a payload are which field, on either side. */
  lemma FieldOrder(payload: seq<Byte>)
    requires FromBytes(payload).Ok?
    ensures |payload| == STRUCT_SIZE && ToBytes(FromBytes(payload).value) == Some(payload)
    ensures var t := FromBytes(payload).value;
      && Value(payload[0..4]) == t.schemaVersion && Value(payload[4..8]) == t.tilingKey
      && Value(payload[8..12]) == t.dtypeTag && Value(payload[12..16]) == t.blockDim
      && Value(payload[16..20]) == t.rows && Value(payload[20..24]) == t.hidden
      && Value(payload[24..28]) == t.tileElems && Value(payload[28..32]) == t.loopCount
      && Value(payload[32..36]) == t.tailElems && Value(payload[36..40]) == t.bufferCount
      && Value(payload[40..44]) == t.baseRows && Value(payload[44..48]) == t.extraRows
      && Value(payload[48..56]) == t.totalElements && Value(payload[56..64]) == t.workspaceBytes
      && Value(payload[64..68]) == t.reserved0 && Value(payload[68..72]) == t.reserved1
  {
    StructSize();
    RoundTripBack(payload);
    forall i: nat | i < 16
      ensures var width := if i == 12 || i == 13 then 8 else 4;
        Offset(i) + width <= |payload| && Unpack(payload, WIDTHS)[i] == Value(payload[Offset(i)..Offset(i) + width])
    {
      FieldAt(payload, i);
    }
    assert Offset(0) == 0 && Offset(1) == 4 && Offset(2) == 8 && Offset(3) == 12 && Offset(4) == 16;
    assert Offset(5) == 20 && Offset(6) == 24 && Offset(7) == 28 && Offset(8) == 32 && Offset(9) == 36;
    assert Offset(10) == 40 && Offset(11) == 44 && Offset(12) == 48 && Offset(13) == 56 && Offset(14) == 64;
  }

  // ---- the on-chip budget ----

  datatype UbBudget = UbBudget(nominal: nat, framework: nat, queue: nat, alignment: nat, implementation: nat) {
    function Usable(): Checked<nat> {
      var usable := nominal - (framework + queue + alignment + implementation);
      if usable <= 0 then Raise(ConfigError) else Ok(usable)
    }
  }

  datatype UbModel = RmsNormModel | ReduceModel | ElementwiseModel

  datatype UbEstimate = UbEstimate(x: nat, gamma: nat, y: nat, square: nat, reduce: nat, scalar: nat, overhead: nat) {
    function Total(): nat { x + gamma + y + square + reduce + scalar + overhead }
  }

  const SCALAR_BYTES := 64
  const ALIGNMENT_BYTES := 512

  /** `tile` elements of `item` bytes in each of `buffers` slots. */
  function Streamed(tile: int, item: nat, buffers: int): Checked<nat> {
    var one :- CheckedMul(tile, item);
    CheckedMul(one, buffers)
  }

  function EstimateUb(model: UbModel, tile: int, item: nat, accum: nat, buffers: int,
      keepGamma: bool): Checked<UbEstimate> {
    match model
    case RmsNormModel =>
      var x :- Streamed(tile, item, buffers);
      var gamma :- if keepGamma then Streamed(tile, item, buffers) else Ok(0);
      var square :- CheckedMul(tile, accum);
      var reduce :- CheckedMul(if tile / 8 > 1 then tile / 8 else 1, accum);
      Ok(UbEstimate(x, gamma, x, square, reduce, SCALAR_BYTES, ALIGNMENT_BYTES))
    case ReduceModel =>
      var x :- Streamed(tile, item, buffers);
      Ok(UbEstimate(x, 0, 0, 0, accum, SCALAR_BYTES, ALIGNMENT_BYTES))
    case ElementwiseModel =>
      var one :- CheckedMul(tile, item);
      var x :- CheckedMul(one * 2, buffers);
      var y :- CheckedMul(one, buffers);
      Ok(UbEstimate(x, 0, y, 0, 0, SCALAR_BYTES, ALIGNMENT_BYTES))
  }

  // ---- the decision ----

  datatype Request = Request(
    rows: int, hidden: int, dtype: DType, blockDim: int, tileElems: int, contiguous: bool, accum: DType,
    bufferCount: int, rowwise: bool, keepGamma: bool, workspaceBytes: int, model: UbModel)

  datatype Limits = Limits(maxBlockDim: int, maxWorkspaceBytes: int, alignmentElems: nat, budget: UbBudget)

  /** What constructing the limits checks. */
  predicate ValidLimits(limits: Limits) {
    1 <= limits.maxBlockDim && 1 <= limits.alignmentElems && 0 < limits.budget.nominal
  }

  datatype Reason = Layout | NegativeDim | UnsupportedDtype | BlockDim | Overflow | Alignment | Workspace | UbExceeded

  datatype Decision =
    | Accepted(tiling: TilingData, estimate: UbEstimate)
    | Rejected(reason: Reason)
    | Raised(error: Exception)

  /** The checks that come before any tiling is computed. */
  function Refusal(q: Request, limits: Limits): Option<Reason>
    requires ValidLimits(limits)
  {
    if !q.contiguous then Some(Layout)
    else if q.rows <= 0 || q.hidden <= 0 then Some(NegativeDim)
    else if ElementBytes(q.dtype).None? || ElementBytes(q.accum).None? then Some(UnsupportedDtype)
    else if q.blockDim < 1 || q.blockDim > limits.maxBlockDim then Some(BlockDim)
    else if CheckedMul(q.rows, q.hidden).Raise? then Some(Overflow)
    else if q.tileElems < 1 || q.tileElems % limits.alignmentElems != 0 then Some(Alignment)
    else if q.workspaceBytes > limits.maxWorkspaceBytes then Some(Workspace)
    else None
  }

  /** Iterations and tail of a tile loop. */
  function TileLoop(length: nat, tile: nat): (r: (nat, nat))
    requires tile > 0
    ensures r.1 < tile
  {
    var tail := length % tile;
    (length / tile + (if tail != 0 then 1 else 0), tail)
  }

  function TilingKey(hidden: nat, alignment: nat, rowwise: bool): nat
    requires alignment > 0
  {
    var aligned := hidden % alignment == 0;
    if rowwise then (if aligned then 3 else 4)
    else if hidden <= alignment && aligned then 0
    else if aligned then 1 else 2
  }

  /** The rows of the busiest core. */
  function BusiestRows(rows: nat, blockDim: nat): nat
    requires blockDim > 0
  {
    rows / blockDim + (if rows % blockDim != 0 then 1 else 0)
  }

  function Record(q: Request, limits: Limits, units: nat): TilingData
    requires ValidLimits(limits) && Refusal(q, limits).None?
  {
    var (loopCount, tail) := TileLoop(units, q.tileElems);
    TilingData(
      SCHEMA_VERSION, TilingKey(q.hidden, limits.alignmentElems, q.rowwise), Tag(q.dtype), q.blockDim, q.rows, q.hidden,
      q.tileElems, loopCount, tail, q.bufferCount, q.rows / q.blockDim, q.rows % q.blockDim,
      q.rows * q.hidden, q.workspaceBytes, 0, 0)
  }

  /** Builds and serializes the record once the estimate is known to fit. */
  function Emit(t: TilingData, estimate: UbEstimate): Decision {
    if !WellFormed(t) then Rejected(Overflow)
    else if ToBytes(t).None? then Raised(StructError)
    else Accepted(t, estimate)
  }

  /** Charges the declared model against the budget. */
  function Charge(q: Request, limits: Limits, item: nat, accum: nat): Checked<Option<UbEstimate>> {
    var estimate :- EstimateUb(q.model, q.tileElems, item, accum, q.bufferCount, q.keepGamma);
    var usable :- limits.budget.Usable();
    Ok(if estimate.Total() > usable then None else Some(estimate))
  }

  function ComputeTiling(q: Request, limits: Limits): Decision
    requires ValidLimits(limits)
  {
    var refusal := Refusal(q, limits);
    if refusal.Some? then Rejected(refusal.value)
    else
      var busiest := CheckedMul(BusiestRows(q.rows, q.blockDim), q.hidden);
      if busiest.Raise? then Raised(busiest.error)
      else
        match Charge(q, limits, ElementBytes(q.dtype).value, ElementBytes(q.accum).value)
        case Raise(error) => Raised(error)
        case Ok(None) => Rejected(UbExceeded)
        case Ok(Some(estimate)) => Emit(Record(q, limits, if q.rowwise then q.hidden else busiest.value), estimate)
  }

  // ---- what a decision guarantees ----

  lemma Widths()
    ensures Pow256(4) == 0x1_0000_0000 && Pow256(8) == 0x1_0000_0000_0000_0000
  {
    assert Pow256(1) == 256 && Pow256(2) == 0x1_0000;
    assert Pow256(3) == 0x100_0000 && Pow256(4) == 0x1_0000_0000;
    assert Pow256(5) == 0x100_0000_0000 && Pow256(6) == 0x1_0000_0000_0000;
    assert Pow256(7) == 0x100_0000_0000_0000;
  }

  lemma FactorsFit(a: nat, b: nat)
    requires a > 0 && b > 0 && a * b <= MAX_INDEX32
    ensures a <= MAX_INDEX32 && b <= MAX_INDEX32
  {
    MulMono(1, a, b);
    MulMono(1, b, a);
  }

  lemma DivAtMost(a: nat, b: nat)
    requires b > 0
    ensures a / b <= a && a % b < b && a / b + (if a % b != 0 then 1 else 0) <= a
  {
    DivFloor(a, b);
    MulMono(1, b, a / b);
    if a % b != 0 && a / b == a {
      MulMono(1, b, a);
    }
  }

  /** No core has more elements than the tensor, so the per-core product never overflows. */
  lemma BusiestFits(rows: nat, hidden: nat, blockDim: nat)
    requires blockDim > 0 && rows * hidden <= MAX_INDEX32
    ensures BusiestRows(rows, blockDim) * hidden <= MAX_INDEX32
  {
    DivAtMost(rows, blockDim);
    MulMono(BusiestRows(rows, blockDim), rows, hidden);
  }

  lemma TileLoopFits(units: nat, tile: nat)
    requires tile > 0
    ensures TileLoop(units, tile).0 <= units
  {
    DivAtMost(units, tile);
  }

  /** A host estimate in range bounds the tile itself. */
  lemma EstimateBoundsTile(model: UbModel, tile: nat, item: nat, accum: nat, buffers: int, keepGamma: bool)
    requires item > 0 && EstimateUb(model, tile, item, accum, buffers, keepGamma).Ok?
    ensures tile * item <= MAX_INDEX32 && tile <= MAX_INDEX32
  {
    MulMono(1, item, tile);
  }

  /** Limits that fit the record's own fields. */
  predicate Representable(limits: Limits) {
    ValidLimits(limits) && limits.maxBlockDim <= MAX_INDEX32 && limits.maxWorkspaceBytes < 0x1_0000_0000_0000_0000
  }

  lemma RecordFits(q: Request, limits: Limits, units: nat)
    requires Representable(limits) && Refusal(q, limits).None?
    requires q.tileElems <= MAX_INDEX32 && units <= MAX_INDEX32 && WellFormed(Record(q, limits, units))
    ensures ToBytes(Record(q, limits, units)).Some?
  {
    FactorsFit(q.rows, q.hidden);
    TileLoopFits(units, q.tileElems);
    DivAtMost(q.rows, q.blockDim);
    FieldsFit(Record(q, limits, units));
  }

  /** With such limits serialization never fails: every accepted record fits its widths. */
  lemma NeverTooWide(q: Request, limits: Limits)
    requires Representable(limits)
    ensures ComputeTiling(q, limits) != Raised(StructError)
  {
    if Refusal(q, limits).None? {
      var busiest := CheckedMul(BusiestRows(q.rows, q.blockDim), q.hidden);
      var charge := Charge(q, limits, ElementBytes(q.dtype).value, ElementBytes(q.accum).value);
      ChargeError(q, limits, ElementBytes(q.dtype).value, ElementBytes(q.accum).value);
      if busiest.Ok? && charge.Ok? {
        var units := if q.rowwise then q.hidden else busiest.value;
        if WellFormed(Record(q, limits, units)) { NeverTooWideRecord(q, limits, units); }
      }
    }
  }

  /** Charging raises before anything is serialized. */
  lemma ChargeError(q: Request, limits: Limits, item: nat, accum: nat)
    ensures Charge(q, limits, item, accum).Raise? ==> Charge(q, limits, item, accum).error != StructError
  {
  }

  lemma NeverTooWideRecord(q: Request, limits: Limits, units: nat)
    requires Representable(limits) && Refusal(q, limits).None?
    requires q.rowwise ==> units == q.hidden
    requires !q.rowwise ==> CheckedMul(BusiestRows(q.rows, q.blockDim), q.hidden) == Ok(units)
    requires Charge(q, limits, ElementBytes(q.dtype).value, ElementBytes(q.accum).value).Ok?
    requires WellFormed(Record(q, limits, units))
    ensures ToBytes(Record(q, limits, units)).Some?
  {
    var item, accum := ElementBytes(q.dtype).value, ElementBytes(q.accum).value;
    assert units <= MAX_INDEX32 by { FactorsFit(q.rows, q.hidden); }
    EstimateBoundsTile(q.model, q.tileElems, item, accum, q.bufferCount, q.keepGamma);
    RecordFits(q, limits, units);
  }

  lemma FieldsFit(t: TilingData)
    requires WellFormed(t) && 0 <= t.dtypeTag <= 5 && t.reserved0 == t.reserved1 == 0
    requires t.blockDim <= MAX_INDEX32 && t.rows <= MAX_INDEX32 && t.hidden <= MAX_INDEX32 && t.tileElems <= MAX_INDEX32
    requires t.loopCount <= MAX_INDEX32 && t.baseRows <= MAX_INDEX32 && t.extraRows <= MAX_INDEX32
    requires t.totalElements <= MAX_INDEX32 && t.workspaceBytes < 0x1_0000_0000_0000_0000
    ensures ToBytes(t).Some?
  {
    Widths();
  }

  /** When charging the declared model raises: a negative buffer count or a product past the index width. */
  predicate EstimateRaises(q: Request, item: nat, accum: nat) {
    var tile, buffers := q.tileElems, q.bufferCount;
    || buffers < 0 || tile * item > MAX_INDEX32
    || (if q.model.ElementwiseModel? then tile * item * 2 * buffers > MAX_INDEX32
         else tile * item * buffers > MAX_INDEX32)
    || (q.model.RmsNormModel? && tile * accum > MAX_INDEX32)
  }

  lemma EstimateRaisesExactly(q: Request, item: nat, accum: nat)
    requires q.tileElems >= 1 && item > 0 && accum > 0
    ensures EstimateUb(q.model, q.tileElems, item, accum, q.bufferCount, q.keepGamma).Raise? <==>
      EstimateRaises(q, item, accum)
  {
    var tile, buffers := q.tileElems, q.bufferCount;
    match q.model
    case RmsNormModel =>
      DivFloor(tile, 8);
      var reduced := if tile / 8 > 1 then tile / 8 else 1;
      MulMono(reduced, tile, accum);
    case ReduceModel =>
    case ElementwiseModel =>
      assert tile * item * 2 * buffers == 2 * (tile * item * buffers);
      if buffers >= 0 { assert tile * item * buffers >= 0; }
  }

  /** A request that passes the checks escapes with an exception exactly when charging it does. */
  lemma RaisedByCharge(q: Request, limits: Limits, item: nat, accum: nat)
    requires Representable(limits) && Refusal(q, limits).None?
    requires ElementBytes(q.dtype) == Some(item) && ElementBytes(q.accum) == Some(accum)
    ensures ComputeTiling(q, limits).Raised? <==> Charge(q, limits, item, accum).Raise?
  {
    NeverTooWide(q, limits);
    BusiestFits(q.rows, q.hidden, q.blockDim);
  }

  /** Charging a request raises exactly when one of its products or the budget does. */
  lemma ChargeRaisesExactly(q: Request, limits: Limits, item: nat, accum: nat)
    requires q.tileElems >= 1 && item > 0 && accum > 0
    ensures Charge(q, limits, item, accum).Raise? <==> EstimateRaises(q, item, accum) || limits.budget.Usable().Raise?
  {
    EstimateRaisesExactly(q, item, accum);
  }

  /** The bytes each model charges. */
  function Charged(q: Request, item: nat, accum: nat): int {
    var slot := q.tileElems * item * q.bufferCount;
    match q.model
    case RmsNormModel =>
      (if q.keepGamma then 3 else 2) * slot + q.tileElems * accum
        + (if q.tileElems < 16 then 1 else q.tileElems / 8) * accum + 64 + 512
    case ReduceModel => slot + accum + 64 + 512
    case ElementwiseModel => 3 * slot + 64 + 512
  }

  lemma ChargedIs(q: Request, item: nat, accum: nat)
    requires EstimateUb(q.model, q.tileElems, item, accum, q.bufferCount, q.keepGamma).Ok? && q.tileElems >= 1
    ensures EstimateUb(q.model, q.tileElems, item, accum, q.bufferCount, q.keepGamma).value.Total() ==
      Charged(q, item, accum)
  {
    var tile, buffers := q.tileElems, q.bufferCount;
    assert tile * item * 2 * buffers == 2 * (tile * item * buffers);
  }

  /** What a caller can check before asking: everything that must hold for a request to be accepted. */
  predicate Admissible(q: Request, limits: Limits) {
    && q.contiguous && 0 < q.rows && 0 < q.hidden && ElementBytes(q.dtype).Some? && ElementBytes(q.accum).Some?
    && 1 <= q.blockDim <= limits.maxBlockDim && q.rows * q.hidden <= MAX_INDEX32
    && 1 <= q.tileElems && limits.alignmentElems > 0 && q.tileElems % limits.alignmentElems == 0
    && 0 <= q.workspaceBytes <= limits.maxWorkspaceBytes && (q.bufferCount == 1 || q.bufferCount == 2)
    && var item, accum := ElementBytes(q.dtype).value, ElementBytes(q.accum).value;
       var budget := limits.budget;
       var usable := budget.nominal - budget.framework - budget.queue - budget.alignment - budget.implementation;
       !EstimateRaises(q, item, accum) && 0 < usable && Charged(q, item, accum) <= usable
  }

  /** A request is accepted exactly when it can be seen to be admissible, and charged exactly what its model says. */
  lemma AcceptedExactly(q: Request, limits: Limits)
    requires Representable(limits)
    ensures ComputeTiling(q, limits).Accepted? <==> Admissible(q, limits)
    ensures ComputeTiling(q, limits).Accepted? ==>
      ComputeTiling(q, limits).estimate.Total() ==
        Charged(q, ElementBytes(q.dtype).value, ElementBytes(q.accum).value)
  {
    if Refusal(q, limits).None? {
      DecidesByCharge(q, limits);
      AdmitsExactly(q, limits, ElementBytes(q.dtype).value, ElementBytes(q.accum).value);
    }
  }

  /** A charge is admitted exactly when nothing raises and the model's bytes fit the budget. */
  lemma AdmitsExactly(q: Request, limits: Limits, item: nat, accum: nat)
    requires q.tileElems >= 1 && item > 0 && accum > 0
    ensures var charge := Charge(q, limits, item, accum);
      && (charge.Ok? && charge.value.Some? <==>
           !EstimateRaises(q, item, accum) && limits.budget.Usable().Ok? &&
           Charged(q, item, accum) <= limits.budget.Usable().value)
      && (charge.Ok? && charge.value.Some? ==> charge.value.value.Total() == Charged(q, item, accum))
  {
    EstimateRaisesExactly(q, item, accum);
    if EstimateUb(q.model, q.tileElems, item, accum, q.bufferCount, q.keepGamma).Ok? { ChargedIs(q, item, accum); }
  }

  /** Past the checks, a request is accepted exactly when its charge is admitted and its record is well formed. */
  lemma DecidesByCharge(q: Request, limits: Limits)
    requires Representable(limits) && Refusal(q, limits).None?
    ensures var charge := Charge(q, limits, ElementBytes(q.dtype).value, ElementBytes(q.accum).value);
      && (ComputeTiling(q, limits).Accepted? <==>
           charge.Ok? && charge.value.Some? && (q.bufferCount == 1 || q.bufferCount == 2) && 0 <= q.workspaceBytes)
      && (ComputeTiling(q, limits).Accepted? ==> ComputeTiling(q, limits).estimate == charge.value.value)
  {
    RaisedByCharge(q, limits, ElementBytes(q.dtype).value, ElementBytes(q.accum).value);
    BusiestFits(q.rows, q.hidden, q.blockDim);
    var units := if q.rowwise then q.hidden else BusiestRows(q.rows, q.blockDim) * q.hidden;
    RecordIsWellFormed(q, limits, units);
  }

  lemma RecordIsWellFormed(q: Request, limits: Limits, units: nat)
    requires ValidLimits(limits) && Refusal(q, limits).None?
    ensures WellFormed(Record(q, limits, units)) <==>
      (q.bufferCount == 1 || q.bufferCount == 2) && 0 <= q.workspaceBytes
  {
    DivAtMost(q.rows, q.blockDim);
  }

  /** The code path a record names. */
  predicate KeyIs(key: int, hidden: int, alignment: nat, rowwise: bool)
    requires alignment > 0
  {
    && (key == 3 <==> rowwise && hidden % alignment == 0) && (key == 4 <==> rowwise && hidden % alignment != 0)
    && (key == 2 <==> !rowwise && hidden % alignment != 0)
    && (key == 1 <==> !rowwise && hidden % alignment == 0 && hidden > alignment)
    && (key == 0 <==> !rowwise && hidden % alignment == 0 && hidden <= alignment)
  }

  /** A record carries the request, its rows over its cores, and the busiest loop. */
  predicate Bears(t: TilingData, q: Request, alignment: nat)
    requires alignment > 0
  {
    && t.schemaVersion == 1 && KeyIs(t.tilingKey, q.hidden, alignment, q.rowwise)
    && ElementBytes(q.dtype).Some? && t.dtypeTag == Tag(q.dtype)
    && t.blockDim == q.blockDim && t.rows == q.rows && t.hidden == q.hidden && t.tileElems == q.tileElems
    && t.bufferCount == q.bufferCount && t.workspaceBytes == q.workspaceBytes && t.totalElements == q.rows * q.hidden
    && q.rows == t.blockDim * t.baseRows + t.extraRows && 0 <= t.extraRows < t.blockDim
    && t.reserved0 == 0 && t.reserved1 == 0 && 0 <= t.tailElems < t.tileElems
    && var units := if q.rowwise then q.hidden else (t.baseRows + (if t.extraRows > 0 then 1 else 0)) * q.hidden;
       units == (t.loopCount - (if t.tailElems > 0 then 1 else 0)) * t.tileElems + t.tailElems
  }

  lemma AcceptedRecord(q: Request, limits: Limits)
    requires ValidLimits(limits) && ComputeTiling(q, limits).Accepted?
    ensures Bears(ComputeTiling(q, limits).tiling, q, limits.alignmentElems)
  {
    AcceptedIsRecord(q, limits);
    RecordBears(q, limits);
  }

  lemma AcceptedIsRecord(q: Request, limits: Limits)
    requires ValidLimits(limits) && ComputeTiling(q, limits).Accepted?
    ensures Refusal(q, limits).None? && ComputeTiling(q, limits).tiling ==
      Record(q, limits, if q.rowwise then q.hidden else BusiestRows(q.rows, q.blockDim) * q.hidden)
  {
  }

  lemma RecordBears(q: Request, limits: Limits)
    requires ValidLimits(limits) && Refusal(q, limits).None?
    ensures
      var units := if q.rowwise then q.hidden else BusiestRows(q.rows, q.blockDim) * q.hidden;
      Bears(Record(q, limits, units), q, limits.alignmentElems)
  {
    var units := if q.rowwise then q.hidden else BusiestRows(q.rows, q.blockDim) * q.hidden;
    DivFloor(q.rows, q.blockDim);
    DivFloor(units, q.tileElems);
  }

  /** Such requests exist: one row, one column, and a tile of 2^31 four-byte elements. */
  lemma RaisesOnAHugeTile(limits: Limits)
    requires ValidLimits(limits) && limits.alignmentElems == 1 && limits.maxWorkspaceBytes >= 0
    ensures ComputeTiling(Request(1, 1, FP32, 1, 0x8000_0000, true, FP32, 1, true, true, 0, RmsNormModel), limits)
         == Raised(ArithmeticOverflow)
  {
  }
}
