/** A launch: parse the serialized record, place the buffers, run the kernel, report. */
module Launch {
  import opened Options
  import opened Arithmetic
  import opened Bytes
  import opened Tiling
  import opened Geometry
  import opened Device
  import opened Oracles
  import opened Plans
  import opened AddKernel
  import opened RowSumKernel
  import opened NormKernel

  /** What to run and on which inputs. */
  datatype Kernel =
    | Add(x1: seq<real>, x2: seq<real>)
    | RowSums(x: seq<real>)
    | RmsNorm(x: seq<real>, gamma: Option<seq<real>>, eps: real, reread: bool)

  /**
   * `loaded` counts the elements loaded, by the kernel and when the output is read back; `writes` are
   * the stored addresses in order, `intact` whether the inputs still hold what was placed.
   */
  datatype Report = Report(
    completed: bool, fault: Option<Fault>, mismatches: seq<nat>, output: seq<Cell>, loaded: nat, writes: seq<nat>,
    highWater: nat, leaked: bool, drained: bool, intact: bool)
  {
    /** Elements the kernel itself moved. */
    function Traffic(): int { loaded - |output| + |writes| }
  }

  datatype Outcome = Refused(error: Exception) | TooManyCores | Launched(report: Report)

  function Sentinels(n: nat): (r: seq<Cell>)
    ensures |r| == n && forall i :: 0 <= i < n ==> r[i] == Sentinel
  {
    seq(n, _ => Sentinel)
  }

  /** Only an output without a sentinel, and without any fault, is complete. */
  function Finish(fault: Option<Fault>, mismatches: seq<nat>, output: seq<Cell>, loads: nat, writes: seq<nat>,
      highWater: nat, leaked: bool, drained: bool, intact: bool): (r: Report)
    ensures r.completed ==> r.fault.None? && r.mismatches == [] && Sentinel !in r.output
  {
    var ok := fault.None? && mismatches == [] && Sentinel !in output;
    Report(ok, fault, mismatches, output, loads + |output|, writes, highWater, leaked, drained, intact)
  }

  function Failed(fault: Fault, output: seq<Cell>): Report {
    Finish(Some(fault), [], output, 0, [], 0, false, true, true)
  }

  /** The `n` addresses from `first` on, each once and in order. */
  ghost predicate EachOnce(writes: seq<nat>, first: nat, n: nat) {
    |writes| == n && forall i :: 0 <= i < n ==> writes[i] == first + i
  }

  /** What a good launch reports: the expected output, each element stored once and in order, and `loads` loads. */
  ghost predicate Clean(r: Report, output: seq<Cell>, first: nat, need: nat, loads: nat) {
    && r.fault.None? && r.output == output && EachOnce(r.writes, first, |output|) && r.loaded == loads + |output|
    && r.highWater <= need && !r.leaked && r.drained && r.intact
  }

  lemma CleanCompletes(r: Report, output: seq<Cell>, loads: nat)
    requires r == Finish(r.fault, r.mismatches, output, loads, r.writes, r.highWater, r.leaked, r.drained, r.intact)
    requires r.fault.None? && AllNum(output)
    ensures r.completed <==> r.mismatches == []
  {
  }

  class SimulatedDevice {
    const arith: Arith
    const usable: nat
    const capacity: nat
    const maxCores: nat
    const dtype: DType
    const accumType: DType
    const item: nat := BytesOf(dtype)
    const accum: nat := BytesOf(accumType)

    constructor (arith: Arith, usable: nat, capacity: nat, maxCores: nat, dtype: DType, accumType: DType)
      requires maxCores >= 1
      ensures this.arith == arith && this.usable == usable && this.capacity == capacity
      ensures this.maxCores == maxCores && this.dtype == dtype && this.accumType == accumType
    {
      this.arith, this.usable, this.capacity, this.maxCores := arith, usable, capacity, maxCores;
      this.dtype, this.accumType := dtype, accumType;
    }

    predicate Encodes() { HasEncoding(dtype) }

    function Cells(values: seq<real>): (r: seq<Cell>)
      ensures |r| == |values| && AllNum(r) && forall i :: 0 <= i < |r| ==> r[i] == Num(arith.encode(values[i]))
    {
      seq(|values|, i requires 0 <= i < |values| => Num(arith.encode(values[i])))
    }

    // ---- placing the buffers ----

    /** Places one buffer above the others. */
    method Place(gm: GlobalMemory, values: seq<Cell>) returns (b: Option<Buffer>, fault: Fault)
      requires gm.Valid()
      modifies gm`cursor, gm.cells
      ensures gm.Valid()
      ensures b.Some? <==> (Encodes() || values == []) && old(gm.cursor) + |values| <= gm.cells.Length
      ensures b.None? && old(gm.cursor) + |values| <= gm.cells.Length ==> fault == NoEncoding
      ensures b.Some? ==>
        && b.value == Buffer(old(gm.cursor), |values|) && gm.cursor == old(gm.cursor) + |values|
        && Slice(gm.cells[..], b.value) == values && OnlyIn(old(gm.cells[..]), gm.cells[..], b.value)
    {
      if !Encodes() && values != [] && gm.cursor + |values| <= gm.cells.Length { return None, NoEncoding; }
      ghost var before := gm.cells[..];
      b := gm.Allocate(values);
      fault := OutOfMemory;
      if b.Some? {
        WroteInside(before, gm.cells[..], b.value.offset, values, b.value);
        assert Slice(gm.cells[..], b.value) == values;
      }
    }

    /** Places two inputs and an output of `n` sentinels in an empty memory. */
    method PlaceBoth(gm: GlobalMemory, first: seq<Cell>, second: seq<Cell>, n: nat)
        returns (r: Option<(Buffer, Buffer, Buffer)>, fault: Fault)
      requires gm.Valid() && gm.cursor == 0
      modifies gm`cursor, gm.cells
      ensures gm.Valid()
      ensures !Encodes() && first != [] && |first| <= gm.cells.Length ==> r.None? && fault == NoEncoding
      ensures Encodes() && |first| + |second| + n <= gm.cells.Length ==> r.Some?
      ensures r.Some? ==>
        && |first| + |second| + n <= gm.cells.Length
        && r.value == (Buffer(0, |first|), Buffer(|first|, |second|), Buffer(|first| + |second|, n))
        && Slice(gm.cells[..], r.value.0) == first && Slice(gm.cells[..], r.value.1) == second
        && Slice(gm.cells[..], r.value.2) == Sentinels(n)
    {
      var a, b, y;
      a, fault := Place(gm, first);
      if a.None? { return None, fault; }
      ghost var one := gm.cells[..];
      b, fault := Place(gm, second);
      if b.None? { return None, fault; }
      KeptOnPlacing(one, gm.cells[..], a.value, b.value);
      ghost var two := gm.cells[..];
      y, fault := Place(gm, Sentinels(n));
      if y.None? { return None, fault; }
      KeptOnPlacing(two, gm.cells[..], a.value, y.value);
      KeptOnPlacing(two, gm.cells[..], b.value, y.value);
      r := Some((a.value, b.value, y.value));
    }

    // ---- additions ----

    /** On-chip bytes of an active addition core. */
    function AddNeed(t: TilingData): nat
      requires WellFormed(t)
    {
      3 * (t.tileElems * item) * t.bufferCount
    }

    method LaunchAdd(t: TilingData, n: nat, x1: seq<real>, x2: seq<real>) returns (r: Report)
      requires WellFormed(t) && n == t.rows * t.hidden
      ensures r.intact && r.drained
      ensures r.completed ==> r.fault.None? && r.mismatches == [] && Sentinel !in r.output
      ensures !Encodes() && x1 != [] && |x1| <= capacity ==> r.fault == Some(NoEncoding)
      ensures Encodes() && |x1| + |x2| + n <= capacity ==>
        && (|x1| != |x2| ==> r.fault == Some(BadLengths))
        && (|x1| == |x2| ==> AddResult(t, n, Cells(x1), Cells(x2), |x1| + |x2|, r))
    {
      var gm, job, fault := PlaceAdd(n, x1, x2);
      if job.None? { return Failed(fault, []); }
      if |x1| != |x2| { return Failed(BadLengths, Slice(gm.cells[..], job.value.y)); }
      var ub := new OnChip(usable);
      r := RunAdd(gm, ub, job.value, t, n, Cells(x1), Cells(x2), |x1| + |x2|);
    }

    /** What a launch on placed buffers comes to. */
    ghost predicate AddResult(t: TilingData, n: nat, x1: seq<Cell>, x2: seq<Cell>, first: nat, r: Report)
      requires WellFormed(t) && |x1| == |x2| && AllNum(x1) && AllNum(x2)
    {
      Tiled(t) && |x1| == n && AddNeed(t) <= usable ==>
        if HasRounding(dtype) || n == 0 then
          && Clean(r, AddOracle(arith, x1, x2), first, AddNeed(t), 2 * n)
          && r.mismatches == Mismatched(t, t.blockDim) && (r.completed <==> r.mismatches == [])
        else Unrounded(r, n)
    }

    /** A fresh memory with the buffers of an addition. */
    method PlaceAdd(n: nat, x1: seq<real>, x2: seq<real>)
        returns (gm: GlobalMemory, job: Option<AddJob>, fault: Fault)
      ensures fresh(gm) && fresh(gm.cells) && gm.Valid() && gm.encode == arith.encode && gm.log == []
      ensures gm.loads == 0
      ensures !Encodes() && x1 != [] && |x1| <= capacity ==> job.None? && fault == NoEncoding
      ensures Encodes() && |x1| + |x2| + n <= capacity ==> job.Some?
      ensures job.Some? ==>
        && job.value == AddJob(arith, Buffer(0, |x1|), Buffer(|x1|, |x2|), Buffer(|x1| + |x2|, n))
        && Inside(job.value.y, gm.cells.Length) && job.value.Ready(gm.cells[..])
        && Slice(gm.cells[..], job.value.x1) == Cells(x1) && Slice(gm.cells[..], job.value.x2) == Cells(x2)
        && Slice(gm.cells[..], job.value.y) == Sentinels(n)
    {
      gm := new GlobalMemory(capacity, arith.encode);
      var placed;
      placed, fault := PlaceBoth(gm, Cells(x1), Cells(x2), n);
      job := None;
      if placed.Some? {
        job := Some(AddJob(arith, placed.value.0, placed.value.1, placed.value.2));
      }
    }

    method RunAdd(gm: GlobalMemory, ub: OnChip, job: AddJob, t: TilingData, n: nat, x1: seq<Cell>, x2: seq<Cell>,
        ghost first: nat) returns (r: Report)
      requires WellFormed(t) && gm.Valid() && gm.log == [] && gm.loads == 0
      requires ub.live == [] && ub.highWater == 0 && ub.usable == usable
      requires job.Ready(gm.cells[..]) && job.arith == arith && gm.encode == arith.encode && |x1| == |x2|
      requires Slice(gm.cells[..], job.x1) == x1 && Slice(gm.cells[..], job.x2) == x2
      requires Slice(gm.cells[..], job.y) == Sentinels(n)
      requires first == job.y.offset && n == t.rows * t.hidden == job.y.length
      modifies gm, gm.cells, ub
      ensures r.intact && r.drained
      ensures r.completed ==> r.fault.None? && r.mismatches == [] && Sentinel !in r.output
      ensures AddResult(t, n, x1, x2, first, r)
    {
      ghost var before := gm.cells[..];
      assert x1[..job.Common()] == x1 && x2[..job.Common()] == x2;
      var run := new AddRun(gm, ub, job, t, item, HasRounding(dtype));
      var fault := run.Run(t);
      job.OracleKept(before, gm.cells[..]);
      KeptBelow(before, gm.cells[..], job.x1, job.y);
      KeptBelow(before, gm.cells[..], job.x2, job.y);
      var output := Slice(gm.cells[..], job.y);
      var intact := Slice(gm.cells[..], job.x1) == x1 && Slice(gm.cells[..], job.x2) == x2;
      var drained := AllDrained(run.queues);
      r := Finish(fault, run.mismatches, output, gm.loads, gm.log, ub.highWater, ub.live != [], drained, intact);
      if run.Good(t) && run.CanRound() {
        AddOracleIsNum(arith, x1, x2);
        CleanCompletes(r, output, gm.loads);
      }
    }

    // ---- row sums ----

    /** On-chip bytes of an active row-sum core. */
    function RowNeed(t: TilingData, hidden: nat): nat
      requires WellFormed(t)
    {
      Doubled((if t.tileElems < hidden then t.tileElems else hidden) * item, t.bufferCount) + accum
    }

    method LaunchRowSums(t: TilingData, n: nat, x: seq<real>) returns (r: Report)
      requires WellFormed(t) && n == t.rows * t.hidden
      ensures r.intact && r.drained
      ensures r.completed ==> r.fault.None? && r.mismatches == [] && Sentinel !in r.output
      ensures !Encodes() && x != [] && |x| <= capacity ==> r.fault == Some(NoEncoding)
      ensures Encodes() && |x| + t.rows <= capacity ==>
        if ElementBytes(accumType).None? then r.fault == Some(NoElementType) else RowResult(t, n, Cells(x), |x|, r)
    {
      var gm := new GlobalMemory(capacity, arith.encode);
      var ub := new OnChip(usable);
      var placed, fault := PlaceBoth(gm, Cells(x), [], t.rows);
      if placed.None? { return Failed(fault, []); }
      var (a, _, y) := placed.value;
      if ElementBytes(accumType).None? { return Failed(NoElementType, Slice(gm.cells[..], y)); }
      var job := RowJob(arith, a, y, t.rows, t.hidden);
      r := RunRowSums(gm, ub, job, t, n, Cells(x), |x|);
    }

    /** What a launch on placed buffers comes to. */
    ghost predicate RowResult(t: TilingData, n: nat, x: seq<Cell>, first: nat, r: Report)
      requires WellFormed(t) && n == t.rows * t.hidden && AllNum(x)
    {
      Tiled(t) && t.hidden > 0 && |x| == n && RowNeed(t, t.hidden) <= usable ==>
        if HasRounding(accumType) || t.rows == 0 then
          Clean(r, SumOracle(arith, x, t.rows, t.hidden), first, RowNeed(t, t.hidden), n) && r.completed
        else Unrounded(r, t.rows)
    }

    method RunRowSums(gm: GlobalMemory, ub: OnChip, job: RowJob, t: TilingData, n: nat, x: seq<Cell>, ghost first: nat)
        returns (r: Report)
      requires WellFormed(t) && gm.Valid() && gm.log == [] && gm.loads == 0 && n == t.rows * t.hidden
      requires ub.live == [] && ub.highWater == 0 && ub.usable == usable
      requires job.Ready(gm.cells[..]) && job.arith == arith && gm.encode == arith.encode
      requires Slice(gm.cells[..], job.x) == x && job.rows == t.rows && job.hidden == t.hidden
      requires first == job.y.offset && job.y.length == t.rows && Slice(gm.cells[..], job.y) == Sentinels(t.rows)
      modifies gm, gm.cells, ub
      ensures r.intact && r.drained
      ensures r.completed ==> r.fault.None? && r.mismatches == [] && Sentinel !in r.output
      ensures RowResult(t, n, x, first, r)
    {
      ghost var before := gm.cells[..];
      var run := new RowSumRun(gm, ub, job, t, item, accum, HasRounding(accumType));
      var fault := run.Run(t);
      job.OracleKept(before, gm.cells[..]);
      var output := Slice(gm.cells[..], job.y);
      var intact := Slice(gm.cells[..], job.x) == x;
      r := Finish(fault, [], output, gm.loads, gm.log, ub.highWater, ub.live != [], true, intact);
      if run.Good(t) && run.CanRound() {
        AreaIs(t.rows, t.hidden);
        CleanCompletes(r, output, gm.loads);
      }
    }

    // ---- RMSNorm ----

    /** On-chip bytes of an active RMSNorm core. */
    function NormNeed(t: TilingData, hidden: nat, reread: bool): nat
      requires WellFormed(t)
    {
      var slot := (if t.tileElems < hidden then t.tileElems else hidden) * item;
      Doubled(slot + slot, t.bufferCount) + accum + (if reread then 0 else hidden * item)
    }

    /** The rows whose own loop count differs from the record's: all or none. */
    function NormMismatches(t: TilingData): seq<nat>
      requires WellFormed(t) && t.tileElems > 0
    {
      if BlocksFor(t.hidden, t.tileElems) == t.loopCount then [] else Range(0, t.rows)
    }

    method LaunchNorm(t: TilingData, n: nat, x: seq<real>, gamma: Option<seq<real>>, eps: real, reread: bool)
        returns (r: Report)
      requires WellFormed(t) && n == Area(t.rows, t.hidden)
      ensures r.intact && r.drained
      ensures r.completed ==> r.fault.None? && r.mismatches == [] && Sentinel !in r.output
      ensures !Encodes() && x != [] && |x| <= capacity ==> r.fault == Some(NoEncoding)
      ensures gamma.None? ==> r.fault.Some?
      ensures gamma.Some? && Encodes() && |x| + |gamma.value| + n <= capacity ==>
        NormOutcome(t, n, x, gamma.value, eps, reread, r)
    {
      if gamma.None? {
        var gm, job, fault := PlaceNorm(t, n, x, [], eps);
        return if job.None? then Failed(fault, []) else Failed(NoGamma, Slice(gm.cells[..], job.value.y));
      }
      r := LaunchWeighted(t, n, x, gamma.value, eps, reread);
    }

    /** Mis-sized weights and an accumulator without bytes are faults; otherwise the kernel runs. */
    ghost predicate NormOutcome(t: TilingData, n: nat, x: seq<real>, gamma: seq<real>, eps: real, reread: bool,
        r: Report)
      requires WellFormed(t) && n == Area(t.rows, t.hidden)
    {
      if |gamma| != t.hidden then r.fault == Some(BadLengths)
      else if ElementBytes(accumType).None? then r.fault == Some(NoElementType)
      else NormResult(t, n, Cells(x), Cells(gamma), eps, reread, |x| + t.hidden, r)
    }

    method LaunchWeighted(t: TilingData, n: nat, x: seq<real>, gamma: seq<real>, eps: real, reread: bool)
        returns (r: Report)
      requires WellFormed(t) && n == Area(t.rows, t.hidden)
      ensures r.intact && r.drained
      ensures r.completed ==> r.fault.None? && r.mismatches == [] && Sentinel !in r.output
      ensures !Encodes() && x != [] && |x| <= capacity ==> r.fault == Some(NoEncoding)
      ensures Encodes() && |x| + |gamma| + n <= capacity ==> NormOutcome(t, n, x, gamma, eps, reread, r)
    {
      var gm, job, fault := PlaceNorm(t, n, x, gamma, eps);
      if job.None? { return Failed(fault, []); }
      if |gamma| != t.hidden { return Failed(BadLengths, Slice(gm.cells[..], job.value.y)); }
      if ElementBytes(accumType).None? { return Failed(NoElementType, Slice(gm.cells[..], job.value.y)); }
      var ub := new OnChip(usable);
      r := RunNorm(gm, ub, job.value, t, n, Cells(x), Cells(gamma), eps, reread, |x| + t.hidden);
    }

    /** A fresh memory with the buffers of an RMSNorm launch. */
    method PlaceNorm(t: TilingData, n: nat, x: seq<real>, gamma: seq<real>, eps: real)
        returns (gm: GlobalMemory, job: Option<NormJob>, fault: Fault)
      requires WellFormed(t)
      ensures fresh(gm) && fresh(gm.cells) && gm.Valid() && gm.encode == arith.encode && gm.log == []
      ensures gm.loads == 0
      ensures !Encodes() && x != [] && |x| <= capacity ==> job.None? && fault == NoEncoding
      ensures Encodes() && |x| + |gamma| + n <= capacity ==> job.Some?
      ensures job.Some? ==>
        && job.value.x == Buffer(0, |x|) && job.value.gamma == Buffer(|x|, |gamma|)
        && job.value.y == Buffer(|x| + |gamma|, n) && job.value.arith == arith
        && job.value.rows == t.rows && job.value.hidden == t.hidden && job.value.eps == eps
        && Inside(job.value.y, gm.cells.Length) && job.value.Ready(gm.cells[..])
        && Slice(gm.cells[..], job.value.x) == Cells(x) && Slice(gm.cells[..], job.value.gamma) == Cells(gamma)
        && Slice(gm.cells[..], job.value.y) == Sentinels(n)
    {
      gm := new GlobalMemory(capacity, arith.encode);
      var placed;
      placed, fault := PlaceBoth(gm, Cells(x), Cells(gamma), n);
      job := None;
      if placed.Some? {
        job := Some(NormJob(arith, placed.value.0, placed.value.1, placed.value.2, t.rows, t.hidden, eps));
      }
    }

    /** What a launch on placed buffers comes to. */
    ghost predicate NormResult(t: TilingData, n: nat, x: seq<Cell>, gamma: seq<Cell>, eps: real, reread: bool,
        first: nat, r: Report)
      requires WellFormed(t) && |gamma| == t.hidden && AllNum(x) && AllNum(gamma) && n == Area(t.rows, t.hidden)
    {
      var need := NormNeed(t, t.hidden, reread);
      && (Tiled(t) && t.rows > 0 && 0.0 < eps && need > usable ==> r.fault == Some(Overrun))
      && (Tiled(t) && t.hidden > 0 && 0.0 < eps && need <= usable && |x| == n ==>
            if HasRounding(dtype) || t.rows == 0 then
              && Clean(r, NormOracle(arith, x, gamma, eps, t.rows), first, need, if reread then 3 * n else 2 * n)
              && r.mismatches == NormMismatches(t) && (r.completed <==> r.mismatches == [])
            else Unrounded(r, n))
    }

    method RunNorm(gm: GlobalMemory, ub: OnChip, job: NormJob, t: TilingData, n: nat, x: seq<Cell>, gamma: seq<Cell>,
        ghost eps: real, reread: bool, ghost first: nat) returns (r: Report)
      requires WellFormed(t) && gm.Valid() && gm.log == [] && gm.loads == 0
      requires ub.live == [] && ub.highWater == 0 && ub.usable == usable
      requires job.Ready(gm.cells[..]) && job.arith == arith && gm.encode == arith.encode && eps == job.eps
      requires |gamma| == t.hidden && first == job.y.offset && n == Area(t.rows, t.hidden) == job.y.length
      requires Slice(gm.cells[..], job.x) == x && Slice(gm.cells[..], job.gamma) == gamma
      requires job.rows == t.rows && job.hidden == t.hidden && Slice(gm.cells[..], job.y) == Sentinels(n)
      modifies gm, gm.cells, ub
      ensures r.intact && r.drained
      ensures r.completed ==> r.fault.None? && r.mismatches == [] && Sentinel !in r.output
      ensures NormResult(t, n, x, gamma, eps, reread, first, r)
    {
      ghost var before := gm.cells[..];
      var run := new NormRun(gm, ub, job, t, item, accum, HasRounding(dtype), reread);
      if Tiled(t) && t.rows > 0 { FirstIsBusy(t); }
      var fault := run.Run(t);
      job.Kept(before, gm.cells[..]);
      var output := Slice(gm.cells[..], job.y);
      var intact := Slice(gm.cells[..], job.x) == x && Slice(gm.cells[..], job.gamma) == gamma;
      r := Finish(fault, run.mismatches, output, gm.loads, gm.log, ub.highWater, ub.live != [], true, intact);
      assert run.Need() == NormNeed(t, t.hidden, reread);
      if run.Good(t) && run.CanRound() {
        NormIsNum(arith, x, gamma, job.eps, t.rows);
        CleanCompletes(r, output, gm.loads);
        assert EachOnce(r.writes, first, |output|) && r.mismatches == NormMismatches(t);
      }
    }

    // ---- one launch ----

    /** One launch from serialized bytes. */
    method Launch(payload: seq<Byte>, kernel: Kernel) returns (o: Outcome)
      ensures o.Refused? <==>
        FromBytes(payload).Raise? || (FromBytes(payload).value.blockDim <= maxCores && ElementBytes(dtype).None?)
      ensures o == TooManyCores <==> FromBytes(payload).Ok? && FromBytes(payload).value.blockDim > maxCores
      ensures o.Launched? ==> Judged(FromBytes(payload).value, kernel, o.report)
    {
      var parsed := FromBytes(payload);
      if parsed.Raise? { return Refused(parsed.error); }
      var t := parsed.value;
      if t.blockDim > maxCores { return TooManyCores; }
      if ElementBytes(dtype).None? { return Refused(UsageError); }
      var r := Dispatch(t, kernel);
      o := Launched(r);
    }

    method Dispatch(t: TilingData, kernel: Kernel) returns (r: Report)
      requires WellFormed(t)
      ensures Judged(t, kernel, r)
    {
      match kernel {
        case Add(x1, x2) => r := DispatchAdd(t, x1, x2);
        case RowSums(x) => r := DispatchRowSums(t, x);
        case RmsNorm(x, gamma, eps, reread) => r := DispatchNorm(t, x, gamma, eps, reread);
      }
    }

    method DispatchAdd(t: TilingData, x1: seq<real>, x2: seq<real>) returns (r: Report)
      requires WellFormed(t)
      ensures Judged(t, Add(x1, x2), r)
    {
      BusyIs(t);
      r := LaunchAdd(t, t.rows * t.hidden, x1, x2);
    }

    method DispatchRowSums(t: TilingData, x: seq<real>) returns (r: Report)
      requires WellFormed(t)
      ensures Judged(t, RowSums(x), r)
    {
      BusyIs(t);
      r := LaunchRowSums(t, t.rows * t.hidden, x);
    }

    method DispatchNorm(t: TilingData, x: seq<real>, gamma: Option<seq<real>>, eps: real, reread: bool)
        returns (r: Report)
      requires WellFormed(t)
      ensures Judged(t, RmsNorm(x, gamma, eps, reread), r)
    {
      var n := t.rows * t.hidden;
      AreaIs(t.rows, t.hidden);
      BusyIs(t);
      r := LaunchNorm(t, n, x, gamma, eps, reread);
      NormJudged(t, n, x, gamma, eps, reread, r);
    }

    /** What a launch of RMSNorm comes to is what every launch guarantees. */
    lemma NormJudged(t: TilingData, n: nat, x: seq<real>, gamma: Option<seq<real>>, eps: real, reread: bool, r: Report)
      requires WellFormed(t) && n == Area(t.rows, t.hidden) == t.rows * t.hidden && (Busy(t) <==> n > 0)
      requires r.intact && r.drained && (r.completed ==> r.fault.None? && r.mismatches == [])
      requires !Encodes() && x != [] && |x| <= capacity ==> r.fault == Some(NoEncoding)
      requires gamma.Some? && Encodes() && |x| + |gamma.value| + n <= capacity ==>
        NormOutcome(t, n, x, gamma.value, eps, reread, r)
      ensures Judged(t, RmsNorm(x, gamma, eps, reread), r)
    {
    }

    /**
     * What every launch guarantees: inputs untouched and queues drained; when the record and the
     * inputs suit the device, the right result if the type has a rounding and an unwritten output
     * if not; and a fault for a type without an encoding and for a plan that does not fit.
     */
    ghost predicate Judged(t: TilingData, kernel: Kernel, r: Report)
      requires WellFormed(t)
    {
      && r.intact && r.drained && (r.completed ==> r.fault.None? && r.mismatches == [])
      && (Sizes(t, kernel) && Busy(t) && !Encodes() ==> r.fault == Some(NoEncoding))
      && (Suits(t, kernel) ==>
            if Rounds(kernel) || !Busy(t) then Correct(t, kernel, r) else Unrounded(r, OutputLength(t, kernel)))
      && (Overruns(t, kernel) ==> r.fault == Some(Overrun))
    }

    /** On-chip bytes an active core of a kernel holds. */
    function Need(t: TilingData, kernel: Kernel): nat
      requires WellFormed(t)
    {
      match kernel
      case Add(_, _) => AddNeed(t)
      case RowSums(_) => RowNeed(t, t.hidden)
      case RmsNorm(_, _, _, reread) => NormNeed(t, t.hidden, reread)
    }

    /** Inputs of the record's size, a legal epsilon, and room in global memory. */
    predicate Sizes(t: TilingData, kernel: Kernel)
      requires WellFormed(t)
    {
      var n := t.rows * t.hidden;
      match kernel
      case Add(x1, x2) => |x1| == |x2| == n && n + n + n <= capacity
      case RowSums(x) => t.hidden > 0 && |x| == n && n + t.rows <= capacity
      case RmsNorm(x, gamma, eps, _) =>
        t.hidden > 0 && gamma.Some? && 0.0 < eps && |x| == n && |gamma.value| == t.hidden &&
          n + t.hidden + n <= capacity
    }

    /** The type a kernel rounds its results to has a rounding. */
    predicate Rounds(kernel: Kernel) { HasRounding(if kernel.RowSums? then accumType else dtype) }

    /** The types a kernel needs have whole bytes, and its elements an encoding. */
    predicate Typed(kernel: Kernel) { Encodes() && (kernel.Add? || ElementBytes(accumType).Some?) }

    ghost predicate Suits(t: TilingData, kernel: Kernel)
      requires WellFormed(t)
    {
      Tiled(t) && Sizes(t, kernel) && Typed(kernel) && Need(t, kernel) <= usable
    }

    /** Only the kernel that keeps rows on chip is charged more than the host assumes. */
    ghost predicate Overruns(t: TilingData, kernel: Kernel)
      requires WellFormed(t)
    {
      kernel.RmsNorm? && Tiled(t) && t.rows > 0 && Sizes(t, kernel) && Typed(kernel) && Need(t, kernel) > usable
    }

    /** The result of a kernel as a function of its inputs alone: no cores, tiles, buffers or second read. */
    ghost function Expected(kernel: Kernel, rows: nat, hidden: nat): seq<Cell>
      requires Fitting(kernel, rows, hidden)
    {
      match kernel
      case Add(x1, x2) => AddOracle(arith, Cells(x1), Cells(x2))
      case RowSums(x) => SumOracle(arith, Cells(x), rows, hidden)
      case RmsNorm(x, gamma, eps, _) =>
        AreaIs(rows, hidden);
        NormOracle(arith, Cells(x), Cells(gamma.value), eps, rows)
    }

    /** Inputs whose lengths match the shape. */
    ghost predicate Fitting(kernel: Kernel, rows: nat, hidden: nat) {
      match kernel
      case Add(x1, x2) => |x1| == |x2|
      case RowSums(x) => |x| == rows * hidden
      case RmsNorm(x, gamma, eps, _) => hidden > 0 && gamma.Some? && |x| == rows * hidden && |gamma.value| == hidden
    }

    /** The rows or cores whose loop count is reported to differ from the record's. */
    ghost function Reported(t: TilingData, kernel: Kernel): seq<nat>
      requires WellFormed(t) && t.tileElems > 0
    {
      match kernel
      case Add(_, _) => Mismatched(t, t.blockDim)
      case RowSums(_) => []
      case RmsNorm(_, _, _, _) => NormMismatches(t)
    }

    function FirstOutput(kernel: Kernel): nat {
      match kernel
      case Add(x1, x2) => |x1| + |x2|
      case RowSums(x) => |x|
      case RmsNorm(x, gamma, _, _) => if gamma.None? then |x| else |x| + |gamma.value|
    }

    ghost predicate Correct(t: TilingData, kernel: Kernel, r: Report)
      requires WellFormed(t) && t.tileElems > 0 && Fitting(kernel, t.rows, t.hidden)
    {
      && Clean(r, Expected(kernel, t.rows, t.hidden), FirstOutput(kernel), Need(t, kernel),
           LoadsOf(kernel, t.rows * t.hidden))
      && (r.completed <==> Reported(t, kernel) == [])
    }

    lemma OutputIs(t: TilingData, kernel: Kernel, r: Report)
      requires WellFormed(t) && t.tileElems > 0 && Suits(t, kernel) && Correct(t, kernel, r)
      ensures |r.writes| == |r.output| == OutputLength(t, kernel)
    {
      AreaIs(t.rows, t.hidden);
    }
  }

  /** What a kernel loads for `n` elements: each input once, a row read again once more, and a weight each. */
  function LoadsOf(kernel: Kernel, n: nat): nat {
    match kernel
    case Add(_, _) => 2 * n
    case RowSums(_) => n
    case RmsNorm(_, _, _, reread) => if reread then 3 * n else 2 * n
  }

  function OutputLength(t: TilingData, kernel: Kernel): nat
    requires WellFormed(t)
  {
    if kernel.RowSums? then t.rows else t.rows * t.hidden
  }

  /** There is anything to compute. */
  predicate Busy(t: TilingData) { t.rows > 0 && t.hidden > 0 }

  lemma BusyIs(t: TilingData)
    requires WellFormed(t)
    ensures Busy(t) <==> t.rows * t.hidden > 0
  {
    if Busy(t) { MulMono(1, t.rows, t.hidden); }
  }

  /** The type has no rounding: a fault before anything is stored, with the slots still held. */
  ghost predicate Unrounded(r: Report, n: nat) {
    r.fault == Some(NoRounding) && r.output == Sentinels(n) && r.writes == [] && r.leaked
  }

  predicate AllDrained(queues: seq<Queue<(seq<real>, seq<real>)>>)
    reads queues
  {
    forall q | q in queues :: q.items == []
  }

  lemma {:induction false} NormIsNum(a: Arith, x: seq<Cell>, gamma: seq<Cell>, eps: real, n: nat)
    requires |gamma| > 0 && Area(n, |gamma|) <= |x| && AllNum(x) && AllNum(gamma)
    ensures AllNum(NormOracle(a, x, gamma, eps, n))
    decreases n
  {
    if n > 0 { NormIsNum(a, x, gamma, eps, n - 1); }
  }

  /** Placing a buffer leaves those below it alone. */
  lemma KeptOnPlacing(before: seq<Cell>, after: seq<Cell>, x: Buffer, b: Buffer)
    requires OnlyIn(before, after, b) && x.offset + x.length <= b.offset && Inside(b, |before|)
    ensures Slice(after, x) == Slice(before, x)
  {
    KeptBelow(before, after, x, b);
  }
}

/** Host and device together: what an accepted tiling guarantees once it is launched. */
module HostAndDevice {
  import opened Options
  import opened Arithmetic
  import opened Tiling
  import opened Geometry
  import opened Device
  import opened Oracles
  import opened Plans
  import opened AddKernel
  import opened Launch

  /** The cost model the host should have charged for a kernel. */
  function ModelOf(kernel: Kernel): UbModel {
    match kernel
    case Add(_, _) => ElementwiseModel
    case RowSums(_) => ReduceModel
    case RmsNorm(_, _, _, _) => RmsNormModel
  }

  /** The device has the budget and the element types the request was tiled for. */
  ghost predicate SameMachine(device: SimulatedDevice, q: Request, limits: Limits) {
    limits.budget.Usable() == Ok(device.usable) && device.dtype == q.dtype && device.accumType == q.accum
  }

  /** An accepted request was charged its declared model, and the charge fits. */
  lemma AcceptedCharge(q: Request, limits: Limits, item: nat, accum: nat)
    requires ValidLimits(limits) && ComputeTiling(q, limits).Accepted?
    requires ElementBytes(q.dtype) == Some(item) && ElementBytes(q.accum) == Some(accum)
    ensures EstimateUb(q.model, q.tileElems, item, accum, q.bufferCount, q.keepGamma) ==
      Ok(ComputeTiling(q, limits).estimate)
    ensures limits.budget.Usable().Ok? && ComputeTiling(q, limits).estimate.Total() <= limits.budget.Usable().value
  {
  }

  lemma ThreeSlots(slot: nat, buffers: nat)
    ensures 3 * slot * buffers == slot * 2 * buffers + slot * buffers
  {
  }

  /** The charge of each model covers what its kernel claims. */
  lemma ChargeCovers(device: SimulatedDevice, t: TilingData, kernel: Kernel, keepGamma: bool, e: UbEstimate)
    requires WellFormed(t) && t.tileElems >= 1
    requires EstimateUb(ModelOf(kernel), t.tileElems, device.item, device.accum, t.bufferCount, keepGamma) == Ok(e)
    requires kernel.RmsNorm? ==> kernel.reread
    ensures device.Need(t, kernel) <= e.Total()
  {
    var tile, item, accum := t.tileElems, device.item, device.accum;
    SlotFits(tile, t.hidden, item);
    match kernel
    case Add(_, _) =>
      ThreeSlots(tile * item, t.bufferCount);
    case RowSums(_) =>
    case RmsNorm(_, _, _, _) =>
      MulMono(1, tile, accum);
  }

  /** Rereading the row, a kernel holds no more on chip than the host charged. */
  lemma EstimateCovers(device: SimulatedDevice, q: Request, limits: Limits, kernel: Kernel)
    requires ValidLimits(limits) && ComputeTiling(q, limits).Accepted? && SameMachine(device, q, limits) &&
      q.model == ModelOf(kernel)
    ensures WellFormed(ComputeTiling(q, limits).tiling)
    ensures ComputeTiling(q, limits).estimate.Total() <= device.usable
    ensures (kernel.RmsNorm? ==> kernel.reread) ==>
      device.Need(ComputeTiling(q, limits).tiling, kernel) <= ComputeTiling(q, limits).estimate.Total()
  {
    AcceptedIsTiled(q, limits);
    AcceptedCharge(q, limits, device.item, device.accum);
    if kernel.RmsNorm? ==> kernel.reread {
      ChargeCovers(device, ComputeTiling(q, limits).tiling, kernel, q.keepGamma, ComputeTiling(q, limits).estimate);
    }
  }

  lemma SlotFits(tile: nat, hidden: nat, item: nat)
    ensures (if tile < hidden then tile else hidden) * item <= tile * item
  {
    MulMono(if tile < hidden then tile else hidden, tile, item);
  }

  // ---- loop counts ----

  /**
   * The active cores of a flat tiling agree on the loop count: the work divides evenly, or one row more makes no tile
   * more.
   */
  predicate CoresAgree(rows: nat, hidden: nat, blockDim: nat, tile: nat)
    requires blockDim > 0 && tile > 0
  {
    var base := rows / blockDim;
    rows % blockDim == 0 || base == 0 || CeilDiv(base * hidden, tile) == CeilDiv((base + 1) * hidden, tile)
  }

  /** The cores the device reports for a flat tiling: none, or exactly those without an extra row. */
  lemma {:induction false} MismatchedIs(t: TilingData, n: nat)
    requires Tiled(t) && n <= t.blockDim
    requires t.loopCount == BlocksFor((t.baseRows + (if t.extraRows != 0 then 1 else 0)) * t.hidden, t.tileElems)
    ensures Mismatched(t, n) ==
      if t.extraRows == 0 || t.baseRows == 0 || n <= t.extraRows ||
        BlocksFor(t.baseRows * t.hidden, t.tileElems) == t.loopCount then []
      else Range(t.extraRows, n - t.extraRows)
    decreases n
  {
    if n > 0 {
      MismatchedIs(t, n - 1);
      LoopsDiffer(t, n - 1);
      if t.extraRows < n { RangeStep(t.extraRows, n - 1 - t.extraRows, 1); }
    }
  }

  /** An active core's own loop count differs from the busiest one's exactly without an extra row. */
  lemma LoopsDiffer(t: TilingData, core: nat)
    requires Tiled(t)
    requires t.loopCount == BlocksFor((t.baseRows + (if t.extraRows != 0 then 1 else 0)) * t.hidden, t.tileElems)
    ensures RowsFor(t, core) > 0 && BlocksFor(RowsFor(t, core) * t.hidden, t.tileElems) != t.loopCount <==>
      && t.extraRows > 0 && t.baseRows > 0 && core >= t.extraRows
      && BlocksFor(t.baseRows * t.hidden, t.tileElems) != t.loopCount
  {
  }

  lemma FlatLoopCount(q: Request, limits: Limits)
    requires ValidLimits(limits) && ComputeTiling(q, limits).Accepted?
    ensures var t := ComputeTiling(q, limits).tiling;
      && Tiled(t)
      && t.baseRows == q.rows / q.blockDim && t.extraRows == q.rows % q.blockDim
      && t.loopCount ==
           BlocksFor(if q.rowwise then q.hidden else BusiestRows(q.rows, q.blockDim) * q.hidden, q.tileElems)
  {
    AcceptedIsTiled(q, limits);
    TileLoopIs(if q.rowwise then q.hidden else BusiestRows(q.rows, q.blockDim) * q.hidden, q.tileElems);
  }

  lemma MismatchedExactly(t: TilingData, base: nat)
    requires Tiled(t) && base == t.baseRows
    requires t.loopCount == BlocksFor((base + (if t.extraRows != 0 then 1 else 0)) * t.hidden, t.tileElems)
    ensures Mismatched(t, t.blockDim) == [] <==>
      t.extraRows == 0 || base == 0 ||
        CeilDiv(base * t.hidden, t.tileElems) == CeilDiv((base + 1) * t.hidden, t.tileElems)
  {
    MismatchedIs(t, t.blockDim);
    BlocksForIsCeil(base * t.hidden, t.tileElems);
    BlocksForIsCeil((base + 1) * t.hidden, t.tileElems);
    assert |Range(t.extraRows, t.blockDim - t.extraRows)| > 0;
  }

  /** A flat record is reported by the device as a mismatch exactly when the cores disagree. */
  lemma FlatMismatch(t: TilingData, rows: nat, blockDim: nat)
    requires Tiled(t) && blockDim > 0 && t.baseRows == rows / blockDim && t.extraRows == rows % blockDim
    requires t.loopCount == BlocksFor(BusiestRows(rows, blockDim) * t.hidden, t.tileElems)
    ensures Mismatched(t, t.blockDim) == [] <==> CoresAgree(rows, t.hidden, blockDim, t.tileElems)
  {
    RowsSplit(rows, blockDim, t.baseRows, t.extraRows);
    MismatchedExactly(t, t.baseRows);
  }

  lemma RowsSplit(rows: nat, blockDim: nat, base: nat, extra: nat)
    requires blockDim > 0 && base == rows / blockDim && extra == rows % blockDim
    ensures BusiestRows(rows, blockDim) == base + (if extra != 0 then 1 else 0)
  {
  }

  /** For any record: the active cores all have the record's loop count. */
  lemma {:induction false} MismatchedNone(t: TilingData, n: nat)
    requires Tiled(t) && n <= t.blockDim
    ensures Mismatched(t, n) == [] <==>
      && (n > 0 && t.extraRows > 0 ==> BlocksFor((t.baseRows + 1) * t.hidden, t.tileElems) == t.loopCount)
      && (n > t.extraRows && t.baseRows > 0 ==> BlocksFor(t.baseRows * t.hidden, t.tileElems) == t.loopCount)
    decreases n
  {
    if n > 0 { MismatchedNone(t, n - 1); }
  }

  /** The loop count the host puts into the record. */
  function HostLoops(q: Request): nat
    requires 0 < q.rows && 0 < q.hidden && 0 < q.blockDim && 0 < q.tileElems
  {
    CeilDiv(if q.rowwise then q.hidden else BusiestRows(q.rows, q.blockDim) * q.hidden, q.tileElems)
  }

  /** Every active core of an addition runs as many tiles as the host says. */
  predicate CoresMatch(q: Request)
    requires 0 < q.rows && 0 < q.hidden && 0 < q.blockDim && 0 < q.tileElems
  {
    var base, extra := q.rows / q.blockDim, q.rows % q.blockDim;
    && (extra > 0 ==> CeilDiv((base + 1) * q.hidden, q.tileElems) == HostLoops(q))
    && (base > 0 ==> CeilDiv(base * q.hidden, q.tileElems) == HostLoops(q))
  }

  /** For flat tilings that is the agreement of the cores among themselves. */
  lemma FlatCoresMatch(q: Request)
    requires 0 < q.rows && 0 < q.hidden && 0 < q.blockDim && 0 < q.tileElems && !q.rowwise
    ensures CoresMatch(q) <==> CoresAgree(q.rows, q.hidden, q.blockDim, q.tileElems)
  {
    RowsSplit(q.rows, q.blockDim, q.rows / q.blockDim, q.rows % q.blockDim);
  }

  lemma AddReported(t: TilingData, q: Request)
    requires 0 < q.rows && 0 < q.hidden && 0 < q.blockDim && 0 < q.tileElems && Tiled(t)
    requires t.hidden == q.hidden && t.tileElems == q.tileElems
    requires t.baseRows == q.rows / q.blockDim && t.extraRows == q.rows % q.blockDim && t.loopCount == HostLoops(q)
    ensures Mismatched(t, t.blockDim) == [] <==> CoresMatch(q)
  {
    MismatchedNone(t, t.blockDim);
    BlocksForIsCeil(t.baseRows * t.hidden, t.tileElems);
    BlocksForIsCeil((t.baseRows + 1) * t.hidden, t.tileElems);
  }

  /** What a caller can check before asking the host: the device will not report this request's loop count. */
  predicate LoopCountsAgree(q: Request, kernel: Kernel)
    requires 0 < q.rows && 0 < q.hidden && 0 < q.blockDim && 0 < q.tileElems
  {
    match kernel
    case Add(_, _) => CoresMatch(q)
    case RowSums(_) => true
    case RmsNorm(_, _, _, _) => HostLoops(q) == CeilDiv(q.hidden, q.tileElems)
  }

  /** For an accepted request, flat or row by row, the device reports no loop count exactly when the counts agree. */
  lemma ReportedExactly(device: SimulatedDevice, q: Request, limits: Limits, kernel: Kernel)
    requires ValidLimits(limits) && ComputeTiling(q, limits).Accepted?
    ensures Tiled(ComputeTiling(q, limits).tiling)
    ensures device.Reported(ComputeTiling(q, limits).tiling, kernel) == [] <==> LoopCountsAgree(q, kernel)
  {
    FlatLoopCount(q, limits);
    AcceptedIsTiled(q, limits);
    BlocksForIsCeil(if q.rowwise then q.hidden else BusiestRows(q.rows, q.blockDim) * q.hidden, q.tileElems);
    var t := ComputeTiling(q, limits).tiling;
    match kernel
    case Add(_, _) => AddReported(t, q);
    case RowSums(_) =>
    case RmsNorm(_, _, _, _) =>
      BlocksForIsCeil(t.hidden, t.tileElems);
      assert |Range(0, t.rows)| == t.rows > 0;
  }

  // ---- end to end ----

  /** Inputs of the requested shape, a legal epsilon, and room in global memory. */
  ghost predicate Sized(device: SimulatedDevice, q: Request, kernel: Kernel) {
    var n := q.rows * q.hidden;
    match kernel
    case Add(x1, x2) => |x1| == |x2| == n && n + n + n <= device.capacity
    case RowSums(x) => |x| == n && n + q.rows <= device.capacity
    case RmsNorm(x, gamma, eps, _) =>
      gamma.Some? && 0.0 < eps && |x| == n && |gamma.value| == q.hidden && n + q.hidden + n <= device.capacity
  }

  /** An accepted request on the machine and with the inputs it was tiled for. */
  ghost predicate Launchable(device: SimulatedDevice, q: Request, limits: Limits, kernel: Kernel)
    requires ValidLimits(limits)
  {
    && ComputeTiling(q, limits).Accepted? && SameMachine(device, q, limits) && q.model == ModelOf(kernel)
    && q.blockDim <= device.maxCores && Sized(device, q, kernel)
  }

  /** Bytes a core needs when the row is kept on chip, which the host does not charge. */
  function KeepNeed(q: Request): int {
    var slot := (if q.tileElems < q.hidden then q.tileElems else q.hidden) * BytesOf(q.dtype);
    (if q.bufferCount == 2 then 4 * slot else 2 * slot) + BytesOf(q.accum) + q.hidden * BytesOf(q.dtype)
  }

  /** The plan of the request fits: only a kept row may not. */
  predicate KeepFits(q: Request, kernel: Kernel, usable: nat) {
    kernel.RmsNorm? && !kernel.reread ==> KeepNeed(q) <= usable
  }

  /** The type the kernel rounds its results to. */
  function RoundedTo(q: Request, kernel: Kernel): DType { if kernel.RowSums? then q.accum else q.dtype }

  /** What a caller can check of an accepted request: the device has its types and its plan fits. */
  predicate Runs(q: Request, kernel: Kernel, usable: nat) {
    HasEncoding(q.dtype) && HasRounding(RoundedTo(q, kernel)) && KeepFits(q, kernel, usable)
  }

  /** The published estimate of a kernel's traffic, in elements: weights once if rows are read again, else per row. */
  function Modelled(kernel: Kernel, rows: nat, hidden: nat): nat {
    var n := rows * hidden;
    match kernel
    case Add(_, _) => 3 * n
    case RowSums(_) => n + rows
    case RmsNorm(_, _, _, reread) => if reread then 2 * n + hidden + n else n + hidden * rows + n
  }

  /** What a caller can check: the estimate leaves out weights read again for further rows. */
  predicate TrafficIsModelled(kernel: Kernel, rows: nat) {
    kernel.RmsNorm? && kernel.reread ==> rows == 1
  }

  /** Loads and stores together are as estimated exactly then. */
  lemma TrafficExactly(r: Report, kernel: Kernel, rows: nat, hidden: nat)
    requires rows > 0 && hidden > 0
    requires r.loaded == LoadsOf(kernel, rows * hidden) + |r.output| && |r.writes| == |r.output|
    requires |r.output| == if kernel.RowSums? then rows else rows * hidden
    ensures Moved(r, kernel, rows, hidden)
  {
    if rows > 1 { MulMono(2, rows, hidden); }
  }

  /** The kernel's loads and stores come to the estimate exactly as the request tells. */
  ghost predicate Moved(r: Report, kernel: Kernel, rows: nat, hidden: nat) {
    r.Traffic() == Modelled(kernel, rows, hidden) <==> TrafficIsModelled(kernel, rows)
  }

  /** Element `r` of the output is the sum of row `r`, rounded and encoded. */
  ghost predicate SumAt(a: Arith, x: seq<Cell>, rows: nat, hidden: nat, y: seq<Cell>, r: nat)
    requires |x| == rows * hidden && r < rows && |y| == rows && AllNum(x)
  {
    RowInside(rows, hidden, r);
    y[r] == Num(a.encode(a.roundAcc(Total(ValuesFrom(x, r * hidden, hidden)))))
  }

  /**
   * Column `j` of the row that starts at `base` is its element over the root of the row's mean square plus
   * epsilon, times the weight of the column.
   */
  ghost predicate NormFrom(a: Arith, x: seq<Cell>, gamma: seq<Cell>, eps: real, y: seq<Cell>, base: nat, j: nat)
    requires |y| == |x| && base + |gamma| <= |x| && j < |gamma| && AllNum(x) && AllNum(gamma)
  {
    var h := |gamma|;
    var squares := Total(SquaresFrom(x, base, h));
    y[base + j] == NormCell(a, x[base + j].v, a.rsqrt(squares / (h as real) + eps), gamma[j].v)
  }

  ghost predicate NormAt(a: Arith, x: seq<Cell>, gamma: seq<Cell>, eps: real, rows: nat, y: seq<Cell>, r: nat, j: nat)
    requires |y| == |x| == rows * |gamma| && r < rows && j < |gamma| && AllNum(x) && AllNum(gamma)
  {
    RowInside(rows, |gamma|, r);
    NormFrom(a, x, gamma, eps, y, r * |gamma|, j)
  }

  /** The output cell by cell, on the inputs as memory holds them. */
  ghost predicate Computes(device: SimulatedDevice, kernel: Kernel, rows: nat, hidden: nat, y: seq<Cell>) {
    var a := device.arith;
    match kernel
    case Add(x1, x2) =>
      && |y| == |x1| == |x2| == rows * hidden
      && forall k :: 0 <= k < |y| ==> y[k] == Num(a.encode(a.round(a.encode(x1[k]) + a.encode(x2[k]))))
    case RowSums(x) =>
      && |x| == rows * hidden && |y| == rows
      && forall r: nat :: r < rows ==> SumAt(a, device.Cells(x), rows, hidden, y, r)
    case RmsNorm(x, gamma, eps, _) =>
      && gamma.Some? && |gamma.value| == hidden && |y| == |x| == rows * hidden
      && forall r: nat, j: nat :: r < rows && j < hidden ==>
             NormAt(a, device.Cells(x), device.Cells(gamma.value), eps, rows, y, r, j)
  }

  /** What is expected of a kernel is what its formula says. */
  lemma ExpectedComputes(device: SimulatedDevice, kernel: Kernel, rows: nat, hidden: nat)
    requires device.Fitting(kernel, rows, hidden) && (kernel.Add? ==> |kernel.x1| == rows * hidden)
    ensures Computes(device, kernel, rows, hidden, device.Expected(kernel, rows, hidden))
  {
    match kernel
    case Add(x1, x2) => AddComputes(device, x1, x2, rows, hidden);
    case RowSums(x) => SumComputes(device, x, rows, hidden);
    case RmsNorm(x, gamma, eps, _) => NormComputes(device, x, gamma.value, eps, rows, kernel.reread);
  }

  lemma AddComputes(device: SimulatedDevice, x1: seq<real>, x2: seq<real>, rows: nat, hidden: nat)
    requires |x1| == |x2| == rows * hidden
    ensures Computes(device, Add(x1, x2), rows, hidden, device.Expected(Add(x1, x2), rows, hidden))
  {
    var a, y := device.arith, AddOracle(device.arith, device.Cells(x1), device.Cells(x2));
    forall k | 0 <= k < |y| ensures y[k] == Num(a.encode(a.round(a.encode(x1[k]) + a.encode(x2[k])))) {
      AddOracleAt(a, device.Cells(x1), device.Cells(x2), k);
    }
  }

  lemma SumComputes(device: SimulatedDevice, x: seq<real>, rows: nat, hidden: nat)
    requires |x| == rows * hidden
    ensures Computes(device, RowSums(x), rows, hidden, device.Expected(RowSums(x), rows, hidden))
  {
    var a, cells := device.arith, device.Cells(x);
    var y := SumOracle(a, cells, rows, hidden);
    forall r: nat | r < rows ensures SumAt(a, cells, rows, hidden, y, r) {
      SumOracleAt(a, cells, rows, hidden, r);
    }
  }

  lemma NormComputes(device: SimulatedDevice, x: seq<real>, gamma: seq<real>, eps: real, rows: nat, reread: bool)
    requires |gamma| > 0 && |x| == rows * |gamma|
    ensures var kernel := RmsNorm(x, Some(gamma), eps, reread);
      Computes(device, kernel, rows, |gamma|, device.Expected(kernel, rows, |gamma|))
  {
    AreaIs(rows, |gamma|);
    var a, cells, weights := device.arith, device.Cells(x), device.Cells(gamma);
    var y := NormOracle(a, cells, weights, eps, rows);
    forall r: nat, j: nat | r < rows && j < |gamma| ensures NormAt(a, cells, weights, eps, rows, y, r, j) {
      NormOracleIs(a, cells, weights, eps, rows, r, j);
    }
  }

  lemma NormOracleIs(a: Arith, x: seq<Cell>, gamma: seq<Cell>, eps: real, rows: nat, r: nat, j: nat)
    requires |x| == rows * |gamma| == Area(rows, |gamma|) && AllNum(x) && AllNum(gamma) && r < rows && j < |gamma|
    ensures NormAt(a, x, gamma, eps, rows, NormOracle(a, x, gamma, eps, rows), r, j)
  {
    AreaIs(r, |gamma|);
    NormOracleFrom(a, x, gamma, eps, rows, r, r * |gamma|, j);
  }

  /** How an accepted request fares on the device, case by case. */
  ghost predicate Fares(device: SimulatedDevice, q: Request, kernel: Kernel, total: nat, r: Report)
    requires 0 < q.rows && 0 < q.hidden && 0 < q.blockDim && 0 < q.tileElems
  {
    if !HasEncoding(q.dtype) then r.fault == Some(NoEncoding)
    else if !KeepFits(q, kernel, device.usable) then r.fault == Some(Overrun)
    else if !HasRounding(RoundedTo(q, kernel)) then
      Unrounded(r, if kernel.RowSums? then q.rows else q.rows * q.hidden)
    else
      && device.Fitting(kernel, q.rows, q.hidden)
      && Clean(r, device.Expected(kernel, q.rows, q.hidden), device.FirstOutput(kernel), device.usable,
           LoadsOf(kernel, q.rows * q.hidden))
      && Computes(device, kernel, q.rows, q.hidden, r.output)
      && Moved(r, kernel, q.rows, q.hidden)
      && ((kernel.RmsNorm? ==> kernel.reread) ==> r.highWater <= total)
      && (r.completed <==> LoopCountsAgree(q, kernel))
  }

  /**
   * Tile on the host, serialize, launch. An accepted request with matching inputs runs to the
   * expected output, which depends on neither the partition nor the tiles nor the buffers, within
   * the host's estimate, exactly when its types can be encoded and rounded and a kept row fits;
   * otherwise it faults. It is reported complete exactly when the loop counts agree.
   */
  method TileAndLaunch(device: SimulatedDevice, q: Request, limits: Limits, kernel: Kernel)
      returns (d: Decision, o: Option<Outcome>)
    requires Representable(limits)
    ensures d == ComputeTiling(q, limits) && (o.Some? <==> d.Accepted?)
    ensures Launchable(device, q, limits, kernel) ==>
      && o.value.Launched? && 0 < q.rows && 0 < q.hidden && 0 < q.blockDim && 0 < q.tileElems
      && Fares(device, q, kernel, d.estimate.Total(), o.value.report)
      && (o.value.report.fault.None? <==> Runs(q, kernel, device.usable))
  {
    d := ComputeTiling(q, limits);
    if !d.Accepted? { return d, None; }
    AcceptedIsTiled(q, limits);
    RoundTrip(d.tiling);
    var outcome := device.Launch(ToBytes(d.tiling).value, kernel);
    o := Some(outcome);
    if Launchable(device, q, limits, kernel) {
      AcceptedTypes(q, limits);
      Guaranteed(device, q, limits, kernel, outcome.report);
    }
  }

  /** An accepted request has types of whole bytes. */
  lemma AcceptedTypes(q: Request, limits: Limits)
    requires ValidLimits(limits) && ComputeTiling(q, limits).Accepted?
    ensures ElementBytes(q.dtype).Some? && ElementBytes(q.accum).Some?
  {
  }

  /** What a launch of an accepted request is judged by says how it fares. */
  lemma Guaranteed(device: SimulatedDevice, q: Request, limits: Limits, kernel: Kernel, r: Report)
    requires ValidLimits(limits) && Launchable(device, q, limits, kernel)
    requires WellFormed(ComputeTiling(q, limits).tiling)
    requires device.Judged(ComputeTiling(q, limits).tiling, kernel, r)
    ensures 0 < q.rows && 0 < q.hidden && 0 < q.blockDim && 0 < q.tileElems
    ensures Fares(device, q, kernel, ComputeTiling(q, limits).estimate.Total(), r)
  {
    var t, total := ComputeTiling(q, limits).tiling, ComputeTiling(q, limits).estimate.Total();
    AcceptedIsTiled(q, limits);
    AcceptedTypes(q, limits);
    EstimateCovers(device, q, limits, kernel);
    ReportedExactly(device, q, limits, kernel);
    FaresFrom(device, q, t, total, kernel, r);
  }

  lemma TrafficOf(device: SimulatedDevice, t: TilingData, kernel: Kernel, r: Report)
    requires Tiled(t) && t.rows > 0 && t.hidden > 0
    requires device.Suits(t, kernel) && device.Correct(t, kernel, r)
    ensures Moved(r, kernel, t.rows, t.hidden)
  {
    device.OutputIs(t, kernel, r);
    TrafficExactly(r, kernel, t.rows, t.hidden);
  }

  /** The same for the record alone. */
  lemma FaresFrom(device: SimulatedDevice, q: Request, t: TilingData, total: nat, kernel: Kernel, r: Report)
    requires Tiled(t) && t.rows == q.rows > 0 && t.hidden == q.hidden > 0 && t.tileElems == q.tileElems
    requires t.blockDim == q.blockDim && t.bufferCount == q.bufferCount
    requires device.dtype == q.dtype && device.accumType == q.accum && ElementBytes(q.accum).Some?
    requires Sized(device, q, kernel) && device.Judged(t, kernel, r) && total <= device.usable
    requires (kernel.RmsNorm? ==> kernel.reread) ==> device.Need(t, kernel) <= total
    requires device.Reported(t, kernel) == [] <==> LoopCountsAgree(q, kernel)
    ensures Fares(device, q, kernel, total, r)
  {
    assert device.Sizes(t, kernel) && Busy(t);
    assert device.Rounds(kernel) <==> HasRounding(RoundedTo(q, kernel));
    if kernel.RmsNorm? && !kernel.reread { assert device.Need(t, kernel) == KeepNeed(q); }
    if device.Suits(t, kernel) && device.Rounds(kernel) {
      TrafficOf(device, t, kernel, r);
      ExpectedComputes(device, kernel, t.rows, t.hidden);
    }
  }

  // ---- the gaps between host and device, on concrete requests ----

  /** A device with a two-kilobyte budget. */
  ghost predicate Small(device: SimulatedDevice, dtype: DType, accum: DType) {
    && device.usable == 2048 && device.dtype == dtype && device.accumType == accum && device.maxCores >= 2
    && device.capacity >= 10000
  }

  /** What every launch of a request comes to, whatever record the host made of it. */
  ghost predicate AlwaysFaults(device: SimulatedDevice, q: Request, limits: Limits, kernel: Kernel, fault: Fault)
    requires ValidLimits(limits)
  {
    && Launchable(device, q, limits, kernel) && WellFormed(ComputeTiling(q, limits).tiling)
    && forall r :: device.Judged(ComputeTiling(q, limits).tiling, kernel, r) ==> r.fault == Some(fault)
  }

  lemma Faulting(device: SimulatedDevice, q: Request, limits: Limits, kernel: Kernel, fault: Fault)
    requires ValidLimits(limits) && Launchable(device, q, limits, kernel)
    requires
      if !HasEncoding(q.dtype) then fault == NoEncoding
      else if !KeepFits(q, kernel, device.usable) then fault == Overrun
      else !HasRounding(RoundedTo(q, kernel)) && fault == NoRounding
    ensures AlwaysFaults(device, q, limits, kernel, fault)
  {
    AcceptedIsTiled(q, limits);
    forall r | device.Judged(ComputeTiling(q, limits).tiling, kernel, r) ensures r.fault == Some(fault) {
      Guaranteed(device, q, limits, kernel, r);
    }
  }

  const SMALL_LIMITS := Limits(2, 0, 1, UbBudget(2048, 0, 0, 0, 0))

  /** One element on one core, with a flat tile of one. */
  function OneElement(dtype: DType, accum: DType, model: UbModel): Request {
    Request(1, 1, dtype, 1, 1, true, accum, 1, false, true, 0, model)
  }

  lemma SmallMachine(device: SimulatedDevice, q: Request)
    requires Small(device, q.dtype, q.accum)
    ensures SameMachine(device, q, SMALL_LIMITS)
  {
  }

  lemma SmallLaunchable(device: SimulatedDevice, q: Request, kernel: Kernel)
    requires ComputeTiling(q, SMALL_LIMITS).Accepted? && q.model == ModelOf(kernel) && q.blockDim <= 2
    requires Small(device, q.dtype, q.accum) && Sized(device, q, kernel)
    ensures Launchable(device, q, SMALL_LIMITS, kernel)
  {
    SmallMachine(device, q);
  }

  lemma OneElementAccepted(dtype: DType, accum: DType, model: UbModel)
    requires ElementBytes(dtype).Some? && ElementBytes(accum).Some?
    ensures ComputeTiling(OneElement(dtype, accum, model), SMALL_LIMITS).Accepted?
  {
    NeverTooWide(OneElement(dtype, accum, model), SMALL_LIMITS);
  }

  lemma OneElementFaults(device: SimulatedDevice, q: Request, kernel: Kernel, fault: Fault)
    requires ComputeTiling(q, SMALL_LIMITS).Accepted? && q == OneElement(q.dtype, q.accum, ModelOf(kernel))
    requires Small(device, q.dtype, q.accum) && Sized(device, q, kernel) && !kernel.RmsNorm?
    requires
      if !HasEncoding(q.dtype) then fault == NoEncoding
      else !HasRounding(RoundedTo(q, kernel)) && fault == NoRounding
    ensures AlwaysFaults(device, q, SMALL_LIMITS, kernel, fault)
  {
    SmallLaunchable(device, q, kernel);
    Faulting(device, q, SMALL_LIMITS, kernel, fault);
  }

  /** The host accepts an addition of integers; its launch faults because they cannot be rounded. */
  lemma IntegerAdditionFaults(device: SimulatedDevice, a: real, b: real)
    requires Small(device, INT32, FP32)
    ensures AlwaysFaults(device, OneElement(INT32, FP32, ElementwiseModel), SMALL_LIMITS, Add([a], [b]), NoRounding)
  {
    OneElementAccepted(INT32, FP32, ElementwiseModel);
    OneElementFaults(device, OneElement(INT32, FP32, ElementwiseModel), Add([a], [b]), NoRounding);
  }

  /** The host accepts a row sum in one-byte integers; its launch faults because sums cannot be rounded. */
  lemma IntegerAccumulatorFaults(device: SimulatedDevice, a: real)
    requires Small(device, FP32, INT8)
    ensures AlwaysFaults(device, OneElement(FP32, INT8, ReduceModel), SMALL_LIMITS, RowSums([a]), NoRounding)
  {
    OneElementAccepted(FP32, INT8, ReduceModel);
    OneElementFaults(device, OneElement(FP32, INT8, ReduceModel), RowSums([a]), NoRounding);
  }

  /** The host accepts one-byte elements; the launch faults because memory cannot encode them. */
  lemma ByteElementsFault(device: SimulatedDevice, a: real, b: real)
    requires Small(device, INT8, FP32)
    ensures AlwaysFaults(device, OneElement(INT8, FP32, ElementwiseModel), SMALL_LIMITS, Add([a], [b]), NoEncoding)
  {
    OneElementAccepted(INT8, FP32, ElementwiseModel);
    OneElementFaults(device, OneElement(INT8, FP32, ElementwiseModel), Add([a], [b]), NoEncoding);
  }

  const LONG_ROW := Request(1, 512, FP32, 1, 8, true, FP32, 1, true, true, 0, RmsNormModel)

  lemma LongRowAccepted()
    ensures ComputeTiling(LONG_ROW, SMALL_LIMITS).Accepted? && KeepNeed(LONG_ROW) > 2048
  {
    NeverTooWide(LONG_ROW, SMALL_LIMITS);
  }

  /** One row of 512 kept on chip needs more than the budget it was accepted for, and its launch overruns. */
  lemma KeptRowOverruns(device: SimulatedDevice, kernel: Kernel)
    requires Small(device, FP32, FP32) && kernel.RmsNorm? && !kernel.reread && Sized(device, LONG_ROW, kernel)
    ensures AlwaysFaults(device, LONG_ROW, SMALL_LIMITS, kernel, Overrun)
    ensures device.Need(ComputeTiling(LONG_ROW, SMALL_LIMITS).tiling, kernel) > device.usable
  {
    LongRowAccepted();
    SmallLaunchable(device, LONG_ROW, kernel);
    Faulting(device, LONG_ROW, SMALL_LIMITS, kernel, Overrun);
    KeepNeedIs(device, LONG_ROW, SMALL_LIMITS, kernel);
  }

  /** What a launch that keeps rows needs can be told from the request. */
  lemma KeepNeedIs(device: SimulatedDevice, q: Request, limits: Limits, kernel: Kernel)
    requires ValidLimits(limits) && Launchable(device, q, limits, kernel) && kernel.RmsNorm? && !kernel.reread
    ensures WellFormed(ComputeTiling(q, limits).tiling)
    ensures device.Need(ComputeTiling(q, limits).tiling, kernel) == KeepNeed(q)
  {
    AcceptedIsTiled(q, limits);
  }

  /** Three single-column rows on two cores with one-element tiles, flat, are accepted and reported as a mismatch. */
  lemma FlatMismatchExists(device: SimulatedDevice, x1: seq<real>, x2: seq<real>)
    ensures
      var q := Request(3, 1, FP32, 2, 1, true, FP32, 1, false, true, 0, ElementwiseModel);
      && ComputeTiling(q, SMALL_LIMITS).Accepted? && Tiled(ComputeTiling(q, SMALL_LIMITS).tiling)
      && device.Reported(ComputeTiling(q, SMALL_LIMITS).tiling, Add(x1, x2)) != []
  {
    var q := Request(3, 1, FP32, 2, 1, true, FP32, 1, false, true, 0, ElementwiseModel);
    NeverTooWide(q, SMALL_LIMITS);
    ReportedExactly(device, q, SMALL_LIMITS, Add(x1, x2));
  }
}
