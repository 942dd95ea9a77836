/** The post-run verdict: what was decoded against what was scheduled. */
module Verification {
  import opened Options
  import opened Orders
  import opened Schedule

  /** A decoded event; a field that is not an integer is None. */
  datatype Event = Event(run: string, index: Option<int>, producer: Option<int>, timestamp: Option<int>, body: string)

  datatype Receipt = Receipt(index: nat, scheduled: int, code: nat)

  /** `read` brings a body into the form it is compared in; None where that raises. */
  datatype Job = Job(n: nat, runId: string, producerOf: nat -> nat, expected: nat -> string,
      read: string -> Option<string>)

  const WARMUP := "warmup"

  datatype Tally = Tally(valid: set<nat>, previous: map<nat, nat>, warmup: nat, foreign: nat, duplicate: nat,
      corrupt: nat, order: nat)

  const NOTHING := Tally({}, map[], 0, 0, 0, 0, 0)

  /** Not of this run, not attempted, or from the wrong producer. `plan` holds the attempted indices. */
  predicate Foreign(job: Job, plan: map<nat, int>, e: Event) {
    || e.run != job.runId || e.index.None? || e.producer.None? || e.index.value < 0 || e.index.value >= job.n
    || e.index.value !in plan || e.producer.value != job.producerOf(e.index.value)
  }

  /** Counts one event; None where reading its body raises. */
  function Judge(job: Job, plan: map<nat, int>, t: Tally, e: Event): Option<Tally> {
    if e.run == WARMUP then Some(t.(warmup := t.warmup + 1))
    else if Foreign(job, plan, e) then Some(t.(foreign := t.foreign + 1))
    else
      var i, p: nat := e.index.value, job.producerOf(e.index.value);
      if i in t.valid then Some(t.(duplicate := t.duplicate + 1))
      else
        var text := job.read(e.body);
        if text.None? then None
        else if e.timestamp != Some(plan[i]) || text.value != job.expected(i) then Some(t.(corrupt := t.corrupt + 1))
        else
          var late := if p in t.previous && i <= t.previous[p] then 1 else 0;
          Some(t.(order := t.order + late, previous := t.previous[p := i], valid := t.valid + {i}))
  }

  /** The counts over a stream, and whether judging it raised. */
  function Judged(job: Job, plan: map<nat, int>, events: seq<Event>): (Tally, bool) {
    if events == [] then (NOTHING, false)
    else
      var (t, failed) := Judged(job, plan, events[..|events| - 1]);
      if failed then (t, true)
      else
        var next := Judge(job, plan, t, events[|events| - 1]);
        if next.None? then (t, true) else (next.value, false)
  }

  datatype Status = Control | CorrectnessFail | Lossy | Complete

  function StatusOf(job: Job, t: Tally, control: bool, decodeError: bool, workerErrors: bool): Status {
    if control then Control
    else if decodeError || t.corrupt > 0 || t.duplicate > 0 || t.foreign > 0 || t.order > 0 || workerErrors then
      CorrectnessFail
    else if |t.valid| != job.n then Lossy
    else Complete
  }

  // ---- exact delivery, without any counting ----

  /** An event that is not part of the warmup and matches its schedule in every field. */
  ghost predicate Genuine(job: Job, plan: map<nat, int>, e: Event) {
    && !Foreign(job, plan, e)
    && e.timestamp == Some(plan[e.index.value]) && job.read(e.body) == Some(job.expected(e.index.value))
  }

  ghost predicate AllGenuine(job: Job, plan: map<nat, int>, events: seq<Event>) {
    forall k :: 0 <= k < |events| && events[k].run != WARMUP ==> Genuine(job, plan, events[k])
  }

  /** The indices delivered for a producer, in order. */
  ghost function Ids(events: seq<Event>, p: nat): seq<nat> {
    if events == [] then []
    else
      var e := events[|events| - 1];
      Ids(events[..|events| - 1], p)
      + (if e.run != WARMUP && e.producer == Some(p) && e.index.Some? && e.index.value >= 0 then [e.index.value]
        else [])
  }

  ghost predicate AllAscending(events: seq<Event>) { forall p :: Ascending(Ids(events, p)) }

  /** Each producer delivered exactly its scheduled indices, in increasing order, each with the right body and time. */
  ghost predicate Exact(job: Job, plan: map<nat, int>, events: seq<Event>) {
    && AllGenuine(job, plan, events)
    && forall p ::
         && Ascending(Ids(events, p))
         && forall i: nat :: i in Ids(events, p) <==> i < job.n && job.producerOf(i) == p
  }

  // ---- the counts are clean exactly for genuine, ascending streams ----

  predicate Clean(t: Tally) { t.foreign == 0 && t.duplicate == 0 && t.corrupt == 0 && t.order == 0 }

  /** What a clean tally remembers of one producer, whose delivered indices are `ids`. */
  ghost predicate TracksOf(job: Job, t: Tally, ids: seq<nat>, p: nat) {
    && (forall i :: i in ids ==> i in t.valid && job.producerOf(i) == p)
    && (forall i :: i in t.valid && job.producerOf(i) == p ==> i in ids)
    && (if ids == [] then p !in t.previous else p in t.previous && t.previous[p] == ids[|ids| - 1])
  }

  ghost predicate Tracks(job: Job, t: Tally, events: seq<Event>) {
    (forall i :: i in t.valid ==> i < job.n) && forall p :: TracksOf(job, t, Ids(events, p), p)
  }

  lemma IdsAppend(events: seq<Event>, e: Event, p: nat)
    ensures Ids(events + [e], p)
      == Ids(events, p) +
         (if e.run != WARMUP && e.producer == Some(p) && e.index.Some? && e.index.value >= 0 then [e.index.value]
          else [])
  {
    assert (events + [e])[..|events + [e]| - 1] == events;
  }

  lemma JudgedAppend(job: Job, plan: map<nat, int>, events: seq<Event>, e: Event)
    ensures var (t, failed) := Judged(job, plan, events);
      Judged(job, plan, events + [e]) ==
        if failed || Judge(job, plan, t, e).None? then (t, true) else (Judge(job, plan, t, e).value, false)
  {
    assert (events + [e])[..|events + [e]| - 1] == events;
  }

  /** A warmup event changes nothing that is delivered. */
  lemma WarmupStep(job: Job, t: Tally, events: seq<Event>, e: Event)
    requires e.run == WARMUP && Tracks(job, t, events) && AllAscending(events)
    ensures Tracks(job, t.(warmup := t.warmup + 1), events + [e]) && AllAscending(events + [e])
  {
    var t' := t.(warmup := t.warmup + 1);
    forall p ensures Ascending(Ids(events + [e], p)) && TracksOf(job, t', Ids(events + [e], p), p) {
      IdsAppend(events, e, p);
      assert Ascending(Ids(events, p)) && TracksOf(job, t, Ids(events, p), p);
    }
  }

  /** An event that is not genuine spoils the counts. */
  lemma SpoilingStep(job: Job, plan: map<nat, int>, t: Tally, e: Event)
    requires e.run != WARMUP && !Genuine(job, plan, e)
    ensures Judge(job, plan, t, e).None? || !Clean(Judge(job, plan, t, e).value)
  {
  }

  /** A genuine event keeps the counts clean exactly when it comes after its producer's last one. */
  lemma GenuineStep(job: Job, plan: map<nat, int>, t: Tally, ids: seq<nat>, e: Event, i: nat, p: nat)
    requires e.run != WARMUP && Genuine(job, plan, e) && Clean(t) && TracksOf(job, t, ids, p) && Ascending(ids)
    requires e.index == Some(i) && e.producer == Some(p) && p == job.producerOf(i)
    ensures Judge(job, plan, t, e).Some?
    ensures Clean(Judge(job, plan, t, e).value) <==> Ascending(ids + [i])
    ensures Ascending(ids + [i]) ==>
      Judge(job, plan, t, e).value == t.(previous := t.previous[p := i], valid := t.valid + {i})
  {
    AscendingStep(ids, i);
  }

  /** Only one producer's list grows. */
  lemma AscendsIff(events: seq<Event>, e: Event, i: nat, p: nat)
    requires e.run != WARMUP && e.index == Some(i) && e.producer == Some(p) && AllAscending(events)
    ensures AllAscending(events + [e]) <==> Ascending(Ids(events, p) + [i])
  {
    IdsAppend(events, e, p);
    if Ascending(Ids(events, p) + [i]) {
      forall q ensures Ascending(Ids(events + [e], q)) { IdsAppend(events, e, q); }
    } else {
      assert !Ascending(Ids(events + [e], p));
    }
  }

  lemma TracksStep(job: Job, t: Tally, events: seq<Event>, e: Event, i: nat, p: nat)
    requires e.run != WARMUP && e.index == Some(i) && e.producer == Some(p) && p == job.producerOf(i) && i < job.n &&
      Tracks(job, t, events)
    ensures Tracks(job, t.(previous := t.previous[p := i], valid := t.valid + {i}), events + [e])
  {
    var t' := t.(previous := t.previous[p := i], valid := t.valid + {i});
    forall q ensures TracksOf(job, t', Ids(events + [e], q), q) {
      IdsAppend(events, e, q);
      assert TracksOf(job, t, Ids(events, q), q);
      if q == p { GrownTracks(job, t, Ids(events, p), i, p); }
    }
  }

  lemma GrownTracks(job: Job, t: Tally, ids: seq<nat>, i: nat, p: nat)
    requires TracksOf(job, t, ids, p) && job.producerOf(i) == p
    ensures TracksOf(job, t.(previous := t.previous[p := i], valid := t.valid + {i}), ids + [i], p)
  {
    assert forall j :: j in ids + [i] <==> j in ids || j == i;
  }

  lemma Spoiled(job: Job, plan: map<nat, int>, t: Tally, e: Event)
    requires !Clean(t)
    ensures Judge(job, plan, t, e).Some? ==> !Clean(Judge(job, plan, t, e).value)
  {
  }

  ghost predicate CleanRun(job: Job, plan: map<nat, int>, events: seq<Event>) {
    !Judged(job, plan, events).1 && Clean(Judged(job, plan, events).0)
  }

  lemma GenuineIff(job: Job, plan: map<nat, int>, t: Tally, events: seq<Event>, e: Event)
    requires e.run != WARMUP && Genuine(job, plan, e) && Clean(t) && AllAscending(events) && Tracks(job, t, events)
    ensures Judge(job, plan, t, e).Some?
    ensures Clean(Judge(job, plan, t, e).value) <==> AllAscending(events + [e])
    ensures AllAscending(events + [e]) ==> Tracks(job, Judge(job, plan, t, e).value, events + [e])
  {
    var i, p := e.index.value, e.producer.value;
    assert TracksOf(job, t, Ids(events, p), p);
    GenuineStep(job, plan, t, Ids(events, p), e, i, p);
    AscendsIff(events, e, i, p);
    TracksStep(job, t, events, e, i, p);
  }

  lemma JudgeIff(job: Job, plan: map<nat, int>, t: Tally, events: seq<Event>, e: Event)
    requires Clean(t) && AllAscending(events) && Tracks(job, t, events)
    ensures var judged := Judge(job, plan, t, e);
      && (judged.Some? && Clean(judged.value) <==>
            (e.run == WARMUP || Genuine(job, plan, e)) && AllAscending(events + [e]))
      && (judged.Some? && Clean(judged.value) ==> Tracks(job, judged.value, events + [e]))
  {
    if e.run == WARMUP {
      WarmupStep(job, t, events, e);
    } else if Genuine(job, plan, e) {
      GenuineIff(job, plan, t, events, e);
    } else {
      SpoilingStep(job, plan, t, e);
    }
  }

  lemma StepIff(job: Job, plan: map<nat, int>, events: seq<Event>, e: Event)
    requires CleanRun(job, plan, events) && AllAscending(events) && Tracks(job, Judged(job, plan, events).0, events)
    ensures CleanRun(job, plan, events + [e]) <==>
      (e.run == WARMUP || Genuine(job, plan, e)) && AllAscending(events + [e])
    ensures CleanRun(job, plan, events + [e]) ==> Tracks(job, Judged(job, plan, events + [e]).0, events + [e])
  {
    JudgedAppend(job, plan, events, e);
    JudgeIff(job, plan, Judged(job, plan, events).0, events, e);
  }

  /** The counts of a stream stay clean exactly when all its events are genuine and each producer's ascend. */
  lemma {:induction false} CleanIff(job: Job, plan: map<nat, int>, events: seq<Event>)
    ensures CleanRun(job, plan, events) <==> AllGenuine(job, plan, events) && AllAscending(events)
    ensures CleanRun(job, plan, events) ==> Tracks(job, Judged(job, plan, events).0, events)
    decreases |events|
  {
    if events != [] {
      var init, e := events[..|events| - 1], events[|events| - 1];
      assert events == init + [e];
      CleanIff(job, plan, init);
      GenuineAppend(job, plan, init, e);
      if CleanRun(job, plan, init) {
        StepIff(job, plan, init, e);
      } else {
        JudgedAppend(job, plan, init, e);
        if !Clean(Judged(job, plan, init).0) { Spoiled(job, plan, Judged(job, plan, init).0, e); }
        AscendingAll(init, e);
      }
    }
  }

  lemma GenuineAppend(job: Job, plan: map<nat, int>, events: seq<Event>, e: Event)
    ensures AllGenuine(job, plan, events + [e]) <==>
      AllGenuine(job, plan, events) && (e.run == WARMUP || Genuine(job, plan, e))
  {
    if AllGenuine(job, plan, events + [e]) {
      forall k | 0 <= k < |events| && events[k].run != WARMUP ensures Genuine(job, plan, events[k]) {
        assert (events + [e])[k] == events[k];
      }
      assert (events + [e])[|events|] == e;
    }
  }

  lemma AscendingAll(events: seq<Event>, e: Event)
    ensures AllAscending(events + [e]) ==> AllAscending(events)
  {
    if AllAscending(events + [e]) {
      forall p ensures Ascending(Ids(events, p)) {
        IdsAppend(events, e, p);
        assert Ascending(Ids(events + [e], p));
        if Ids(events + [e], p) != Ids(events, p) { AscendingPrefix(Ids(events, p), e.index.value); }
      }
    }
  }

  // ---- the verdict ----

  ghost function Below(n: nat): set<nat> { if n == 0 then {} else Below(n - 1) + {n - 1} }

  lemma {:induction false} BelowIs(n: nat)
    ensures |Below(n)| == n && forall i: nat :: i in Below(n) <==> i < n
    decreases n
  {
    if n > 0 { BelowIs(n - 1); }
  }

  lemma FullSet(s: set<nat>, n: nat)
    requires forall i :: i in s ==> i < n
    ensures |s| == n <==> forall i: nat :: i < n ==> i in s
  {
    BelowIs(n);
    Within(s, Below(n));
    if forall i: nat :: i < n ==> i in s { assert s == Below(n); }
  }

  lemma {:induction false} Within(s: set<nat>, all: set<nat>)
    requires s <= all
    ensures |s| <= |all| && (|s| == |all| ==> s == all)
    decreases |s|
  {
    if s != {} {
      var x :| x in s;
      Within(s - {x}, all - {x});
      assert s == (s - {x}) + {x} && all == (all - {x}) + {x};
    }
  }

  /**
   * A verdict of complete means exact delivery, and exact delivery without decode or worker
   * errors is always reported as complete.
   */
  lemma CompleteIff(job: Job, plan: map<nat, int>, events: seq<Event>, control: bool, streamError: bool,
      workerErrors: bool)
    ensures var (t, failed) := Judged(job, plan, events);
      StatusOf(job, t, control, streamError || failed, workerErrors) == Complete <==>
      !control && !streamError && !workerErrors && Exact(job, plan, events)
  {
    CleanIff(job, plan, events);
    var (t, failed) := Judged(job, plan, events);
    if CleanRun(job, plan, events) {
      FullSet(t.valid, job.n);
      ExactIff(job, plan, t, events);
    }
  }

  lemma ExactIff(job: Job, plan: map<nat, int>, t: Tally, events: seq<Event>)
    requires AllGenuine(job, plan, events) && AllAscending(events) && Tracks(job, t, events)
    ensures Exact(job, plan, events) <==> forall i: nat :: i < job.n ==> i in t.valid
  {
    if Exact(job, plan, events) {
      forall i: nat | i < job.n ensures i in t.valid {
        assert TracksOf(job, t, Ids(events, job.producerOf(i)), job.producerOf(i));
        assert i in Ids(events, job.producerOf(i));
      }
    } else if forall i: nat :: i < job.n ==> i in t.valid {
      forall p, i: nat ensures i in Ids(events, p) <==> i < job.n && job.producerOf(i) == p {
        assert TracksOf(job, t, Ids(events, p), p);
      }
    }
  }

  // ---- every event is counted once ----

  ghost function Real(events: seq<Event>): nat {
    if events == [] then 0 else Real(events[..|events| - 1]) + (if events[|events| - 1].run != WARMUP then 1 else 0)
  }

  /** Unless judging raised, every event outside the warmup is counted once: foreign, duplicate, corrupt or valid. */
  lemma {:induction false} CountedOnce(job: Job, plan: map<nat, int>, events: seq<Event>)
    ensures var (t, failed) := Judged(job, plan, events);
      && (!failed ==>
            Real(events) == t.foreign + t.duplicate + t.corrupt + |t.valid| && t.warmup == |events| - Real(events))
      && forall i :: i in t.valid ==> i < job.n && i in plan
    decreases |events|
  {
    if events != [] {
      CountedOnce(job, plan, events[..|events| - 1]);
    }
  }

  // ---- what every event is counted under ----

  /** Of the warmup; not one of this run's attempted events; one more of an index already valid; wrong; or valid. */
  datatype Verdict = Warm | Stray | Repeated | Wrong | Good

  /** An event of this run, from the producer of one of its attempted indices. */
  ghost predicate Known(job: Job, plan: map<nat, int>, e: Event) {
    && e.run == job.runId && e.index.Some? && 0 <= e.index.value < job.n && e.index.value in plan
    && e.producer == Some(job.producerOf(e.index.value))
  }

  /** Its time is the scheduled one and its body reads as expected. */
  ghost predicate Right(job: Job, plan: map<nat, int>, e: Event)
    requires Known(job, plan, e)
  {
    e.timestamp == Some(plan[e.index.value]) && job.read(e.body) == Some(job.expected(e.index.value))
  }

  /** The first right event of an index is valid, and every event of that index after it is repeated. */
  ghost predicate SeenBefore(job: Job, plan: map<nat, int>, events: seq<Event>, k: nat, i: int)
    requires k <= |events|
  {
    exists j :: 0 <= j < k && events[j].run != WARMUP && Known(job, plan, events[j]) && Right(job, plan, events[j]) &&
      events[j].index == Some(i)
  }

  ghost function VerdictOn(job: Job, plan: map<nat, int>, events: seq<Event>, k: nat): Verdict
    requires k < |events|
  {
    var e := events[k];
    if e.run == WARMUP then Warm
    else if !Known(job, plan, e) then Stray
    else if SeenBefore(job, plan, events, k, e.index.value) then Repeated
    else if Right(job, plan, e) then Good
    else Wrong
  }

  /** The positions whose events come to a verdict. */
  ghost function With(job: Job, plan: map<nat, int>, events: seq<Event>, v: Verdict): set<nat> {
    set k: nat | k < |events| && VerdictOn(job, plan, events, k) == v
  }

  /** The counts are the numbers of such events, and the valid indices those of the good ones. */
  ghost predicate Counts(job: Job, plan: map<nat, int>, events: seq<Event>, t: Tally) {
    && t.warmup == |With(job, plan, events, Warm)| && t.foreign == |With(job, plan, events, Stray)|
    && t.duplicate == |With(job, plan, events, Repeated)| && t.corrupt == |With(job, plan, events, Wrong)|
    && forall i: nat :: i in t.valid <==> SeenBefore(job, plan, events, |events|, i)
  }

  lemma SeenMore(job: Job, plan: map<nat, int>, events: seq<Event>, e: Event, k: nat, i: int)
    requires k <= |events|
    ensures SeenBefore(job, plan, events + [e], k, i) <==> SeenBefore(job, plan, events, k, i)
    ensures SeenBefore(job, plan, events + [e], |events| + 1, i) <==>
      SeenBefore(job, plan, events, |events|, i) ||
        (e.run != WARMUP && Known(job, plan, e) && Right(job, plan, e) && e.index == Some(i))
  {
    var longer := events + [e];
    assert forall j :: 0 <= j < |events| ==> longer[j] == events[j];
    if SeenBefore(job, plan, longer, |events| + 1, i) {
      var j :| 0 <= j < |events| + 1 && longer[j].run != WARMUP && Known(job, plan, longer[j]) &&
        Right(job, plan, longer[j]) && longer[j].index == Some(i);
      if j == |events| { assert longer[j] == e; } else { assert events[j] == longer[j]; }
    }
    if e.run != WARMUP && Known(job, plan, e) && Right(job, plan, e) && e.index == Some(i) {
      assert longer[|events|] == e;
    }
  }

  /** Later events do not change how an event is judged. */
  lemma VerdictMore(job: Job, plan: map<nat, int>, events: seq<Event>, e: Event, k: nat)
    requires k < |events|
    ensures VerdictOn(job, plan, events + [e], k) == VerdictOn(job, plan, events, k)
  {
    assert (events + [e])[k] == events[k];
    if Known(job, plan, events[k]) { SeenMore(job, plan, events, e, k, events[k].index.value); }
  }

  lemma WithMore(job: Job, plan: map<nat, int>, events: seq<Event>, e: Event, v: Verdict)
    ensures |With(job, plan, events + [e], v)| ==
      |With(job, plan, events, v)| + (if VerdictOn(job, plan, events + [e], |events|) == v then 1 else 0)
  {
    WithNext(job, plan, events, e, v);
  }

  lemma WithNext(job: Job, plan: map<nat, int>, events: seq<Event>, e: Event, v: Verdict)
    ensures With(job, plan, events + [e], v) ==
      With(job, plan, events, v) +
        (if VerdictOn(job, plan, events + [e], |events|) == v then {|events|} else {})
  {
    forall k: nat
      ensures k in With(job, plan, events + [e], v) <==>
        k in With(job, plan, events, v) || (k == |events| && VerdictOn(job, plan, events + [e], |events|) == v)
    {
      if k < |events| { VerdictMore(job, plan, events, e, k); }
    }
  }

  /** The verdict on an event when the valid indices so far are known. */
  ghost function Ruling(job: Job, plan: map<nat, int>, valid: set<nat>, e: Event): Verdict {
    if e.run == WARMUP then Warm
    else if !Known(job, plan, e) then Stray
    else if e.index.value in valid then Repeated
    else if Right(job, plan, e) then Good
    else Wrong
  }

  /** What judging counts, by the verdict. */
  ghost predicate Tallies(t: Tally, t': Tally, e: Event, v: Verdict) {
    && t'.warmup == t.warmup + (if v.Warm? then 1 else 0) && t'.foreign == t.foreign + (if v.Stray? then 1 else 0)
    && t'.duplicate == t.duplicate + (if v.Repeated? then 1 else 0)
    && t'.corrupt == t.corrupt + (if v.Wrong? then 1 else 0)
    && (v.Good? ==> e.index.Some? && 0 <= e.index.value && t'.valid == t.valid + {e.index.value})
    && (!v.Good? ==> t'.valid == t.valid)
  }

  lemma JudgeRules(job: Job, plan: map<nat, int>, t: Tally, e: Event)
    requires Judge(job, plan, t, e).Some?
    ensures Tallies(t, Judge(job, plan, t, e).value, e, Ruling(job, plan, t.valid, e))
  {
  }

  lemma JudgedAs(job: Job, plan: map<nat, int>, t: Tally, events: seq<Event>, e: Event)
    requires Counts(job, plan, events, t)
    ensures VerdictOn(job, plan, events + [e], |events|) == Ruling(job, plan, t.valid, e)
  {
    assert (events + [e])[|events|] == e;
    if Known(job, plan, e) { SeenMore(job, plan, events, e, |events|, e.index.value); }
  }

  lemma CountsMore(job: Job, plan: map<nat, int>, t: Tally, events: seq<Event>, e: Event)
    requires Counts(job, plan, events, t) && Judge(job, plan, t, e).Some?
    ensures Counts(job, plan, events + [e], Judge(job, plan, t, e).value)
  {
    JudgeRules(job, plan, t, e);
    JudgedAs(job, plan, t, events, e);
    WithMore(job, plan, events, e, Warm);
    WithMore(job, plan, events, e, Stray);
    WithMore(job, plan, events, e, Repeated);
    WithMore(job, plan, events, e, Wrong);
    assert (events + [e])[|events|] == e;
    forall i: nat
      ensures i in Judge(job, plan, t, e).value.valid <==>
        SeenBefore(job, plan, events + [e], |events + [e]|, i)
    {
      SeenMore(job, plan, events, e, |events|, i);
    }
  }

  /** The latest good event of a producer among the first `n`. */
  ghost predicate LatestGood(job: Job, plan: map<nat, int>, events: seq<Event>, n: nat, p: nat, j: nat)
    requires n <= |events|
  {
    && j < n && VerdictOn(job, plan, events, j).Good? && events[j].producer == Some(p)
    && forall m: nat :: j < m < n && VerdictOn(job, plan, events, m).Good? ==> events[m].producer != Some(p)
  }

  /** A good event whose index does not exceed that of its producer's latest good event before it. */
  ghost predicate Late(job: Job, plan: map<nat, int>, events: seq<Event>, k: nat)
    requires k < |events|
  {
    && VerdictOn(job, plan, events, k).Good?
    && exists j: nat ::
         && LatestGood(job, plan, events, k, events[k].producer.value, j)
         && events[k].index.value <= events[j].index.value
  }

  ghost function LateOnes(job: Job, plan: map<nat, int>, events: seq<Event>): set<nat> {
    set k: nat | k < |events| && Late(job, plan, events, k)
  }

  /** The index remembered for a producer is that of its latest good event. */
  ghost predicate FollowsOn(job: Job, plan: map<nat, int>, events: seq<Event>, t: Tally, p: nat) {
    if p in t.previous then
      exists j: nat :: LatestGood(job, plan, events, |events|, p, j) && events[j].index.value == t.previous[p]
    else forall j: nat :: !LatestGood(job, plan, events, |events|, p, j)
  }

  ghost predicate Follows(job: Job, plan: map<nat, int>, events: seq<Event>, t: Tally) {
    forall p :: FollowsOn(job, plan, events, t, p)
  }

  lemma VerdictsStay(job: Job, plan: map<nat, int>, events: seq<Event>, e: Event, k: nat)
    requires k < |events|
    ensures VerdictOn(job, plan, events + [e], k) == VerdictOn(job, plan, events, k)
  {
    if Known(job, plan, events[k]) { SeenMore(job, plan, events, e, k, events[k].index.value); }
  }

  lemma LatestStays(job: Job, plan: map<nat, int>, events: seq<Event>, e: Event, n: nat, p: nat, j: nat)
    requires n <= |events|
    ensures LatestGood(job, plan, events + [e], n, p, j) <==> LatestGood(job, plan, events, n, p, j)
  {
    forall k: nat | k < |events| ensures VerdictOn(job, plan, events + [e], k) == VerdictOn(job, plan, events, k) {
      VerdictsStay(job, plan, events, e, k);
    }
  }

  lemma LatestMore(job: Job, plan: map<nat, int>, events: seq<Event>, e: Event, p: nat, j: nat)
    ensures LatestGood(job, plan, events + [e], |events| + 1, p, j) <==>
      if VerdictOn(job, plan, events + [e], |events|).Good? && e.producer == Some(p) then j == |events|
      else LatestGood(job, plan, events, |events|, p, j)
  {
    var longer := events + [e];
    assert longer[|events|] == e;
    forall k: nat | k < |events| ensures VerdictOn(job, plan, longer, k) == VerdictOn(job, plan, events, k) {
      VerdictsStay(job, plan, events, e, k);
    }
  }

  lemma LateMore(job: Job, plan: map<nat, int>, events: seq<Event>, e: Event)
    ensures |LateOnes(job, plan, events + [e])| ==
      |LateOnes(job, plan, events)| + (if Late(job, plan, events + [e], |events|) then 1 else 0)
  {
    var longer, before := events + [e], LateOnes(job, plan, events);
    forall k: nat | k < |events| ensures Late(job, plan, longer, k) <==> Late(job, plan, events, k) {
      LateStays(job, plan, events, e, k);
    }
    assert LateOnes(job, plan, longer) == if Late(job, plan, longer, |events|) then before + {|events|} else before;
  }

  lemma LateStays(job: Job, plan: map<nat, int>, events: seq<Event>, e: Event, k: nat)
    requires k < |events|
    ensures Late(job, plan, events + [e], k) <==> Late(job, plan, events, k)
  {
    VerdictsStay(job, plan, events, e, k);
    if VerdictOn(job, plan, events, k).Good? {
      forall j: nat
        ensures LatestGood(job, plan, events + [e], k, events[k].producer.value, j) <==>
          LatestGood(job, plan, events, k, events[k].producer.value, j)
      {
        LatestStays(job, plan, events, e, k, events[k].producer.value, j);
      }
    }
  }

  /** Judging one event keeps the producers' latest good events. */
  lemma FollowsMore(job: Job, plan: map<nat, int>, t: Tally, events: seq<Event>, e: Event, p: nat)
    requires Counts(job, plan, events, t) && FollowsOn(job, plan, events, t, p) && Judge(job, plan, t, e).Some?
    ensures FollowsOn(job, plan, events + [e], Judge(job, plan, t, e).value, p)
  {
    var longer, t' := events + [e], Judge(job, plan, t, e).value;
    assert longer[|events|] == e;
    if Known(job, plan, e) { SeenMore(job, plan, events, e, |events|, e.index.value); }
    forall j: nat
      ensures LatestGood(job, plan, longer, |longer|, p, j) <==>
        if VerdictOn(job, plan, longer, |events|).Good? && e.producer == Some(p) then j == |events|
        else LatestGood(job, plan, events, |events|, p, j)
    {
      LatestMore(job, plan, events, e, p, j);
    }
    if VerdictOn(job, plan, longer, |events|).Good? && e.producer == Some(p) {
      assert LatestGood(job, plan, longer, |longer|, p, |events|);
    } else if p in t.previous {
      var j: nat :| LatestGood(job, plan, events, |events|, p, j) && events[j].index.value == t.previous[p];
      assert LatestGood(job, plan, longer, |longer|, p, j) && longer[j] == events[j];
    }
  }

  /** A late event is counted as out of order. */
  lemma OrderMore(job: Job, plan: map<nat, int>, t: Tally, events: seq<Event>, e: Event)
    requires Counts(job, plan, events, t) && Follows(job, plan, events, t) && Judge(job, plan, t, e).Some?
    ensures Follows(job, plan, events + [e], Judge(job, plan, t, e).value)
    ensures Judge(job, plan, t, e).value.order == t.order + (if Late(job, plan, events + [e], |events|) then 1 else 0)
  {
    var longer := events + [e];
    assert longer[|events|] == e;
    forall p: nat ensures FollowsOn(job, plan, longer, Judge(job, plan, t, e).value, p) {
      FollowsMore(job, plan, t, events, e, p);
    }
    if Known(job, plan, e) {
      SeenMore(job, plan, events, e, |events|, e.index.value);
      var p := e.producer.value;
      assert FollowsOn(job, plan, events, t, p);
      forall j: nat
        ensures LatestGood(job, plan, longer, |events|, p, j) <==> LatestGood(job, plan, events, |events|, p, j)
      {
        LatestStays(job, plan, events, e, |events|, p, j);
      }
      OneLatest(job, plan, events, p);
    }
  }

  lemma OneLatest(job: Job, plan: map<nat, int>, events: seq<Event>, p: nat)
    ensures forall i: nat, j: nat ::
      LatestGood(job, plan, events, |events|, p, i) && LatestGood(job, plan, events, |events|, p, j) ==> i == j
  {
  }

  /** The event at this position cannot be judged: its body would be compared, but cannot be read. */
  ghost predicate Unreadable(job: Job, plan: map<nat, int>, events: seq<Event>, k: nat)
    requires k < |events|
  {
    && events[k].run != WARMUP && Known(job, plan, events[k])
    && !SeenBefore(job, plan, events, k, events[k].index.value) && job.read(events[k].body).None?
  }

  /** The counts of a stream, event by event. */
  ghost predicate Tallied(job: Job, plan: map<nat, int>, events: seq<Event>, t: Tally) {
    Counts(job, plan, events, t) && Follows(job, plan, events, t) && t.order == |LateOnes(job, plan, events)|
  }

  /** Judging counts every event under its verdict, and raises exactly when some event cannot be judged. */
  lemma {:induction false} CountsAre(job: Job, plan: map<nat, int>, events: seq<Event>)
    ensures !Judged(job, plan, events).1 ==> Tallied(job, plan, events, Judged(job, plan, events).0)
    ensures Judged(job, plan, events).1 <==> exists k: nat :: k < |events| && Unreadable(job, plan, events, k)
    decreases |events|
  {
    if events != [] {
      var init, e := events[..|events| - 1], events[|events| - 1];
      var (t, failed) := Judged(job, plan, init);
      assert events == init + [e];
      CountsAre(job, plan, init);
      JudgedAppend(job, plan, init, e);
      UnreadableStays(job, plan, init, e);
      if !failed {
        if Known(job, plan, e) { SeenMore(job, plan, init, e, |init|, e.index.value); }
        if Judge(job, plan, t, e).Some? {
          CountsMore(job, plan, t, init, e);
          OrderMore(job, plan, t, init, e);
          LateMore(job, plan, init, e);
        } else {
          assert Unreadable(job, plan, events, |init|);
        }
      }
    }
  }

  lemma UnreadableStays(job: Job, plan: map<nat, int>, events: seq<Event>, e: Event)
    ensures forall k: nat :: k < |events| ==> (Unreadable(job, plan, events + [e], k) <==> Unreadable(job, plan, events, k))
  {
    forall k: nat | k < |events| ensures Unreadable(job, plan, events + [e], k) <==> Unreadable(job, plan, events, k) {
      if Known(job, plan, events[k]) { SeenMore(job, plan, events, e, k, events[k].index.value); }
    }
  }

  /** In a complete run each producer's delivered indices are the very list its thread walked through. */
  lemma DeliveredIsShare(job: Job, plan: map<nat, int>, events: seq<Event>, share: seq<nat>, p: nat, producers: nat,
      skew: bool)
    requires Exact(job, plan, events) && 0 < producers && Owns(share, job.n, p, producers, skew)
    requires forall i: nat :: i < job.n ==> ProducerFor(i, producers, skew) == Some(job.producerOf(i))
    ensures Ids(events, p) == share
  {
    assert Ascending(Ids(events, p)) && forall i: nat :: i in Ids(events, p) <==> i < job.n && job.producerOf(i) == p;
    AscendingUnique(Ids(events, p), share);
  }

  // ---- the verifier itself ----

  datatype Report = Report(status: Status, tally: Tally, decodeError: bool, attempted: nat, validUnique: nat)

  /** What the receipts say was attempted, and for when. */
  function PlanOf(receipts: seq<Receipt>): map<nat, int> {
    if receipts == [] then map[]
    else PlanOf(receipts[..|receipts| - 1])[receipts[|receipts| - 1].index := receipts[|receipts| - 1].scheduled]
  }

  /** Receipts name different scheduled indices. */
  predicate ReceiptsOk(receipts: seq<Receipt>, n: nat) {
    && (forall k :: 0 <= k < |receipts| ==> receipts[k].index < n)
    && (forall j, k :: 0 <= j < k < |receipts| ==> receipts[j].index != receipts[k].index)
  }

  /** The flags and times read off the receipts. */
  ghost predicate Holds(attempted: seq<bool>, schedules: seq<int>, plan: map<nat, int>) {
    && |attempted| == |schedules|
    && (forall i :: i in plan ==> i < |attempted|)
    && (forall i :: 0 <= i < |attempted| ==>
         (attempted[i] <==> i in plan) && (attempted[i] ==> schedules[i] == plan[i]))
  }

  ghost predicate Marks(flags: seq<bool>, s: set<nat>) {
    (forall i :: i in s ==> i < |flags|) && forall i :: 0 <= i < |flags| ==> (flags[i] <==> i in s)
  }

  lemma PlanAppend(receipts: seq<Receipt>, k: nat)
    requires k < |receipts|
    ensures PlanOf(receipts[..k + 1]) == PlanOf(receipts[..k])[receipts[k].index := receipts[k].scheduled]
    ensures forall i :: i in PlanOf(receipts[..k + 1]) <==> i in PlanOf(receipts[..k]) || i == receipts[k].index
  {
    assert receipts[..k + 1][..k] == receipts[..k];
  }

  lemma {:induction false} PlanHas(receipts: seq<Receipt>, k: nat)
    requires k <= |receipts|
    ensures forall i :: i in PlanOf(receipts[..k]) <==> exists j :: 0 <= j < k && receipts[j].index == i
    decreases k
  {
    if k > 0 {
      PlanHas(receipts, k - 1);
      PlanAppend(receipts, k - 1);
    }
  }

  /** Different indices are counted once each. */
  lemma {:induction false} PlanCounts(receipts: seq<Receipt>, k: nat)
    requires k <= |receipts|
    requires forall i, j :: 0 <= i < j < |receipts| ==> receipts[i].index != receipts[j].index
    ensures |PlanOf(receipts[..k])| == k
    decreases k
  {
    if k > 0 {
      PlanCounts(receipts, k - 1);
      PlanHas(receipts, k - 1);
      PlanAppend(receipts, k - 1);
    }
  }

  /** Reads the receipts; false where one is out of range or repeated, which raises. */
  method ReadReceipts(receipts: seq<Receipt>, attempted: array<bool>, schedules: array<int>) returns (ok: bool)
    requires attempted.Length == schedules.Length
    requires forall i :: 0 <= i < attempted.Length ==> !attempted[i]
    modifies attempted, schedules
    ensures ok <==> ReceiptsOk(receipts, attempted.Length)
    ensures ok ==> Holds(attempted[..], schedules[..], PlanOf(receipts))
  {
    for k := 0 to |receipts|
      invariant ReceiptsOk(receipts[..k], attempted.Length)
      invariant Holds(attempted[..], schedules[..], PlanOf(receipts[..k]))
    {
      var i := receipts[k].index;
      PlanHas(receipts, k);
      if i >= attempted.Length || attempted[i] { return false; }
      PlanAppend(receipts, k);
      attempted[i], schedules[i] := true, receipts[k].scheduled;
    }
    assert receipts[..|receipts|] == receipts;
    ok := true;
  }

  /** How many flags are set. */
  method CountSet(flags: array<bool>, ghost s: set<nat>) returns (count: nat)
    requires Marks(flags[..], s)
    ensures count == |s|
  {
    count := 0;
    ghost var counted: set<nat> := {};
    for i := 0 to flags.Length
      invariant count == |counted| && forall j :: j in counted <==> j in s && j < i
    {
      if flags[i] {
        count, counted := count + 1, counted + {i};
      }
    }
    assert counted == s;
  }

  /** Counts the decoded events against the receipts, flagging each valid index; stops where a body cannot be read. */
  method CountEvents(job: Job, ghost plan: map<nat, int>, events: seq<Event>, attempted: array<bool>,
      schedules: array<int>, valid: array<bool>)
      returns (t: Tally, failed: bool)
    requires attempted.Length == schedules.Length == valid.Length == job.n && Holds(attempted[..], schedules[..], plan)
    requires valid != attempted && forall i :: 0 <= i < valid.Length ==> !valid[i]
    modifies valid
    ensures (t, failed) == Judged(job, plan, events) && Marks(valid[..], t.valid)
  {
    t, failed := NOTHING, false;
    for k := 0 to |events|
      invariant !failed && Judged(job, plan, events[..k]) == (t, false) && Marks(valid[..], t.valid)
    {
      var e := events[k];
      assert events[..k + 1] == events[..k] + [e];
      JudgedAppend(job, plan, events[..k], e);
      if e.run == WARMUP {
        t := t.(warmup := t.warmup + 1);
      } else if Unexpected(job, attempted[..], e) {
        t := t.(foreign := t.foreign + 1);
      } else {
        var i := e.index.value;
        if valid[i] {
          t := t.(duplicate := t.duplicate + 1);
        } else {
          var text := job.read(e.body);
          if text.None? {
            StoppedThere(job, plan, events, k + 1);
            return t, true;
          }
          if e.timestamp != Some(schedules[i]) || text.value != job.expected(i) {
            t := t.(corrupt := t.corrupt + 1);
          } else {
            var p := job.producerOf(i);
            if p in t.previous && i <= t.previous[p] { t := t.(order := t.order + 1); }
            t := t.(previous := t.previous[p := i], valid := t.valid + {i});
            valid[i] := true;
          }
        }
      }
    }
    assert events[..|events|] == events;
  }

  predicate Unexpected(job: Job, attempted: seq<bool>, e: Event)
    requires |attempted| == job.n
  {
    || e.run != job.runId || e.index.None? || e.producer.None? || e.index.value < 0 || e.index.value >= job.n
    || !attempted[e.index.value] || e.producer.value != job.producerOf(e.index.value)
  }

  /** What judging raised on is the end of the counts. */
  lemma {:induction false} StoppedThere(job: Job, plan: map<nat, int>, events: seq<Event>, k: nat)
    requires k <= |events| && Judged(job, plan, events[..k]).1
    ensures Judged(job, plan, events) == Judged(job, plan, events[..k])
    decreases |events| - k
  {
    if k == |events| {
      assert events[..k] == events;
    } else {
      assert events[..k + 1] == events[..k] + [events[k]];
      JudgedAppend(job, plan, events[..k], events[k]);
      StoppedThere(job, plan, events, k + 1);
    }
  }

  /** The whole verdict; None where the receipts themselves are invalid. */
  method Verify(job: Job, receipts: seq<Receipt>, events: seq<Event>, control: bool, streamError: bool,
      workerErrors: bool)
      returns (r: Option<Report>)
    ensures r.None? <==> !ReceiptsOk(receipts, job.n)
    ensures r.Some? ==>
      && var (t, failed) := Judged(job, PlanOf(receipts), events);
         && r.value.tally == t && r.value.decodeError == (streamError || failed) && r.value.validUnique == |t.valid|
         && r.value.status == StatusOf(job, t, control, streamError || failed, workerErrors)
    ensures r.Some? ==>
      (r.value.status == Complete <==>
        !control && !streamError && !workerErrors && Exact(job, PlanOf(receipts), events))
    ensures r.Some? ==> r.value.attempted == |PlanOf(receipts)| == |receipts| <= job.n
    ensures r.Some? && r.value.status == Lossy ==> r.value.validUnique < job.n
    ensures r.Some? ==> Planned(receipts, PlanOf(receipts))
    ensures r.Some? ==>
      && (r.value.decodeError <==>
            streamError || exists k: nat :: k < |events| && Unreadable(job, PlanOf(receipts), events, k))
      && (r.value.decodeError || Tallied(job, PlanOf(receipts), events, r.value.tally))
    ensures r.Some? ==> Ruled(job, r.value, control, workerErrors)
    ensures r.Some? ==>
      (r.value.status == Lossy <==>
        && !control && !streamError && !workerErrors && AllGenuine(job, PlanOf(receipts), events)
        && AllAscending(events) && !Exact(job, PlanOf(receipts), events))
  {
    var attempted := new bool[job.n](_ => false);
    var schedules := new int[job.n](_ => 0);
    var valid := new bool[job.n](_ => false);
    var ok := ReadReceipts(receipts, attempted, schedules);
    if !ok { return None; }
    ghost var plan := PlanOf(receipts);
    var t, failed := CountEvents(job, plan, events, attempted, schedules, valid);
    var attempts := CountSet(attempted, plan.Keys);
    var count := CountSet(valid, t.valid);
    Attempted(job, receipts);
    CompleteIff(job, plan, events, control, streamError, workerErrors);
    AtMost(job, plan, events);
    CountsAre(job, plan, events);
    CleanIff(job, plan, events);
    PlanIs(receipts);
    var status := StatusOf(job, t, control, streamError || failed, workerErrors);
    r := Some(Report(status, t, streamError || failed, attempts, count));
  }

  /** Every receipt's index is planned for its time, and no other index is. */
  ghost predicate Planned(receipts: seq<Receipt>, plan: map<nat, int>) {
    && (forall k :: 0 <= k < |receipts| ==>
         receipts[k].index in plan && plan[receipts[k].index] == receipts[k].scheduled)
    && forall i :: i in plan ==> exists k :: 0 <= k < |receipts| && receipts[k].index == i
  }

  lemma {:induction false} PlanIs(receipts: seq<Receipt>)
    requires forall j, k :: 0 <= j < k < |receipts| ==> receipts[j].index != receipts[k].index
    ensures Planned(receipts, PlanOf(receipts))
    decreases |receipts|
  {
    if receipts != [] {
      var init, r := receipts[..|receipts| - 1], receipts[|receipts| - 1];
      PlanIs(init);
      forall i | i in PlanOf(receipts) ensures exists k :: 0 <= k < |receipts| && receipts[k].index == i {
        if i in PlanOf(init) {
          var k :| 0 <= k < |init| && init[k].index == i;
          assert receipts[k].index == i;
        } else {
          assert receipts[|receipts| - 1].index == i;
        }
      }
      forall k | 0 <= k < |init| ensures PlanOf(receipts)[receipts[k].index] == receipts[k].scheduled {
        assert init[k] == receipts[k];
      }
    }
  }

  /** A control run is a control; any fault or count fails it; what is left is complete or lost something. */
  ghost predicate Ruled(job: Job, r: Report, control: bool, workerErrors: bool) {
    var failed := r.decodeError || workerErrors || r.tally.foreign > 0 || r.tally.duplicate > 0 ||
      r.tally.corrupt > 0 || r.tally.order > 0;
    && (r.status == Control <==> control)
    && (r.status == CorrectnessFail <==> !control && failed)
    && (r.status == Lossy <==> !control && !failed && r.validUnique != job.n)
    && (r.status == Complete <==> !control && !failed && r.validUnique == job.n)
  }

  lemma Attempted(job: Job, receipts: seq<Receipt>)
    requires ReceiptsOk(receipts, job.n)
    ensures |PlanOf(receipts).Keys| == |PlanOf(receipts)| == |receipts| <= job.n
  {
    var plan := PlanOf(receipts);
    assert receipts[..|receipts|] == receipts;
    PlanCounts(receipts, |receipts|);
    PlanHas(receipts, |receipts|);
    BelowIs(job.n);
    Within(plan.Keys, Below(job.n));
  }

  lemma AtMost(job: Job, plan: map<nat, int>, events: seq<Event>)
    ensures |Judged(job, plan, events).0.valid| <= job.n
  {
    CountedOnce(job, plan, events);
    BelowIs(job.n);
    Within(Judged(job, plan, events).0.valid, Below(job.n));
  }
}
