/**
 * The single-flight capability cache as interleaved atomic steps of any number of calls.
 * A key is the pair of backend and identity; lookups, lock creation and clearing are atomic.
 */
module CapabilityCache {
  import opened Options

  datatype Reason =
    | Available | PackageNotInstalled | SharedLibraryNotFound | VersionIncompatible | AbiMismatch | DeviceUnavailable
    | ArchUnsupported | CompilerUnavailable | CompileFailed | ModuleLoadFailed | SymbolMissing | RuntimeFailed
    | OutOfMemory | PermissionDenied | Timeout | DisabledByPolicy | ProbeInternalError

  type Key = (string, nat)

  /** A probe's result; everything no decision depends on is one field. */
  datatype Result = Result(key: Key, reason: Reason, rest: string, fromCache: bool) {
    predicate IsAvailable() { reason == Available }

    predicate Deterministic() {
      || reason == PackageNotInstalled || reason == SharedLibraryNotFound || reason == VersionIncompatible
      || reason == AbiMismatch || reason == DeviceUnavailable || reason == ArchUnsupported
      || reason == CompilerUnavailable || reason == SymbolMissing || reason == DisabledByPolicy
    }

    /** What may be kept: a transient failure is not, so that the next call can recover. */
    predicate Cacheable() { IsAvailable() || Deterministic() }

    function CacheHit(): Result { this.(fromCache := true) }
  }

  datatype Outcome = Returned(result: Result) | Mismatch | ProbeRaised

  /** Where a call stands. */
  datatype Pc =
    | Called(key: Key)
    | Missed(key: Key)
    | Waiting(key: Key, lock: nat)
    | Holding(key: Key, lock: nat)
    | Probing(key: Key, lock: nat)
    | Storing(key: Key, lock: nat, result: Result)
    | Leaving(key: Key, lock: nat, outcome: Outcome)
    | Done(key: Key, outcome: Outcome)
  {
    /** Inside the critical section of its key. */
    predicate Inside() { Holding? || Probing? || Storing? || Leaving? }

    /** Past the second lookup without a hit, and not yet through with storing. */
    predicate Filling() { Probing? || Storing? }

    predicate Decided() { Leaving? || Done? }
  }

  datatype State = State(values: map<Key, Result>, locks: map<Key, nat>, held: map<nat, nat>, nextLock: nat,
      calls: map<nat, Pc>)

  const START := State(map[], map[], map[], 0, map[])

  datatype Action =
    | Call(id: nat, key: Key)
    | LookUp(id: nat)
    | LockFor(id: nat)
    | Acquire(id: nat)
    | LookAgain(id: nat)
    | ProbeReturns(id: nat, result: Result)
    | ProbeRaises(id: nat)
    | Store(id: nat)
    | Release(id: nat)
    | Clear

  function Goto(s: State, id: nat, pc: Pc): State { s.(calls := s.calls[id := pc]) }

  /** The effect of an action, or None where it is not possible. */
  function Next(s: State, a: Action): Option<State> {
    match a
    case Call(id, key) => if id in s.calls then None else Some(Goto(s, id, Called(key)))
    case Clear => Some(s.(values := map[]))
    case _ => if a.id in s.calls then Advance(s, a, s.calls[a.id]) else None
  }

  function Advance(s: State, a: Action, pc: Pc): Option<State>
    requires !a.Call? && !a.Clear?
  {
    match (a, pc)
    case (LookUp(id), Called(key)) =>
      Some(Goto(s, id, if key in s.values then Done(key, Returned(s.values[key].CacheHit())) else Missed(key)))
    case (LockFor(id), Missed(key)) =>
      if key in s.locks then Some(Goto(s, id, Waiting(key, s.locks[key])))
      else Some(Goto(s.(locks := s.locks[key := s.nextLock], nextLock := s.nextLock + 1), id, Waiting(key, s.nextLock)))
    case (Acquire(id), Waiting(key, lock)) =>
      if lock in s.held then None else Some(Goto(s.(held := s.held[lock := id]), id, Holding(key, lock)))
    case (LookAgain(id), Holding(key, lock)) =>
      var hit := key in s.values;
      Some(Goto(s, id, if hit then Leaving(key, lock, Returned(s.values[key].CacheHit())) else Probing(key, lock)))
    case (ProbeReturns(id, result), Probing(key, lock)) =>
      Some(Goto(s, id, if result.key == key then Storing(key, lock, result) else Leaving(key, lock, Mismatch)))
    case (ProbeRaises(id), Probing(key, lock)) => Some(Goto(s, id, Leaving(key, lock, ProbeRaised)))
    case (Store(id), Storing(key, lock, result)) =>
      var s' := if result.Cacheable() then s.(values := s.values[key := result]) else s;
      Some(Goto(s', id, Leaving(key, lock, Returned(result))))
    case (Release(id), Leaving(key, lock, outcome)) =>
      Some(Goto(s.(held := s.held - {lock}), id, Done(key, outcome)))
    case _ => None
  }

  // ---- runs ----

  function Run(s: State, actions: seq<Action>): Option<State>
    decreases |actions|
  {
    if actions == [] then Some(s)
    else
      var next := Next(s, actions[0]);
      if next.None? then None else Run(next.value, actions[1..])
  }

  ghost predicate Reachable(s: State) { exists actions :: Run(START, actions) == Some(s) }

  // ---- the invariant ----

  ghost predicate LocksOk(s: State) {
    && (forall k :: k in s.locks ==> s.locks[k] < s.nextLock)
    && (forall j, k :: j in s.locks && k in s.locks && s.locks[j] == s.locks[k] ==> j == k)
  }

  /** A call carries the one lock of its key, and holds it exactly inside its critical section. */
  ghost predicate CallOk(s: State, id: nat)
    requires id in s.calls
  {
    var pc := s.calls[id];
    && (pc.Waiting? || pc.Inside() ==> pc.key in s.locks && s.locks[pc.key] == pc.lock)
    && (pc.Inside() ==> pc.lock in s.held && s.held[pc.lock] == id)
    && (pc.Filling() ==> pc.key !in s.values)
    && (pc.Storing? ==> pc.result.key == pc.key)
  }

  ghost predicate Inv(s: State) {
    && LocksOk(s)
    && (forall id :: id in s.calls ==> CallOk(s, id))
    && (forall lock :: lock in s.held ==>
         s.held[lock] in s.calls && s.calls[s.held[lock]].Inside() && s.calls[s.held[lock]].lock == lock)
    && (forall k :: k in s.values ==> s.values[k].key == k && s.values[k].Cacheable())
  }

  /** Two calls inside the critical section of one key are one call. */
  lemma OneInside(s: State, i: nat, j: nat)
    requires Inv(s) && i in s.calls && j in s.calls && s.calls[i].Inside() && s.calls[j].Inside() &&
      s.calls[i].key == s.calls[j].key
    ensures i == j
  {
    assert CallOk(s, i) && CallOk(s, j);
  }

  lemma KeepsLocks(s: State, a: Action, s': State)
    requires LocksOk(s) && Next(s, a) == Some(s')
    ensures LocksOk(s') && s.nextLock <= s'.nextLock
    ensures forall k :: k in s.locks ==> k in s'.locks && s'.locks[k] == s.locks[k]
  {
    if a.LockFor? && a.id in s.calls && s.calls[a.id].Missed? && s.calls[a.id].key !in s.locks {
      assert s'.locks == s.locks[s.calls[a.id].key := s.nextLock];
    } else {
      assert s'.locks == s.locks && s'.nextLock == s.nextLock;
    }
  }

  /** Nobody can take a lock away from its holder. */
  lemma OthersHold(s: State, a: Action, s': State, other: nat)
    requires Inv(s) && Next(s, a) == Some(s') && other in s.calls && (a.Clear? || other != a.id) &&
      s.calls[other].Inside()
    ensures s.calls[other].lock in s'.held && s'.held[s.calls[other].lock] == other
  {
    assert CallOk(s, other);
    if !a.Clear? && a.id in s.calls { assert CallOk(s, a.id); }
  }

  /** Nobody else can fill the key a call is probing. */
  lemma OthersFill(s: State, a: Action, s': State, other: nat)
    requires Inv(s) && Next(s, a) == Some(s') && other in s.calls && (a.Clear? || other != a.id) &&
      s.calls[other].Filling()
    ensures s.calls[other].key !in s'.values
  {
    assert CallOk(s, other);
    if a.Store? && a.id in s.calls && s.calls[a.id].Storing? && s.calls[a.id].key == s.calls[other].key {
      OneInside(s, a.id, other);
    }
  }

  lemma OthersStay(s: State, a: Action, s': State, other: nat)
    requires Next(s, a) == Some(s') && other in s.calls && (a.Clear? || other != a.id)
    ensures other in s'.calls && s'.calls[other] == s.calls[other]
  {
  }

  /** The calls that did not act stay as they were: nobody else can fill their key or take their lock. */
  lemma KeepsOthers(s: State, a: Action, s': State, other: nat)
    requires Inv(s) && Next(s, a) == Some(s') && other in s.calls && (a.Clear? || other != a.id)
    ensures other in s'.calls && s'.calls[other] == s.calls[other] && CallOk(s', other)
  {
    KeepsLocks(s, a, s');
    OthersStay(s, a, s', other);
    assert CallOk(s, other);
    if s.calls[other].Inside() { OthersHold(s, a, s', other); }
    if s.calls[other].Filling() { OthersFill(s, a, s', other); }
  }

  lemma KeepsActor(s: State, a: Action, s': State)
    requires Inv(s) && Next(s, a) == Some(s') && !a.Clear?
    ensures a.id in s'.calls && CallOk(s', a.id)
  {
    if a.id in s.calls { assert CallOk(s, a.id); }
  }

  lemma KeepsHeld(s: State, a: Action, s': State, lock: nat)
    requires Inv(s) && Next(s, a) == Some(s') && lock in s'.held
    ensures s'.held[lock] in s'.calls && s'.calls[s'.held[lock]].Inside() && s'.calls[s'.held[lock]].lock == lock
  {
    if !a.Clear? && a.id in s.calls { assert CallOk(s, a.id); }
  }

  /** What a step does to the values: clear them, store one result that may be kept, or nothing. */
  lemma ValuesChange(s: State, a: Action, s': State)
    requires Next(s, a) == Some(s')
    ensures if a.Clear? then s'.values == map[]
      else if a.Store? then
        && a.id in s.calls && s.calls[a.id].Storing?
        && var pc := s.calls[a.id];
           s'.values == if pc.result.Cacheable() then s.values[pc.key := pc.result] else s.values
      else s'.values == s.values
  {
  }

  lemma KeepsEntries(s: State, a: Action, s': State, k: Key)
    requires Inv(s) && Next(s, a) == Some(s')
    ensures k in s'.values ==> s'.values[k].key == k && s'.values[k].Cacheable()
    ensures !a.Clear? && k in s.values ==> k in s'.values && s'.values[k] == s.values[k]
  {
    ValuesChange(s, a, s');
    if a.Store? { assert CallOk(s, a.id); }
  }

  lemma NextKeepsInv(s: State, a: Action, s': State)
    requires Inv(s) && Next(s, a) == Some(s')
    ensures Inv(s')
  {
    KeepsLocks(s, a, s');
    forall id | id in s'.calls ensures CallOk(s', id) {
      if a.Clear? || id != a.id { KeepsOthers(s, a, s', id); } else { KeepsActor(s, a, s'); }
    }
    forall lock | lock in s'.held
      ensures s'.held[lock] in s'.calls && s'.calls[s'.held[lock]].Inside() && s'.calls[s'.held[lock]].lock == lock
    {
      KeepsHeld(s, a, s', lock);
    }
    forall k | k in s'.values ensures s'.values[k].key == k && s'.values[k].Cacheable() {
      KeepsEntries(s, a, s', k);
    }
  }

  lemma {:induction false} RunKeepsInv(s: State, actions: seq<Action>)
    requires Inv(s) && Run(s, actions).Some?
    ensures Inv(Run(s, actions).value)
    decreases |actions|
  {
    if actions != [] {
      NextKeepsInv(s, actions[0], Next(s, actions[0]).value);
      RunKeepsInv(Next(s, actions[0]).value, actions[1..]);
    }
  }

  // ---- what every interleaving guarantees ----

  /** At most one probe per key is in flight, and what is stored matches its key and may be kept. */
  lemma SingleFlight(s: State)
    requires Reachable(s)
    ensures forall i, j :: i in s.calls && j in s.calls && s.calls[i].Probing? && s.calls[j].Probing? ==>
      s.calls[i].key == s.calls[j].key ==> i == j
    ensures forall k :: k in s.values ==> s.values[k].key == k && s.values[k].Cacheable()
  {
    var actions :| Run(START, actions) == Some(s);
    RunKeepsInv(START, actions);
    forall i, j |
      i in s.calls && j in s.calls && s.calls[i].Probing? && s.calls[j].Probing? && s.calls[i].key == s.calls[j].key
      ensures i == j
    {
      OneInside(s, i, j);
    }
  }

  /** The lock of a key is made once and never changes, whatever is cleared. */
  lemma {:induction false} LockNeverChanges(s: State, actions: seq<Action>, k: Key)
    requires Inv(s) && Run(s, actions).Some? && k in s.locks
    ensures k in Run(s, actions).value.locks && Run(s, actions).value.locks[k] == s.locks[k]
    decreases |actions|
  {
    if actions != [] {
      var s' := Next(s, actions[0]).value;
      KeepsLocks(s, actions[0], s');
      NextKeepsInv(s, actions[0], s');
      LockNeverChanges(s', actions[1..], k);
    }
  }

  /** Probes of a key that begin or end in a run. */
  ghost function Probes(s: State, actions: seq<Action>, k: Key): nat
    requires Run(s, actions).Some?
    decreases |actions|
  {
    if actions == [] then 0
    else
      var a, s' := actions[0], Next(s, actions[0]).value;
      var here := !a.Clear? && !a.Call? && s'.calls[a.id].key == k &&
        (s'.calls[a.id].Probing? || s.calls[a.id].Probing?);
      (if here then 1 else 0) + Probes(s', actions[1..], k)
  }

  /** Every decision about `k` outside `before` is a hit on `v`. */
  ghost predicate Served(s: State, k: Key, v: Result, before: set<nat>) {
    forall id :: id in s.calls && id !in before && s.calls[id].Decided() && s.calls[id].key == k ==>
      s.calls[id].outcome == Returned(v.(fromCache := true))
  }

  lemma NextServes(s: State, a: Action, s': State, k: Key, v: Result, before: set<nat>)
    requires Inv(s) && Next(s, a) == Some(s') && !a.Clear? && k in s.values && s.values[k] == v &&
      Served(s, k, v, before)
    ensures Served(s', k, v, before)
    ensures a.id in s'.calls && s'.calls[a.id].key == k ==>
      !s'.calls[a.id].Filling() && (a.id in s.calls ==> !s.calls[a.id].Filling())
  {
    if a.id in s.calls { assert CallOk(s, a.id); }
    KeepsActor(s, a, s');
    KeepsEntries(s, a, s', k);
    forall id | id in s'.calls && id !in before && s'.calls[id].Decided() && s'.calls[id].key == k
      ensures s'.calls[id].outcome == Returned(v.(fromCache := true))
    {
      if id != a.id { KeepsOthers(s, a, s', id); }
    }
  }

  /**
   * Without clearing: once a result is stored it stays, no probe of its key runs any more,
   * and every call not already decided then returns it, marked as a cache hit.
   */
  lemma {:induction false} StoredIsFinal(s: State, actions: seq<Action>, k: Key, before: set<nat>)
    requires Inv(s) && Run(s, actions).Some? && Clear !in actions && k in s.values && Served(s, k, s.values[k], before)
    ensures var s' := Run(s, actions).value;
      k in s'.values && s'.values[k] == s.values[k] && Served(s', k, s.values[k], before) && Probes(s, actions, k) == 0
    decreases |actions|
  {
    if actions != [] {
      var a, s' := actions[0], Next(s, actions[0]).value;
      NextServes(s, a, s', k, s.values[k], before);
      KeepsEntries(s, a, s', k);
      NextKeepsInv(s, a, s');
      StoredIsFinal(s', actions[1..], k, before);
    }
  }

  /** The calls on `k` that were already decided. */
  ghost function DecidedOn(s: State, k: Key): set<nat> {
    set id | id in s.calls && s.calls[id].Decided() && s.calls[id].key == k
  }

  /** A reachable cache that holds a result answers every other call with it. */
  lemma LaterCallsHit(first: seq<Action>, later: seq<Action>, s: State, k: Key, id: nat)
    requires Run(START, first) == Some(s) && k in s.values && Run(s, later).Some? && Clear !in later
    requires id !in DecidedOn(s, k) && id in Run(s, later).value.calls
    requires Run(s, later).value.calls[id].key == k && Run(s, later).value.calls[id].Decided()
    ensures Run(s, later).value.calls[id].outcome == Returned(s.values[k].(fromCache := true)) && Probes(s, later, k) == 0
  {
    RunKeepsInv(START, first);
    StoredIsFinal(s, later, k, DecidedOn(s, k));
  }

  // ---- what every call returns ----

  lemma {:induction false} RunAppend(s: State, actions: seq<Action>, a: Action)
    ensures Run(s, actions + [a]) == if Run(s, actions).None? then None else Next(Run(s, actions).value, a)
    decreases |actions|
  {
    if actions == [] {
      assert [a][1..] == [];
    } else {
      assert (actions + [a])[1..] == actions[1..] + [a];
      if Next(s, actions[0]).Some? { RunAppend(Next(s, actions[0]).value, actions[1..], a); }
    }
  }

  ghost predicate Probed(actions: seq<Action>, id: nat) {
    (exists v :: ProbeReturns(id, v) in actions) || ProbeRaises(id) in actions
  }

  /** The call looked its key up at this point of a run and found what it then returned, marked as cached. */
  ghost predicate HitAt(actions: seq<Action>, n: nat, id: nat, key: Key, outcome: Outcome) {
    && n < |actions| && (actions[n] == LookUp(id) || actions[n] == LookAgain(id))
    && Run(START, actions[..n]).Some?
    && var values := Run(START, actions[..n]).value.values;
       key in values && outcome == Returned(values[key].(fromCache := true))
  }

  /** How a call was decided: by its own probe, which ran once, or by a hit. */
  ghost predicate DecidedBy(actions: seq<Action>, id: nat, key: Key, outcome: Outcome) {
    && (forall v :: ProbeReturns(id, v) in actions ==> outcome == if v.key == key then Returned(v) else Mismatch)
    && (ProbeRaises(id) in actions <==> outcome == ProbeRaised)
    && (!Probed(actions, id) ==> exists n :: HitAt(actions, n, id, key, outcome))
  }

  /** What a run has done for a call so far. */
  ghost predicate Traced(actions: seq<Action>, id: nat, pc: Pc) {
    && Call(id, pc.key) in actions
    && (if pc.Decided() then DecidedBy(actions, id, pc.key, pc.outcome)
        else if pc.Storing? then
          pc.result.key == pc.key && ProbeRaises(id) !in actions &&
          forall v :: ProbeReturns(id, v) in actions <==> v == pc.result
        else !Probed(actions, id))
  }

  /** Only calls that were made act. */
  ghost predicate Made(actions: seq<Action>, s: State) {
    forall a :: a in actions && !a.Clear? ==> a.id in s.calls
  }

  lemma TracedOther(actions: seq<Action>, a: Action, id: nat, pc: Pc)
    requires Traced(actions, id, pc) && (a.Clear? || a.id != id)
    ensures Traced(actions + [a], id, pc)
  {
    assert Probed(actions + [a], id) <==> Probed(actions, id);
    if pc.Decided() && !Probed(actions, id) {
      var n: nat :| HitAt(actions, n, id, pc.key, pc.outcome);
      assert (actions + [a])[..n] == actions[..n];
      assert HitAt(actions + [a], n, id, pc.key, pc.outcome);
    }
  }

  lemma TracedActor(actions: seq<Action>, s: State, a: Action, s': State)
    requires Run(START, actions) == Some(s) && Next(s, a) == Some(s') && !a.Clear? && Made(actions, s)
    requires a.id in s.calls ==> Traced(actions, a.id, s.calls[a.id])
    ensures Traced(actions + [a], a.id, s'.calls[a.id])
  {
    var longer, id := actions + [a], a.id;
    assert longer[..|actions|] == actions && longer[|actions|] == a;
    if (a.LookUp? || a.LookAgain?) && s'.calls[id].Decided() {
      assert HitAt(longer, |actions|, id, s'.calls[id].key, s'.calls[id].outcome);
    } else if a.Release? && !Probed(actions, id) {
      var n: nat :| HitAt(actions, n, id, s.calls[id].key, s.calls[id].outcome);
      assert longer[..n] == actions[..n];
      assert HitAt(longer, n, id, s.calls[id].key, s.calls[id].outcome);
    }
  }

  ghost predicate AllTraced(actions: seq<Action>, s: State) {
    Made(actions, s) && forall id :: id in s.calls ==> Traced(actions, id, s.calls[id])
  }

  lemma TracedStep(actions: seq<Action>, s: State, a: Action, s': State)
    requires Run(START, actions) == Some(s) && Next(s, a) == Some(s') && AllTraced(actions, s)
    ensures AllTraced(actions + [a], s')
  {
    CallsStay(s, a, s');
    forall id | id in s'.calls ensures Traced(actions + [a], id, s'.calls[id]) {
      if a.Clear? || a.id != id { TracedOther(actions, a, id, s'.calls[id]); } else { TracedActor(actions, s, a, s'); }
    }
  }

  /** Calls are never forgotten, and only the acting one moves. */
  lemma CallsStay(s: State, a: Action, s': State)
    requires Next(s, a) == Some(s')
    ensures forall id :: id in s.calls ==> id in s'.calls
    ensures !a.Clear? ==> a.id in s'.calls
    ensures forall id :: id in s'.calls && (a.Clear? || id != a.id) ==> id in s.calls && s'.calls[id] == s.calls[id]
  {
  }

  lemma {:induction false} RunsTrace(actions: seq<Action>, s: State)
    requires Run(START, actions) == Some(s)
    ensures AllTraced(actions, s)
    decreases |actions|
  {
    if actions != [] {
      var init, a := actions[..|actions| - 1], actions[|actions| - 1];
      assert actions == init + [a];
      RunAppend(START, init, a);
      RunsTrace(init, Run(START, init).value);
      TracedStep(init, Run(START, init).value, a, s);
    }
  }

  /**
   * In every run, for every call that is decided: if its own probe returned a result it returns that very result, or
   * an identity mismatch if the result is for another key; it raises exactly when its probe raised; and a call that did
   * not probe returns, marked as cached, what was stored for its key when it looked.
   */
  lemma OutcomeIs(actions: seq<Action>, s: State, id: nat)
    requires Run(START, actions) == Some(s) && id in s.calls && s.calls[id].Decided()
    ensures Call(id, s.calls[id].key) in actions
    ensures forall v :: ProbeReturns(id, v) in actions ==>
      s.calls[id].outcome == if v.key == s.calls[id].key then Returned(v) else Mismatch
    ensures s.calls[id].outcome == ProbeRaised <==> ProbeRaises(id) in actions
    ensures (forall v :: ProbeReturns(id, v) !in actions) && ProbeRaises(id) !in actions ==>
      exists n :: HitAt(actions, n, id, s.calls[id].key, s.calls[id].outcome)
  {
    RunsTrace(actions, s);
    assert Traced(actions, id, s.calls[id]);
  }

  /** Storing keeps a result exactly when it is available or one of the nine lasting reasons, and nothing else changes. */
  lemma StoreKeeps(s: State, id: nat, s': State, v: Result)
    requires Inv(s) && Next(s, Store(id)) == Some(s') && s.calls[id].Storing? && s.calls[id].result == v
    ensures v.key in s'.values <==>
      v.reason in {Available, PackageNotInstalled, SharedLibraryNotFound, VersionIncompatible, AbiMismatch,
        DeviceUnavailable, ArchUnsupported, CompilerUnavailable, SymbolMissing, DisabledByPolicy}
    ensures v.key in s'.values ==> s'.values[v.key] == v
    ensures forall k :: k != v.key ==> (k in s'.values <==> k in s.values) && (k in s.values ==> s'.values[k] == s.values[k])
    ensures s'.calls[id] == Leaving(v.key, s.calls[id].lock, Returned(v))
  {
    assert CallOk(s, id);
  }

  /** A result that is kept stays, whatever follows but clearing. */
  lemma StoredStays(s: State, id: nat, s': State, v: Result, later: seq<Action>)
    requires Inv(s) && Next(s, Store(id)) == Some(s') && s.calls[id].Storing? && s.calls[id].result == v
    requires v.key in s'.values && Run(s', later).Some? && Clear !in later
    ensures v.key in Run(s', later).value.values && Run(s', later).value.values[v.key] == v
  {
    StoreKeeps(s, id, s', v);
    NextKeepsInv(s, Store(id), s');
    StoredIsFinal(s', later, v.key, DecidedOn(s', v.key));
  }

  // ---- progress ----

  /** A call that has not returned, or the holder of the lock it waits for, can move; probes are assumed to end. */
  lemma NeverStuck(s: State, id: nat) returns (a: Action)
    requires Inv(s) && id in s.calls && !s.calls[id].Done?
    ensures !a.Call? && !a.Clear? && Next(s, a).Some?
  {
    var mover := id;
    if s.calls[id].Waiting? && s.calls[id].lock in s.held { mover := s.held[s.calls[id].lock]; }
    match s.calls[mover]
    case Called(_) => a := LookUp(mover);
    case Missed(_) => a := LockFor(mover);
    case Waiting(_, _) => a := Acquire(mover);
    case Holding(_, _) => a := LookAgain(mover);
    case Probing(_, _) => a := ProbeRaises(mover);
    case Storing(_, _, _) => a := Store(mover);
    case Leaving(_, _, _) => a := Release(mover);
  }

  /** Steps a call can still take at most. */
  function Rank(pc: Pc): nat {
    match pc
    case Called(_) => 7
    case Missed(_) => 6
    case Waiting(_, _) => 5
    case Holding(_, _) => 4
    case Probing(_, _) => 3
    case Storing(_, _, _) => 2
    case Leaving(_, _, _) => 1
    case Done(_, _) => 0
  }

  /** Steps all calls together can still take at most. */
  ghost function Work(calls: map<nat, Pc>): nat
    decreases |calls|
  {
    if calls == map[] then 0
    else
      var id :| id in calls;
      Rank(calls[id]) + Work(calls - {id})
  }

  lemma {:induction false} WorkSplit(calls: map<nat, Pc>, id: nat)
    requires id in calls
    ensures Work(calls) == Rank(calls[id]) + Work(calls - {id})
    decreases |calls|
  {
    var first :| first in calls && Work(calls) == Rank(calls[first]) + Work(calls - {first});
    if first != id {
      WorkSplit(calls - {first}, id);
      WorkSplit(calls - {id}, first);
      assert calls - {first} - {id} == calls - {id} - {first};
    }
  }

  lemma {:induction false} WorkBound(calls: map<nat, Pc>)
    ensures Work(calls) <= 7 * |calls|
    decreases |calls|
  {
    if calls != map[] {
      var id :| id in calls;
      WorkSplit(calls, id);
      assert |calls - {id}| == |calls| - 1;
      WorkBound(calls - {id});
    }
  }

  lemma WorkOfGoto(calls: map<nat, Pc>, id: nat, pc: Pc)
    requires id in calls && Rank(pc) < Rank(calls[id])
    ensures Work(calls[id := pc]) < Work(calls)
  {
    WorkSplit(calls, id);
    WorkSplit(calls[id := pc], id);
    assert calls[id := pc] - {id} == calls - {id};
  }

  /** A step of a call moves that call alone, and onwards. */
  lemma Onwards(s: State, a: Action, s': State)
    requires Next(s, a) == Some(s') && !a.Call? && !a.Clear?
    ensures a.id in s.calls && a.id in s'.calls && Rank(s'.calls[a.id]) < Rank(s.calls[a.id])
    ensures s'.calls == s.calls[a.id := s'.calls[a.id]]
  {
  }

  /** How many steps of a run are taken by calls. */
  function Moves(actions: seq<Action>): nat {
    if actions == [] then 0 else (if actions[0].Clear? then 0 else 1) + Moves(actions[1..])
  }

  predicate NoNewCalls(actions: seq<Action>) {
    forall i :: 0 <= i < |actions| ==> !actions[i].Call?
  }

  /** Without new calls every run, however it interleaves and is cleared, is bounded: seven steps per call. */
  lemma {:induction false} RunsAreBounded(s: State, actions: seq<Action>, s': State)
    requires Run(s, actions) == Some(s') && NoNewCalls(actions)
    ensures Moves(actions) + Work(s'.calls) <= Work(s.calls) <= 7 * |s.calls|
    decreases |actions|
  {
    WorkBound(s.calls);
    if actions != [] {
      var a, mid := actions[0], Next(s, actions[0]).value;
      assert !a.Call?;
      if !a.Clear? {
        Onwards(s, a, mid);
        WorkOfGoto(s.calls, a.id, mid.calls[a.id]);
      }
      RunsAreBounded(mid, actions[1..], s');
    }
  }

  /** Where nothing but a new call or clearing is possible, every call has returned. */
  lemma EndedIsDone(s: State, id: nat)
    requires Inv(s) && id in s.calls
    requires forall a: Action :: !a.Call? && !a.Clear? ==> Next(s, a).None?
    ensures s.calls[id].Done?
  {
    if !s.calls[id].Done? {
      var a := NeverStuck(s, id);
    }
  }

  /** From every reachable state the calls in progress can be run to their end. */
  lemma {:induction false} Drains(s: State) returns (actions: seq<Action>, s': State)
    requires Inv(s)
    ensures Run(s, actions) == Some(s') && |actions| <= Work(s.calls) && NoNewCalls(actions) && Clear !in actions
    ensures s'.calls.Keys == s.calls.Keys && forall id :: id in s'.calls ==> s'.calls[id].Done?
    decreases Work(s.calls)
  {
    if forall id :: id in s.calls ==> s.calls[id].Done? { return [], s; }
    var id :| id in s.calls && !s.calls[id].Done?;
    var a := NeverStuck(s, id);
    var mid := Next(s, a).value;
    NextKeepsInv(s, a, mid);
    Onwards(s, a, mid);
    WorkOfGoto(s.calls, a.id, mid.calls[a.id]);
    var rest;
    rest, s' := Drains(mid);
    actions := [a] + rest;
    assert actions[1..] == rest;
  }
}
