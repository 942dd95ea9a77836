/**
 * What really happened to tensors and storages, independent of any address: the log of
 * recorded producers and writers, and the latest of each read off that log.
 */
module CaptureLog {
  import opened Options

  /** A storage instance; the allocator may give its key to another instance once it is dead. */
  datatype Storage = Storage(uid: nat, key: nat)

  /** A tensor instance; its address may be reused once it is dead. No storage means zero bytes or no identity. */
  datatype Tensor = Tensor(uid: nat, addr: nat, storage: Option<Storage>)

  /** `Forgotten` marks the moment a storage is met with none of its known tensors alive. */
  datatype Event =
    | Produced(node: nat, tensor: Tensor)
    | Written(node: nat, storage: Storage)
    | Forgotten(storage: Storage)

  type Log = seq<Event>

  datatype Reason = Data | StorageWrite

  type Dependency = (nat, Reason)

  ghost function LastProducer(log: Log, t: Tensor): Option<nat> {
    if log == [] then None
    else
      var last := log[|log| - 1];
      if last.Produced? && last.tensor == t then Some(last.node) else LastProducer(log[..|log| - 1], t)
  }

  /** The latest writer of a storage instance. */
  ghost function LastWriter(log: Log, s: Storage): Option<nat> {
    if log == [] then None
    else
      var last := log[|log| - 1];
      if last.Written? && last.storage == s then Some(last.node) else LastWriter(log[..|log| - 1], s)
  }

  /** The latest writer since the storage was last forgotten. */
  ghost function Remembered(log: Log, s: Storage): Option<nat> {
    if log == [] then None
    else
      var last := log[|log| - 1];
      if last.Written? && last.storage == s then Some(last.node)
      else if last == Forgotten(s) then None
      else Remembered(log[..|log| - 1], s)
  }

  /** What is remembered of a storage is its latest writer. */
  lemma {:induction false} RememberedIsLast(log: Log, s: Storage)
    ensures Remembered(log, s).Some? ==> LastWriter(log, s) == Remembered(log, s)
    decreases |log|
  {
    if log != [] { RememberedIsLast(log[..|log| - 1], s); }
  }

  /** What an event leaves of the writer remembered for a storage. */
  ghost function AfterEvent(writer: Option<nat>, s: Storage, e: Event): Option<nat> {
    if e.Written? && e.storage == s then Some(e.node) else if e == Forgotten(s) then None else writer
  }

  lemma Appended(log: Log, e: Event)
    ensures forall t ::
      LastProducer(log + [e], t) == if e.Produced? && e.tensor == t then Some(e.node) else LastProducer(log, t)
    ensures forall s ::
      LastWriter(log + [e], s) == if e.Written? && e.storage == s then Some(e.node) else LastWriter(log, s)
    ensures forall s :: Remembered(log + [e], s) == AfterEvent(Remembered(log, s), s, e)
  {
    assert (log + [e])[..|log + [e]| - 1] == log;
  }

  /** What using `t` depends on, by instance: its latest producer and the remembered writer of its storage. */
  ghost function UsesOf(log: Log, t: Tensor): set<Dependency> {
    var producer, writer := LastProducer(log, t), if t.storage.None? then None else Remembered(log, t.storage.value);
    (if producer.Some? then {(producer.value, Data)} else {}) +
      (if writer.Some? then {(writer.value, StorageWrite)} else {})
  }

  ghost function SetOf(tensors: seq<Tensor>): set<Tensor> { set t | t in tensors }

  /** What the first `n` arguments of an operation depend on. */
  ghost function UsesFirst(log: Log, args: seq<Tensor>, n: nat): set<Dependency>
    requires n <= |args|
  {
    if n == 0 then {} else UsesFirst(log, args, n - 1) + UsesOf(log, args[n - 1])
  }

  /** What an operation on `args` depends on. */
  ghost function Uses(log: Log, args: seq<Tensor>): set<Dependency> { UsesFirst(log, args, |args|) }

  lemma {:induction false} UsesKept(log: Log, log': Log, args: seq<Tensor>, n: nat)
    requires n <= |args| && forall j :: 0 <= j < n ==> Same(log, log', args[j])
    ensures UsesFirst(log', args, n) == UsesFirst(log, args, n)
    decreases n
  {
    if n > 0 {
      assert Same(log, log', args[n - 1]);
      UsesKept(log, log', args, n - 1);
    }
  }

  lemma UsesMore(log: Log, log': Log, args: seq<Tensor>, n: nat, deps: set<Dependency>)
    requires n < |args| && (forall j :: 0 <= j < n ==> Same(log, log', args[j])) && deps == UsesFirst(log, args, n)
    ensures deps + UsesOf(log', args[n]) == UsesFirst(log', args, n + 1)
  {
    UsesKept(log, log', args, n);
  }

  lemma {:induction false} UsesAreBacked(log: Log, args: seq<Tensor>, n: nat, d: Dependency)
    requires n <= |args| && d in UsesFirst(log, args, n)
    ensures Backed(log, SetOf(args), d)
    decreases n
  {
    if d in UsesOf(log, args[n - 1]) {
      UsedIsBacked(log, SetOf(args), args[n - 1], d);
    } else {
      UsesAreBacked(log, args, n - 1, d);
    }
  }

  /** Two logs that agree on everything using `t` depends on. */
  ghost predicate Same(log: Log, log': Log, t: Tensor) {
    && LastProducer(log', t) == LastProducer(log, t)
    && (t.storage.Some? ==> Remembered(log', t.storage.value) == Remembered(log, t.storage.value))
  }

  /** The same without forgetting. */
  ghost predicate Backed(log: Log, args: set<Tensor>, d: Dependency) {
    match d.1
    case Data => exists t :: t in args && LastProducer(log, t) == Some(d.0)
    case StorageWrite => exists t :: t in args && t.storage.Some? && LastWriter(log, t.storage.value) == Some(d.0)
  }

  lemma UsedIsBacked(log: Log, args: set<Tensor>, t: Tensor, d: Dependency)
    requires t in args && d in UsesOf(log, t)
    ensures Backed(log, args, d)
  {
    if t.storage.Some? { RememberedIsLast(log, t.storage.value); }
  }

  /** Forgetting does not unmake a dependency. */
  lemma BackedOnForgetting(log: Log, s: Storage, args: set<Tensor>, d: Dependency)
    requires Backed(log, args, d)
    ensures Backed(log + [Forgotten(s)], args, d)
  {
    Appended(log, Forgotten(s));
  }

  /** Nodes in the log exist. */
  ghost predicate Bounded(log: Log, nodes: nat) {
    forall i :: 0 <= i < |log| && !log[i].Forgotten? ==> log[i].node < nodes
  }

  lemma {:induction false} BackedIsBounded(log: Log, nodes: nat, args: set<Tensor>, d: Dependency)
    requires Bounded(log, nodes) && Backed(log, args, d)
    ensures d.0 < nodes
    decreases |log|
  {
    if log == [] { assert false; }
    var init, last := log[..|log| - 1], log[|log| - 1];
    if last.Forgotten? || last.node != d.0 {
      assert Backed(init, args, d);
      BackedIsBounded(init, nodes, args, d);
    } else {
      assert log[|log| - 1].node < nodes;
    }
  }

  /** Every tensor named in the log was alive at some time. */
  ghost predicate Mentions(log: Log, known: set<Tensor>) {
    forall i :: 0 <= i < |log| && log[i].Produced? ==> log[i].tensor in known
  }

  lemma {:induction false} Unmentioned(log: Log, known: set<Tensor>, t: Tensor)
    requires Mentions(log, known) && t !in known
    ensures LastProducer(log, t) == None
    decreases |log|
  {
    if log != [] {
      assert log[|log| - 1].Produced? ==> log[|log| - 1].tensor in known;
      Unmentioned(log[..|log| - 1], known, t);
    }
  }

  /** Live tensors have distinct addresses, live storages distinct keys. */
  ghost predicate Distinct(live: set<Tensor>) {
    && (forall t, u :: t in live && u in live && t.addr == u.addr ==> t == u)
    && (forall t, u ::
          t in live && u in live && t.storage.Some? && u.storage.Some? &&
          t.storage.value.key == u.storage.value.key ==>
            t.storage == u.storage)
  }
}

/** The collector, which knows tensors and storages only by addresses and keys that may be reused. */
module Capture {
  import opened Options
  import opened CaptureLog

  datatype NodeKind = External | Operator | OpaqueModule

  datatype Edge = Edge(source: nat, target: nat, reason: Reason)

  /** A module call in progress: nodes at entry and the dependencies of its arguments. */
  datatype Frame = Frame(before: nat, dependencies: set<Dependency>)

  /** What happens to a collector; `after` are the tensors alive afterwards. */
  datatype Call =
    | Operate(args: seq<Tensor>, outputs: seq<Tensor>, writes: seq<Tensor>, after: set<Tensor>)
    | Begin(args: seq<Tensor>)
    | End(outputs: seq<Tensor>)
    | Pass(after: set<Tensor>)
    | Over

  /** The tensors alive after a call. */
  function LiveAfter(call: Call, live: set<Tensor>): set<Tensor> {
    match call
    case Operate(_, _, _, after) => after
    case Pass(after) => after
    case _ => live
  }

  /** The world's rules: calls use live tensors, live ones are told apart by address and key, and the dead stay dead. */
  ghost predicate Allowed(call: Call, live: set<Tensor>, gone: set<Tensor>) {
    && Distinct(LiveAfter(call, live)) && LiveAfter(call, live) !! gone
    && match call
       case Operate(args, outputs, writes, after) =>
         && (forall t :: t in args ==> t in live)
         && (forall t :: t in outputs ==> t in after) && (forall t :: t in writes ==> t in after)
       case Begin(args) => forall t :: t in args ==> t in live
       case End(outputs) => forall t :: t in outputs ==> t in live
       case _ => true
  }

  ghost predicate Possible(calls: seq<Call>, live: set<Tensor>, gone: set<Tensor>)
    decreases |calls|
  {
    calls != [] ==>
      && Allowed(calls[0], live, gone)
      && Possible(calls[1..], LiveAfter(calls[0], live), gone + (live - LiveAfter(calls[0], live)))
  }

  type TensorTable = map<nat, (Tensor, Option<nat>)>

  /** Weak references to the tensors seen with a storage key, by address. */
  type Seen = map<nat, map<nat, Tensor>>

  function Known(tensors: TensorTable, t: Tensor): Option<nat> {
    if t.addr in tensors && tensors[t.addr].0 == t then tensors[t.addr].1 else None
  }

  function Writer(writers: map<nat, nat>, key: nat): Option<nat> {
    if key in writers then Some(writers[key]) else None
  }

  /** References with one more; past 128 only the live ones stay. */
  function Refreshed(refs: map<nat, Tensor>, t: Tensor, live: set<Tensor>): map<nat, Tensor> {
    var more := refs[t.addr := t];
    if |more| > 128 then map a | a in more && more[a] in live :: more[a] else more
  }

  // ---- what ties the tables to the log ----

  ghost predicate TensorsAgree(tensors: TensorTable, log: Log, live: set<Tensor>, gone: set<Tensor>) {
    && (forall a :: a in tensors ==> tensors[a].0 in live + gone)
    && (forall t :: t in live ==> Known(tensors, t) == LastProducer(log, t))
    && Mentions(log, live + gone)
  }

  /** References held under a key: to tensors, by their address, whose storage has that key. */
  ghost predicate RefsOk(refs: map<nat, Tensor>, key: nat, live: set<Tensor>, gone: set<Tensor>) {
    forall a :: a in refs ==>
      (refs[a] in live || refs[a] in gone) && refs[a].addr == a && refs[a].storage.Some? &&
        refs[a].storage.value.key == key
  }

  /** `writer` is what the log remembers for the storage of any live tensor among `refs`. */
  ghost predicate RefsAgree(refs: map<nat, Tensor>, writer: Option<nat>, log: Log, live: set<Tensor>) {
    forall a :: a in refs && refs[a] in live && refs[a].storage.Some? ==>
      writer == Remembered(log, refs[a].storage.value)
  }

  lemma RefreshedOk(refs: map<nat, Tensor>, t: Tensor, key: nat, writer: Option<nat>, log: Log, live: set<Tensor>,
      gone: set<Tensor>)
    requires RefsOk(refs, key, live, gone) && RefsAgree(refs, writer, log, live)
    requires t in live && t.storage.Some? && t.storage.value.key == key && writer == Remembered(log, t.storage.value)
    ensures RefsOk(Refreshed(refs, t, live), key, live, gone) && RefsAgree(Refreshed(refs, t, live), writer, log, live)
    ensures t.addr in Refreshed(refs, t, live) && Refreshed(refs, t, live)[t.addr] == t
  {
  }

  /** Live tensors that were looked at are still known under their keys. */
  ghost predicate MetOk(met: set<Tensor>, seen: Seen, live: set<Tensor>, gone: set<Tensor>) {
    && met <= live + gone
    && (forall u :: u in met && u in live && u.storage.Some? ==> Registered(seen, u))
    && (forall key, a :: key in seen && a in seen[key] ==> seen[key][a] in met)
  }

  /** When nothing alive is known under a storage's key, its tensors met so far are all dead. */
  lemma MetForget(met: set<Tensor>, seen: Seen, live: set<Tensor>, gone: set<Tensor>, s: Storage)
    requires MetOk(met, seen, live, gone)
    requires s.key in seen ==> forall a :: a in seen[s.key] ==> seen[s.key][a] !in live
    ensures MetOk(met, seen[s.key := map[]], live, gone) && Forgettable(live, met, s)
  {
    forall u | u in met && u in live && u.storage.Some?
      ensures Registered(seen[s.key := map[]], u) && u.storage.value.key != s.key
    {
      assert Registered(seen, u);
    }
  }

  lemma MetMore(met: set<Tensor>, seen: Seen, live: set<Tensor>, gone: set<Tensor>, t: Tensor, k: nat)
    requires MetOk(met, seen, live, gone) && t in live && t.storage.Some? && t.storage.value.key == k && k in seen
    requires Distinct(live)
    ensures Registered(seen[k := Refreshed(seen[k], t, live)], t)
    ensures MetOk(met + {t}, seen[k := Refreshed(seen[k], t, live)], live, gone)
    ensures forall u :: u in live && Registered(seen, u) ==> Registered(seen[k := Refreshed(seen[k], t, live)], u)
  {
  }

  ghost predicate SeenOk(seen: Seen, live: set<Tensor>, gone: set<Tensor>) {
    forall key :: key in seen ==> RefsOk(seen[key], key, live, gone)
  }

  ghost predicate WritersAgree(writers: map<nat, nat>, seen: Seen, log: Log, live: set<Tensor>) {
    forall key :: key in seen ==> RefsAgree(seen[key], Writer(writers, key), log, live)
  }

  /** One key's references may be exchanged for others that are as good. */
  lemma TablesKept(seen: Seen, writers: map<nat, nat>, key: nat, refs: map<nat, Tensor>, log: Log, live: set<Tensor>,
      gone: set<Tensor>)
    requires SeenOk(seen, live, gone) && WritersAgree(writers, seen, log, live)
    requires RefsOk(refs, key, live, gone) && RefsAgree(refs, Writer(writers, key), log, live)
    ensures SeenOk(seen[key := refs], live, gone) && WritersAgree(writers, seen[key := refs], log, live)
  {
  }

  /** A key without living references may be forgotten. */
  lemma TablesForgotten(seen: Seen, writers: map<nat, nat>, s: Storage, log: Log, live: set<Tensor>, gone: set<Tensor>)
    requires SeenOk(seen, live, gone) && WritersAgree(writers, seen, log, live)
    ensures SeenOk(seen[s.key := map[]], live, gone)
    ensures WritersAgree(writers - {s.key}, seen[s.key := map[]], log + [Forgotten(s)], live)
  {
    Appended(log, Forgotten(s));
    forall key | key in seen && key != s.key
      ensures RefsAgree(seen[key], Writer(writers - {s.key}, key), log + [Forgotten(s)], live)
    {
      assert RefsAgree(seen[key], Writer(writers, key), log, live) && RefsOk(seen[key], key, live, gone);
    }
  }

  ghost predicate EdgesOk(edges: seq<Edge>, keys: set<Edge>, log: Log, moments: seq<nat>, consumed: seq<set<Tensor>>) {
    && |moments| == |consumed|
    && (forall n :: 0 <= n < |moments| ==> moments[n] <= |log|)
    && (forall e :: e in edges <==> e in keys)
    && (forall i, j :: 0 <= i < j < |edges| ==> edges[i] != edges[j])
    && (forall e :: e in keys ==> EdgeOk(e, log, moments, consumed))
  }

  /**
   * An edge goes up, and its source was the latest producer or writer for one of the target's arguments when the
   * target was made.
   */
  ghost predicate EdgeOk(e: Edge, log: Log, moments: seq<nat>, consumed: seq<set<Tensor>>)
    requires |moments| == |consumed| && forall n :: 0 <= n < |moments| ==> moments[n] <= |log|
  {
    && e.source < e.target < |moments|
    && Backed(log[..moments[e.target]], consumed[e.target], (e.source, e.reason))
  }

  /** While no node was made since entry, a frame's dependencies are still current. */
  ghost predicate FrameOk(f: Frame, args: set<Tensor>, log: Log, nodes: nat) {
    f.before <= nodes && (f.before == nodes ==> forall d :: d in f.dependencies ==> Backed(log, args, d))
  }

  ghost predicate StackOk(stack: seq<Frame>, held: seq<set<Tensor>>, log: Log, nodes: nat) {
    |stack| == |held| && forall i :: 0 <= i < |stack| ==> FrameOk(stack[i], held[i], log, nodes)
  }

  // ---- what calls do ----

  /** What was recorded so far, and the tensors looked at. */
  datatype Book = Book(log: Log, met: set<Tensor>)

  /** Everything about a collector that its calls are judged by. */
  datatype World = World(
    live: set<Tensor>, book: Book, nodes: seq<NodeKind>, edges: seq<Edge>, moments: seq<nat>,
    consumed: seq<set<Tensor>>, truncated: bool, stack: seq<Frame>, held: seq<set<Tensor>>,
    maxNodes: nat, maxEdges: nat)

  /** None of the tensors of a storage met so far is alive. */
  ghost predicate Forgettable(live: set<Tensor>, met: set<Tensor>, s: Storage) {
    forall u :: u in live && u in met ==> u.storage != Some(s)
  }

  /** Meeting a tensor whose storage nothing alive is known of forgets what was written to it. */
  ghost function Looked(live: set<Tensor>, b: Book, t: Tensor): Book {
    if t.storage.Some? && Forgettable(live, b.met, t.storage.value) then
      Book(b.log + [Forgotten(t.storage.value)], b.met + {t})
    else b.(met := b.met + {t})
  }

  /** A tensor without a recorded producer gets an external node, which consumes nothing, up to the limit. */
  ghost function Sought(w: World, t: Tensor): World {
    if LastProducer(w.book.log, t).Some? then w
    else if |w.nodes| >= w.maxNodes then w.(truncated := true)
    else
      w.(book := w.book.(log := w.book.log + [Produced(|w.nodes|, t)]), nodes := w.nodes + [External],
        moments := w.moments + [|w.book.log|], consumed := w.consumed + [{}])
  }

  /** The first `n` arguments of a call are looked up. */
  ghost function LookedUp(w: World, args: seq<Tensor>, n: nat): World
    requires n <= |args|
  {
    if n == 0 then w else LookedUpOne(LookedUp(w, args, n - 1), args[n - 1])
  }

  ghost function Met(w: World, t: Tensor): World { w.(book := Looked(w.live, w.book, t)) }

  ghost function LookedUpOne(w: World, t: Tensor): World {
    Met(Sought(w, t), t)
  }

  /** Node `r` becomes the producer of its first `n` outputs. */
  ghost function Noted(live: set<Tensor>, b: Book, r: nat, outputs: seq<Tensor>, n: nat): Book
    requires n <= |outputs|
  {
    if n == 0 then b else NotedOne(live, Noted(live, b, r, outputs, n - 1), r, outputs[n - 1])
  }

  ghost function NotedOne(live: set<Tensor>, b: Book, r: nat, t: Tensor): Book {
    Looked(live, b.(log := b.log + [Produced(r, t)]), t)
  }

  /** Node `r` becomes the writer of the storages of its first `n` written tensors. */
  ghost function WrittenAll(live: set<Tensor>, b: Book, r: nat, writes: seq<Tensor>, n: nat): Book
    requires n <= |writes|
  {
    if n == 0 then b else WrittenTo(live, WrittenAll(live, b, r, writes, n - 1), r, writes[n - 1])
  }

  ghost function WrittenTo(live: set<Tensor>, b: Book, r: nat, t: Tensor): Book {
    var looked := Looked(live, b, t);
    if t.storage.None? then looked else looked.(log := looked.log + [Written(r, t.storage.value)])
  }

  /** The edges into node `r` are those of its dependencies; some are missing only at the limit. */
  ghost predicate Linked(w: World, edges: seq<Edge>, truncated: bool, r: nat, deps: set<Dependency>) {
    && w.edges <= edges && (w.truncated ==> truncated) && (truncated && !w.truncated ==> |edges| >= w.maxEdges)
    && (forall e :: e in edges && e !in w.edges ==> e.target == r && (e.source, e.reason) in deps)
    && (!truncated ==> forall d :: d in deps ==> Edge(d.0, r, d.1) in edges)
  }

  /** The world with a new node and its edges. */
  ghost function WithNode(w: World, kind: NodeKind, args: set<Tensor>, edges: seq<Edge>, truncated: bool): World {
    w.(nodes := w.nodes + [kind], moments := w.moments + [|w.book.log|], consumed := w.consumed + [args],
      edges := edges, truncated := truncated)
  }

  /** Recording makes a node with its arguments, its edges, its outputs and its writes, or stops at the limit. */
  ghost predicate Recorded(w: World, w': World, kind: NodeKind, deps: set<Dependency>, args: set<Tensor>,
      outputs: seq<Tensor>, writes: seq<Tensor>) {
    if |w.nodes| >= w.maxNodes then w' == w.(truncated := true)
    else
      && Linked(w, w'.edges, w'.truncated, |w.nodes|, deps)
      && var noted := Noted(w.live, w.book, |w.nodes|, outputs, |outputs|);
         w' == WithNode(w, kind, args, w'.edges, w'.truncated).(
                 book := WrittenAll(w.live, noted, |w.nodes|, writes, |writes|))
  }

  /** What a call does to the world. */
  ghost predicate Happened(call: Call, w: World, w': World) {
    match call
    case Operate(args, outputs, writes, after) =>
      if w.truncated then w' == w.(live := after)
      else
        var mid := LookedUp(w, args, |args|);
        Recorded(mid.(live := after), w', Operator, Uses(mid.book.log, args), SetOf(args), outputs, writes)
    case Begin(args) =>
      var mid := LookedUp(w, args, |args|);
      w' == mid.(stack := mid.stack + [Frame(|mid.nodes|, Uses(mid.book.log, args))], held := mid.held + [SetOf(args)])
    case End(outputs) =>
      if w.stack == [] || |w.held| != |w.stack| then w' == w
      else
        var last := |w.stack| - 1;
        var rest := w.(stack := w.stack[..last], held := w.held[..last]);
        if outputs != [] && w.stack[last].before == |w.nodes| && !w.truncated then
          Recorded(rest, w', OpaqueModule, w.stack[last].dependencies, w.held[last], outputs, [])
        else w' == rest
    case Pass(after) => w' == w.(live := after)
    case Over => w' == w.(stack := [], held := [])
  }

  // ---- steps of the log ----

  lemma EdgesKept(edges: seq<Edge>, keys: set<Edge>, log: Log, e: Event, moments: seq<nat>, consumed: seq<set<Tensor>>)
    requires EdgesOk(edges, keys, log, moments, consumed)
    ensures EdgesOk(edges, keys, log + [e], moments, consumed)
  {
    forall x | x in keys ensures EdgeOk(x, log + [e], moments, consumed) {
      assert EdgeOk(x, log, moments, consumed);
      assert (log + [e])[..moments[x.target]] == log[..moments[x.target]];
    }
  }

  lemma EdgesKeptOnNode(edges: seq<Edge>, keys: set<Edge>, log: Log, moments: seq<nat>, consumed: seq<set<Tensor>>,
      args: set<Tensor>)
    requires EdgesOk(edges, keys, log, moments, consumed)
    ensures EdgesOk(edges, keys, log, moments + [|log|], consumed + [args])
  {
    forall x | x in keys ensures EdgeOk(x, log, moments + [|log|], consumed + [args]) {
      assert EdgeOk(x, log, moments, consumed);
    }
  }

  lemma StackKeptOnForgetting(stack: seq<Frame>, held: seq<set<Tensor>>, log: Log, nodes: nat, s: Storage)
    requires StackOk(stack, held, log, nodes)
    ensures StackOk(stack, held, log + [Forgotten(s)], nodes)
  {
    forall i | 0 <= i < |stack| ensures FrameOk(stack[i], held[i], log + [Forgotten(s)], nodes) {
      assert FrameOk(stack[i], held[i], log, nodes);
      if stack[i].before == nodes {
        forall d | d in stack[i].dependencies ensures Backed(log + [Forgotten(s)], held[i], d) {
          BackedOnForgetting(log, s, held[i], d);
        }
      }
    }
  }

  /** A new node makes every frame stale, whatever is logged with it. */
  lemma StackKeptOnNode(stack: seq<Frame>, held: seq<set<Tensor>>, log: Log, log': Log, nodes: nat, nodes': nat)
    requires StackOk(stack, held, log, nodes) && nodes < nodes'
    ensures StackOk(stack, held, log', nodes')
  {
    forall i | 0 <= i < |stack| ensures FrameOk(stack[i], held[i], log', nodes') {
      assert FrameOk(stack[i], held[i], log, nodes);
    }
  }

  class Collector {
    const maxNodes: nat
    const maxEdges: nat
    var nodes: seq<NodeKind>
    var edges: seq<Edge>
    var edgeKeys: set<Edge>
    var tensors: TensorTable
    var writers: map<nat, nat>
    var seen: Seen
    var stack: seq<Frame>
    var truncated: bool
    /** Everything that was recorded, by instance; the moment each node was made and the tensors it consumed. */
    ghost var log: Log
    ghost var moments: seq<nat>
    ghost var consumed: seq<set<Tensor>>
    ghost var held: seq<set<Tensor>>
    ghost var gone: set<Tensor>
    ghost var met: set<Tensor>

    ghost function Snap(live: set<Tensor>): World
      reads this
    {
      World(live, Book(log, met), nodes, edges, moments, consumed, truncated, stack, held, maxNodes, maxEdges)
    }

    ghost predicate Valid(live: set<Tensor>)
      reads this
    {
      && Distinct(live) && live !! gone
      && TensorsAgree(tensors, log, live, gone)
      && SeenOk(seen, live, gone) && WritersAgree(writers, seen, log, live)
      && |moments| == |nodes| && Bounded(log, |nodes|)
      && (forall a :: a in tensors && tensors[a].1.None? ==> |nodes| >= maxNodes && truncated)
      && EdgesOk(edges, edgeKeys, log, moments, consumed)
      && StackOk(stack, held, log, |nodes|)
      && MetOk(met, seen, live, gone)
    }

    constructor (maxNodes: nat, maxEdges: nat)
      ensures this.maxNodes == maxNodes && this.maxEdges == maxEdges && nodes == [] && edges == [] && log == [] &&
        !truncated
      ensures forall live :: Distinct(live) ==> Valid(live)
    {
      this.maxNodes, this.maxEdges := maxNodes, maxEdges;
      nodes, edges, edgeKeys, tensors, writers, seen, stack, truncated := [], [], {}, map[], map[], map[], [], false;
      log, moments, consumed, held, gone, met := [], [], [], [], {}, {};
    }

    /** The world moves on: tensors die, and new ones may take their addresses and keys. */
    ghost method Age(live: set<Tensor>, live': set<Tensor>)
      requires Valid(live) && Distinct(live') && live' !! gone
      modifies this`gone
      ensures Valid(live') && gone == old(gone) + (live - live')
    {
      gone := gone + (live - live');
      forall t | t in live' ensures Known(tensors, t) == LastProducer(log, t) {
        if t !in live { Unmentioned(log, live + old(gone), t); }
      }
    }

    /** Drops what was known under a key none of whose tensors is alive. */
    method Forget(s: Storage, live: set<Tensor>)
      requires Valid(live)
      requires s.key in seen ==> forall a :: a in seen[s.key] ==> seen[s.key][a] !in live
      modifies this`seen, this`writers, this`log
      ensures Valid(live) && log == old(log) + [Forgotten(s)]
      ensures seen == old(seen)[s.key := map[]] && s.key !in writers && Forgettable(live, met, s)
    {
      Appended(log, Forgotten(s));
      EdgesKept(edges, edgeKeys, log, Forgotten(s), moments, consumed);
      StackKeptOnForgetting(stack, held, log, |nodes|, s);
      MetForget(met, seen, live, gone, s);
      TablesForgotten(seen, writers, s, log, live, gone);
      writers := writers - {s.key};
      seen := seen[s.key := map[]];
      log := log + [Forgotten(s)];
    }

    /** The known ones of a key with one more tensor, thinned out when they are many. */
    method WithOneMore(t: Tensor, k: nat, live: set<Tensor>) returns (seen': Seen)
      requires Valid(live) && t in live && t.storage.Some? && t.storage.value.key == k && k in seen
      requires Writer(writers, k) == Remembered(log, t.storage.value)
      ensures SeenOk(seen', live, gone) && WritersAgree(writers, seen', log, live)
      ensures MetOk(met + {t}, seen', live, gone) && Registered(seen', t)
      ensures forall u :: u in live && Registered(seen, u) ==> Registered(seen', u)
    {
      RefreshedOk(seen[k], t, k, Writer(writers, k), log, live, gone);
      MetMore(met, seen, live, gone, t, k);
      TablesKept(seen, writers, k, Refreshed(seen[k], t, live), log, live, gone);
      seen' := seen[k := Refreshed(seen[k], t, live)];
    }

    /** Adds a tensor to the known ones of its key. */
    method Register(t: Tensor, k: nat, live: set<Tensor>)
      requires Valid(live) && t in live && t.storage.Some? && t.storage.value.key == k && k in seen
      requires Writer(writers, k) == Remembered(log, t.storage.value)
      modifies this`seen, this`met
      ensures Valid(live) && Registered(seen, t) && met == old(met) + {t}
      ensures forall u :: u in live && Registered(old(seen), u) ==> Registered(seen, u)
    {
      var seen' := WithOneMore(t, k, live);
      seen, met := seen', met + {t};
    }

    /** Drops what dead tensors left under the key of a live tensor's storage. */
    method Refresh(t: Tensor, k: nat, live: set<Tensor>)
      requires Valid(live) && t in live && t.storage.Some? && k == t.storage.value.key
      modifies this`seen, this`writers, this`log
      ensures Valid(live) && k in seen && Writer(writers, k) == Remembered(log, t.storage.value)
      ensures Book(log, old(met) + {t}) == Looked(live, old(Book(log, met)), t)
      ensures forall u :: u in live && old(Settled(u)) ==> Settled(u) && Same(old(log), log, u)
    {
      if k !in seen || forall a :: a in seen[k] ==> seen[k][a] !in live {
        Forget(t.storage.value, live);
        Appended(old(log), Forgotten(t.storage.value));
      } else {
        ghost var a :| a in seen[k] && seen[k][a] in live;
        KnownStorage(t, k, a, live);
      }
    }

    /** A live tensor known under the key of another live one shares its storage. */
    lemma KnownStorage(t: Tensor, k: nat, a: nat, live: set<Tensor>)
      requires Valid(live) && t in live && t.storage.Some? && k == t.storage.value.key
      requires k in seen && a in seen[k] && seen[k][a] in live
      ensures Writer(writers, k) == Remembered(log, t.storage.value) && !Forgettable(live, met, t.storage.value)
    {
      assert RefsOk(seen[k], k, live, gone) && RefsAgree(seen[k], Writer(writers, k), log, live);
      assert seen[k][a].storage == t.storage && seen[k][a] in met;
    }

    /** The key of a tensor's storage; what a dead instance left under that key is dropped first. */
    method StorageOf(t: Tensor, live: set<Tensor>) returns (key: Option<nat>)
      requires Valid(live) && t in live
      modifies this`seen, this`writers, this`log, this`met
      ensures Valid(live) && Book(log, met) == Looked(live, old(Book(log, met)), t)
      ensures key == if t.storage.None? then None else Some(t.storage.value.key)
      ensures key.Some? ==> Writer(writers, key.value) == Remembered(log, t.storage.value) && Registered(seen, t)
      ensures forall u :: u in live && old(Settled(u)) ==> Settled(u) && Same(old(log), log, u)
    {
      if t.storage.None? {
        met := met + {t};
        return None;
      }
      var k := t.storage.value.key;
      Refresh(t, k, live);
      Register(t, k, live);
      key := Some(k);
    }

    /** A new node, or none past the limit. */
    method Node(kind: NodeKind, live: set<Tensor>, ghost args: set<Tensor>) returns (r: Option<nat>)
      requires Valid(live)
      modifies this`nodes, this`truncated, this`moments, this`consumed
      ensures Valid(live)
      ensures |old(nodes)| >= maxNodes ==>
        r == None && nodes == old(nodes) && truncated && moments == old(moments) && consumed == old(consumed)
      ensures |old(nodes)| < maxNodes ==>
        && r == Some(|old(nodes)|) && nodes == old(nodes) + [kind] && truncated == old(truncated)
        && moments == old(moments) + [|log|] && consumed == old(consumed) + [args]
    {
      if |nodes| >= maxNodes {
        truncated := true;
        return None;
      }
      EdgesKeptOnNode(edges, edgeKeys, log, moments, consumed, args);
      StackKeptOnNode(stack, held, log, log, |nodes|, |nodes| + 1);
      r := Some(|nodes|);
      nodes, moments, consumed := nodes + [kind], moments + [|log|], consumed + [args];
    }

    /** No frame can still rely on the log: a node was made since each was entered. */
    ghost predicate Stale()
      reads this`stack, this`nodes
    {
      forall i :: 0 <= i < |stack| ==> stack[i].before < |nodes|
    }

    /** Remembers `node` as the producer of a live tensor, under its address. */
    method Produce(t: Tensor, node: nat, live: set<Tensor>)
      requires Valid(live) && t in live && node < |nodes| && Stale()
      modifies this`tensors, this`log
      ensures Valid(live) && log == old(log) + [Produced(node, t)]
    {
      Appended(log, Produced(node, t));
      EdgesKept(edges, edgeKeys, log, Produced(node, t), moments, consumed);
      tensors := tensors[t.addr := (t, Some(node))];
      log := log + [Produced(node, t)];
    }

    /** The producer of a live tensor: the latest recorded one of that very tensor, or a new external node. */
    method Producer(t: Tensor, live: set<Tensor>) returns (r: Option<nat>)
      requires Valid(live) && t in live
      modifies this`nodes, this`truncated, this`moments, this`consumed, this`tensors, this`log
      ensures Valid(live) && r == LastProducer(log, t) && (r.None? ==> |nodes| >= maxNodes)
      ensures Snap(live) == Sought(old(Snap(live)), t)
      ensures forall u :: u in live && old(Settled(u)) ==> Settled(u) && Same(old(log), log, u)
    {
      if t.addr in tensors && tensors[t.addr].0 == t { return tensors[t.addr].1; }
      ghost var w := Snap(live);
      r := NewProducer(t, live);
      SoughtKeeps(w, t);
    }

    /** A new external node for a live tensor that has none, or none past the limit. */
    method NewProducer(t: Tensor, live: set<Tensor>) returns (r: Option<nat>)
      requires Valid(live) && t in live && LastProducer(log, t).None?
      modifies this`nodes, this`truncated, this`moments, this`consumed, this`tensors, this`log
      ensures Valid(live) && r == LastProducer(log, t) && (r.None? ==> |nodes| >= maxNodes)
      ensures Snap(live) == Sought(old(Snap(live)), t)
    {
      r := Node(External, live, {});
      if r.Some? {
        Appended(log, Produced(r.value, t));
        Produce(t, r.value, live);
      } else {
        tensors := tensors[t.addr := (t, None)];
      }
    }

    /** A tensor whose producer and storage later uses leave alone. */
    ghost predicate Settled(u: Tensor)
      reads this`seen, this`log, this`nodes
    {
      (u.storage.Some? ==> Registered(seen, u)) && (LastProducer(log, u).Some? || |nodes| >= maxNodes)
    }

    /** What one argument depends on. */
    method Depend(t: Tensor, live: set<Tensor>) returns (deps: set<Dependency>)
      requires Valid(live) && t in live
      modifies this`nodes, this`truncated, this`moments, this`consumed, this`tensors, this`log, this`seen,
               this`writers, this`met
      ensures Valid(live) && Settled(t) && deps == UsesOf(log, t)
      ensures Snap(live) == LookedUpOne(old(Snap(live)), t)
      ensures forall u :: u in live && old(Settled(u)) ==> Settled(u) && Same(old(log), log, u)
    {
      deps := {};
      var producer := Producer(t, live);
      if producer.Some? { deps := deps + {(producer.value, Data)}; }
      LookedKeepsProducers(live, Book(log, met), t);
      var key := StorageOf(t, live);
      if key.Some? && key.value in writers { deps := deps + {(writers[key.value], StorageWrite)}; }
    }

    /** What the arguments of a call depend on. */
    method Dependencies(args: seq<Tensor>, live: set<Tensor>) returns (deps: set<Dependency>)
      requires Valid(live) && forall t :: t in args ==> t in live
      modifies this`nodes, this`truncated, this`moments, this`consumed, this`tensors, this`log, this`seen,
               this`writers, this`met
      ensures Valid(live) && deps == Uses(log, args) && Snap(live) == LookedUp(old(Snap(live)), args, |args|)
    {
      deps := {};
      ghost var stages := LookedStages(Snap(live), args, |args|);
      for i := 0 to |args|
        invariant Valid(live) && Resolved(args, i, deps) && Snap(live) == stages[i]
      {
        deps := DependNext(args, i, deps, live);
      }
    }

    method DependNext(args: seq<Tensor>, i: nat, deps: set<Dependency>, live: set<Tensor>)
        returns (deps': set<Dependency>)
      requires Valid(live) && i < |args| && (forall t :: t in args ==> t in live) && Resolved(args, i, deps)
      modifies this`nodes, this`truncated, this`moments, this`consumed, this`tensors, this`log, this`seen,
               this`writers, this`met
      ensures Valid(live) && Resolved(args, i + 1, deps') && Snap(live) == LookedUpOne(old(Snap(live)), args[i])
    {
      ghost var before := log;
      var more := Depend(args[i], live);
      deps' := deps + more;
      forall j | 0 <= j <= i ensures Settled(args[j]) && (j < i ==> Same(before, log, args[j])) {
        assert args[j] in live;
      }
      UsesMore(before, log, args, i, deps);
    }

    /** The first `i` arguments are settled, and `deps` is what they depend on. */
    ghost predicate Resolved(args: seq<Tensor>, i: nat, deps: set<Dependency>)
      requires i <= |args|
      reads this`seen, this`log, this`nodes
    {
      (forall j :: 0 <= j < i ==> Settled(args[j])) && deps == UsesFirst(log, args, i)
    }

    /** The edges into the node just made; at the limit the rest are dropped. */
    method AddEdges(id: nat, deps: set<Dependency>, live: set<Tensor>)
      requires Valid(live) && id + 1 == |nodes| && moments[id] == |log|
      requires forall d :: d in deps ==> Backed(log, consumed[id], d)
      requires Bounded(log, id)
      modifies this`edges, this`edgeKeys, this`truncated
      ensures Valid(live) && Linked(old(Snap(live)), edges, truncated, id, deps)
    {
      var rest := deps;
      while rest != {}
        invariant rest <= deps && Valid(live) && old(edges) <= edges && truncated == old(truncated)
        invariant forall e :: e in edges && e !in old(edges) ==> e.target == id && (e.source, e.reason) in deps
        invariant forall d :: d in deps && d !in rest ==> Edge(d.0, id, d.1) in edges
      {
        var d :| d in rest;
        var added := AddEdge(id, d, live);
        if !added { break; }
        rest := rest - {d};
      }
    }

    /** One edge into the node just made, unless it is there already; false at the limit. */
    method AddEdge(id: nat, d: Dependency, live: set<Tensor>) returns (added: bool)
      requires Valid(live) && id + 1 == |nodes| && moments[id] == |log|
      requires Bounded(log, id) && Backed(log, consumed[id], d)
      modifies this`edges, this`edgeKeys, this`truncated
      ensures Valid(live) && (edges == old(edges) || edges == old(edges) + [Edge(d.0, id, d.1)])
      ensures added ==> Edge(d.0, id, d.1) in edges && truncated == old(truncated)
      ensures !added ==> truncated && edges == old(edges) && |edges| >= maxEdges
    {
      assert log[..moments[id]] == log;
      BackedIsBounded(log, id, consumed[id], d);
      var e := Edge(d.0, id, d.1);
      if d.0 != id && e !in edgeKeys {
        if |edges| >= maxEdges {
          truncated := true;
          return false;
        }
        edges, edgeKeys := edges + [e], edgeKeys + {e};
      }
      added := true;
    }

    /** Notes the outputs of a node: each gets it as its producer. */
    method NoteOutputs(id: nat, outputs: seq<Tensor>, live: set<Tensor>)
      requires Valid(live) && id + 1 == |nodes| && Stale() && forall t :: t in outputs ==> t in live
      modifies this`tensors, this`log, this`seen, this`writers, this`met
      ensures Valid(live) && Book(log, met) == Noted(live, old(Book(log, met)), id, outputs, |outputs|)
    {
      ghost var stages := NotedStages(live, Book(log, met), id, outputs, |outputs|);
      for i := 0 to |outputs|
        invariant Valid(live) && Book(log, met) == stages[i]
      {
        NoteOutput(id, outputs[i], live);
      }
    }

    method NoteOutput(id: nat, t: Tensor, live: set<Tensor>)
      requires Valid(live) && id + 1 == |nodes| && Stale() && t in live
      modifies this`tensors, this`log, this`seen, this`writers, this`met
      ensures Valid(live) && Book(log, met) == NotedOne(live, old(Book(log, met)), id, t)
    {
      Produce(t, id, live);
      var key := StorageOf(t, live);
    }

    /** Notes one written tensor: the node becomes the writer of its storage. */
    method NoteWrite(id: nat, t: Tensor, live: set<Tensor>)
      requires Valid(live) && id + 1 == |nodes| && Stale() && t in live
      modifies this`log, this`seen, this`writers, this`met
      ensures Valid(live) && Book(log, met) == WrittenTo(live, old(Book(log, met)), id, t)
    {
      var key := StorageOf(t, live);
      if key.Some? { SetWriter(id, t.storage.value, live); }
    }

    /** Every live tensor known under the key belongs to `s`, so the key may stand for it. */
    method SetWriter(id: nat, s: Storage, live: set<Tensor>)
      requires Valid(live) && id + 1 == |nodes| && Stale() && exists t :: t in live && t.storage == Some(s)
      modifies this`log, this`writers
      ensures Valid(live) && log == old(log) + [Written(id, s)]
    {
      Appended(log, Written(id, s));
      EdgesKept(edges, edgeKeys, log, Written(id, s), moments, consumed);
      writers := writers[s.key := id];
      log := log + [Written(id, s)];
    }

    /** Notes the written tensors. */
    method NoteWrites(id: nat, writes: seq<Tensor>, live: set<Tensor>)
      requires Valid(live) && id + 1 == |nodes| && Stale() && forall t :: t in writes ==> t in live
      modifies this`log, this`seen, this`writers, this`met
      ensures Valid(live) && Book(log, met) == WrittenAll(live, old(Book(log, met)), id, writes, |writes|)
    {
      ghost var stages := WrittenStages(live, Book(log, met), id, writes, |writes|);
      for i := 0 to |writes|
        invariant Valid(live) && Book(log, met) == stages[i]
      {
        NoteWrite(id, writes[i], live);
      }
    }

    /** A node, its edges, its outputs and its writes. */
    method Record(kind: NodeKind, outputs: seq<Tensor>, writes: seq<Tensor>, deps: set<Dependency>, live: set<Tensor>,
        ghost args: set<Tensor>)
      requires Valid(live) && (forall t :: t in outputs ==> t in live) && forall t :: t in writes ==> t in live
      requires forall d :: d in deps ==> Backed(log, args, d)
      modifies this`nodes, this`truncated, this`moments, this`consumed, this`edges, this`edgeKeys, this`tensors,
               this`log, this`seen, this`writers, this`met
      ensures Valid(live) && Recorded(old(Snap(live)), Snap(live), kind, deps, args, outputs, writes)
    {
      var id := NodeWithEdges(kind, deps, live, args);
      if id.Some? { Note(id.value, outputs, writes, live); }
    }

    /** A node and its edges, or none at the limit. */
    method NodeWithEdges(kind: NodeKind, deps: set<Dependency>, live: set<Tensor>, ghost args: set<Tensor>)
        returns (id: Option<nat>)
      requires Valid(live) && forall d :: d in deps ==> Backed(log, args, d)
      modifies this`nodes, this`truncated, this`moments, this`consumed, this`edges, this`edgeKeys
      ensures Valid(live) && (id.Some? <==> |old(nodes)| < maxNodes)
      ensures id.None? ==> Snap(live) == old(Snap(live)).(truncated := true)
      ensures id.Some? ==>
        && id.value == |old(nodes)| && |nodes| == id.value + 1 && Stale()
        && Linked(old(Snap(live)), edges, truncated, id.value, deps)
        && Snap(live) == WithNode(old(Snap(live)), kind, args, edges, truncated)
    {
      id := Node(kind, live, args);
      if id.Some? { AddEdges(id.value, deps, live); }
    }

    /** The outputs and the writes of a node. */
    method Note(id: nat, outputs: seq<Tensor>, writes: seq<Tensor>, live: set<Tensor>)
      requires Valid(live) && id + 1 == |nodes| && Stale()
      requires (forall t :: t in outputs ==> t in live) && forall t :: t in writes ==> t in live
      modifies this`tensors, this`log, this`seen, this`writers, this`met
      ensures Valid(live)
      ensures Book(log, met) ==
        WrittenAll(live, Noted(live, old(Book(log, met)), id, outputs, |outputs|), id, writes, |writes|)
    {
      NoteOutputs(id, outputs, live);
      NoteWrites(id, writes, live);
    }

    /**
     * One operator call: resolve what its arguments depend on, run it, record it. The new
     * edges are exactly what the log says the arguments depend on, unless a limit was hit.
     */
    method Dispatch(args: seq<Tensor>, live: set<Tensor>, outputs: seq<Tensor>, writes: seq<Tensor>, live': set<Tensor>)
      requires Valid(live) && Distinct(live') && live' !! gone && (forall t :: t in args ==> t in live)
      requires (forall t :: t in outputs ==> t in live') && forall t :: t in writes ==> t in live'
      modifies this
      ensures Valid(live') && gone == old(gone) + (live - live')
      ensures Happened(Operate(args, outputs, writes, live'), old(Snap(live)), Snap(live'))
    {
      if truncated {
        Age(live, live');
        return;
      }
      var deps := Dependencies(args, live);
      forall d | d in deps ensures Backed(log, SetOf(args), d) { UsesAreBacked(log, args, |args|, d); }
      Age(live, live');
      Record(Operator, outputs, writes, deps, live', SetOf(args));
    }

    /** A module call begins. */
    method Enter(args: seq<Tensor>, live: set<Tensor>)
      requires Valid(live) && forall t :: t in args ==> t in live
      modifies this
      ensures Valid(live) && gone == old(gone) && Happened(Begin(args), old(Snap(live)), Snap(live))
    {
      var deps := Dependencies(args, live);
      forall d | d in deps ensures Backed(log, SetOf(args), d) { UsesAreBacked(log, args, |args|, d); }
      Push(Frame(|nodes|, deps), live, SetOf(args));
    }

    /** A frame whose dependencies are current. */
    method Push(frame: Frame, live: set<Tensor>, ghost args: set<Tensor>)
      requires Valid(live) && frame.before == |nodes| && forall d :: d in frame.dependencies ==> Backed(log, args, d)
      modifies this`stack, this`held
      ensures Valid(live) && stack == old(stack) + [frame] && held == old(held) + [args]
    {
      stack, held := stack + [frame], held + [args];
    }

    /** A module call ends; if nothing was recorded inside it becomes a node of its own. */
    method Leave(outputs: seq<Tensor>, live: set<Tensor>)
      requires Valid(live) && forall t :: t in outputs ==> t in live
      modifies this
      ensures Valid(live) && gone == old(gone) && Happened(End(outputs), old(Snap(live)), Snap(live))
    {
      if stack == [] { return; }
      var last := |stack| - 1;
      var frame := stack[last];
      ghost var args := held[last];
      assert FrameOk(frame, args, log, |nodes|);
      stack, held := stack[..last], held[..last];
      if outputs != [] && frame.before == |nodes| && !truncated {
        Record(OpaqueModule, outputs, [], frame.dependencies, live, args);
      }
    }

    /** The end of a forward pass, however it came about. */
    method Finish(live: set<Tensor>)
      requires Valid(live)
      modifies this`stack, this`held
      ensures Valid(live) && Happened(Over, old(Snap(live)), Snap(live))
    {
      stack, held := [], [];
    }

    /** One call of a history. */
    method Do(call: Call, live: set<Tensor>) returns (live': set<Tensor>)
      requires Valid(live) && Allowed(call, live, gone)
      modifies this
      ensures Valid(live') && Happened(call, old(Snap(live)), Snap(live'))
      ensures live' == LiveAfter(call, live) && gone == old(gone) + (live - live')
    {
      live' := live;
      assert gone == gone + (live - live);
      match call {
        case Operate(args, outputs, writes, after) =>
          Dispatch(args, live, outputs, writes, after);
          live' := after;
        case Begin(args) => Enter(args, live);
        case End(outputs) => Leave(outputs, live);
        case Pass(after) =>
          Age(live, after);
          live' := after;
        case Over => Finish(live);
      }
    }

    /**
     * Any history of calls under which dead tensors' addresses and dead storages' keys are reused:
     * every call does exactly what it is said to do, by instance, and every edge ever recorded is
     * justified by the log of what happened, goes up, and is there once.
     */
    method Run(calls: seq<Call>, live: set<Tensor>) returns (ghost live': set<Tensor>, ghost worlds: seq<World>)
      requires Valid(live) && Possible(calls, live, gone)
      modifies this
      ensures Valid(live') && History(calls, worlds, |calls|)
      ensures worlds[0] == old(Snap(live)) && worlds[|calls|] == Snap(live')
      ensures AllJoined(calls, worlds)
    {
      var now := live;
      ghost var start := Snap(live);
      worlds := [start];
      IsSound(live);
      for i := 0 to |calls|
        invariant Valid(now) && Possible(calls[i..], now, gone) && History(calls, worlds, i)
        invariant worlds[0] == start && worlds[i] == Snap(now) && AllProper(calls, worlds, i)
      {
        assert calls[i..][1..] == calls[i + 1..];
        AllowedIsProper(calls[i], now, gone);
        now := Do(calls[i], now);
        worlds := worlds + [Snap(now)];
      }
      live' := now;
      EdgesJoinAll(calls, worlds);
    }

    lemma IsSound(live: set<Tensor>)
      requires Valid(live)
      ensures Sound(Snap(live))
    {
      forall t | LastProducer(log, t).Some? ensures LastProducer(log, t).value < |nodes| {
        BackedIsBounded(log, |nodes|, {t}, (LastProducer(log, t).value, Data));
      }
      forall s | Remembered(log, s).Some? ensures Remembered(log, s).value < |nodes| {
        var t := Tensor(0, 0, Some(s));
        RememberedIsLast(log, s);
        assert t in {t};
        BackedIsBounded(log, |nodes|, {t}, (Remembered(log, s).value, StorageWrite));
      }
      forall e | e in edges ensures e.target < |nodes| { assert EdgeOk(e, log, moments, consumed); }
    }
  }

  /** The first `n` calls take the world from state to state. */
  ghost predicate History(calls: seq<Call>, worlds: seq<World>, n: nat)
    requires n <= |calls|
  {
    |worlds| == n + 1 && forall i :: 0 <= i < n ==> Happened(calls[i], worlds[i], worlds[i + 1])
  }

  /** The worlds while the first `n` arguments of a call are looked up. */
  lemma LookedStages(w: World, args: seq<Tensor>, n: nat) returns (stages: seq<World>)
    requires n <= |args|
    ensures |stages| == n + 1 && stages[0] == w && stages[n] == LookedUp(w, args, n)
    ensures forall i :: 0 <= i < n ==> stages[i + 1] == LookedUpOne(stages[i], args[i])
  {
    stages := AllLooked(w, args, n);
    forall i | 0 <= i < n ensures stages[i + 1] == LookedUpOne(stages[i], args[i]) {
      LookedNext(w, args, i, stages[i], stages[i + 1]);
    }
  }

  ghost function AllLooked(w: World, args: seq<Tensor>, n: nat): (stages: seq<World>)
    requires n <= |args|
    ensures |stages| == n + 1 && forall i :: 0 <= i <= n ==> stages[i] == LookedUp(w, args, i)
  {
    seq(n + 1, i requires 0 <= i <= n => LookedUp(w, args, i))
  }

  lemma LookedNext(w: World, args: seq<Tensor>, i: nat, before: World, after: World)
    requires i < |args| && before == LookedUp(w, args, i) && after == LookedUp(w, args, i + 1)
    ensures after == LookedUpOne(before, args[i])
  {
  }

  /** The books while the first `n` outputs of a node are noted. */
  lemma {:induction false} NotedStages(live: set<Tensor>, b: Book, r: nat, outputs: seq<Tensor>, n: nat)
      returns (stages: seq<Book>)
    requires n <= |outputs|
    ensures |stages| == n + 1 && stages[0] == b && stages[n] == Noted(live, b, r, outputs, n)
    ensures forall i :: 0 <= i < n ==> stages[i + 1] == NotedOne(live, stages[i], r, outputs[i])
    decreases n
  {
    if n == 0 { return [b]; }
    var before := NotedStages(live, b, r, outputs, n - 1);
    stages := before + [NotedOne(live, before[n - 1], r, outputs[n - 1])];
  }

  /** The books while the first `n` writes of a node are noted. */
  lemma {:induction false} WrittenStages(live: set<Tensor>, b: Book, r: nat, writes: seq<Tensor>, n: nat)
      returns (stages: seq<Book>)
    requires n <= |writes|
    ensures |stages| == n + 1 && stages[0] == b && stages[n] == WrittenAll(live, b, r, writes, n)
    ensures forall i :: 0 <= i < n ==> stages[i + 1] == WrittenTo(live, stages[i], r, writes[i])
    decreases n
  {
    if n == 0 { return [b]; }
    var before := WrittenStages(live, b, r, writes, n - 1);
    stages := before + [WrittenTo(live, before[n - 1], r, writes[n - 1])];
  }

  /** Seeking a producer leaves tensors that have one alone, and at the limit all of them. */
  lemma SoughtKeeps(w: World, t: Tensor)
    ensures var w' := Sought(w, t);
      && |w.nodes| <= |w'.nodes| && (|w.nodes| >= w.maxNodes ==> w'.book.log == w.book.log)
      && forall u :: LastProducer(w.book.log, u).Some? ==> Same(w.book.log, w'.book.log, u)
  {
    Appended(w.book.log, Produced(|w.nodes|, t));
  }

  /** Meeting a tensor does not change who produced what. */
  lemma LookedKeepsProducers(live: set<Tensor>, b: Book, t: Tensor)
    ensures forall u :: LastProducer(Looked(live, b, t).log, u) == LastProducer(b.log, u)
  {
    if t.storage.Some? { Appended(b.log, Forgotten(t.storage.value)); }
  }

  // ---- what a history comes to, in terms of its calls alone ----

  /** One of the tensors lies in the storage. */
  ghost predicate Holds(tensors: seq<Tensor>, s: Storage) { exists t :: t in tensors && t.storage == Some(s) }

  /** No tensor of the storage that was looked at before is alive. */
  ghost predicate NoneMet(live: set<Tensor>, met: set<Tensor>, s: Storage) {
    forall u :: u in live && u in met ==> u.storage != Some(s)
  }

  lemma HoldsMore(tensors: seq<Tensor>, n: nat, s: Storage)
    requires n < |tensors|
    ensures Holds(tensors[..n + 1], s) <==> Holds(tensors[..n], s) || tensors[n].storage == Some(s)
    ensures SetOf(tensors[..n + 1]) == SetOf(tensors[..n]) + {tensors[n]}
  {
    assert tensors[..n + 1] == tensors[..n] + [tensors[n]];
  }

  /** Live tensors that were looked at meanwhile count as met. */
  lemma NoneMetMore(live: set<Tensor>, met: set<Tensor>, tensors: seq<Tensor>, s: Storage)
    requires forall t :: t in tensors ==> t in live
    ensures NoneMet(live, met + SetOf(tensors), s) <==> NoneMet(live, met, s) && !Holds(tensors, s)
  {
    if Holds(tensors, s) {
      var t :| t in tensors && t.storage == Some(s);
      assert t in live && t in met + SetOf(tensors);
    }
  }

  /** Looking a tensor up forgets the writer of its storage exactly when no tensor of it met before is alive. */
  lemma LookedMemory(live: set<Tensor>, b: Book, t: Tensor, s: Storage)
    ensures var b' := Looked(live, b, t);
      && b'.met == b.met + {t} && LastWriter(b'.log, s) == LastWriter(b.log, s)
      && Remembered(b'.log, s) ==
           if t.storage == Some(s) && NoneMet(live, b.met, s) then None else Remembered(b.log, s)
  {
    if t.storage.Some? { Appended(b.log, Forgotten(t.storage.value)); }
  }

  /** What lookups do to the memory of a storage. */
  ghost predicate Recalls(live: set<Tensor>, b: Book, b': Book, tensors: seq<Tensor>, s: Storage) {
    && b'.met == b.met + SetOf(tensors) && LastWriter(b'.log, s) == LastWriter(b.log, s)
    && Remembered(b'.log, s) == if Holds(tensors, s) && NoneMet(live, b.met, s) then None else Remembered(b.log, s)
  }

  lemma RecallsMore(live: set<Tensor>, b: Book, mid: Book, tensors: seq<Tensor>, n: nat, s: Storage)
    requires n < |tensors| && (forall t :: t in tensors ==> t in live)
    requires Recalls(live, b, mid, tensors[..n], s)
    ensures Recalls(live, b, Looked(live, mid, tensors[n]), tensors[..n + 1], s)
  {
    HoldsMore(tensors, n, s);
    NoneMetMore(live, b.met, tensors[..n], s);
    LookedMemory(live, mid, tensors[n], s);
  }

  lemma SoughtMemory(w: World, t: Tensor, s: Storage)
    ensures var w' := Sought(w, t);
      && w'.book.met == w.book.met && LastWriter(w'.book.log, s) == LastWriter(w.book.log, s)
      && Remembered(w'.book.log, s) == Remembered(w.book.log, s)
  {
    Appended(w.book.log, Produced(|w.nodes|, t));
  }

  lemma RecallsOne(live: set<Tensor>, b: Book, w: World, tensors: seq<Tensor>, n: nat, s: Storage)
    requires n < |tensors| && (forall t :: t in tensors ==> t in live)
    requires w.live == live && Recalls(live, b, w.book, tensors[..n], s)
    ensures LookedUpOne(w, tensors[n]).live == live
    ensures Recalls(live, b, LookedUpOne(w, tensors[n]).book, tensors[..n + 1], s)
  {
    SoughtMemory(w, tensors[n], s);
    RecallsMore(live, b, Sought(w, tensors[n]).book, tensors, n, s);
  }

  /** The books after looking up the first `n` arguments. */
  ghost predicate RecalledUpTo(w: World, args: seq<Tensor>, n: nat, s: Storage)
    requires n <= |args|
  {
    LookedUp(w, args, n).live == w.live && Recalls(w.live, w.book, LookedUp(w, args, n).book, args[..n], s)
  }

  lemma RecalledNext(w: World, args: seq<Tensor>, k: nat, s: Storage)
    requires k < |args| && (forall t :: t in args ==> t in w.live) && RecalledUpTo(w, args, k, s)
    ensures RecalledUpTo(w, args, k + 1, s)
  {
    var mid := LookedUp(w, args, k);
    assert LookedUp(w, args, k + 1) == LookedUpOne(mid, args[k]);
    RecallsOne(w.live, w.book, mid, args, k, s);
  }

  lemma {:induction false} LookedUpMemory(w: World, args: seq<Tensor>, n: nat, s: Storage)
    requires n <= |args| && forall t :: t in args ==> t in w.live
    ensures RecalledUpTo(w, args, n, s)
    decreases n
  {
    if n > 0 {
      LookedUpMemory(w, args, n - 1, s);
      RecalledNext(w, args, n - 1, s);
    }
  }

  lemma {:induction false} NotedMemory(live: set<Tensor>, b: Book, r: nat, outputs: seq<Tensor>, n: nat, s: Storage)
    requires n <= |outputs| && forall t :: t in outputs ==> t in live
    ensures Recalls(live, b, Noted(live, b, r, outputs, n), outputs[..n], s)
    decreases n
  {
    if n > 0 {
      NotedMemory(live, b, r, outputs, n - 1, s);
      var mid := Noted(live, b, r, outputs, n - 1);
      Appended(mid.log, Produced(r, outputs[n - 1]));
      RecallsMore(live, b, mid.(log := mid.log + [Produced(r, outputs[n - 1])]), outputs, n - 1, s);
    }
  }

  /** Every storage written to remembers the writer, and no other gets one. */
  lemma {:induction false} WrittenMemory(live: set<Tensor>, b: Book, r: nat, writes: seq<Tensor>, n: nat, s: Storage)
    requires n <= |writes| && forall t :: t in writes ==> t in live
    ensures var b' := WrittenAll(live, b, r, writes, n);
      && b'.met == b.met + SetOf(writes[..n])
      && LastWriter(b'.log, s) == (if Holds(writes[..n], s) then Some(r) else LastWriter(b.log, s))
      && Remembered(b'.log, s) == (if Holds(writes[..n], s) then Some(r) else Remembered(b.log, s))
    decreases n
  {
    if n > 0 {
      var t := writes[n - 1];
      WrittenMemory(live, b, r, writes, n - 1, s);
      var mid := WrittenAll(live, b, r, writes, n - 1);
      HoldsMore(writes, n - 1, s);
      NoneMetMore(live, b.met, writes[..n - 1], s);
      LookedMemory(live, mid, t, s);
      if t.storage.Some? { Appended(Looked(live, mid, t).log, Written(r, t.storage.value)); }
    }
  }

  /** What lookups do to the nodes: only external ones are added, one for each tensor without a producer. */
  ghost predicate Seeks(w: World, w': World, tensors: seq<Tensor>, u: Tensor) {
    && w.nodes <= w'.nodes && (forall k :: |w.nodes| <= k < |w'.nodes| ==> w'.nodes[k] == External)
    && (w.truncated ==> w'.truncated)
    && var before, after := LastProducer(w.book.log, u), LastProducer(w'.book.log, u);
       if before.Some? || u !in tensors then after == before
       else if w'.truncated then after.Some? ==> |w.nodes| <= after.value < |w'.nodes|
       else after.Some? && |w.nodes| <= after.value < |w'.nodes|
  }

  lemma {:induction false} LookedUpProducers(w: World, args: seq<Tensor>, n: nat, u: Tensor)
    requires n <= |args|
    ensures Seeks(w, LookedUp(w, args, n), args[..n], u)
    decreases n
  {
    if n > 0 {
      LookedUpProducers(w, args, n - 1, u);
      var mid, t := LookedUp(w, args, n - 1), args[n - 1];
      assert args[..n] == args[..n - 1] + [t];
      SeeksOne(mid, t, u);
    }
  }

  lemma SeeksOne(w: World, t: Tensor, u: Tensor)
    ensures Seeks(w, LookedUpOne(w, t), [t], u)
  {
    SoughtSeeks(w, t, u);
    MetSeeks(w, Sought(w, t), t, u);
  }

  lemma SoughtSeeks(w: World, t: Tensor, u: Tensor)
    ensures Seeks(w, Sought(w, t), [t], u)
  {
    Appended(w.book.log, Produced(|w.nodes|, t));
  }

  lemma MetSeeks(w: World, w': World, t: Tensor, u: Tensor)
    requires Seeks(w, w', [t], u)
    ensures Seeks(w, Met(w', t), [t], u)
  {
    LookedKeepsProducers(w'.live, w'.book, t);
  }

  /** Lookups leave everything else alone. */
  lemma {:induction false} LookedUpKeeps(w: World, args: seq<Tensor>, n: nat)
    requires n <= |args|
    ensures OnlyNodes(w, LookedUp(w, args, n))
    decreases n
  {
    if n > 0 {
      LookedUpKeeps(w, args, n - 1);
      LookedUpOneKeeps(LookedUp(w, args, n - 1), args[n - 1]);
    }
  }

  /** Only the books, the nodes and the mark of the limit may differ. */
  ghost predicate OnlyNodes(w: World, w': World) {
    && w'.live == w.live && w'.edges == w.edges && w'.stack == w.stack && w'.held == w.held
    && w'.maxNodes == w.maxNodes && w'.maxEdges == w.maxEdges
  }

  lemma LookedUpOneKeeps(w: World, t: Tensor)
    ensures OnlyNodes(w, LookedUpOne(w, t))
  {
  }

  /** Every output has the node as its producer, and no other tensor gets a new one. */
  lemma {:induction false} NotedProducers(live: set<Tensor>, b: Book, r: nat, outputs: seq<Tensor>, n: nat, u: Tensor)
    requires n <= |outputs|
    ensures LastProducer(Noted(live, b, r, outputs, n).log, u) ==
      if u in outputs[..n] then Some(r) else LastProducer(b.log, u)
    decreases n
  {
    if n > 0 {
      NotedProducers(live, b, r, outputs, n - 1, u);
      var mid, t := Noted(live, b, r, outputs, n - 1), outputs[n - 1];
      assert outputs[..n] == outputs[..n - 1] + [t];
      Appended(mid.log, Produced(r, t));
      LookedKeepsProducers(live, mid.(log := mid.log + [Produced(r, t)]), t);
    }
  }

  lemma {:induction false} WrittenProducers(live: set<Tensor>, b: Book, r: nat, writes: seq<Tensor>, n: nat, u: Tensor)
    requires n <= |writes|
    ensures LastProducer(WrittenAll(live, b, r, writes, n).log, u) == LastProducer(b.log, u)
    decreases n
  {
    if n > 0 {
      WrittenProducers(live, b, r, writes, n - 1, u);
      var mid, t := WrittenAll(live, b, r, writes, n - 1), writes[n - 1];
      LookedKeepsProducers(live, mid, t);
      if t.storage.Some? { Appended(Looked(live, mid, t).log, Written(r, t.storage.value)); }
    }
  }

  function ArgsOf(call: Call): seq<Tensor> { if call.Operate? || call.Begin? then call.args else [] }

  function OutputsOf(call: Call): seq<Tensor> { if call.Operate? || call.End? then call.outputs else [] }

  function WritesOf(call: Call): seq<Tensor> { if call.Operate? then call.writes else [] }

  /** A call that makes a node, limits aside: an operator, or a module with outputs inside which nothing was recorded. */
  ghost predicate Makes(call: Call, w: World) {
    || call.Operate?
    || (call.End? && call.outputs != [] && w.stack != [] && |w.held| == |w.stack| &&
        w.stack[|w.stack| - 1].before == |w.nodes|)
  }

  /** Calls use live tensors. */
  ghost predicate Proper(call: Call, live: set<Tensor>) {
    && (forall t :: t in ArgsOf(call) ==> t in live)
    && (forall t :: t in OutputsOf(call) ==> t in LiveAfter(call, live))
    && (forall t :: t in WritesOf(call) ==> t in LiveAfter(call, live))
  }

  /**
   * During a call a tensor of the storage is looked at while none of those met before is alive: an argument at its
   * start, or an output once it has run.
   */
  ghost predicate Forgets(call: Call, w: World, s: Storage) {
    || (Holds(ArgsOf(call), s) && NoneMet(w.live, w.book.met, s))
    || (Makes(call, w) && Holds(OutputsOf(call), s) &&
        NoneMet(LiveAfter(call, w.live), w.book.met + SetOf(ArgsOf(call)), s))
  }

  /** What a call that hits no limit leaves of the memory of a storage. */
  ghost predicate MemoryLaw(call: Call, w: World, w': World, s: Storage) {
    && w'.live == LiveAfter(call, w.live) && (Makes(call, w) ==> |w'.nodes| > 0)
    && LastWriter(w'.book.log, s) ==
         (if Holds(WritesOf(call), s) then Some(|w'.nodes| - 1) else LastWriter(w.book.log, s))
    && Remembered(w'.book.log, s) ==
         (if Holds(WritesOf(call), s) then Some(|w'.nodes| - 1)
          else if Forgets(call, w, s) then None else Remembered(w.book.log, s))
    && w'.book.met == w.book.met + SetOf(ArgsOf(call)) +
         (if Makes(call, w) then SetOf(OutputsOf(call)) + SetOf(WritesOf(call)) else {})
  }

  lemma WholeSeq(tensors: seq<Tensor>)
    ensures tensors[..|tensors|] == tensors
  {
  }

  /** Noting outputs and writes, in order. */
  lemma RecordedMemory(w: World, w': World, kind: NodeKind, deps: set<Dependency>, args: set<Tensor>,
      outputs: seq<Tensor>, writes: seq<Tensor>, s: Storage)
    requires Recorded(w, w', kind, deps, args, outputs, writes) && !w'.truncated
    requires (forall t :: t in outputs ==> t in w.live) && forall t :: t in writes ==> t in w.live
    ensures w'.live == w.live && |w'.nodes| == |w.nodes| + 1 && !w.truncated
    ensures w'.book.met == w.book.met + SetOf(outputs) + SetOf(writes)
    ensures LastWriter(w'.book.log, s) == (if Holds(writes, s) then Some(|w.nodes|) else LastWriter(w.book.log, s))
    ensures Remembered(w'.book.log, s) ==
      if Holds(writes, s) then Some(|w.nodes|)
      else if Holds(outputs, s) && NoneMet(w.live, w.book.met, s) then None else Remembered(w.book.log, s)
  {
    var noted := Noted(w.live, w.book, |w.nodes|, outputs, |outputs|);
    NotedMemory(w.live, w.book, |w.nodes|, outputs, |outputs|, s);
    WrittenMemory(w.live, noted, |w.nodes|, writes, |writes|, s);
    WholeSeq(outputs);
    WholeSeq(writes);
  }

  lemma CallMemory(call: Call, w: World, w': World, s: Storage)
    requires Happened(call, w, w') && !w'.truncated && Proper(call, w.live)
    ensures MemoryLaw(call, w, w', s)
  {
    match call
    case Operate(args, outputs, writes, after) => OperateMemory(args, outputs, writes, after, w, w', s);
    case Begin(args) =>
      assert ArgsOf(call) == args;
      LookedUpMemory(w, args, |args|, s);
      WholeSeq(args);
    case End(outputs) =>
      assert !Holds([], s) && SetOf([]) == {} && OutputsOf(call) == outputs;
      if w.stack != [] && |w.held| == |w.stack| && outputs != [] && w.stack[|w.stack| - 1].before == |w.nodes| &&
        !w.truncated {
        var last := |w.stack| - 1;
        var rest := w.(stack := w.stack[..last], held := w.held[..last]);
        RecordedMemory(rest, w', OpaqueModule, w.stack[last].dependencies, w.held[last], outputs, [], s);
      }
    case Pass(after) =>
    case Over =>
  }

  lemma OperateMemory(args: seq<Tensor>, outputs: seq<Tensor>, writes: seq<Tensor>, after: set<Tensor>, w: World,
      w': World, s: Storage)
    requires var call := Operate(args, outputs, writes, after);
      Happened(call, w, w') && !w'.truncated && Proper(call, w.live)
    ensures MemoryLaw(Operate(args, outputs, writes, after), w, w', s)
  {
    var call := Operate(args, outputs, writes, after);
    assert ArgsOf(call) == args && OutputsOf(call) == outputs && WritesOf(call) == writes;
    var mid := LookedUp(w, args, |args|);
    LookedUpMemory(w, args, |args|, s);
    WholeSeq(args);
    RecordedMemory(mid.(live := after), w', Operator, Uses(mid.book.log, args), SetOf(args), outputs, writes, s);
  }

  /** What a call that hits no limit leaves of the producer of a tensor. */
  ghost predicate ProducerLaw(call: Call, w: World, w': World, u: Tensor) {
    var before, after := LastProducer(w.book.log, u), LastProducer(w'.book.log, u);
    var made := if Makes(call, w) then 1 else 0;
    && |w.nodes| + made <= |w'.nodes|
    && if Makes(call, w) && u in OutputsOf(call) then after == Some(|w'.nodes| - 1)
       else if before.Some? || u !in ArgsOf(call) then after == before
       else after.Some? && |w.nodes| <= after.value < |w'.nodes| - made
  }

  lemma RecordedProducers(w: World, w': World, kind: NodeKind, deps: set<Dependency>, args: set<Tensor>,
      outputs: seq<Tensor>, writes: seq<Tensor>, u: Tensor)
    requires Recorded(w, w', kind, deps, args, outputs, writes) && !w'.truncated
    ensures w'.nodes == w.nodes + [kind]
    ensures LastProducer(w'.book.log, u) == if u in outputs then Some(|w.nodes|) else LastProducer(w.book.log, u)
  {
    var noted := Noted(w.live, w.book, |w.nodes|, outputs, |outputs|);
    NotedProducers(w.live, w.book, |w.nodes|, outputs, |outputs|, u);
    WrittenProducers(w.live, noted, |w.nodes|, writes, |writes|, u);
    WholeSeq(outputs);
  }

  lemma CallProducers(call: Call, w: World, w': World, u: Tensor)
    requires Happened(call, w, w') && !w'.truncated
    ensures ProducerLaw(call, w, w', u)
  {
    match call
    case Operate(args, outputs, writes, after) =>
      var mid := LookedUp(w, args, |args|);
      LookedUpProducers(w, args, |args|, u);
      WholeSeq(args);
      RecordedProducers(mid.(live := after), w', Operator, Uses(mid.book.log, args), SetOf(args), outputs, writes, u);
    case Begin(args) =>
      LookedUpProducers(w, args, |args|, u);
      WholeSeq(args);
    case End(outputs) =>
      if w.stack != [] && |w.held| == |w.stack| && outputs != [] && w.stack[|w.stack| - 1].before == |w.nodes| &&
        !w.truncated {
        var last := |w.stack| - 1;
        var rest := w.(stack := w.stack[..last], held := w.held[..last]);
        RecordedProducers(rest, w', OpaqueModule, w.stack[last].dependencies, w.held[last], outputs, [], u);
      }
    case Pass(after) =>
    case Over =>
  }

  // ---- edges ----

  lemma UsesOfAre(log: Log, t: Tensor, source: nat)
    ensures (source, Data) in UsesOf(log, t) <==> LastProducer(log, t) == Some(source)
    ensures (source, StorageWrite) in UsesOf(log, t) <==>
      t.storage.Some? && Remembered(log, t.storage.value) == Some(source)
  {
  }

  /** Some argument was produced by the node. */
  ghost predicate FromProducer(log: Log, args: seq<Tensor>, source: nat) {
    exists x :: x in args && LastProducer(log, x) == Some(source)
  }

  /** The node is remembered as the writer of some argument's storage. */
  ghost predicate FromWriter(log: Log, args: seq<Tensor>, source: nat) {
    exists x :: x in args && x.storage.Some? && Remembered(log, x.storage.value) == Some(source)
  }

  lemma {:induction false} UsesAre(log: Log, args: seq<Tensor>, n: nat, source: nat)
    requires n <= |args|
    ensures (source, Data) in UsesFirst(log, args, n) <==> FromProducer(log, args[..n], source)
    ensures (source, StorageWrite) in UsesFirst(log, args, n) <==> FromWriter(log, args[..n], source)
    decreases n
  {
    if n > 0 {
      UsesAre(log, args, n - 1, source);
      UsesOfAre(log, args[n - 1], source);
      FromMore(log, args, n - 1, source);
    }
  }

  lemma FromMore(log: Log, args: seq<Tensor>, n: nat, source: nat)
    requires n < |args|
    ensures FromProducer(log, args[..n + 1], source) <==>
      FromProducer(log, args[..n], source) || LastProducer(log, args[n]) == Some(source)
    ensures FromWriter(log, args[..n + 1], source) <==>
      FromWriter(log, args[..n], source) ||
        (args[n].storage.Some? && Remembered(log, args[n].storage.value) == Some(source))
  {
    assert args[..n + 1] == args[..n] + [args[n]];
    assert forall x :: x in args[..n + 1] <==> x in args[..n] || x == args[n];
  }

  /** A new node has an edge from what it depends on, and nothing else got one. */
  lemma RecordedEdges(w: World, w': World, kind: NodeKind, deps: set<Dependency>, args: set<Tensor>,
      outputs: seq<Tensor>, writes: seq<Tensor>, source: nat, reason: Reason)
    requires Recorded(w, w', kind, deps, args, outputs, writes) && !w'.truncated
    requires forall e :: e in w.edges ==> e.target < |w.nodes|
    ensures |w'.nodes| == |w.nodes| + 1
    ensures Edge(source, |w.nodes|, reason) in w'.edges <==> (source, reason) in deps
    ensures forall e :: e in w'.edges ==> e.target < |w'.nodes|
  {
    if (source, reason) in deps { assert Edge((source, reason).0, |w.nodes|, (source, reason).1) in w'.edges; }
  }

  /**
   * The node of an operator call has an edge from an older node exactly when that produced an argument, or is
   * remembered as having written to the storage of one, some tensor of which is still alive.
   */
  ghost predicate UsesLaw(args: seq<Tensor>, w: World, w': World, source: nat) {
    var node := |w'.nodes| - 1;
    && node >= |w.nodes|
    && (source < |w.nodes| ==>
          && (Edge(source, node, Data) in w'.edges <==> FromProducer(w.book.log, args, source))
          && (Edge(source, node, StorageWrite) in w'.edges <==> FromLiveWriter(w, args, source)))
  }

  ghost predicate FromLiveWriter(w: World, args: seq<Tensor>, source: nat) {
    exists x :: x in args && x.storage.Some? && Remembered(w.book.log, x.storage.value) == Some(source) &&
      !NoneMet(w.live, w.book.met, x.storage.value)
  }

  lemma OperateEdges(args: seq<Tensor>, outputs: seq<Tensor>, writes: seq<Tensor>, after: set<Tensor>, w: World,
      w': World, source: nat)
    requires var call := Operate(args, outputs, writes, after);
      Happened(call, w, w') && !w'.truncated && Proper(call, w.live)
    requires forall e :: e in w.edges ==> e.target < |w.nodes|
    ensures UsesLaw(args, w, w', source) && forall e :: e in w'.edges ==> e.target < |w'.nodes|
  {
    var mid := LookedUp(w, args, |args|);
    LookedUpKeeps(w, args, |args|);
    LookedUpNodes(w, args);
    UsesAre(mid.book.log, args, |args|, source);
    WholeSeq(args);
    assert ArgsOf(Operate(args, outputs, writes, after)) == args;
    if source < |w.nodes| { LookedUpSources(w, args, source); }
    var start := mid.(live := after);
    RecordedEdges(start, w', Operator, Uses(mid.book.log, args), SetOf(args), outputs, writes, source, Data);
    RecordedEdges(start, w', Operator, Uses(mid.book.log, args), SetOf(args), outputs, writes, source, StorageWrite);
  }

  /** Looking the arguments up only forgets writers, and makes no older node the producer of anything. */
  lemma LookedUpSources(w: World, args: seq<Tensor>, source: nat)
    requires (forall t :: t in args ==> t in w.live) && source < |w.nodes|
    ensures var log := LookedUp(w, args, |args|).book.log;
      && (FromProducer(log, args, source) <==> FromProducer(w.book.log, args, source))
      && (FromWriter(log, args, source) <==> FromLiveWriter(w, args, source))
  {
    var log := LookedUp(w, args, |args|).book.log;
    WholeSeq(args);
    forall x | x in args
      ensures LastProducer(log, x) == Some(source) <==> LastProducer(w.book.log, x) == Some(source)
    {
      LookedUpProducers(w, args, |args|, x);
    }
    forall x | x in args && x.storage.Some?
      ensures Remembered(log, x.storage.value) == Some(source) <==>
        Remembered(w.book.log, x.storage.value) == Some(source) && !NoneMet(w.live, w.book.met, x.storage.value)
    {
      LookedUpMemory(w, args, |args|, x.storage.value);
      assert Holds(args, x.storage.value);
    }
  }

  lemma LookedUpNodes(w: World, args: seq<Tensor>)
    ensures |w.nodes| <= |LookedUp(w, args, |args|).nodes|
    ensures w.truncated ==> LookedUp(w, args, |args|).truncated
  {
    var u: Tensor :| true;
    LookedUpProducers(w, args, |args|, u);
  }

  // ---- histories ----

  /** Producers, writers and targets of edges are nodes. */
  ghost predicate Sound(w: World) {
    && (forall t :: LastProducer(w.book.log, t).Some? ==> LastProducer(w.book.log, t).value < |w.nodes|)
    && (forall s :: Remembered(w.book.log, s).Some? ==> Remembered(w.book.log, s).value < |w.nodes|)
    && forall e :: e in w.edges ==> e.target < |w.nodes|
  }

  /** A call happens as described, on live tensors, and hits no limit. */
  ghost predicate Taken(calls: seq<Call>, worlds: seq<World>, k: nat)
    requires k < |calls| && k + 1 < |worlds|
  {
    Happened(calls[k], worlds[k], worlds[k + 1]) && Proper(calls[k], worlds[k].live) && !worlds[k + 1].truncated
  }

  /** The first `n` calls are taken, from a world in order. */
  ghost predicate Smooth(calls: seq<Call>, worlds: seq<World>, n: nat) {
    n <= |calls| && n < |worlds| && Sound(worlds[0]) && forall k :: 0 <= k < n ==> Taken(calls, worlds, k)
  }

  lemma CallEdges(call: Call, w: World, w': World)
    requires Happened(call, w, w') && !w'.truncated && Proper(call, w.live)
    requires forall e :: e in w.edges ==> e.target < |w.nodes|
    ensures forall e :: e in w'.edges ==> e.target < |w'.nodes|
  {
    match call
    case Operate(args, outputs, writes, after) => OperateEdges(args, outputs, writes, after, w, w', 0);
    case Begin(args) =>
      LookedUpKeeps(w, args, |args|);
      LookedUpNodes(w, args);
    case End(outputs) =>
      if w.stack != [] && |w.held| == |w.stack| && outputs != [] && w.stack[|w.stack| - 1].before == |w.nodes| &&
        !w.truncated {
        var last := |w.stack| - 1;
        var rest := w.(stack := w.stack[..last], held := w.held[..last]);
        RecordedEdges(rest, w', OpaqueModule, w.stack[last].dependencies, w.held[last], outputs, [], 0, Data);
      }
    case Pass(after) =>
    case Over =>
  }

  lemma SoundStep(call: Call, w: World, w': World)
    requires Happened(call, w, w') && !w'.truncated && Proper(call, w.live) && Sound(w)
    ensures Sound(w') && |w.nodes| <= |w'.nodes| && (Makes(call, w) ==> |w.nodes| < |w'.nodes|)
  {
    forall t ensures LastProducer(w'.book.log, t).Some? ==> LastProducer(w'.book.log, t).value < |w'.nodes|
             ensures ProducerLaw(call, w, w', t) {
      CallProducers(call, w, w', t);
    }
    var t: Tensor :| true;
    assert ProducerLaw(call, w, w', t);
    forall s ensures Remembered(w'.book.log, s).Some? ==> Remembered(w'.book.log, s).value < |w'.nodes| {
      CallMemory(call, w, w', s);
    }
    CallEdges(call, w, w');
  }

  /** One call of a history: the world stays in order, nodes only grow, and met tensors stay met. */
  lemma TakenSound(calls: seq<Call>, worlds: seq<World>, k: nat)
    requires k < |calls| && k + 1 < |worlds| && Taken(calls, worlds, k) && Sound(worlds[k])
    ensures Sound(worlds[k + 1]) && |worlds[k].nodes| <= |worlds[k + 1].nodes|
    ensures Makes(calls[k], worlds[k]) ==> |worlds[k].nodes| < |worlds[k + 1].nodes|
  {
    SoundStep(calls[k], worlds[k], worlds[k + 1]);
  }

  lemma TakenMemory(calls: seq<Call>, worlds: seq<World>, k: nat, s: Storage)
    requires k < |calls| && k + 1 < |worlds| && Taken(calls, worlds, k)
    ensures MemoryLaw(calls[k], worlds[k], worlds[k + 1], s)
  {
    CallMemory(calls[k], worlds[k], worlds[k + 1], s);
  }

  lemma TakenProducers(calls: seq<Call>, worlds: seq<World>, k: nat, t: Tensor)
    requires k < |calls| && k + 1 < |worlds| && Taken(calls, worlds, k)
    ensures ProducerLaw(calls[k], worlds[k], worlds[k + 1], t)
  {
    CallProducers(calls[k], worlds[k], worlds[k + 1], t);
  }

  lemma {:induction false} SoundAt(calls: seq<Call>, worlds: seq<World>, n: nat)
    requires Smooth(calls, worlds, n)
    ensures Sound(worlds[n])
    decreases n
  {
    if n > 0 {
      SoundAt(calls, worlds, n - 1);
      TakenSound(calls, worlds, n - 1);
    }
  }

  lemma {:induction false} NodesGrow(calls: seq<Call>, worlds: seq<World>, i: nat, n: nat)
    requires Smooth(calls, worlds, n) && i <= n
    ensures |worlds[i].nodes| <= |worlds[n].nodes|
    decreases n
  {
    if i < n {
      NodesGrow(calls, worlds, i, n - 1);
      SoundAt(calls, worlds, n - 1);
      TakenSound(calls, worlds, n - 1);
    }
  }

  /** Call `i` wrote to the storage; since then, before call `n`, nothing else did, and it was never forgotten. */
  ghost predicate KeptSince(calls: seq<Call>, worlds: seq<World>, i: nat, n: nat, s: Storage)
    requires i < n <= |calls| && n < |worlds|
  {
    && Holds(WritesOf(calls[i]), s)
    && forall k :: i < k < n ==> !Holds(WritesOf(calls[k]), s) && !Forgets(calls[k], worlds[k], s)
  }

  /** Call `i` made the tensor; since then, before call `n`, no other call did. */
  ghost predicate MadeSince(calls: seq<Call>, worlds: seq<World>, i: nat, n: nat, t: Tensor)
    requires i < n <= |calls| && n < |worlds|
  {
    t in OutputsOf(calls[i]) && forall k :: i < k < n && Makes(calls[k], worlds[k]) ==> t !in OutputsOf(calls[k])
  }

  /** A call leaves a writer remembered unless it writes to the storage itself or forgets it. */
  lemma MemoryStep(call: Call, w: World, w': World, r: nat, s: Storage)
    requires MemoryLaw(call, w, w', s) && r < |w.nodes| && (Makes(call, w) ==> |w.nodes| < |w'.nodes|)
    ensures Remembered(w'.book.log, s) == Some(r) <==>
      Remembered(w.book.log, s) == Some(r) && !Holds(WritesOf(call), s) && !Forgets(call, w, s)
  {
    if Holds(WritesOf(call), s) { assert Makes(call, w); }
  }

  /** A call leaves a tensor's latest producer alone unless it makes the tensor itself. */
  lemma ProducerStep(call: Call, w: World, w': World, r: nat, t: Tensor)
    requires ProducerLaw(call, w, w', t) && r < |w.nodes|
    ensures LastProducer(w'.book.log, t) == Some(r) <==>
      LastProducer(w.book.log, t) == Some(r) && !(Makes(call, w) && t in OutputsOf(call))
  {
  }

  lemma KeptStep(calls: seq<Call>, worlds: seq<World>, i: nat, k: nat, s: Storage)
    requires i < k < |calls| && k + 1 < |worlds|
    ensures KeptSince(calls, worlds, i, k + 1, s) <==>
      KeptSince(calls, worlds, i, k, s) && !Holds(WritesOf(calls[k]), s) && !Forgets(calls[k], worlds[k], s)
  {
  }

  lemma MadeStep(calls: seq<Call>, worlds: seq<World>, i: nat, k: nat, t: Tensor)
    requires i < k < |calls| && k + 1 < |worlds|
    ensures MadeSince(calls, worlds, i, k + 1, t) <==>
      MadeSince(calls, worlds, i, k, t) && !(Makes(calls[k], worlds[k]) && t in OutputsOf(calls[k]))
  {
  }

  /** Right after a call that makes a node, the node is a writer or producer exactly of what the call says. */
  lemma JustMade(calls: seq<Call>, worlds: seq<World>, i: nat, s: Storage, t: Tensor)
    requires Smooth(calls, worlds, i + 1) && Makes(calls[i], worlds[i])
    ensures |worlds[i].nodes| < |worlds[i + 1].nodes|
    ensures Remembered(worlds[i + 1].book.log, s) == Some(|worlds[i + 1].nodes| - 1) <==> Holds(WritesOf(calls[i]), s)
    ensures LastProducer(worlds[i + 1].book.log, t) == Some(|worlds[i + 1].nodes| - 1) <==> t in OutputsOf(calls[i])
  {
    SoundAt(calls, worlds, i);
    TakenSound(calls, worlds, i);
    TakenMemory(calls, worlds, i, s);
    TakenProducers(calls, worlds, i, t);
  }

  /** The node of a call is remembered as a storage's writer exactly as long as its write is kept. */
  lemma {:induction false} RememberedSince(calls: seq<Call>, worlds: seq<World>, i: nat, n: nat, s: Storage)
    requires Smooth(calls, worlds, n) && i < n && Makes(calls[i], worlds[i])
    ensures Remembered(worlds[n].book.log, s) == Some(|worlds[i + 1].nodes| - 1) <==> KeptSince(calls, worlds, i, n, s)
    decreases n
  {
    var k := n - 1;
    var t: Tensor :| true;
    JustMade(calls, worlds, i, s, t);
    if i < k {
      RememberedSince(calls, worlds, i, k, s);
      NodesGrow(calls, worlds, i + 1, k);
      SoundAt(calls, worlds, k);
      TakenSound(calls, worlds, k);
      TakenMemory(calls, worlds, k, s);
      MemoryStep(calls[k], worlds[k], worlds[k + 1], |worlds[i + 1].nodes| - 1, s);
      KeptStep(calls, worlds, i, k, s);
    }
  }

  /** The node of a call is a tensor's latest producer exactly until another call makes it. */
  lemma {:induction false} ProducedSince(calls: seq<Call>, worlds: seq<World>, i: nat, n: nat, t: Tensor)
    requires Smooth(calls, worlds, n) && i < n && Makes(calls[i], worlds[i])
    ensures LastProducer(worlds[n].book.log, t) == Some(|worlds[i + 1].nodes| - 1) <==>
      MadeSince(calls, worlds, i, n, t)
    decreases n
  {
    var k := n - 1;
    var s: Storage :| true;
    JustMade(calls, worlds, i, s, t);
    if i < k {
      ProducedSince(calls, worlds, i, k, t);
      NodesGrow(calls, worlds, i + 1, k);
      TakenProducers(calls, worlds, k, t);
      ProducerStep(calls[k], worlds[k], worlds[k + 1], |worlds[i + 1].nodes| - 1, t);
      MadeStep(calls, worlds, i, k, t);
    }
  }

  /**
   * Which edges join the nodes of two calls: a data edge exactly when the later call takes a tensor that the earlier
   * one was the last to make, a storage_write edge exactly when it takes a tensor of a storage that the earlier one was
   * the last to write to and that was never met again with all its known tensors dead.
   */
  ghost predicate Joined(calls: seq<Call>, worlds: seq<World>, i: nat, j: nat)
    requires i < j < |calls| && j + 1 < |worlds| && calls[j].Operate?
  {
    var source, target := |worlds[i + 1].nodes| - 1, |worlds[j + 1].nodes| - 1;
    && 0 <= source < target
    && (Edge(source, target, Data) in worlds[j + 1].edges <==>
          exists x :: x in calls[j].args && MadeSince(calls, worlds, i, j, x))
    && (Edge(source, target, StorageWrite) in worlds[j + 1].edges <==>
          exists x :: x in calls[j].args && x.storage.Some? && KeptSince(calls, worlds, i, j, x.storage.value) &&
            !NoneMet(worlds[j].live, worlds[j].book.met, x.storage.value))
  }

  /** For any two calls of a history that has hit no limit so far. */
  lemma EdgesJoin(calls: seq<Call>, worlds: seq<World>, i: nat, j: nat)
    requires i < j < |calls| && Smooth(calls, worlds, j + 1) && Makes(calls[i], worlds[i]) && calls[j].Operate?
    ensures Joined(calls, worlds, i, j)
  {
    var w, w', call := worlds[j], worlds[j + 1], calls[j];
    var source := |worlds[i + 1].nodes| - 1;
    SoundAt(calls, worlds, i);
    TakenSound(calls, worlds, i);
    NodesGrow(calls, worlds, i + 1, j);
    SoundAt(calls, worlds, j);
    assert Taken(calls, worlds, j);
    OperateEdges(call.args, call.outputs, call.writes, call.after, w, w', source);
    forall x | x in call.args
      ensures LastProducer(w.book.log, x) == Some(source) <==> MadeSince(calls, worlds, i, j, x)
      ensures x.storage.Some? ==>
        (Remembered(w.book.log, x.storage.value) == Some(source) <==> KeptSince(calls, worlds, i, j, x.storage.value))
    {
      ProducedSince(calls, worlds, i, j, x);
      if x.storage.Some? { RememberedSince(calls, worlds, i, j, x.storage.value); }
    }
  }

  ghost predicate AllProper(calls: seq<Call>, worlds: seq<World>, n: nat)
    requires n <= |calls| && n <= |worlds|
  {
    forall k :: 0 <= k < n ==> Proper(calls[k], worlds[k].live)
  }

  /** Once a limit was hit it stays hit. */
  lemma TruncatedStays(call: Call, w: World, w': World)
    requires Happened(call, w, w') && w.truncated
    ensures w'.truncated
  {
    if call.Begin? { LookedUpNodes(w, call.args); }
  }

  lemma {:induction false} SmoothUntil(calls: seq<Call>, worlds: seq<World>, n: nat)
    requires History(calls, worlds, |calls|) && AllProper(calls, worlds, |calls|) && Sound(worlds[0])
    requires n <= |calls| && !worlds[n].truncated
    ensures Smooth(calls, worlds, n)
    decreases n
  {
    if n > 0 {
      assert Happened(calls[n - 1], worlds[n - 1], worlds[n - 1 + 1]);
      if worlds[n - 1].truncated { TruncatedStays(calls[n - 1], worlds[n - 1], worlds[n]); }
      SmoothUntil(calls, worlds, n - 1);
    }
  }

  /** Any two calls of a history are joined as described, as long as no limit was hit. */
  ghost predicate AllJoined(calls: seq<Call>, worlds: seq<World>)
    requires |worlds| == |calls| + 1
  {
    forall i, j :: 0 <= i < j < |calls| && Makes(calls[i], worlds[i]) && calls[j].Operate? && !worlds[j + 1].truncated ==>
      Joined(calls, worlds, i, j)
  }

  lemma EdgesJoinAll(calls: seq<Call>, worlds: seq<World>)
    requires History(calls, worlds, |calls|) && AllProper(calls, worlds, |calls|) && Sound(worlds[0])
    ensures AllJoined(calls, worlds)
  {
    forall i, j |
      0 <= i < j < |calls| && Makes(calls[i], worlds[i]) && calls[j].Operate? && !worlds[j + 1].truncated
      ensures Joined(calls, worlds, i, j)
    {
      SmoothUntil(calls, worlds, j + 1);
      EdgesJoin(calls, worlds, i, j);
    }
  }

  lemma AllowedIsProper(call: Call, live: set<Tensor>, gone: set<Tensor>)
    requires Allowed(call, live, gone)
    ensures Proper(call, live)
  {
  }

  /** A tensor of the storage that is met by then and stays alive keeps a write from being forgotten. */
  lemma KeeperKeeps(calls: seq<Call>, worlds: seq<World>, i: nat, j: nat, keeper: Tensor, s: Storage)
    requires i < j <= |calls| && Smooth(calls, worlds, j) && keeper.storage == Some(s)
    requires keeper in worlds[i + 1].book.met && forall k :: i < k <= j ==> keeper in worlds[k].live
    ensures forall k :: i < k < j ==> !Forgets(calls[k], worlds[k], s)
    ensures !NoneMet(worlds[j].live, worlds[j].book.met, s)
  {
    forall k | i < k <= j
      ensures !NoneMet(worlds[k].live, worlds[k].book.met, s) && (k < j ==> !Forgets(calls[k], worlds[k], s))
    {
      MetStays(calls, worlds, i + 1, k, keeper);
      if k < j { TakenMemory(calls, worlds, k, s); }
    }
  }

  /** A write is seen by every later operator on the storage, as long as the written tensor lives and nobody else writes. */
  lemma WriteIsSeen(calls: seq<Call>, worlds: seq<World>, i: nat, j: nat, written: Tensor, used: Tensor, s: Storage)
    requires i < j < |calls| && Smooth(calls, worlds, j + 1) && calls[i].Operate? && calls[j].Operate?
    requires written in calls[i].writes && used in calls[j].args && written.storage == used.storage == Some(s)
    requires forall k :: i < k <= j ==> written in worlds[k].live
    requires forall k :: i < k < j ==> !Holds(WritesOf(calls[k]), s)
    ensures 0 < |worlds[i + 1].nodes| < |worlds[j + 1].nodes|
    ensures Edge(|worlds[i + 1].nodes| - 1, |worlds[j + 1].nodes| - 1, StorageWrite) in worlds[j + 1].edges
  {
    assert Smooth(calls, worlds, j) && Taken(calls, worlds, i);
    assert WritesOf(calls[i]) == calls[i].writes && Holds(WritesOf(calls[i]), s);
    TakenMemory(calls, worlds, i, s);
    KeeperKeeps(calls, worlds, i, j, written, s);
    EdgesJoin(calls, worlds, i, j);
    assert KeptSince(calls, worlds, i, j, s);
  }

  /**
   * A module that becomes a node has the edges its arguments had when it was entered: from the producer of each, and
   * from the remembered writer of its storage.
   */
  lemma ModuleEdges(args: seq<Tensor>, outputs: seq<Tensor>, entry: World, entered: World, w: World, w': World,
      source: nat)
    requires Happened(Begin(args), entry, entered) && Happened(End(outputs), w, w') && !w'.truncated
    requires w.stack == entered.stack && w.held == entered.held && |w.held| == |w.stack|
    requires |w.nodes| == |entered.nodes| && outputs != [] && forall e :: e in w.edges ==> e.target < |w.nodes|
    ensures w'.nodes == w.nodes + [OpaqueModule]
    ensures Edge(source, |w.nodes|, Data) in w'.edges <==> FromProducer(entered.book.log, args, source)
    ensures Edge(source, |w.nodes|, StorageWrite) in w'.edges <==> FromWriter(entered.book.log, args, source)
  {
    var last := |w.stack| - 1;
    var rest, deps := w.(stack := w.stack[..last], held := w.held[..last]), w.stack[last].dependencies;
    UsesAre(entered.book.log, args, |args|, source);
    WholeSeq(args);
    if w.truncated { TruncatedStays(End(outputs), w, w'); }
    RecordedEdges(rest, w', OpaqueModule, deps, w.held[last], outputs, [], source, Data);
    RecordedEdges(rest, w', OpaqueModule, deps, w.held[last], outputs, [], source, StorageWrite);
    var u: Tensor :| true;
    RecordedProducers(rest, w', OpaqueModule, deps, w.held[last], outputs, [], u);
  }

  lemma {:induction false} MetStays(calls: seq<Call>, worlds: seq<World>, i: nat, n: nat, t: Tensor)
    requires Smooth(calls, worlds, n) && i <= n && t in worlds[i].book.met
    ensures t in worlds[n].book.met
    decreases n
  {
    if i < n {
      MetStays(calls, worlds, i, n - 1, t);
      var any := Storage(0, 0);
      TakenMemory(calls, worlds, n - 1, any);
    }
  }

  /** A tensor is among the known ones of its storage key. */
  predicate Registered(seen: Seen, t: Tensor) {
    t.storage.Some? && t.storage.value.key in seen && t.addr in seen[t.storage.value.key] &&
      seen[t.storage.value.key][t.addr] == t
  }
}
