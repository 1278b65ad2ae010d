/** The dispatcher and its rendition workers: one FIFO task per key, idle retirement and a
    draining shutdown, as a state machine over atomic steps. `W` is what a worker keeps
    between groups and `P` what it hands to the publisher, whatever the packaging policy. */
module RenditionWorkers {
  import opened Wrappers
  import opened Words
  import opened OpaquePackaging

  const RENDITION_WORKER_QUEUE_CAPACITY: nat := 1_024
  const AUDIO_EPOCH_IDLE_TIMEOUT_MS: nat := 30_000

  /** A worker's packaging state and everything its key has handed to the publisher. */
  datatype Line<W, P> = Line(packager: W, parts: seq<P>)

  /** The packaging policy: a new worker's state, what packaging one group does, and what a
      worker does when it leaves. */
  datatype Settings<!W, !P> = Settings(
    formats: set<PayloadKind>, initial: W,
    package: (Key, Line<W, P>, Group) -> Line<W, P>, finish: (Key, Line<W, P>) -> seq<P>)

  datatype Worker<W> = Worker(queue: seq<Group>, packager: W, lastSeen: nat)

  datatype Phase = Running | Draining | Closing | Stopped

  /** What the dispatcher task is doing: waiting for work, blocked on a queue, or joining workers. */
  datatype Dispatcher = Ready | Sending(group: Group) | Joining(count: nat)

  /** One entry of a key's history: a group queued, or the end of its worker. */
  datatype Item = Sent(group: Group) | Ended

  /** `parts`, `history` and `accepted` are history: per key what was handed to the publisher
      and what its workers were given, and every group the dispatcher took. */
  datatype State<W, P> = State(
    phase: Phase, dispatcher: Dispatcher,
    workers: map<Key, Worker<W>>, stopping: map<Key, Worker<W>>,
    parts: map<Key, seq<P>>, history: map<Key, seq<Item>>, accepted: seq<Group>,
    created: nat, active: nat, retired: nat, stopped: nat)

  datatype Step =
    | Receive(group: Group, now: nat)
    | Send
    | Work(key: Key)
    | Sweep(now: nat)
    | Exit(key: Key)
    | Joined
    | Shutdown
    | StopAll

  function Start<W, P>(): State<W, P> { State(Running, Ready, map[], map[], map[], map[], [], 0, 0, 0, 0) }

  function PartsAt<W, P>(s: State<W, P>, k: Key): seq<P> { if k in s.parts then s.parts[k] else [] }

  function HistoryAt<W, P>(s: State<W, P>, k: Key): seq<Item> { if k in s.history then s.history[k] else [] }

  function IdleKeys<W>(workers: map<Key, Worker<W>>, now: nat): set<Key> {
    set k | k in workers && SatSub(now, workers[k].lastSeen) >= AUDIO_EPOCH_IDLE_TIMEOUT_MS
  }

  function Restrict<V>(m: map<Key, V>, keys: set<Key>): (r: map<Key, V>)
    requires keys <= m.Keys
    ensures r.Keys == keys && forall k :: k in keys ==> r[k] == m[k]
  {
    map k | k in keys :: m[k]
  }

  function EndAll(history: map<Key, seq<Item>>, keys: set<Key>): (r: map<Key, seq<Item>>)
    ensures r.Keys == keys && forall k :: k in keys ==> r[k] == (if k in history then history[k] else []) + [Ended]
  {
    map k | k in keys :: (if k in history then history[k] else []) + [Ended]
  }

  /** Close the queues of `keys` and let their workers drain. */
  function StopWorkers<W, P>(s: State<W, P>, keys: set<Key>): State<W, P>
    requires keys <= s.workers.Keys
  {
    s.(workers := s.workers - keys,
       stopping := s.stopping + Restrict(s.workers, keys),
       history := s.history + EndAll(s.history, keys),
       dispatcher := Joining(|keys|))
  }

  /** Take one group off a worker's queue and package it. */
  function Consume<W, P>(c: Settings<W, P>, s: State<W, P>, k: Key, w: Worker<W>): (Worker<W>, seq<P>)
    requires w.queue != []
  {
    var line := c.package(k, Line(w.packager, PartsAt(s, k)), w.queue[0]);
    (w.(queue := w.queue[1..], packager := line.packager), line.parts)
  }

  predicate Enabled<W, P>(c: Settings<W, P>, s: State<W, P>, step: Step) {
    match step
    case Receive(_, _) => (s.phase.Running? || s.phase.Draining?) && s.dispatcher.Ready?
    case Send =>
      s.dispatcher.Sending? && KeyOf(s.dispatcher.group) in s.workers
      && |s.workers[KeyOf(s.dispatcher.group)].queue| < RENDITION_WORKER_QUEUE_CAPACITY
    case Work(k) =>
      (k in s.workers && s.workers[k].queue != []) || (k !in s.workers && k in s.stopping && s.stopping[k].queue != [])
    case Sweep(_) => s.phase.Running? && s.dispatcher.Ready?
    case Exit(k) => k in s.stopping && s.stopping[k].queue == []
    case Joined => s.dispatcher.Joining? && s.stopping == map[]
    case Shutdown => s.phase.Running? && s.dispatcher.Ready?
    case StopAll => s.phase.Draining? && s.dispatcher.Ready?
  }

  function ApplyReceive<W, P>(c: Settings<W, P>, s: State<W, P>, g: Group, now: nat): State<W, P> {
    var k := KeyOf(g);
    if g.kind !in c.formats then s
    else if k in s.workers then
      s.(workers := s.workers[k := s.workers[k].(lastSeen := now)], dispatcher := Sending(g), accepted := s.accepted + [g])
    else
      s.(workers := s.workers[k := Worker([], c.initial, now)], dispatcher := Sending(g), accepted := s.accepted + [g],
         created := s.created + 1, active := s.active + 1)
  }

  function ApplySend<W, P>(s: State<W, P>): State<W, P>
    requires s.dispatcher.Sending? && KeyOf(s.dispatcher.group) in s.workers
  {
    var g := s.dispatcher.group;
    var k := KeyOf(g);
    s.(workers := s.workers[k := s.workers[k].(queue := s.workers[k].queue + [g])],
       history := s.history[k := HistoryAt(s, k) + [Sent(g)]], dispatcher := Ready)
  }

  function ApplyWork<W, P>(c: Settings<W, P>, s: State<W, P>, k: Key): State<W, P>
    requires Enabled(c, s, Work(k))
  {
    if k in s.workers then
      var (w, parts) := Consume(c, s, k, s.workers[k]);
      s.(workers := s.workers[k := w], parts := s.parts[k := parts])
    else
      var (w, parts) := Consume(c, s, k, s.stopping[k]);
      s.(stopping := s.stopping[k := w], parts := s.parts[k := parts])
  }

  /** The queue is closed and empty: flush what is buffered and leave. */
  function ApplyExit<W, P>(c: Settings<W, P>, s: State<W, P>, k: Key): State<W, P>
    requires k in s.stopping
  {
    var last := c.finish(k, Line(s.stopping[k].packager, PartsAt(s, k)));
    s.(stopping := s.stopping - {k}, parts := s.parts[k := PartsAt(s, k) + last])
  }

  /** Retire every worker not heard from for the idle timeout. */
  function ApplySweep<W, P>(s: State<W, P>, now: nat): State<W, P> {
    var idle := IdleKeys(s.workers, now);
    if idle == {} then s else StopWorkers(s.(retired := s.retired + |idle|), idle)
  }

  function ApplyStopAll<W, P>(s: State<W, P>): State<W, P> {
    StopWorkers(s.(stopped := s.stopped + |s.workers|, phase := Closing), s.workers.Keys)
  }

  function ApplyJoined<W, P>(s: State<W, P>): State<W, P>
    requires s.dispatcher.Joining?
  {
    s.(active := SatSub(s.active, s.dispatcher.count), dispatcher := Ready,
       phase := if s.phase.Closing? then Stopped else s.phase)
  }

  function Apply<W, P>(c: Settings<W, P>, s: State<W, P>, step: Step): State<W, P> {
    if !Enabled(c, s, step) then s
    else
      match step
      case Receive(g, now) => ApplyReceive(c, s, g, now)
      case Send => ApplySend(s)
      case Work(k) => ApplyWork(c, s, k)
      case Sweep(now) => ApplySweep(s, now)
      case Exit(k) => ApplyExit(c, s, k)
      case Joined => ApplyJoined(s)
      case Shutdown => s.(phase := Draining)
      case StopAll => ApplyStopAll(s)
  }

  function ApplyAll<W, P>(c: Settings<W, P>, steps: seq<Step>): State<W, P> {
    if steps == [] then Start() else Apply(c, ApplyAll(c, steps[..|steps| - 1]), steps[|steps| - 1])
  }

  // ---------------------------------------------------------------- the sequential reference

  /** One packager fed a key's history in order, replaced by a new one at each end. */
  function RunItems<W, P>(c: Settings<W, P>, k: Key, items: seq<Item>): Line<W, P> {
    if items == [] then Line(c.initial, [])
    else RunItem(c, k, RunItems(c, k, items[..|items| - 1]), items[|items| - 1])
  }

  function RunItem<W, P>(c: Settings<W, P>, k: Key, before: Line<W, P>, item: Item): Line<W, P> {
    match item
    case Sent(g) => c.package(k, before, g)
    case Ended => Line(c.initial, before.parts + c.finish(k, before))
  }

  function SentAll(groups: seq<Group>): (r: seq<Item>)
    ensures |r| == |groups|
  {
    seq(|groups|, i requires 0 <= i < |groups| => Sent(groups[i]))
  }

  /** The part of a key's history its worker has not consumed yet. */
  function Pending<W, P>(s: State<W, P>, k: Key): seq<Item> {
    if k in s.workers then SentAll(s.workers[k].queue)
    else if k in s.stopping then SentAll(s.stopping[k].queue) + [Ended]
    else []
  }

  function LineAt<W, P>(c: Settings<W, P>, s: State<W, P>, k: Key): Line<W, P> {
    Line(if k in s.workers then s.workers[k].packager
         else if k in s.stopping then s.stopping[k].packager
         else c.initial, PartsAt(s, k))
  }

  /** A key's history is what the sequential packager consumed, then what is still pending. */
  ghost predicate KeyOk<W, P>(c: Settings<W, P>, s: State<W, P>, k: Key) {
    var h, p := HistoryAt(s, k), Pending(s, k);
    && |p| <= |h| && h[|h| - |p|..] == p
    && RunItems(c, k, h[..|h| - |p|]) == LineAt(c, s, k)
  }

  function GroupsIn(items: seq<Item>): seq<Group> {
    if items == [] then []
    else
      var last := items[|items| - 1];
      GroupsIn(items[..|items| - 1]) + if last.Sent? then [last.group] else []
  }

  function ForKey(groups: seq<Group>, k: Key): seq<Group> {
    if groups == [] then []
    else ForKey(groups[..|groups| - 1], k) + if KeyOf(groups[|groups| - 1]) == k then [groups[|groups| - 1]] else []
  }

  /** Every accepted group of the key was queued, in order, but for one the dispatcher still holds. */
  ghost predicate NothingLost<W, P>(s: State<W, P>, k: Key) {
    ForKey(s.accepted, k)
    == GroupsIn(HistoryAt(s, k))
     + if s.dispatcher.Sending? && KeyOf(s.dispatcher.group) == k then [s.dispatcher.group] else []
  }

  /** Tables, dispatcher and phase fit together: one worker per key, live or draining. */
  ghost predicate Placed<W, P>(s: State<W, P>) {
    && s.workers.Keys !! s.stopping.Keys
    && (s.dispatcher.Sending? ==> KeyOf(s.dispatcher.group) in s.workers)
    && (!s.dispatcher.Joining? ==> s.stopping == map[])
    && (s.phase.Closing? || s.phase.Stopped? ==> s.workers == map[])
    && (s.phase.Stopped? ==> s.dispatcher.Ready?)
    && (s.phase.Closing? ==> s.dispatcher.Joining?)
  }

  ghost predicate QueuesFit<W>(workers: map<Key, Worker<W>>) {
    forall k :: k in workers ==> |workers[k].queue| <= RENDITION_WORKER_QUEUE_CAPACITY
  }

  ghost predicate Counted<W, P>(s: State<W, P>) {
    && s.active == |s.workers| + (if s.dispatcher.Joining? then s.dispatcher.count else 0)
    && s.created == |s.workers| + s.retired + s.stopped
  }

  ghost predicate TasksOk<W, P>(s: State<W, P>) {
    Placed(s) && QueuesFit(s.workers) && QueuesFit(s.stopping) && Counted(s)
  }

  ghost predicate Inv<W, P>(c: Settings<W, P>, s: State<W, P>) {
    TasksOk(s) && (forall k: Key :: KeyOk(c, s, k)) && (forall k: Key :: NothingLost(s, k))
  }

  // ---------------------------------------------------------------- steps keep the invariant

  lemma SentAllAppend(groups: seq<Group>, g: Group)
    ensures SentAll(groups + [g]) == SentAll(groups) + [Sent(g)]
  {
  }

  lemma GroupsInAppend(items: seq<Item>, i: Item)
    ensures GroupsIn(items + [i]) == GroupsIn(items) + if i.Sent? then [i.group] else []
  {
    assert (items + [i])[..|items|] == items;
  }

  lemma ForKeyAppend(groups: seq<Group>, g: Group, k: Key)
    ensures ForKey(groups + [g], k) == ForKey(groups, k) + if KeyOf(g) == k then [g] else []
  {
    assert (groups + [g])[..|groups|] == groups;
  }

  // How a step can change what concerns one key.

  ghost predicate Same<W, P>(c: Settings<W, P>, s: State<W, P>, s': State<W, P>, k: Key) {
    HistoryAt(s', k) == HistoryAt(s, k) && Pending(s', k) == Pending(s, k) && LineAt(c, s', k) == LineAt(c, s, k)
  }

  /** One more pending item at the end of the history. */
  ghost predicate Grows<W, P>(c: Settings<W, P>, s: State<W, P>, s': State<W, P>, k: Key, i: Item) {
    && HistoryAt(s', k) == HistoryAt(s, k) + [i] && Pending(s', k) == Pending(s, k) + [i]
    && LineAt(c, s', k) == LineAt(c, s, k)
  }

  /** The first pending item is consumed as the sequential packager would. */
  ghost predicate Advances<W, P>(c: Settings<W, P>, s: State<W, P>, s': State<W, P>, k: Key) {
    && HistoryAt(s', k) == HistoryAt(s, k) && Pending(s, k) != [] && Pending(s', k) == Pending(s, k)[1..]
    && LineAt(c, s', k) == RunItem(c, k, LineAt(c, s, k), Pending(s, k)[0])
  }

  lemma KeyGrows<W, P>(c: Settings<W, P>, s: State<W, P>, s': State<W, P>, k: Key, i: Item)
    requires KeyOk(c, s, k) && Grows(c, s, s', k, i)
    ensures KeyOk(c, s', k)
  {
    var h, p, h', p' := HistoryAt(s, k), Pending(s, k), HistoryAt(s', k), Pending(s', k);
    var n := |h| - |p|;
    assert |h'| - |p'| == n && h'[..n] == h[..n];
    assert h'[n..] == h[n..] + [i];
  }

  lemma KeyAdvances<W, P>(c: Settings<W, P>, s: State<W, P>, s': State<W, P>, k: Key)
    requires KeyOk(c, s, k) && Advances(c, s, s', k)
    ensures KeyOk(c, s', k)
  {
    var h, p := HistoryAt(s, k), Pending(s, k);
    var n := |h| - |p|;
    assert h[n..] == p;
    assert h[..n + 1][..n] == h[..n] && h[..n + 1][n] == p[0];
    assert h[n + 1..] == p[1..];
  }

  // The dispatcher takes a group.

  lemma PutSize<V>(m: map<Key, V>, k: Key, v: V)
    ensures |m[k := v]| == |m| + if k in m then 0 else 1
  {
    assert |m[k := v]| == |m[k := v].Keys| && |m| == |m.Keys|;
    assert m[k := v].Keys == m.Keys + {k};
  }

  lemma ReceiveCounted<W, P>(c: Settings<W, P>, s: State<W, P>, g: Group, now: nat)
    requires Counted(s) && s.dispatcher.Ready?
    ensures Counted(ApplyReceive(c, s, g, now))
  {
    var s', k := ApplyReceive(c, s, g, now), KeyOf(g);
    if g.kind in c.formats { PutSize(s.workers, k, s'.workers[k]); }
  }

  lemma ReceiveTasks<W, P>(c: Settings<W, P>, s: State<W, P>, g: Group, now: nat)
    requires TasksOk(s) && Enabled(c, s, Receive(g, now))
    ensures TasksOk(ApplyReceive(c, s, g, now))
  {
    ReceiveCounted(c, s, g, now);
    var s' := ApplyReceive(c, s, g, now);
    assert Placed(s');
    assert QueuesFit(s'.workers);
  }

  lemma ReceiveSame<W, P>(c: Settings<W, P>, s: State<W, P>, g: Group, now: nat, k: Key)
    requires s.stopping == map[]
    ensures Same(c, s, ApplyReceive(c, s, g, now), k)
  {
    var s' := ApplyReceive(c, s, g, now);
    if g.kind in c.formats && k == KeyOf(g) {
      assert k !in s.workers ==> Pending(s', k) == SentAll([]) == [];
    }
  }

  lemma ReceiveLoses<W, P>(c: Settings<W, P>, s: State<W, P>, g: Group, now: nat, k: Key)
    requires s.dispatcher.Ready? && NothingLost(s, k)
    ensures NothingLost(ApplyReceive(c, s, g, now), k)
  {
    var s' := ApplyReceive(c, s, g, now);
    if g.kind in c.formats {
      ForKeyAppend(s.accepted, g, k);
      assert HistoryAt(s', k) == HistoryAt(s, k) && s'.accepted == s.accepted + [g];
    }
  }

  // The held group enters its worker's queue.

  lemma SendTasks<W, P>(c: Settings<W, P>, s: State<W, P>)
    requires TasksOk(s) && Enabled(c, s, Send)
    ensures TasksOk(ApplySend(s))
  {
    assert ApplySend(s).workers.Keys == s.workers.Keys;
    assert |ApplySend(s).workers| == |ApplySend(s).workers.Keys| && |s.workers| == |s.workers.Keys|;
  }

  lemma SendShape<W, P>(c: Settings<W, P>, s: State<W, P>, k: Key)
    requires Enabled(c, s, Send)
    ensures var g := s.dispatcher.group;
      if k == KeyOf(g) then Grows(c, s, ApplySend(s), k, Sent(g)) else Same(c, s, ApplySend(s), k)
  {
    if k == KeyOf(s.dispatcher.group) { SentAllAppend(s.workers[k].queue, s.dispatcher.group); }
  }

  lemma SendLoses<W, P>(s: State<W, P>, k: Key)
    requires s.dispatcher.Sending? && KeyOf(s.dispatcher.group) in s.workers && NothingLost(s, k)
    ensures NothingLost(ApplySend(s), k)
  {
    GroupsInAppend(HistoryAt(s, k), Sent(s.dispatcher.group));
  }

  // A worker packages the head of its queue.

  lemma WorkTasks<W, P>(c: Settings<W, P>, s: State<W, P>, key: Key)
    requires TasksOk(s) && Enabled(c, s, Work(key))
    ensures TasksOk(ApplyWork(c, s, key))
  {
    var s' := ApplyWork(c, s, key);
    assert s'.workers.Keys == s.workers.Keys && s'.stopping.Keys == s.stopping.Keys;
    assert |s'.workers| == |s'.workers.Keys| && |s.workers| == |s.workers.Keys|;
  }

  lemma SentAllRest(groups: seq<Group>)
    requires groups != []
    ensures SentAll(groups)[0] == Sent(groups[0]) && SentAll(groups)[1..] == SentAll(groups[1..])
  {
  }

  lemma WorkShape<W, P>(c: Settings<W, P>, s: State<W, P>, key: Key, k: Key)
    requires Enabled(c, s, Work(key))
    ensures if k == key then Advances(c, s, ApplyWork(c, s, key), k) else Same(c, s, ApplyWork(c, s, key), k)
  {
    if k == key {
      SentAllRest((if k in s.workers then s.workers[k] else s.stopping[k]).queue);
    }
  }

  // Workers are closed, by an idle sweep or by the shutdown.

  ghost predicate Closes<W, P>(s: State<W, P>, keys: set<Key>, s': State<W, P>) {
    && s.dispatcher.Ready? && keys <= s.workers.Keys && !s.phase.Closing? && !s.phase.Stopped?
    && s' == StopWorkers(s, keys).(phase := s'.phase, retired := s'.retired, stopped := s'.stopped)
    && s'.retired + s'.stopped == s.retired + s.stopped + |keys|
    && (s'.phase == s.phase || (s'.phase.Closing? && keys == s.workers.Keys))
  }

  lemma RestSize<T>(all: set<T>, some: set<T>)
    requires some <= all
    ensures |all - some| + |some| == |all|
  {
    assert (all - some) + some == all;
  }

  lemma StopMaps<W, P>(s: State<W, P>, keys: set<Key>, k: Key)
    requires keys <= s.workers.Keys && s.stopping == map[]
    ensures var s' := StopWorkers(s, keys);
      && s'.workers.Keys == s.workers.Keys - keys && s'.stopping.Keys == keys
      && (k in s'.workers ==> s'.workers[k] == s.workers[k])
      && (k in keys ==> s'.stopping[k] == s.workers[k])
      && HistoryAt(s', k) == if k in keys then HistoryAt(s, k) + [Ended] else HistoryAt(s, k)
  {
    assert s.stopping + Restrict(s.workers, keys) == Restrict(s.workers, keys);
  }

  lemma CloseMaps<W, P>(s: State<W, P>, keys: set<Key>, s': State<W, P>, k: Key)
    requires Closes(s, keys, s') && s.stopping == map[]
    ensures s'.workers.Keys == s.workers.Keys - keys && s'.stopping.Keys == keys
    ensures k in s'.workers ==> s'.workers[k] == s.workers[k]
    ensures k in s'.stopping ==> s'.stopping[k] == s.workers[k]
    ensures PartsAt(s', k) == PartsAt(s, k)
    ensures HistoryAt(s', k) == if k in keys then HistoryAt(s, k) + [Ended] else HistoryAt(s, k)
  {
    StopMaps(s, keys, k);
    var stop := StopWorkers(s, keys);
    assert s'.workers == stop.workers && s'.stopping == stop.stopping;
    assert s'.history == stop.history && s'.parts == s.parts;
  }

  lemma CloseShape<W, P>(c: Settings<W, P>, s: State<W, P>, keys: set<Key>, s': State<W, P>, k: Key)
    requires Closes(s, keys, s') && s.stopping == map[]
    ensures if k in keys then Grows(c, s, s', k, Ended) else Same(c, s, s', k)
  {
    CloseMaps(s, keys, s', k);
  }

  lemma CloseTables<W, P>(s: State<W, P>, keys: set<Key>, s': State<W, P>)
    requires Closes(s, keys, s') && s.stopping == map[]
    ensures s'.workers.Keys == s.workers.Keys - keys && s'.stopping.Keys == keys
    ensures |s'.workers| + |keys| == |s.workers|
    ensures QueuesFit(s.workers) ==> QueuesFit(s'.workers) && QueuesFit(s'.stopping)
  {
    forall k: Key ensures s'.workers.Keys == s.workers.Keys - keys && s'.stopping.Keys == keys
      && (k in s'.workers ==> s'.workers[k] == s.workers[k]) && (k in s'.stopping ==> s'.stopping[k] == s.workers[k])
    {
      CloseMaps(s, keys, s', k);
    }
    RestSize(s.workers.Keys, keys);
    assert |s'.workers| == |s'.workers.Keys| && |s.workers| == |s.workers.Keys|;
  }

  lemma CloseTasks<W, P>(c: Settings<W, P>, s: State<W, P>, keys: set<Key>, s': State<W, P>)
    requires TasksOk(s) && Closes(s, keys, s')
    ensures TasksOk(s')
  {
    CloseTables(s, keys, s');
    assert Counted(s');
    assert s'.phase.Closing? ==> s'.workers.Keys == {};
  }

  lemma CloseLoses<W, P>(c: Settings<W, P>, s: State<W, P>, keys: set<Key>, s': State<W, P>, k: Key)
    requires Closes(s, keys, s') && s.stopping == map[] && NothingLost(s, k)
    ensures NothingLost(s', k)
  {
    CloseShape(c, s, keys, s', k);
    GroupsInAppend(HistoryAt(s, k), Ended);
    assert GroupsIn(HistoryAt(s, k)) + [] == GroupsIn(HistoryAt(s, k));
  }

  // A closed worker with an empty queue flushes and leaves.

  lemma ExitShape<W, P>(c: Settings<W, P>, s: State<W, P>, key: Key, k: Key)
    requires TasksOk(s) && Enabled(c, s, Exit(key))
    ensures if k == key then Advances(c, s, ApplyExit(c, s, key), k) else Same(c, s, ApplyExit(c, s, key), k)
  {
    if k == key {
      assert Pending(s, k) == SentAll([]) + [Ended] == [Ended];
      assert [Ended][1..] == [];
    }
  }

  /** A step leaves each key as it was, adds one pending item to it, or consumes one. */
  lemma StepShape<W, P>(c: Settings<W, P>, s: State<W, P>, step: Step, k: Key)
    requires TasksOk(s)
    ensures var s' := Apply(c, s, step);
      Same(c, s, s', k) || (exists i :: Grows(c, s, s', k, i)) || Advances(c, s, s', k)
  {
    if Enabled(c, s, step) {
      match step
      case Receive(g, now) => ReceiveSame(c, s, g, now, k);
      case Send => SendShape(c, s, k);
      case Work(key) => WorkShape(c, s, key, k);
      case Exit(key) => ExitShape(c, s, key, k);
      case Sweep(now) => SweepShape(c, s, now, k);
      case StopAll => StopAllShape(c, s, k);
      case Joined => assert Same(c, s, ApplyJoined(s), k);
      case Shutdown =>
    }
  }

  lemma SweepShape<W, P>(c: Settings<W, P>, s: State<W, P>, now: nat, k: Key)
    requires TasksOk(s) && Enabled(c, s, Sweep(now))
    ensures var s' := ApplySweep(s, now); Same(c, s, s', k) || Grows(c, s, s', k, Ended)
  {
    var idle := IdleKeys(s.workers, now);
    if idle != {} { CloseShape(c, s, idle, ApplySweep(s, now), k); }
  }

  lemma StopAllShape<W, P>(c: Settings<W, P>, s: State<W, P>, k: Key)
    requires TasksOk(s) && Enabled(c, s, StopAll)
    ensures var s' := ApplyStopAll(s); Same(c, s, s', k) || Grows(c, s, s', k, Ended)
  {
    assert |s.workers| == |s.workers.Keys|;
    CloseShape(c, s, s.workers.Keys, ApplyStopAll(s), k);
  }

  lemma ShapeKeepsKey<W, P>(c: Settings<W, P>, s: State<W, P>, s': State<W, P>, k: Key)
    requires KeyOk(c, s, k)
    requires Same(c, s, s', k) || (exists i :: Grows(c, s, s', k, i)) || Advances(c, s, s', k)
    ensures KeyOk(c, s', k)
  {
    if Advances(c, s, s', k) {
      KeyAdvances(c, s, s', k);
    } else if !Same(c, s, s', k) {
      var i :| Grows(c, s, s', k, i);
      KeyGrows(c, s, s', k, i);
    }
  }

  lemma StepKey<W, P>(c: Settings<W, P>, s: State<W, P>, step: Step, k: Key)
    requires TasksOk(s) && KeyOk(c, s, k)
    ensures KeyOk(c, Apply(c, s, step), k)
  {
    StepShape(c, s, step, k);
    ShapeKeepsKey(c, s, Apply(c, s, step), k);
  }

  lemma SweepLoses<W, P>(c: Settings<W, P>, s: State<W, P>, now: nat, k: Key)
    requires TasksOk(s) && Enabled(c, s, Sweep(now)) && NothingLost(s, k)
    ensures NothingLost(ApplySweep(s, now), k)
  {
    var idle := IdleKeys(s.workers, now);
    if idle != {} { CloseLoses(c, s, idle, ApplySweep(s, now), k); }
  }

  lemma StopAllLoses<W, P>(c: Settings<W, P>, s: State<W, P>, k: Key)
    requires TasksOk(s) && Enabled(c, s, StopAll) && NothingLost(s, k)
    ensures NothingLost(ApplyStopAll(s), k)
  {
    assert |s.workers| == |s.workers.Keys|;
    CloseLoses(c, s, s.workers.Keys, ApplyStopAll(s), k);
  }

  lemma SweepTasks<W, P>(c: Settings<W, P>, s: State<W, P>, now: nat)
    requires TasksOk(s) && Enabled(c, s, Sweep(now))
    ensures TasksOk(ApplySweep(s, now))
  {
    var idle := IdleKeys(s.workers, now);
    if idle != {} { CloseTasks(c, s, idle, ApplySweep(s, now)); }
  }

  lemma StopAllTasks<W, P>(c: Settings<W, P>, s: State<W, P>)
    requires TasksOk(s) && Enabled(c, s, StopAll)
    ensures TasksOk(ApplyStopAll(s))
  {
    assert |s.workers| == |s.workers.Keys|;
    CloseTasks(c, s, s.workers.Keys, ApplyStopAll(s));
  }

  lemma StepLoses<W, P>(c: Settings<W, P>, s: State<W, P>, step: Step, k: Key)
    requires TasksOk(s) && NothingLost(s, k)
    ensures NothingLost(Apply(c, s, step), k)
  {
    if Enabled(c, s, step) {
      match step
      case Receive(g, now) => ReceiveLoses(c, s, g, now, k);
      case Send => SendLoses(s, k);
      case Work(key) =>
      case Exit(key) =>
      case Sweep(now) => SweepLoses(c, s, now, k);
      case StopAll => StopAllLoses(c, s, k);
      case Joined => assert NothingLost(ApplyJoined(s), k);
      case Shutdown =>
    }
  }

  lemma StepTasks<W, P>(c: Settings<W, P>, s: State<W, P>, step: Step)
    requires TasksOk(s)
    ensures TasksOk(Apply(c, s, step))
  {
    if Enabled(c, s, step) {
      match step
      case Receive(g, now) => ReceiveTasks(c, s, g, now);
      case Send => SendTasks(c, s);
      case Work(k) => WorkTasks(c, s, k);
      case Exit(k) =>
      case Sweep(now) => SweepTasks(c, s, now);
      case StopAll => StopAllTasks(c, s);
      case Joined => assert TasksOk(ApplyJoined(s));
      case Shutdown =>
    }
  }

  lemma StepKeepsInv<W, P>(c: Settings<W, P>, s: State<W, P>, step: Step)
    requires Inv(c, s)
    ensures Inv(c, Apply(c, s, step))
  {
    StepTasks(c, s, step);
    forall k: Key ensures KeyOk(c, Apply(c, s, step), k) && NothingLost(Apply(c, s, step), k) {
      StepKey(c, s, step, k);
      StepLoses(c, s, step, k);
    }
  }

  lemma {:induction false} RunKeepsInv<W, P>(c: Settings<W, P>, steps: seq<Step>)
    ensures Inv(c, ApplyAll(c, steps))
  {
    if steps != [] {
      RunKeepsInv(c, steps[..|steps| - 1]);
      StepKeepsInv(c, ApplyAll(c, steps[..|steps| - 1]), steps[|steps| - 1]);
    }
  }

  // ---------------------------------------------------------------- promises

  /** What a key handed over is what the sequential packager hands over on its history, and that
      history holds every accepted group of the key, in order. */
  ghost predicate Sequential<W, P>(c: Settings<W, P>, s: State<W, P>, k: Key) {
    && PartsAt(s, k) == RunItems(c, k, HistoryAt(s, k)).parts
    && GroupsIn(HistoryAt(s, k)) == ForKey(s.accepted, k)
  }

  lemma StoppedIsSequential<W, P>(c: Settings<W, P>, s: State<W, P>, k: Key)
    requires Inv(c, s) && s.phase.Stopped?
    ensures Sequential(c, s, k)
  {
    assert KeyOk(c, s, k) && NothingLost(s, k);
    assert HistoryAt(s, k)[..|HistoryAt(s, k)|] == HistoryAt(s, k);
  }

  /** After any schedule that reached a stop, every key's parts are those of the sequential
      packager on its history, and that history holds every accepted group of the key, in order. */
  lemma ScheduleIsSequential<W, P>(c: Settings<W, P>, steps: seq<Step>, k: Key)
    requires ApplyAll(c, steps).phase.Stopped?
    ensures Sequential(c, ApplyAll(c, steps), k)
  {
    RunKeepsInv(c, steps);
    StoppedIsSequential(c, ApplyAll(c, steps), k);
  }

  /** At every moment a key has at most one worker, live or draining, and the workers ever
      created are those in the table, those retired and those stopped. */
  lemma WorkersAreAccounted<W, P>(c: Settings<W, P>, steps: seq<Step>, k: Key)
    ensures var s := ApplyAll(c, steps);
      && !(k in s.workers && k in s.stopping)
      && (k in s.workers ==> |s.workers[k].queue| <= 1_024)
      && s.created == |s.workers| + s.retired + s.stopped
      && (s.dispatcher.Ready? ==> s.active == |s.workers|)
      && (s.phase.Stopped? ==> s.active == 0 && s.created == s.retired + s.stopped)
  {
    RunKeepsInv(c, steps);
  }

  // ---------------------------------------------------------------- who is heard, who is retired

  /** The groups of published formats a schedule delivered to the dispatcher, in order. */
  function Heard<W, P>(c: Settings<W, P>, steps: seq<Step>): seq<Group> {
    if steps == [] then []
    else
      var before, step := steps[..|steps| - 1], steps[|steps| - 1];
      Heard(c, before)
      + if step.Receive? && Enabled(c, ApplyAll(c, before), step) && step.group.kind in c.formats
        then [step.group] else []
  }

  /** When the key was last heard from. */
  function LastHeard<W, P>(c: Settings<W, P>, steps: seq<Step>, k: Key): Option<nat> {
    if steps == [] then None
    else
      var before, step := steps[..|steps| - 1], steps[|steps| - 1];
      if step.Receive? && Enabled(c, ApplyAll(c, before), step) && step.group.kind in c.formats && KeyOf(step.group) == k
      then Some(step.now) else LastHeard(c, before, k)
  }

  /** Receiving a group of a published format puts its worker's clock at `now`, and touches no
      other worker and no queue; other formats are ignored. */
  lemma ReceiveTouches<W, P>(c: Settings<W, P>, s: State<W, P>, g: Group, now: nat)
    ensures var s' := ApplyReceive(c, s, g, now);
      && (g.kind !in c.formats ==> s' == s)
      && (g.kind in c.formats ==>
            && KeyOf(g) in s'.workers && s'.workers[KeyOf(g)].lastSeen == now
            && s'.workers[KeyOf(g)].queue == (if KeyOf(g) in s.workers then s.workers[KeyOf(g)].queue else [])
            && s'.workers - {KeyOf(g)} == s.workers - {KeyOf(g)})
  {
  }

  lemma StepHears<W, P>(c: Settings<W, P>, s: State<W, P>, step: Step, k: Key)
    ensures var s' := Apply(c, s, step);
      var heard := step.Receive? && Enabled(c, s, step) && step.group.kind in c.formats;
      && s'.accepted == s.accepted + (if heard then [step.group] else [])
      && (k in s'.workers ==>
            if heard && KeyOf(step.group) == k then s'.workers[k].lastSeen == step.now
            else k in s.workers && s'.workers[k].lastSeen == s.workers[k].lastSeen)
  {
  }

  /** Over all schedules the accepted groups are those heard, and every worker's clock stands at
      the last one of its key. */
  lemma {:induction false} WorkersAreHeard<W, P>(c: Settings<W, P>, steps: seq<Step>, k: Key)
    ensures var s := ApplyAll(c, steps);
      s.accepted == Heard(c, steps) && (k in s.workers ==> LastHeard(c, steps, k) == Some(s.workers[k].lastSeen))
  {
    if steps != [] {
      var before, step := steps[..|steps| - 1], steps[|steps| - 1];
      WorkersAreHeard(c, before, k);
      StepHears(c, ApplyAll(c, before), step, k);
    }
  }

  /** Over all schedules, a sweep retires exactly the workers whose key was last heard from
      30 seconds before or earlier; the dispatcher waits for as many as it retired. */
  lemma SweepRetiresIff<W, P>(c: Settings<W, P>, steps: seq<Step>, now: nat, k: Key)
    requires Enabled(c, ApplyAll(c, steps), Sweep(now)) && k in ApplyAll(c, steps).workers
    ensures var s, s' := ApplyAll(c, steps), Apply(c, ApplyAll(c, steps), Sweep(now));
      && LastHeard(c, steps, k).Some?
      && (k !in s'.workers <==> LastHeard(c, steps, k).value + 30_000 <= now)
      && (k !in s'.workers ==> k in s'.stopping && s'.stopping[k] == s.workers[k])
      && (k in s'.workers ==> s'.workers[k] == s.workers[k])
  {
    WorkersAreHeard(c, steps, k);
  }

  /** The dispatcher is never stuck: a full queue has a worker that can consume, and a join
      waits only for workers that can work or leave. */
  lemma NeverStuck<W, P>(c: Settings<W, P>, steps: seq<Step>)
    ensures var s := ApplyAll(c, steps);
      s.dispatcher.Ready? || exists step: Step :: (step.Send? || step.Work? || step.Exit? || step.Joined?) && Enabled(c, s, step)
  {
    RunKeepsInv(c, steps);
    var s := ApplyAll(c, steps);
    match s.dispatcher
    case Ready =>
    case Sending(g) =>
      assert Enabled(c, s, Send) || Enabled(c, s, Work(KeyOf(g)));
    case Joining(_) =>
      if s.stopping == map[] {
        assert Enabled(c, s, Joined);
      } else {
        var k :| k in s.stopping;
        assert Enabled(c, s, Work(k)) || Enabled(c, s, Exit(k));
      }
  }

  // ---------------------------------------------------------------- shutdown

  /** After a stop nothing can happen any more, and no worker is left. */
  lemma StoppedIsFinal<W, P>(c: Settings<W, P>, steps: seq<Step>, step: Step)
    requires ApplyAll(c, steps).phase.Stopped?
    ensures var s := ApplyAll(c, steps);
      !Enabled(c, s, step) && Apply(c, s, step) == s && s.workers == map[] && s.stopping == map[]
  {
    RunKeepsInv(c, steps);
  }

  lemma ApplyAllExtends<W, P>(c: Settings<W, P>, steps: seq<Step>, step: Step)
    ensures ApplyAll(c, steps + [step]) == Apply(c, ApplyAll(c, steps), step)
  {
    assert (steps + [step])[..|steps|] == steps;
  }

  /** A draining worker can finish its queue and leave. */
  lemma {:induction false} WorkerLeaves<W, P>(c: Settings<W, P>, steps: seq<Step>, k: Key) returns (more: seq<Step>)
    requires var s := ApplyAll(c, steps); k in s.stopping && s.dispatcher.Joining?
    ensures var s, s' := ApplyAll(c, steps), ApplyAll(c, more);
      && steps <= more && s'.stopping.Keys == s.stopping.Keys - {k} && s'.dispatcher == s.dispatcher
      && s'.phase == s.phase && s'.workers == s.workers
    decreases |ApplyAll(c, steps).stopping[k].queue|
  {
    RunKeepsInv(c, steps);
    var s := ApplyAll(c, steps);
    var step := if s.stopping[k].queue == [] then Exit(k) else Work(k);
    ApplyAllExtends(c, steps, step);
    if s.stopping[k].queue == [] {
      more := steps + [step];
    } else {
      more := WorkerLeaves(c, steps + [step], k);
    }
  }

  lemma {:induction false} WorkersLeave<W, P>(c: Settings<W, P>, steps: seq<Step>) returns (more: seq<Step>)
    requires ApplyAll(c, steps).dispatcher.Joining?
    ensures var s, s' := ApplyAll(c, steps), ApplyAll(c, more);
      && steps <= more && s'.stopping == map[]
      && s'.dispatcher == s.dispatcher && s'.phase == s.phase && s'.workers == s.workers
    decreases |ApplyAll(c, steps).stopping.Keys|
  {
    var s := ApplyAll(c, steps);
    if s.stopping == map[] {
      more := steps;
    } else {
      var k :| k in s.stopping;
      var gone := WorkerLeaves(c, steps, k);
      RestSize(s.stopping.Keys, {k});
      more := WorkersLeave(c, gone);
    }
  }

  /** Whenever the dispatcher waits for input, a shutdown can be carried through to the stop. */
  lemma ShutdownCompletes<W, P>(c: Settings<W, P>, steps: seq<Step>) returns (more: seq<Step>)
    requires ApplyAll(c, steps).phase.Running? && ApplyAll(c, steps).dispatcher.Ready?
    ensures steps <= more && ApplyAll(c, more).phase.Stopped?
  {
    RunKeepsInv(c, steps);
    ApplyAllExtends(c, steps, Shutdown);
    ApplyAllExtends(c, steps + [Shutdown], StopAll);
    var left := WorkersLeave(c, steps + [Shutdown] + [StopAll]);
    ApplyAllExtends(c, left, Joined);
    more := left + [Joined];
  }

  /** While the dispatcher waits it takes any group until it stops; it sweeps before a shutdown only. */
  lemma ReadyTakesGroups<W, P>(c: Settings<W, P>, steps: seq<Step>, g: Group, now: nat)
    requires ApplyAll(c, steps).dispatcher.Ready? && !ApplyAll(c, steps).phase.Stopped?
    ensures var s := ApplyAll(c, steps);
      && Enabled(c, s, Receive(g, now))
      && Heard(c, steps + [Receive(g, now)]) == Heard(c, steps) + (if g.kind in c.formats then [g] else [])
      && (Enabled(c, s, Sweep(now)) <==> s.phase.Running?)
  {
    RunKeepsInv(c, steps);
    assert (steps + [Receive(g, now)])[..|steps|] == steps;
  }
}
