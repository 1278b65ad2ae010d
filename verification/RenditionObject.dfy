/** The dispatcher's tables and counters as a mutable object, each method one atomic step. */
module RenditionObjects {
  import opened Words
  import opened OpaquePackaging
  import opened RenditionWorkers

  class RenditionDispatcher<W, P> {
    const settings: Settings<W, P>
    var phase: Phase
    var dispatcher: Dispatcher
    var workers: map<Key, Worker<W>>
    var stopping: map<Key, Worker<W>>
    var parts: map<Key, seq<P>>
    var created: nat
    var active: nat
    var retired: nat
    var stopped: nat
    ghost var history: map<Key, seq<Item>>
    ghost var accepted: seq<Group>

    ghost function View(): State<W, P>
      reads this
    {
      State(phase, dispatcher, workers, stopping, parts, history, accepted, created, active, retired, stopped)
    }

    /** One worker per key, counters in balance, and per key what the workers handed over is what
        the sequential packager hands over, with no accepted group lost. */
    ghost predicate Valid()
      reads this
    {
      RenditionWorkers.Inv(settings, View())
    }

    constructor (settings: Settings<W, P>)
      ensures Valid() && View() == Start() && this.settings == settings
    {
      this.settings := settings;
      phase, dispatcher, workers, stopping, parts := Running, Ready, map[], map[], map[];
      created, active, retired, stopped, history, accepted := 0, 0, 0, 0, map[], [];
      new;
      RunKeepsInv(settings, []);
    }

    /** A recovered group: refresh or create its worker, then hold the group for its queue. */
    method Dispatch(g: Group, now: nat)
      requires Valid() && dispatcher.Ready? && (phase.Running? || phase.Draining?)
      modifies this`workers, this`dispatcher, this`accepted, this`created, this`active
      ensures Valid() && View() == ApplyReceive(settings, old(View()), g, now)
      ensures accepted == old(accepted) + if g.kind in settings.formats then [g] else []
      ensures g.kind in settings.formats ==>
        KeyOf(g) in workers && workers[KeyOf(g)].lastSeen == now && workers - {KeyOf(g)} == old(workers) - {KeyOf(g)}
      ensures Balanced(View())
    {
      ReceiveTouches(settings, View(), g, now);
      ReceiveIs(settings, View(), g, now);
      Accept(g, now);
    }

    method Accept(g: Group, now: nat)
      modifies this`workers, this`dispatcher, this`accepted, this`created, this`active
      ensures View() == ApplyReceive(settings, old(View()), g, now)
    {
      if g.kind !in settings.formats {
        return;
      }
      var key := KeyOf(g);
      if key in workers {
        workers := workers[key := workers[key].(lastSeen := now)];
      } else {
        workers := workers[key := Worker([], settings.initial, now)];
        created, active := created + 1, active + 1;
      }
      dispatcher, accepted := Sending(g), accepted + [g];
    }

    /** The awaited send goes through once the queue of the group's worker has room. */
    method Deliver()
      requires Valid() && dispatcher.Sending?
      requires KeyOf(dispatcher.group) in workers ==>
        |workers[KeyOf(dispatcher.group)].queue| < RENDITION_WORKER_QUEUE_CAPACITY
      modifies this`workers, this`dispatcher, this`history
      ensures Valid() && old(KeyOf(dispatcher.group) in workers) && View() == ApplySend(old(View()))
      ensures dispatcher.Ready?
    {
      SendIs(settings, View());
      var g := dispatcher.group;
      var key := KeyOf(g);
      history := history[key := HistoryAt(View(), key) + [Sent(g)]];
      workers := workers[key := workers[key].(queue := workers[key].queue + [g])];
      dispatcher := Ready;
    }

    /** A worker takes the next group off its queue, draining or not. */
    method PackageNext(key: Key)
      requires Valid() && Enabled(settings, View(), Work(key))
      modifies this`workers, this`stopping, this`parts
      ensures Valid() && View() == ApplyWork(settings, old(View()), key)
    {
      WorkIs(settings, View(), key);
      var worker := if key in workers then workers[key] else stopping[key];
      var done := if key in parts then parts[key] else [];
      var line := settings.package(key, Line(worker.packager, done), worker.queue[0]);
      worker := worker.(queue := worker.queue[1..], packager := line.packager);
      if key in workers {
        workers := workers[key := worker];
      } else {
        stopping := stopping[key := worker];
      }
      parts := parts[key := line.parts];
    }

    /** A worker whose closed queue is empty flushes and leaves. */
    method Leave(key: Key)
      requires Valid() && key in stopping && stopping[key].queue == []
      modifies this`stopping, this`parts
      ensures Valid() && View() == ApplyExit(settings, old(View()), key)
    {
      ExitIs(settings, View(), key);
      var done := if key in parts then parts[key] else [];
      parts := parts[key := done + settings.finish(key, Line(stopping[key].packager, done))];
      stopping := stopping - {key};
    }

    /** Move workers out of the table one by one. */
    method MoveWorkers(keys: set<Key>)
      requires keys <= workers.Keys && stopping == map[]
      modifies this`workers, this`stopping
      ensures Moved(old(workers), keys, workers, stopping)
    {
      ghost var table := workers;
      var left := keys;
      while left != {}
        invariant left <= keys && Moved(table, keys - left, workers, stopping)
      {
        var key :| key in left;
        MoveOne(table, keys - left, workers, stopping, key);
        assert keys - (left - {key}) == keys - left + {key};
        stopping := stopping[key := workers[key]];
        workers := workers - {key};
        left := left - {key};
      }
      assert keys - left == keys;
    }

    /** Close the queues of `keys` and wait for their workers. */
    method CloseQueues(keys: set<Key>)
      requires keys <= workers.Keys && stopping == map[]
      modifies this`workers, this`stopping, this`history, this`dispatcher
      ensures View() == StopWorkers(old(View()), keys)
    {
      ghost var before := View();
      MoveWorkers(keys);
      MovedAll(before, keys, workers, stopping);
      history := history + EndAll(history, keys);
      dispatcher := Joining(|keys|);
    }

    /** Retire exactly the workers not heard from for the idle timeout. */
    method RetireIdle(now: nat)
      requires Valid() && phase.Running? && dispatcher.Ready?
      modifies this`workers, this`stopping, this`history, this`dispatcher, this`retired
      ensures Valid() && View() == ApplySweep(old(View()), now)
      ensures forall k :: k in workers <==> k in old(workers) && now < old(workers)[k].lastSeen + 30_000
      ensures Balanced(View())
    {
      SweepIs(settings, View(), now);
      CloseIdle(now);
    }

    method CloseIdle(now: nat)
      requires stopping == map[]
      modifies this`workers, this`stopping, this`history, this`dispatcher, this`retired
      ensures View() == ApplySweep(old(View()), now)
    {
      var idle := IdleKeys(workers, now);
      if idle != {} {
        retired := retired + |idle|;
        CloseQueues(idle);
      }
    }

    method BeginShutdown()
      requires Valid() && phase.Running? && dispatcher.Ready?
      modifies this`phase
      ensures Valid() && phase.Draining?
    {
      ShutdownIs(settings, View());
      phase := Draining;
    }

    /** Once the input is drained, every queue is closed. */
    method StopAllWorkers()
      requires Valid() && phase.Draining? && dispatcher.Ready?
      modifies this`workers, this`stopping, this`history, this`dispatcher, this`stopped, this`phase
      ensures Valid() && View() == ApplyStopAll(old(View()))
      ensures workers == map[] && Balanced(View())
    {
      StopAllIs(settings, View());
      CloseAll();
    }

    method CloseAll()
      requires stopping == map[]
      modifies this`workers, this`stopping, this`history, this`dispatcher, this`stopped, this`phase
      ensures View() == ApplyStopAll(old(View()))
    {
      stopped, phase := stopped + |workers|, Closing;
      CloseQueues(workers.Keys);
    }

    /** All awaited workers are gone. When that ends a shutdown, every key has handed over exactly
        what the sequential packager makes of its accepted groups. */
    method FinishJoin()
      requires Valid() && dispatcher.Joining? && stopping == map[]
      modifies this`active, this`dispatcher, this`phase
      ensures Valid() && View() == ApplyJoined(old(View()))
      ensures active == |workers|
      ensures phase.Stopped? ==> forall k: Key :: Sequential(settings, View(), k)
    {
      JoinedIs(settings, View());
      active := SatSub(active, dispatcher.count);
      dispatcher := Ready;
      if phase.Closing? {
        phase := Stopped;
        forall k: Key ensures Sequential(settings, View(), k) { StoppedIsSequential(settings, View(), k); }
      }
    }
  }

  /** Every worker ever created is in the table, retired or stopped. */
  predicate Balanced<W, P>(s: State<W, P>) { s.created == |s.workers| + s.retired + s.stopped }

  // One step each: what `Apply` does there, and that the invariant survives it.

  lemma ReceiveIs<W, P>(c: Settings<W, P>, s: State<W, P>, g: Group, now: nat)
    requires RenditionWorkers.Inv(c, s) && Enabled(c, s, Receive(g, now))
    ensures var s' := ApplyReceive(c, s, g, now); RenditionWorkers.Inv(c, s') && Balanced(s')
    ensures ApplyReceive(c, s, g, now).accepted == s.accepted + if g.kind in c.formats then [g] else []
  {
    StepKeepsInv(c, s, Receive(g, now));
    assert s.accepted + [] == s.accepted;
  }

  lemma SendIs<W, P>(c: Settings<W, P>, s: State<W, P>)
    requires RenditionWorkers.Inv(c, s) && s.dispatcher.Sending?
    requires KeyOf(s.dispatcher.group) in s.workers ==>
      |s.workers[KeyOf(s.dispatcher.group)].queue| < RENDITION_WORKER_QUEUE_CAPACITY
    ensures KeyOf(s.dispatcher.group) in s.workers && RenditionWorkers.Inv(c, ApplySend(s))
  {
    StepKeepsInv(c, s, Send);
  }

  lemma WorkIs<W, P>(c: Settings<W, P>, s: State<W, P>, k: Key)
    requires RenditionWorkers.Inv(c, s) && Enabled(c, s, Work(k))
    ensures RenditionWorkers.Inv(c, ApplyWork(c, s, k))
  {
    StepKeepsInv(c, s, Work(k));
  }

  lemma ExitIs<W, P>(c: Settings<W, P>, s: State<W, P>, k: Key)
    requires RenditionWorkers.Inv(c, s) && Enabled(c, s, Exit(k))
    ensures RenditionWorkers.Inv(c, ApplyExit(c, s, k))
  {
    StepKeepsInv(c, s, Exit(k));
  }

  lemma SweepIs<W, P>(c: Settings<W, P>, s: State<W, P>, now: nat)
    requires RenditionWorkers.Inv(c, s) && Enabled(c, s, Sweep(now))
    ensures var s' := ApplySweep(s, now); RenditionWorkers.Inv(c, s') && Balanced(s')
    ensures s.stopping == map[] && ApplySweep(s, now).workers.Keys == s.workers.Keys - IdleKeys(s.workers, now)
  {
    StepKeepsInv(c, s, Sweep(now));
  }

  lemma ShutdownIs<W, P>(c: Settings<W, P>, s: State<W, P>)
    requires RenditionWorkers.Inv(c, s) && Enabled(c, s, Shutdown)
    ensures RenditionWorkers.Inv(c, s.(phase := Draining))
  {
    StepKeepsInv(c, s, Shutdown);
  }

  lemma StopAllIs<W, P>(c: Settings<W, P>, s: State<W, P>)
    requires RenditionWorkers.Inv(c, s) && Enabled(c, s, StopAll)
    ensures var s' := ApplyStopAll(s); RenditionWorkers.Inv(c, s') && Balanced(s') && s'.workers == map[]
    ensures s.stopping == map[]
  {
    StepKeepsInv(c, s, StopAll);
    assert s.workers - s.workers.Keys == map[];
  }

  lemma JoinedIs<W, P>(c: Settings<W, P>, s: State<W, P>)
    requires RenditionWorkers.Inv(c, s) && Enabled(c, s, Joined)
    ensures RenditionWorkers.Inv(c, ApplyJoined(s))
  {
    StepKeepsInv(c, s, Joined);
  }

  /** The workers under `done` have moved from the table to the second map. */
  ghost predicate Moved<W>(table: map<Key, Worker<W>>, done: set<Key>, workers: map<Key, Worker<W>>, stopping: map<Key, Worker<W>>) {
    done <= table.Keys && workers == table - done && stopping == Restrict(table, done)
  }

  lemma MoveOne<W>(table: map<Key, Worker<W>>, done: set<Key>, workers: map<Key, Worker<W>>, stopping: map<Key, Worker<W>>, key: Key)
    requires Moved(table, done, workers, stopping) && key in workers
    ensures Moved(table, done + {key}, workers - {key}, stopping[key := workers[key]])
  {
    assert table - done - {key} == table - (done + {key});
    assert Restrict(table, done)[key := table[key]] == Restrict(table, done + {key});
  }

  lemma MovedAll<W, P>(before: State<W, P>, keys: set<Key>, workers: map<Key, Worker<W>>, stopping: map<Key, Worker<W>>)
    requires Moved(before.workers, keys, workers, stopping) && before.stopping == map[]
    ensures workers == StopWorkers(before, keys).workers && stopping == StopWorkers(before, keys).stopping
  {
    assert map[] + Restrict(before.workers, keys) == Restrict(before.workers, keys);
  }
}
