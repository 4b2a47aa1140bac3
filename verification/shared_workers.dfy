/**
 * The main-process hub for shared workers (lib/shared-workers.js): at most
 * one worker thread per worker id, the per-registration routing between a
 * test worker's channel and the shared worker, and `shutdown`.
 */
module SharedWorkers {
  import opened Values

  /** A worker thread started with `new Worker(filename)`; `serial` is its identity. */
  datatype Thread = Thread(serial: nat, filename: string)

  /**
   * One registration: the listeners it installed on test worker `fork`
   * connect that fork's channel `channelId` with this worker. Channel ids are
   * chosen by each test worker, so only the pair names a registration.
   */
  datatype Subscription = Subscription(fork: nat, channelId: int, worker: Thread)

  /** A `passSharedWorkerMessage` call on test worker `fork`: a serialized value for one of its channels. */
  datatype ForkMessage = ForkMessage(fork: nat, channelId: int, value: Bytes)

  /** A `worker.postMessage(value)` call. */
  datatype Delivery = Delivery(worker: Thread, value: Bytes)

  /** `ONLINE`: the serialized string `'online'`. */
  const Online := Serialize(Str("online"))

  /**
   * What the `message` listeners send on when `worker` posts `value`: one
   * copy per registration of that worker, sent to the registration's test
   * worker and tagged with its channel id, in registration order.
   */
  function Forwards(subs: seq<Subscription>, worker: Thread, value: Value): (r: seq<ForkMessage>)
  {
    if subs == [] then []
    else
      var last := subs[|subs| - 1];
      Forwards(subs[..|subs| - 1], worker, value)
        + (if last.worker == worker then [ForkMessage(last.fork, last.channelId, Serialize(value))] else [])
  }

  /**
   * What the `pass-shared-worker-message` listeners deliver when test worker
   * `fork` sends a message to channel `dest`: only the listeners installed on
   * that fork hear it, and of those one delivery per registration whose
   * channel is `dest`.
   */
  function Deliveries(subs: seq<Subscription>, fork: nat, dest: int, value: Bytes): (r: seq<Delivery>)
  {
    if subs == [] then []
    else
      var last := subs[|subs| - 1];
      Deliveries(subs[..|subs| - 1], fork, dest, value)
        + (if last.fork == fork && last.channelId == dest then [Delivery(last.worker, value)] else [])
  }

  /**
   * Every forwarded copy goes to the test worker and channel of a
   * registration of the posting worker, and each such registration gets one.
   */
  lemma {:induction false} ForwardsExactly(subs: seq<Subscription>, worker: Thread, value: Value, fork: nat, channelId: int)
    ensures ForkMessage(fork, channelId, Serialize(value)) in Forwards(subs, worker, value)
            <==> Subscription(fork, channelId, worker) in subs
    ensures forall m :: m in Forwards(subs, worker, value) ==> m.value == Serialize(value)
  {
    if subs != [] {
      var init := subs[..|subs| - 1];
      ForwardsExactly(init, worker, value, fork, channelId);
      assert subs == init + [subs[|subs| - 1]];
    }
  }

  /**
   * A message from test worker `fork` for channel `dest` reaches exactly the
   * workers registered on that channel by that fork; a registration of
   * another fork under the same channel id does not hear it.
   */
  lemma {:induction false} DeliveriesExactly(subs: seq<Subscription>, fork: nat, dest: int, value: Bytes, worker: Thread)
    ensures Delivery(worker, value) in Deliveries(subs, fork, dest, value) <==> Subscription(fork, dest, worker) in subs
    ensures forall d :: d in Deliveries(subs, fork, dest, value) ==> d.value == value
  {
    if subs != [] {
      var init := subs[..|subs| - 1];
      DeliveriesExactly(init, fork, dest, value, worker);
      assert subs == init + [subs[|subs| - 1]];
    }
  }

  /** One forwarded copy per registration of the posting worker: a worker registered twice sends twice. */
  lemma {:induction false} ForwardsCount(subs: seq<Subscription>, worker: Thread, value: Value)
    ensures |Forwards(subs, worker, value)| == |Filter((s: Subscription) => s.worker == worker, subs)|
  {
    if subs != [] {
      var init := subs[..|subs| - 1];
      ForwardsCount(init, worker, value);
      assert subs == init + [subs[|subs| - 1]];
      FilterSnoc((s: Subscription) => s.worker == worker, init, subs[|subs| - 1]);
    }
  }

  /**
   * One delivery per registration of `fork` on `dest`: a channel registered
   * twice installs two listeners, and the worker receives the message twice.
   */
  lemma {:induction false} DeliveriesCount(subs: seq<Subscription>, fork: nat, dest: int, value: Bytes)
    ensures |Deliveries(subs, fork, dest, value)| == |Filter((s: Subscription) => s.fork == fork && s.channelId == dest, subs)|
  {
    if subs != [] {
      var init := subs[..|subs| - 1];
      DeliveriesCount(init, fork, dest, value);
      assert subs == init + [subs[|subs| - 1]];
      FilterSnoc((s: Subscription) => s.fork == fork && s.channelId == dest, init, subs[|subs| - 1]);
    }
  }

  /** No registration of `fork` on `dest`: the message reaches no worker. */
  lemma {:induction false} NoSubscriberNoDelivery(subs: seq<Subscription>, fork: nat, dest: int, value: Bytes)
    requires forall k :: 0 <= k < |subs| ==> subs[k].fork != fork || subs[k].channelId != dest
    ensures Deliveries(subs, fork, dest, value) == []
  {
    if subs != [] {
      NoSubscriberNoDelivery(subs[..|subs| - 1], fork, dest, value);
    }
  }

  class Hub {
    /** `workers`, keyed by worker id. */
    var workers: map<string, Thread>
    /** The keys of `workers` in insertion order, the order a Map iterates in. */
    var order: seq<string>
    /** The threads started so far; thread `k` has serial `k`. */
    var spawned: seq<Thread>
    /** The registrations handled so far, in order. */
    var subscriptions: seq<Subscription>
    /** Calls of `passSharedWorkerMessage`, in order. */
    var toFork: seq<ForkMessage>
    /** Calls of `worker.postMessage`, in order. */
    var toWorkers: seq<Delivery>
    /** Calls of `worker.terminate()`, in order. */
    var terminated: seq<Thread>

    ghost predicate Valid()
      reads this`workers, this`order, this`spawned
    {
      && (forall i, j :: 0 <= i < j < |order| ==> order[i] != order[j])
      && (forall id :: id in workers <==> id in order)
      && |order| == |spawned|
      && (forall k :: 0 <= k < |order| ==> workers[order[k]] == spawned[k])
      && (forall k :: 0 <= k < |spawned| ==> spawned[k].serial == k)
    }

    constructor ()
      ensures Valid()
      ensures workers == map[] && order == [] && spawned == [] && subscriptions == [] && toFork == [] && toWorkers == [] && terminated == []
    {
      workers := map[];
      order := [];
      spawned := [];
      subscriptions := [];
      toFork := [];
      toWorkers := [];
      terminated := [];
    }

    /**
     * `register(id, options)`: a known id returns its worker and starts
     * nothing; a new id starts one thread on `options.filename` and stores it
     * before waiting for it to come online.
     */
    method Register(id: string, filename: string) returns (worker: Thread)
      requires Valid()
      modifies this`workers, this`order, this`spawned
      ensures Valid()
      ensures id in workers && worker == workers[id]
      ensures id in old(workers) ==>
                worker == old(workers)[id] && workers == old(workers) && order == old(order) && spawned == old(spawned)
      ensures id !in old(workers) ==>
                && worker == Thread(|old(spawned)|, filename)
                && spawned == old(spawned) + [worker]
                && workers == old(workers)[id := worker]
                && order == old(order) + [id]
    {
      if id in workers {
        return workers[id];
      }
      worker := Thread(|spawned|, filename);
      spawned := spawned + [worker];
      workers := workers[id := worker];
      order := order + [id];
    }

    /**
     * The `onRegisterSharedWorker` handler that `addTestWorker(fork)`
     * installs: registers the worker, installs on that fork the two listeners
     * that link the channel with it, and sends `ONLINE` on the channel.
     */
    method OnRegisterSharedWorker(fork: nat, channelId: int, workerId: string, filename: string) returns (worker: Thread)
      requires Valid()
      modifies this`workers, this`order, this`spawned, this`subscriptions, this`toFork
      ensures Valid()
      ensures workerId in workers && worker == workers[workerId]
      ensures workerId in old(workers) ==>
                worker == old(workers)[workerId] && workers == old(workers) && order == old(order) && spawned == old(spawned)
      ensures workerId !in old(workers) ==>
                && worker == Thread(|old(spawned)|, filename)
                && spawned == old(spawned) + [worker]
                && workers == old(workers)[workerId := worker]
                && order == old(order) + [workerId]
      ensures subscriptions == old(subscriptions) + [Subscription(fork, channelId, worker)]
      ensures toFork == old(toFork) + [ForkMessage(fork, channelId, Online)]
    {
      worker := Register(workerId, filename);
      subscriptions := subscriptions + [Subscription(fork, channelId, worker)];
      toFork := toFork + [ForkMessage(fork, channelId, Online)];
    }

    /** The `message` listeners of `worker`: each registration forwards the value to its own fork, on its own channel. */
    method OnWorkerMessage(worker: Thread, value: Value)
      modifies this`toFork
      ensures toFork == old(toFork) + Forwards(subscriptions, worker, value)
    {
      var i := 0;
      while i < |subscriptions|
        invariant 0 <= i <= |subscriptions|
        invariant toFork == old(toFork) + Forwards(subscriptions[..i], worker, value)
      {
        assert subscriptions[..i + 1][..i] == subscriptions[..i];
        var s := subscriptions[i];
        if s.worker == worker {
          toFork := toFork + [ForkMessage(s.fork, s.channelId, Serialize(value))];
        }
        i := i + 1;
      }
      assert subscriptions[..i] == subscriptions;
    }

    /**
     * Test worker `fork` emits `pass-shared-worker-message`: only the
     * listeners installed on that fork run, and of those only a registration
     * whose channel is `dest` posts to its worker.
     */
    method OnForkMessage(fork: nat, dest: int, value: Bytes)
      modifies this`toWorkers
      ensures toWorkers == old(toWorkers) + Deliveries(subscriptions, fork, dest, value)
    {
      var i := 0;
      while i < |subscriptions|
        invariant 0 <= i <= |subscriptions|
        invariant toWorkers == old(toWorkers) + Deliveries(subscriptions[..i], fork, dest, value)
      {
        assert subscriptions[..i + 1][..i] == subscriptions[..i];
        var s := subscriptions[i];
        if s.fork == fork && s.channelId == dest {
          toWorkers := toWorkers + [Delivery(s.worker, value)];
        }
        i := i + 1;
      }
      assert subscriptions[..i] == subscriptions;
    }

    /**
     * `shutdown`: terminates every stored worker, in insertion order, once
     * each; with no workers it does nothing.
     */
    method Shutdown()
      requires Valid()
      modifies this`terminated
      ensures |terminated| == |old(terminated)| + |order|
      ensures terminated[..|old(terminated)|] == old(terminated)
      ensures forall k :: 0 <= k < |order| ==> terminated[|old(terminated)| + k] == workers[order[k]]
      ensures forall id :: id in workers ==> workers[id] in terminated[|old(terminated)|..]
      ensures workers == map[] ==> terminated == old(terminated)
    {
      var i := 0;
      while i < |order|
        invariant 0 <= i <= |order|
        invariant |terminated| == |old(terminated)| + i
        invariant terminated[..|old(terminated)|] == old(terminated)
        invariant forall k :: 0 <= k < i ==> terminated[|old(terminated)| + k] == workers[order[k]]
      {
        terminated := terminated + [workers[order[i]]];
        i := i + 1;
      }
      forall id | id in workers
        ensures workers[id] in terminated[|old(terminated)|..]
      {
        var k :| 0 <= k < |order| && order[k] == id;
        assert terminated[|old(terminated)|..][k] == workers[id];
      }
      if order != [] {
        assert order[0] in workers;
      }
    }

    /** Distinct worker ids hold distinct threads: one thread per id. */
    lemma OneThreadPerId(a: string, b: string)
      requires Valid() && a in workers && b in workers && a != b
      ensures workers[a] != workers[b]
    {
      var i :| 0 <= i < |order| && order[i] == a;
      var j :| 0 <= j < |order| && order[j] == b;
      assert workers[a].serial == i && workers[b].serial == j;
    }
  }
}
