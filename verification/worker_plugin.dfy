/**
 * Shared-worker registration inside a test worker, protocol version
 * `experimental` (lib/worker/plugin.js): the protocol check, one worker per
 * filename, the per-worker list of teardown callbacks, and the worker handle
 * with its `replyTo` filter, its message cache and its ref/unref pairing.
 */
module WorkerPlugin {
  import opened Values

  /** The only protocol this side speaks. */
  const Experimental := "experimental"

  /** An event from `channel.receive()`; `ident` is its object identity. */
  datatype ChannelEvent = ChannelEvent(ident: nat, messageId: int, replyTo: Option<int>, data: Bytes)

  /** A `ReceivedMessage`: an object, so that its identity can be compared. */
  class ReceivedMessage {
    const id: int
    const data: Value

    constructor (id: int, data: Value)
      ensures this.id == id && this.data == data
    {
      this.id := id;
      this.data := data;
    }
  }

  /** A call on the worker's channel. */
  datatype ChannelCall = Ref | Unref | Post(data: Value, replyTo: Option<int>)

  /**
   * The `replyTo` rule: without a filter only non-replies pass, with a
   * filter only replies to exactly that id.
   */
  predicate Accepts(replyTo: Option<int>, evt: ChannelEvent)
  {
    && !(replyTo.None? && evt.replyTo.Some?)
    && !(replyTo.Some? && evt.replyTo != replyTo)
  }

  /** The events `receiveMessages(replyTo)` yields a message for, in arrival order. */
  function Matching(replyTo: Option<int>, evts: seq<ChannelEvent>): seq<ChannelEvent>
  {
    Filter(e => Accepts(replyTo, e), evts)
  }

  /** The filter keeps exactly the events whose `replyTo` equals the filter. */
  lemma {:induction false} MatchingExactly(replyTo: Option<int>, evts: seq<ChannelEvent>, evt: ChannelEvent)
    ensures evt in Matching(replyTo, evts) <==> evt in evts && evt.replyTo == replyTo
  {
    if evt in evts && evt.replyTo == replyTo {
      FilterKeeps(e => Accepts(replyTo, e), evts, evt);
    }
  }

  /** The object `createSharedWorker` returns: a channel client for one worker. */
  class WorkerHandle {
    /** Calls made on the channel, in order. */
    var calls: seq<ChannelCall>
    /** `messageCache`: the message object created for each event seen. */
    var messageCache: map<ChannelEvent, ReceivedMessage>

    ghost predicate Valid()
      reads this`messageCache
    {
      forall e :: e in messageCache ==> messageCache[e].id == e.messageId && messageCache[e].data == Deserialize(e.data)
    }

    constructor ()
      ensures Valid() && calls == [] && messageCache == map[]
    {
      calls := [];
      messageCache := map[];
    }

    /** The cached message object for `evt`, created on a cache miss. */
    method MessageFor(evt: ChannelEvent) returns (message: ReceivedMessage)
      requires Valid()
      modifies this`messageCache
      ensures Valid()
      ensures evt in messageCache && message == messageCache[evt]
      ensures message.id == evt.messageId && message.data == Deserialize(evt.data)
      ensures Grown(old(messageCache), messageCache)
      ensures evt in old(messageCache) ==> messageCache == old(messageCache)
      ensures evt !in old(messageCache) ==> messageCache == old(messageCache)[evt := message] && fresh(message)
    {
      if evt in messageCache {
        message := messageCache[evt];
      } else {
        message := new ReceivedMessage(evt.messageId, Deserialize(evt.data));
        messageCache := messageCache[evt := message];
      }
    }

    /**
     * `receiveMessages(replyTo)` over a finite stretch of the channel: one
     * message per matching event, in order, the same object for an event seen
     * before and a fresh one otherwise.
     */
    method ReceiveMessages(replyTo: Option<int>, evts: seq<ChannelEvent>) returns (msgs: seq<ReceivedMessage>)
      requires Valid()
      modifies this`messageCache
      ensures Valid()
      ensures Delivered(msgs, Matching(replyTo, evts), messageCache) && |msgs| == |Matching(replyTo, evts)|
      ensures Grown(old(messageCache), messageCache)
      ensures forall e :: e in messageCache && e !in old(messageCache) ==> fresh(messageCache[e])
    {
      msgs := [];
      var i := 0;
      while i < |evts|
        invariant 0 <= i <= |evts|
        invariant Valid()
        invariant Delivered(msgs, Matching(replyTo, evts[..i]), messageCache)
        invariant |msgs| == |Matching(replyTo, evts[..i])|
        invariant Grown(old(messageCache), messageCache)
        invariant forall e :: e in messageCache && e !in old(messageCache) ==> fresh(messageCache[e])
      {
        var evt := evts[i];
        ghost var before := Matching(replyTo, evts[..i]);
        FilterSnoc(e => Accepts(replyTo, e), evts[..i], evt);
        assert evts[..i + 1] == evts[..i] + [evt];
        if Accepts(replyTo, evt) {
          ghost var cache := messageCache;
          var message := MessageFor(evt);
          DeliveredSnoc(msgs, before, cache, messageCache, evt, message);
          msgs := msgs + [message];
        }
        i := i + 1;
      }
      assert evts[..i] == evts;
    }

    /** `channel.post(data, replyTo)`; the id is assigned by the channel, outside this model. */
    method PostMessage(data: Value, replyTo: Option<int>, assignedId: int) returns (id: int)
      modifies this`calls
      ensures id == assignedId
      ensures calls == old(calls) + [Post(data, replyTo)]
    {
      calls := calls + [Post(data, replyTo)];
      id := assignedId;
    }

    /** `worker.publish(data)`: a post that is not a reply. */
    method Publish(data: Value, assignedId: int) returns (id: int)
      modifies this`calls
      ensures id == assignedId
      ensures calls == old(calls) + [Post(data, None)]
    {
      id := PostMessage(data, None, assignedId);
    }

    /** `message.reply(data)`: a post whose `replyTo` is the received message's id. */
    method Reply(message: ReceivedMessage, data: Value, assignedId: int) returns (id: int)
      modifies this`calls
      ensures id == assignedId
      ensures calls == old(calls) + [Post(data, Some(message.id))]
    {
      id := PostMessage(data, Some(message.id), assignedId);
    }

    /**
     * The posted message's `reply`: references the channel and takes the
     * first reply to `id` from the channel; the `finally` that unreferences
     * it runs only once that reply has arrived, so while none is among
     * `evts` the channel stays referenced.
     */
    method AwaitReply(id: int, evts: seq<ChannelEvent>) returns (reply: Option<ReceivedMessage>)
      requires Valid()
      modifies this`calls, this`messageCache
      ensures Valid()
      ensures calls == old(calls) + [Ref] + (if Matching(Some(id), evts) != [] then [Unref] else [])
      ensures var replies := Matching(Some(id), evts);
              && (replies == [] <==> reply.None?)
              && (replies != [] ==> replies[0] in messageCache && reply == Some(messageCache[replies[0]]))
      ensures Grown(old(messageCache), messageCache)
      ensures forall e :: e in messageCache && e !in old(messageCache) ==> fresh(messageCache[e])
    {
      calls := calls + [Ref];
      reply := None;
      var i := 0;
      while i < |evts|
        invariant 0 <= i <= |evts|
        invariant Valid() && calls == old(calls) + [Ref] && messageCache == old(messageCache)
        invariant Matching(Some(id), evts[..i]) == []
      {
        var evt := evts[i];
        FilterSnoc(e => Accepts(Some(id), e), evts[..i], evt);
        assert evts[..i + 1] == evts[..i] + [evt];
        if Accepts(Some(id), evt) {
          FilterPrefix(e => Accepts(Some(id), e), evts, i + 1);
          var message := MessageFor(evt);
          reply := Some(message);
          break;
        }
        i := i + 1;
      }
      if reply.None? {
        assert evts[..i] == evts;
      } else {
        calls := calls + [Unref];
      }
    }

    /**
     * `subscribe()`: references the channel, yields every non-reply message,
     * and unreferences the channel in `finally` when the consumer stops.
     */
    method Subscribe(evts: seq<ChannelEvent>) returns (msgs: seq<ReceivedMessage>)
      requires Valid()
      modifies this`calls, this`messageCache
      ensures Valid()
      ensures calls == old(calls) + [Ref, Unref]
      ensures Delivered(msgs, Matching(None, evts), messageCache) && |msgs| == |Matching(None, evts)|
      ensures Grown(old(messageCache), messageCache)
    {
      calls := calls + [Ref];
      msgs := ReceiveMessages(None, evts);
      calls := calls + [Unref];
    }
  }

  /** A teardown callback, by identity. */
  datatype Teardown = Teardown(fnId: nat)

  /** A stored worker: `serial` is its identity (the order of creation). */
  datatype Worker = Worker(serial: nat, filename: string, initialData: Value, handle: WorkerHandle)

  /** What `registerSharedWorker` returns: the worker's fields plus the negotiated protocol. */
  datatype Registered = Registered(worker: Worker, protocol: string)

  /** A successful registration call, for the record. */
  datatype Registration = Registration(filename: string, teardown: Option<Teardown>)

  datatype RegisterResult = Ok(registered: Registered) | UnsupportedProtocols(supportedProtocols: seq<string>)

  /** The teardown callbacks the registrations of `filename` contributed, in registration order. */
  function TeardownsFor(filename: string, log: seq<Registration>): (r: seq<Teardown>)
    ensures |r| <= |log|
  {
    if log == [] then []
    else
      var last := log[|log| - 1];
      TeardownsFor(filename, log[..|log| - 1])
        + (if last.filename == filename && last.teardown.Some? then [last.teardown.value] else [])
  }

  /** Every callback some registration of `filename` passed is in the list, and nothing else is. */
  lemma {:induction false} TeardownsForExactly(filename: string, log: seq<Registration>, t: Teardown)
    ensures t in TeardownsFor(filename, log) <==> Registration(filename, Some(t)) in log
  {
    if log != [] {
      var init := log[..|log| - 1];
      TeardownsForExactly(filename, init, t);
      assert log == init + [log[|log| - 1]];
    }
  }

  class Registry {
    /** `workers`, keyed by filename. */
    var workers: map<string, Worker>
    /** The number of workers created so far. */
    var created: nat
    /** `workerTeardownFns`, keyed by worker identity. */
    var teardownFns: map<nat, seq<Teardown>>
    /** The successful registrations so far, in order. */
    ghost var log: seq<Registration>

    ghost predicate Valid()
      reads this`workers, this`created, this`teardownFns, this`log
    {
      && (forall f :: f in workers ==> workers[f].filename == f && workers[f].serial < created)
      && (forall s :: s in teardownFns ==> s < created)
      && (forall f, g :: f in workers && g in workers && f != g ==> workers[f].serial != workers[g].serial)
      && (forall f :: f in workers ==> TeardownsOf(workers[f]) == TeardownsFor(f, log))
      && (forall r :: r in log ==> r.filename in workers)
    }

    /** The callbacks registered for worker `w` (none when the teardown map has no entry). */
    function TeardownsOf(w: Worker): seq<Teardown>
      reads this`teardownFns
    {
      if w.serial in teardownFns then teardownFns[w.serial] else []
    }

    constructor ()
      ensures Valid() && workers == map[] && created == 0 && teardownFns == map[] && log == []
    {
      workers := map[];
      created := 0;
      teardownFns := map[];
      log := [];
    }

    /** Stores a new worker under its filename, as the next one created. */
    method Insert(worker: Worker)
      requires Valid() && worker.filename !in workers && worker.serial == created
      modifies this`workers, this`created
      ensures Valid()
      ensures workers == old(workers)[worker.filename := worker] && created == old(created) + 1
      ensures TeardownsOf(worker) == []
    {
      assert worker.serial !in teardownFns;
      TeardownsForAbsent(worker.filename, log);
      workers := workers[worker.filename := worker];
      created := created + 1;
    }

    /** Records a registration of an existing worker and appends its teardown callback, if any. */
    method AddTeardown(worker: Worker, teardown: Option<Teardown>)
      requires Valid() && worker.filename in workers && workers[worker.filename] == worker
      modifies this`teardownFns, this`log
      ensures Valid()
      ensures log == old(log) + [Registration(worker.filename, teardown)]
      ensures TeardownsOf(worker) == old(TeardownsOf(worker)) + (if teardown.Some? then [teardown.value] else [])
    {
      var r := Registration(worker.filename, teardown);
      ghost var before := log;
      log := log + [r];
      if teardown.Some? {
        teardownFns := teardownFns[worker.serial := TeardownsOf(worker) + [teardown.value]];
      }
      forall f | f in workers
        ensures TeardownsOf(workers[f]) == TeardownsFor(f, log)
      {
        TeardownsForSnoc(f, before, r);
        if f != worker.filename {
          assert workers[f].serial != worker.serial;
        }
      }
    }

    /**
     * `registerSharedWorker`: refuses, before touching any state, when
     * `experimental` is not supported; creates the worker for a new filename
     * and reuses it (ignoring the new `initialData`) otherwise; appends the
     * teardown callback, if any, to that worker's list.
     */
    method RegisterSharedWorker(filename: string, initialData: Value, supportedProtocols: seq<string>, teardown: Option<Teardown>)
      returns (r: RegisterResult)
      requires Valid()
      modifies this`workers, this`created, this`teardownFns, this`log
      ensures Valid()
      ensures r.UnsupportedProtocols? <==> Experimental !in supportedProtocols
      ensures r.UnsupportedProtocols? ==>
                r.supportedProtocols == supportedProtocols
                && workers == old(workers) && created == old(created) && teardownFns == old(teardownFns) && log == old(log)
      ensures r.Ok? ==>
                && r.registered.protocol == Experimental
                && filename in workers && r.registered.worker == workers[filename]
                && log == old(log) + [Registration(filename, teardown)]
                && TeardownsOf(r.registered.worker) == TeardownsFor(filename, log)
      ensures r.Ok? && filename in old(workers) ==>
                r.registered.worker == old(workers)[filename] && workers == old(workers) && created == old(created)
      ensures r.Ok? && filename !in old(workers) ==>
                && workers == old(workers)[filename := r.registered.worker]
                && r.registered.worker.serial == old(created) && created == old(created) + 1
                && r.registered.worker.initialData == initialData
                && fresh(r.registered.worker.handle)
    {
      if Experimental !in supportedProtocols {
        return UnsupportedProtocols(supportedProtocols);
      }
      var worker: Worker;
      if filename in workers {
        worker := workers[filename];
      } else {
        var handle := new WorkerHandle();
        worker := Worker(created, filename, initialData, handle);
        Insert(worker);
      }
      AddTeardown(worker, teardown);
      return Ok(Registered(worker, Experimental));
    }

    /** The worker's combined teardown: every callback registered for it, in registration order. */
    method RunTeardown(w: Worker) returns (called: seq<Teardown>)
      requires Valid() && w.filename in workers && workers[w.filename] == w
      ensures called == TeardownsFor(w.filename, log)
    {
      called := TeardownsOf(w);
    }
  }

  /** One more registration contributes its callback to its own filename only. */
  lemma TeardownsForSnoc(filename: string, log: seq<Registration>, r: Registration)
    ensures TeardownsFor(filename, log + [r])
            == TeardownsFor(filename, log) + (if r.filename == filename && r.teardown.Some? then [r.teardown.value] else [])
  {
    assert (log + [r])[..|log|] == log;
  }

  /** A filename no registration has used contributes no callbacks. */
  lemma {:induction false} TeardownsForAbsent(filename: string, log: seq<Registration>)
    requires forall r :: r in log ==> r.filename != filename
    ensures TeardownsFor(filename, log) == []
  {
    if log != [] {
      assert log[|log| - 1] in log;
      TeardownsForAbsent(filename, log[..|log| - 1]);
    }
  }
}
