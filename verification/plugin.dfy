/**
 * The test-worker side registration of shared workers (plugin.js): one
 * worker per filename, a channel counter and a per-worker message counter,
 * the guards on `postMessage`, the `receiveMessages` filter and the
 * deserialization cache. Envelopes go out through the IPC link of lib/worker/ipc.js.
 */
module Plugin {
  import opened Values
  import opened Envelopes
  import Ipc

  /** A `pass-shared-worker-message` event raised by the IPC link; `ident` is its object identity. */
  datatype InboundEvent = InboundEvent(ident: nat, channelId: int, messageId: int, replyTo: Option<int>, data: Bytes)

  /** A `Message` yielded by `receiveMessages`. */
  datatype ReceivedMessage = ReceivedMessage(id: int, data: Value)

  /** The worker object handed to the caller, with the channel its closures are bound to. */
  datatype SharedWorker = SharedWorker(filename: string, initialOptions: Value, channelId: int)

  /** Why `postMessage` throws. */
  datatype PostError = ReferenceError | TypeError

  /** The result of `postMessage`: the new message's id, or the thrown error. */
  datatype PostResult = Posted(id: int) | Threw(error: PostError)

  /** The serialized `{filename, initialOptions}` carried by the registration envelope. */
  function Registration(filename: string, initialOptions: Value): Value
  {
    Obj(map["filename" := Str(filename), "initialOptions" := initialOptions])
  }

  /**
   * The `receiveMessages` filter: the event belongs to the worker's channel,
   * and either no `replyTo` filter is given and the event is not a reply, or
   * the event replies to exactly the filtered id.
   */
  predicate Accepts(channelId: int, replyTo: Option<int>, evt: InboundEvent)
  {
    && evt.channelId == channelId
    && !(replyTo.None? && evt.replyTo.Some?)
    && !(replyTo.Some? && evt.replyTo != replyTo)
  }

  /** The filter keeps only non-replies when unfiltered, and only exact replies when filtered. */
  lemma AcceptsReplies(channelId: int, replyTo: Option<int>, evt: InboundEvent)
    ensures Accepts(channelId, replyTo, evt) <==> evt.channelId == channelId && evt.replyTo == replyTo
  {
  }

  /** The events `receiveMessages(replyTo)` of the worker on `channelId` yields, in arrival order. */
  function Matching(channelId: int, replyTo: Option<int>, evts: seq<InboundEvent>): seq<InboundEvent>
  {
    Filter(e => Accepts(channelId, replyTo, e), evts)
  }

  /** The message yielded for an event: its id and its deserialized data. */
  function ToMessage(evt: InboundEvent): ReceivedMessage
  {
    ReceivedMessage(evt.messageId, Deserialize(evt.data))
  }

  function ToMessages(evts: seq<InboundEvent>): (r: seq<ReceivedMessage>)
    ensures |r| == |evts|
    ensures forall k :: 0 <= k < |evts| ==> r[k] == ToMessage(evts[k])
  {
    seq(|evts|, k requires 0 <= k < |evts| => ToMessage(evts[k]))
  }

  /** Everything a subscription yields belongs to the channel and matches the `replyTo` rule, and nothing matching is missed. */
  lemma {:induction false} MatchingExactly(channelId: int, replyTo: Option<int>, evts: seq<InboundEvent>, evt: InboundEvent)
    ensures evt in Matching(channelId, replyTo, evts) <==> evt in evts && evt.channelId == channelId && evt.replyTo == replyTo
  {
    if evt in evts && Accepts(channelId, replyTo, evt) {
      FilterKeeps(e => Accepts(channelId, replyTo, e), evts, evt);
    }
  }

  class Registry {
    /** The link `ipc.send` goes through. */
    const ipc: Ipc.Link
    /** Constant `false`: the signal for worker availability is not implemented. */
    const available: bool
    var channelCounter: int
    var workers: map<string, SharedWorker>
    /** Each worker's `messageCounter`, by channel id. */
    var messageCounters: map<int, int>
    /** `deserializationCache`, keyed by event identity. */
    var deserializationCache: map<InboundEvent, Value>

    /** Workers are keyed by filename, own distinct channel ids up to the counter, and have a message counter. */
    ghost predicate TableOk()
      reads this`channelCounter, this`workers, this`messageCounters
    {
      && 0 <= channelCounter
      && (forall f :: f in workers ==> workers[f].filename == f)
      && (forall f :: f in workers ==> 0 < workers[f].channelId <= channelCounter)
      && (forall f :: f in workers ==> workers[f].channelId in messageCounters)
      && (forall f, g :: f in workers && g in workers && f != g ==> workers[f].channelId != workers[g].channelId)
      && (forall c :: c in messageCounters ==> 0 <= messageCounters[c])
    }

    /** Every cached value is the decoding of its own event. */
    ghost predicate CacheOk()
      reads this`deserializationCache
    {
      forall e :: e in deserializationCache ==> deserializationCache[e] == Deserialize(e.data)
    }

    ghost predicate Valid()
      reads this`channelCounter, this`workers, this`messageCounters, this`deserializationCache
      reads ipc`refs, ipc`channelCalls, ipc`pendingPings, ipc`chain, ipc`awaitingPong, ipc`pinged
    {
      ipc.Valid() && TableOk() && CacheOk()
    }

    /** The module's initial state. */
    constructor (ipc: Ipc.Link)
      requires ipc.Valid()
      ensures Valid() && this.ipc == ipc && !available
      ensures channelCounter == 0 && workers == map[] && messageCounters == map[] && deserializationCache == map[]
    {
      this.ipc := ipc;
      available := false;
      channelCounter := 0;
      workers := map[];
      messageCounters := map[];
      deserializationCache := map[];
    }

    /**
     * `registerSharedWorker`: a known filename returns the stored worker and
     * sends nothing; a new one takes `channelId = ++channelCounter`, sends one
     * `register-shared-worker` envelope with that id, and is stored.
     */
    method RegisterSharedWorker(filename: string, initialOptions: Value) returns (w: SharedWorker)
      requires Valid()
      modifies this`channelCounter, this`workers, this`messageCounters, ipc`sent
      ensures Valid()
      ensures workers.Keys == old(workers.Keys) + {filename} && workers[filename] == w
      ensures filename in old(workers) ==>
                && w == old(workers)[filename]
                && workers == old(workers) && channelCounter == old(channelCounter)
                && messageCounters == old(messageCounters) && ipc.sent == old(ipc.sent)
      ensures filename !in old(workers) ==>
                && channelCounter == old(channelCounter) + 1
                && w == SharedWorker(filename, initialOptions, channelCounter)
                && workers == old(workers)[filename := w]
                && (forall f :: f in old(workers) ==> old(workers)[f].channelId < w.channelId)
                && messageCounters == old(messageCounters)[w.channelId := 0]
                && ipc.sent == old(ipc.sent) + (if ipc.connected then [Envelope.RegisterSharedWorker(w.channelId, Serialize(Registration(filename, initialOptions)))] else [])
    {
      if filename in workers {
        w := workers[filename];
        return;
      }
      channelCounter := channelCounter + 1;
      var channelId := channelCounter;
      ipc.Send(Envelope.RegisterSharedWorker(channelId, Serialize(Registration(filename, initialOptions))));
      w := SharedWorker(filename, initialOptions, channelId);
      workers := workers[filename := w];
      messageCounters := messageCounters[channelId := 0];
    }

    /**
     * `postMessage`: throws a ReferenceError while the worker is unavailable,
     * then a TypeError for `undefined` data, consuming no id in either case;
     * otherwise takes the worker's next message id and sends the envelope.
     */
    method PostMessage(w: SharedWorker, data: Value, replyTo: Option<int>) returns (r: PostResult)
      requires Valid() && w.filename in workers && workers[w.filename] == w
      modifies this`messageCounters, ipc`sent
      ensures Valid()
      ensures !available ==> r == Threw(ReferenceError)
      ensures available && data == Undefined ==> r == Threw(TypeError)
      ensures available && data != Undefined ==> r.Posted?
      ensures r.Threw? ==> messageCounters == old(messageCounters) && ipc.sent == old(ipc.sent)
      ensures r.Posted? ==>
                && r.id == old(messageCounters[w.channelId]) + 1
                && messageCounters == old(messageCounters)[w.channelId := r.id]
                && ipc.sent == old(ipc.sent) + (if ipc.connected then [PassSharedWorkerMessage(w.channelId, r.id, replyTo, Serialize(data))] else [])
    {
      if !available {
        return Threw(ReferenceError);
      }
      if data == Undefined {
        return Threw(TypeError);
      }
      var id := messageCounters[w.channelId] + 1;
      messageCounters := messageCounters[w.channelId := id];
      ipc.Send(PassSharedWorkerMessage(w.channelId, id, replyTo, Serialize(data)));
      r := Posted(id);
    }

    /** `worker.publish(data)`: a post that is not a reply. */
    method Publish(w: SharedWorker, data: Value) returns (r: PostResult)
      requires Valid() && w.filename in workers && workers[w.filename] == w
      modifies this`messageCounters, ipc`sent
      ensures Valid()
      ensures !available ==> r == Threw(ReferenceError)
      ensures r.Threw? ==> messageCounters == old(messageCounters) && ipc.sent == old(ipc.sent)
      ensures r.Posted? ==>
                && r.id == old(messageCounters[w.channelId]) + 1
                && ipc.sent == old(ipc.sent) + (if ipc.connected then [PassSharedWorkerMessage(w.channelId, r.id, None, Serialize(data))] else [])
    {
      r := PostMessage(w, data, None);
    }

    /** `message.reply(data)`: a post whose `replyTo` is the received message's id. */
    method Reply(w: SharedWorker, message: ReceivedMessage, data: Value) returns (r: PostResult)
      requires Valid() && w.filename in workers && workers[w.filename] == w
      modifies this`messageCounters, ipc`sent
      ensures Valid()
      ensures !available ==> r == Threw(ReferenceError)
      ensures r.Threw? ==> messageCounters == old(messageCounters) && ipc.sent == old(ipc.sent)
      ensures r.Posted? ==>
                && r.id == old(messageCounters[w.channelId]) + 1
                && ipc.sent == old(ipc.sent) + (if ipc.connected then [PassSharedWorkerMessage(w.channelId, r.id, Some(message.id), Serialize(data))] else [])
    {
      r := PostMessage(w, data, Some(message.id));
    }

    /** `worker.unref()`: delegates to the link's `unref`. */
    method Unref()
      requires Valid()
      modifies ipc`refs, ipc`channelCalls
      ensures Valid()
      ensures old(ipc.refs) == 0 ==> ipc.refs == 0
      ensures 0 < old(ipc.refs) ==> ipc.refs == old(ipc.refs) - 1
    {
      ipc.Unref();
    }

    /** `worker.ref()` calls `ipc.ref`, which the link does not export: the call throws a TypeError. */
    method Ref() returns (outcome: Outcome)
      ensures outcome == ThrewTypeError
    {
      outcome := ThrewTypeError;
    }

    /** `deserialize`: the first call for an event decodes and caches; later calls return the cached value. */
    method DeserializeEvent(evt: InboundEvent) returns (data: Value)
      requires CacheOk()
      modifies this`deserializationCache
      ensures CacheOk()
      ensures data == Deserialize(evt.data)
      ensures evt in old(deserializationCache) ==> data == old(deserializationCache)[evt] && deserializationCache == old(deserializationCache)
      ensures deserializationCache == old(deserializationCache)[evt := data]
    {
      if evt in deserializationCache {
        data := deserializationCache[evt];
        return;
      }
      data := Deserialize(evt.data);
      deserializationCache := deserializationCache[evt := data];
    }

    /**
     * `receiveMessages(replyTo)` over the events the link raised: yields, in
     * order, one message per event that passes the filter.
     */
    method ReceiveMessages(w: SharedWorker, replyTo: Option<int>, evts: seq<InboundEvent>) returns (msgs: seq<ReceivedMessage>)
      requires CacheOk()
      modifies this`deserializationCache
      ensures CacheOk()
      ensures msgs == ToMessages(Matching(w.channelId, replyTo, evts))
    {
      msgs := [];
      var i := 0;
      while i < |evts|
        invariant 0 <= i <= |evts|
        invariant CacheOk()
        invariant msgs == ToMessages(Matching(w.channelId, replyTo, evts[..i]))
      {
        var evt := evts[i];
        ghost var before := Matching(w.channelId, replyTo, evts[..i]);
        FilterSnoc(e => Accepts(w.channelId, replyTo, e), evts[..i], evt);
        assert evts[..i + 1] == evts[..i] + [evt];
        if Accepts(w.channelId, replyTo, evt) {
          var data := DeserializeEvent(evt);
          assert ToMessages(before + [evt]) == ToMessages(before) + [ToMessage(evt)];
          msgs := msgs + [ReceivedMessage(evt.messageId, data)];
        }
        i := i + 1;
      }
      assert evts[..i] == evts;
    }

    /** The posted message's `reply`: the first message that replies to `id`, if one arrives. */
    method AwaitReply(w: SharedWorker, id: int, evts: seq<InboundEvent>) returns (reply: Option<ReceivedMessage>)
      requires CacheOk()
      modifies this`deserializationCache
      ensures CacheOk()
      ensures var replies := Matching(w.channelId, Some(id), evts);
              reply == if replies == [] then None else Some(ToMessage(replies[0]))
    {
      var i := 0;
      while i < |evts|
        invariant 0 <= i <= |evts|
        invariant CacheOk()
        invariant Matching(w.channelId, Some(id), evts[..i]) == []
      {
        var evt := evts[i];
        FilterSnoc(e => Accepts(w.channelId, Some(id), e), evts[..i], evt);
        assert evts[..i + 1] == evts[..i] + [evt];
        if Accepts(w.channelId, Some(id), evt) {
          FilterPrefix(e => Accepts(w.channelId, Some(id), e), evts, i + 1);
          var data := DeserializeEvent(evt);
          return Some(ReceivedMessage(evt.messageId, data));
        }
        i := i + 1;
      }
      assert evts[..i] == evts;
      reply := None;
    }
  }
}
