/**
 * The shared-worker side of the protocol (lib/shared-worker-provider.js):
 * the protocol negotiation, the message counter shared by `postMessage` and
 * `broadcast`, the test-worker table kept up to date by register/deregister
 * messages, and the three-clause `receiveMessages` filter with its message
 * cache.
 */
module Provider {
  import opened Values

  /** The only protocol this side speaks. */
  const Experimental := "experimental"

  /** A `TestWorker`: the id and test file a `register-test-worker` message announced. */
  datatype TestWorker = TestWorker(id: int, file: string)

  /**
   * A message arriving on `parentPort`. `ident` is the object identity of a
   * `message`-type event; every type other than the three the provider
   * inspects is `OtherInbound`.
   */
  datatype Inbound =
    | RegisterTestWorker(id: int, file: string)
    | DeregisterTestWorker(id: int)
    | ChannelMessage(ident: nat, testWorkerId: int, messageId: int, replyTo: Option<int>, data: Value)
    | OtherInbound(typeName: string)

  /** A message posted on `parentPort` by a negotiated protocol. */
  datatype Outgoing =
    | MessageOut(messageId: int, testWorkerId: int, data: Value, replyTo: Option<int>)
    | BroadcastOut(messageId: int, data: Value)

  /**
   * The `receiveMessages(testWorker, replyTo)` filter: only `message`-type
   * events, only those of the given test worker when one is given, and the
   * `replyTo` rule (non-replies when unfiltered, exact replies when filtered).
   */
  predicate Accepts(testWorker: Option<TestWorker>, replyTo: Option<int>, evt: Inbound)
  {
    && evt.ChannelMessage?
    && !(testWorker.Some? && evt.testWorkerId != testWorker.value.id)
    && !(replyTo.None? && evt.replyTo.Some?)
    && !(replyTo.Some? && evt.replyTo != replyTo)
  }

  /** The events `receiveMessages(testWorker, replyTo)` considers, in arrival order. */
  function Matching(testWorker: Option<TestWorker>, replyTo: Option<int>, evts: seq<Inbound>): seq<Inbound>
  {
    Filter(e => Accepts(testWorker, replyTo, e), evts)
  }

  /** The three clauses, stated positively: an event is kept exactly when it passes all of them. */
  lemma {:induction false} MatchingExactly(testWorker: Option<TestWorker>, replyTo: Option<int>, evts: seq<Inbound>, evt: Inbound)
    ensures evt in Matching(testWorker, replyTo, evts) <==>
              && evt in evts
              && evt.ChannelMessage?
              && (testWorker.Some? ==> evt.testWorkerId == testWorker.value.id)
              && evt.replyTo == replyTo
  {
    if evt in evts && evt.ChannelMessage? && (testWorker.Some? ==> evt.testWorkerId == testWorker.value.id) && evt.replyTo == replyTo {
      FilterKeeps(e => Accepts(testWorker, replyTo, e), evts, evt);
    }
  }

  /** A `ReceivedMessage`: an object, so that its identity can be compared. */
  class ReceivedMessage {
    const testWorker: TestWorker
    const id: int
    const data: Value

    constructor (testWorker: TestWorker, id: int, data: Value)
      ensures this.testWorker == testWorker && this.id == id && this.data == data
    {
      this.testWorker := testWorker;
      this.id := id;
      this.data := data;
    }
  }

  /** The value `negotiateProtocol` returns: the closure state of one negotiation. */
  class Protocol {
    /** `messageCounter`, shared by `postMessage` and `broadcast`. */
    var messageCounter: nat
    /** What this protocol posted on `parentPort`, in order. */
    var sent: seq<Outgoing>
    /** `testWorkers`, keyed by test-worker id. */
    var testWorkers: map<int, TestWorker>
    /** The test workers emitted on `testWorkers`, in registration order. */
    var announced: seq<TestWorker>
    /** The test workers whose `finished` promise has resolved, in order. */
    var finished: seq<TestWorker>
    /** `messageCache`: the message object created for each event seen. */
    var messageCache: map<Inbound, ReceivedMessage>

    /** Every test worker is stored under its own id. */
    ghost predicate TableOk()
      reads this`testWorkers
    {
      forall i :: i in testWorkers ==> testWorkers[i].id == i
    }

    /** The posted ids go strictly up and none is above the counter. */
    ghost predicate PostsOk()
      reads this`sent, this`messageCounter
    {
      && (forall i, j :: 0 <= i < j < |sent| ==> sent[i].messageId < sent[j].messageId)
      && (forall k :: 0 <= k < |sent| ==> 0 < sent[k].messageId <= messageCounter)
    }

    /** Every cached message was built from its own event. */
    ghost predicate CacheOk()
      reads this`messageCache
    {
      forall e :: e in messageCache ==>
        && e.ChannelMessage?
        && messageCache[e].id == e.messageId
        && messageCache[e].data == e.data
        && messageCache[e].testWorker.id == e.testWorkerId
    }

    ghost predicate Valid()
      reads this`testWorkers, this`sent, this`messageCounter, this`messageCache
    {
      TableOk() && PostsOk() && CacheOk()
    }

    constructor ()
      ensures Valid()
      ensures messageCounter == 0 && sent == [] && testWorkers == map[] && announced == [] && finished == [] && messageCache == map[]
    {
      messageCounter := 0;
      sent := [];
      testWorkers := map[];
      announced := [];
      finished := [];
      messageCache := map[];
    }

    /** Takes the next message id; it is above every id posted so far. */
    method NextId() returns (id: int)
      requires PostsOk()
      modifies this`messageCounter
      ensures PostsOk()
      ensures id == old(messageCounter) + 1 && messageCounter == id
      ensures forall k :: 0 <= k < |sent| ==> sent[k].messageId < id
    {
      messageCounter := messageCounter + 1;
      id := messageCounter;
    }

    /** `parentPort.postMessage` of a message carrying the id just taken. */
    method Emit(out: Outgoing)
      requires PostsOk() && 0 < out.messageId == messageCounter
      requires forall k :: 0 <= k < |sent| ==> sent[k].messageId < out.messageId
      modifies this`sent
      ensures PostsOk()
      ensures sent == old(sent) + [out]
    {
      sent := sent + [out];
    }

    /**
     * `postMessage(testWorker, data, replyTo)`: takes the next id and posts a
     * `message` addressed to the test worker, carrying `replyTo` unchanged.
     */
    method PostMessage(testWorker: TestWorker, data: Value, replyTo: Option<int>) returns (id: int)
      requires Valid()
      modifies this`messageCounter, this`sent
      ensures Valid()
      ensures id == old(messageCounter) + 1 && messageCounter == id
      ensures sent == old(sent) + [MessageOut(id, testWorker.id, data, replyTo)]
      ensures forall k :: 0 <= k < |old(sent)| ==> old(sent)[k].messageId < id
    {
      id := NextId();
      Emit(MessageOut(id, testWorker.id, data, replyTo));
    }

    /** `broadcast(data)`: takes the next id from the same counter, posts a `broadcast`, and returns that id. */
    method Broadcast(data: Value) returns (messageId: int)
      requires Valid()
      modifies this`messageCounter, this`sent
      ensures Valid()
      ensures messageId == old(messageCounter) + 1 && messageCounter == messageId
      ensures sent == old(sent) + [BroadcastOut(messageId, data)]
      ensures forall k :: 0 <= k < |old(sent)| ==> old(sent)[k].messageId < messageId
    {
      messageId := NextId();
      Emit(BroadcastOut(messageId, data));
    }

    /** `testWorker.publish(data)`: a post to that test worker that is not a reply. */
    method Publish(testWorker: TestWorker, data: Value) returns (id: int)
      requires Valid()
      modifies this`messageCounter, this`sent
      ensures Valid()
      ensures id == old(messageCounter) + 1 && messageCounter == id
      ensures sent == old(sent) + [MessageOut(id, testWorker.id, data, None)]
    {
      id := PostMessage(testWorker, data, None);
    }

    /** `message.reply(data)`: a post to the message's own test worker, replying to its id. */
    method Reply(message: ReceivedMessage, data: Value) returns (id: int)
      requires Valid()
      modifies this`messageCounter, this`sent
      ensures Valid()
      ensures id == old(messageCounter) + 1 && messageCounter == id
      ensures sent == old(sent) + [MessageOut(id, message.testWorker.id, data, Some(message.id))]
    {
      id := PostMessage(message.testWorker, data, Some(message.id));
    }

    /**
     * The `parentPort` message handler: `register-test-worker` stores a new
     * test worker under its id and emits it; `deregister-test-worker`
     * resolves the stored worker's `finished` and deletes it, and throws a
     * TypeError, changing nothing, for an id that is not registered; any
     * other type is ignored here.
     */
    method OnPortMessage(m: Inbound) returns (outcome: Outcome)
      requires Valid()
      modifies this`testWorkers, this`announced, this`finished
      ensures Valid()
      ensures outcome == ThrewTypeError <==> m.DeregisterTestWorker? && m.id !in old(testWorkers)
      ensures m.RegisterTestWorker? ==>
                && testWorkers == old(testWorkers)[m.id := TestWorker(m.id, m.file)]
                && announced == old(announced) + [TestWorker(m.id, m.file)]
                && finished == old(finished)
      ensures m.DeregisterTestWorker? && m.id in old(testWorkers) ==>
                && testWorkers == old(testWorkers) - {m.id}
                && finished == old(finished) + [old(testWorkers)[m.id]]
                && announced == old(announced)
      ensures !(m.RegisterTestWorker? || (m.DeregisterTestWorker? && m.id in old(testWorkers))) ==>
                testWorkers == old(testWorkers) && announced == old(announced) && finished == old(finished)
    {
      outcome := Handled;
      match m
      case RegisterTestWorker(id, file) =>
        var testWorker := TestWorker(id, file);
        testWorkers := testWorkers[id := testWorker];
        announced := announced + [testWorker];
      case DeregisterTestWorker(id) =>
        if id in testWorkers {
          finished := finished + [testWorkers[id]];
          testWorkers := testWorkers - {id};
        } else {
          outcome := ThrewTypeError;
        }
      case _ =>
    }

    /**
     * The cached message for a `message`-type event; a cache miss builds a
     * new one for the event's test worker, and throws a TypeError when that
     * test worker is not registered.
     */
    method MessageFor(evt: Inbound) returns (message: Option<ReceivedMessage>)
      requires TableOk() && CacheOk() && evt.ChannelMessage?
      modifies this`messageCache
      ensures CacheOk()
      ensures message.None? <==> evt !in old(messageCache) && evt.testWorkerId !in testWorkers
      ensures message.Some? ==> evt in messageCache && message.value == messageCache[evt]
      ensures Grown(old(messageCache), messageCache)
      ensures evt in old(messageCache) || message.None? ==> messageCache == old(messageCache)
      ensures evt !in old(messageCache) && message.Some? ==>
                && messageCache == old(messageCache)[evt := message.value]
                && fresh(message.value)
                && message.value.testWorker == testWorkers[evt.testWorkerId]
    {
      if evt in messageCache {
        message := Some(messageCache[evt]);
      } else if evt.testWorkerId in testWorkers {
        var created := new ReceivedMessage(testWorkers[evt.testWorkerId], evt.messageId, evt.data);
        messageCache := messageCache[evt := created];
        message := Some(created);
      } else {
        message := None;
      }
    }

    /** An event the cache can serve: seen before, or from a registered test worker. */
    ghost predicate Servable(cache: map<Inbound, ReceivedMessage>, evt: Inbound)
      reads this`testWorkers
    {
      evt in cache || (evt.ChannelMessage? && evt.testWorkerId in testWorkers)
    }

    /**
     * `receiveMessages(testWorker, replyTo)` over a finite stretch of
     * `parentPort` events: one message per matching event, in order, the
     * same object for an event seen before. The generator throws at the first
     * matching event it cannot build a message for; the messages yielded
     * before it are returned together with the TypeError.
     */
    method ReceiveMessages(testWorker: Option<TestWorker>, replyTo: Option<int>, evts: seq<Inbound>)
      returns (msgs: seq<ReceivedMessage>, outcome: Outcome)
      requires TableOk() && CacheOk()
      modifies this`messageCache
      ensures CacheOk()
      ensures var matching := Matching(testWorker, replyTo, evts);
              && Delivered(msgs, matching, messageCache)
              && (outcome == Handled <==> |msgs| == |matching|)
              && (outcome == ThrewTypeError ==> !Servable(old(messageCache), matching[|msgs|]))
      ensures Grown(old(messageCache), messageCache)
    {
      msgs := [];
      outcome := Handled;
      var i := 0;
      while i < |evts|
        invariant 0 <= i <= |evts|
        invariant TableOk() && CacheOk() && Grown(old(messageCache), messageCache)
        invariant Delivered(msgs, Matching(testWorker, replyTo, evts[..i]), messageCache)
        invariant |msgs| == |Matching(testWorker, replyTo, evts[..i])|
      {
        var ok;
        msgs, ok := ReceiveOne(testWorker, replyTo, evts, i, msgs);
        if !ok {
          return msgs, ThrewTypeError;
        }
        i := i + 1;
      }
      assert evts[..i] == evts;
    }

    /**
     * One step of `receiveMessages`: event `i` is skipped, yielded, or makes
     * the generator throw, in which case it is the first matching event not
     * yielded.
     */
    method ReceiveOne(testWorker: Option<TestWorker>, replyTo: Option<int>, evts: seq<Inbound>, i: nat, msgs: seq<ReceivedMessage>)
      returns (next: seq<ReceivedMessage>, ok: bool)
      requires i < |evts|
      requires TableOk() && CacheOk()
      requires Delivered(msgs, Matching(testWorker, replyTo, evts[..i]), messageCache)
      requires |msgs| == |Matching(testWorker, replyTo, evts[..i])|
      modifies this`messageCache
      ensures CacheOk() && Grown(old(messageCache), messageCache)
      ensures ok ==>
                && Delivered(next, Matching(testWorker, replyTo, evts[..i + 1]), messageCache)
                && |next| == |Matching(testWorker, replyTo, evts[..i + 1])|
      ensures !ok ==>
                var matching := Matching(testWorker, replyTo, evts);
                && next == msgs && Delivered(next, matching, messageCache) && |next| < |matching|
                && !Servable(old(messageCache), matching[|next|])
    {
      var evt := evts[i];
      ghost var before := Matching(testWorker, replyTo, evts[..i]);
      FilterSnoc(e => Accepts(testWorker, replyTo, e), evts[..i], evt);
      assert evts[..i + 1] == evts[..i] + [evt];
      if !Accepts(testWorker, replyTo, evt) {
        return msgs, true;
      }
      ghost var cache := messageCache;
      var message := MessageFor(evt);
      if message.None? {
        FilterPrefix(e => Accepts(testWorker, replyTo, e), evts, i + 1);
        DeliveredPrefix(msgs, before, Matching(testWorker, replyTo, evts), messageCache);
        return msgs, false;
      }
      DeliveredSnoc(msgs, before, cache, messageCache, evt, message.value);
      return msgs + [message.value], true;
    }

    /** `subscribe()` on the negotiated protocol: every non-reply message, from any test worker. */
    method Subscribe(evts: seq<Inbound>) returns (msgs: seq<ReceivedMessage>, outcome: Outcome)
      requires Valid()
      modifies this`messageCache
      ensures Valid()
      ensures var matching := Matching(None, None, evts);
              && Delivered(msgs, matching, messageCache)
              && (outcome == Handled <==> |msgs| == |matching|)
              && (outcome == ThrewTypeError ==> !Servable(old(messageCache), matching[|msgs|]))
      ensures Grown(old(messageCache), messageCache)
    {
      msgs, outcome := ReceiveMessages(None, None, evts);
    }

    /**
     * The `reply` getter of a posted message: the first reply to `id` from
     * that test worker, with the same failure as `receiveMessages` when its
     * message cannot be built.
     */
    method AwaitReply(testWorker: TestWorker, id: int, evts: seq<Inbound>) returns (reply: Option<ReceivedMessage>, outcome: Outcome)
      requires Valid()
      modifies this`messageCache
      ensures Valid()
      ensures var replies := Matching(Some(testWorker), Some(id), evts);
              && (replies == [] ==> reply.None? && outcome == Handled)
              && (replies != [] && Servable(old(messageCache), replies[0]) ==>
                    outcome == Handled && replies[0] in messageCache && reply == Some(messageCache[replies[0]]))
              && (replies != [] && !Servable(old(messageCache), replies[0]) ==> outcome == ThrewTypeError && reply.None?)
      ensures Grown(old(messageCache), messageCache)
    {
      reply, outcome := None, Handled;
      var i := 0;
      while i < |evts|
        invariant 0 <= i <= |evts|
        invariant Valid() && messageCache == old(messageCache)
        invariant Matching(Some(testWorker), Some(id), evts[..i]) == []
      {
        var evt := evts[i];
        FilterSnoc(e => Accepts(Some(testWorker), Some(id), e), evts[..i], evt);
        assert evts[..i + 1] == evts[..i] + [evt];
        if Accepts(Some(testWorker), Some(id), evt) {
          FilterPrefix(e => Accepts(Some(testWorker), Some(id), e), evts, i + 1);
          reply := MessageFor(evt);
          if reply.None? {
            outcome := ThrewTypeError;
          }
          return;
        }
        i := i + 1;
      }
      assert evts[..i] == evts;
    }
  }

  /** The outcome of `negotiateProtocol`. */
  datatype Negotiation = Negotiated(protocol: Protocol) | Incompatible

  /** The module scope around the plugin factory: `fatal` and the final `available` post. */
  class Host {
    /** Whether `fatal` has been set. */
    var fatal: bool
    /** Whether `{type: 'available'}` has been posted. */
    var available: bool

    constructor ()
      ensures !fatal && !available
    {
      fatal := false;
      available := false;
    }

    /**
     * `negotiateProtocol(supported)`: without `experimental` it records
     * `fatal` and throws; otherwise it returns a fresh protocol whose counter
     * and tables start empty.
     */
    method NegotiateProtocol(supported: seq<string>) returns (r: Negotiation)
      modifies this`fatal
      ensures r.Incompatible? <==> Experimental !in supported
      ensures fatal == (old(fatal) || Experimental !in supported)
      ensures r.Negotiated? ==>
                && fresh(r.protocol) && r.protocol.Valid()
                && r.protocol.messageCounter == 0 && r.protocol.sent == []
                && r.protocol.testWorkers == map[] && r.protocol.messageCache == map[]
    {
      if Experimental !in supported {
        fatal := true;
        return Incompatible;
      }
      var protocol := new Protocol();
      return Negotiated(protocol);
    }

    /**
     * The end of the module's synchronous run: it rethrows `fatal` when a
     * negotiation failed, and otherwise posts `available`.
     */
    method Announce() returns (crashed: bool)
      modifies this`available
      ensures crashed <==> fatal
      ensures available == (old(available) || !fatal)
    {
      if fatal {
        return true;
      }
      available := true;
      return false;
    }
  }
}
