/**
 * The key-value shared worker used by the shared-worker tests
 * (test/shared-worker-plugins/fixtures/worker.js): it negotiates the
 * `experimental` protocol and serves `store` and `retrieve` requests from its
 * subscription, replying to each and broadcasting every change.
 */
module KvWorker {
  import opened Values
  import Provider

  /** The protocols the worker offers. */
  const Supported: seq<string> := ["experimental"]

  /** The worker's loop state: `stored`, the protocol's message counter, what it posted, and whether it crashed. */
  datatype KvState = KvState(stored: Value, counter: int, out: seq<Provider.Outgoing>, crashed: bool)

  /** The state before the first message: nothing stored. */
  function Initial(counter: int): KvState
  {
    KvState(Undefined, counter, [], false)
  }

  /** `message.data.type === 'store'`. */
  predicate IsStore(m: Provider.ReceivedMessage)
  {
    FieldIs(m.data, "type", "store")
  }

  /** `message.data.type === 'retrieve'`. */
  predicate IsRetrieve(m: Provider.ReceivedMessage)
  {
    FieldIs(m.data, "type", "retrieve")
  }

  /** The broadcast that announces a new stored value. */
  function Change(value: Value): Value
  {
    Obj(map["type" := Str("change"), "value" := value])
  }

  /**
   * One turn of the loop: reading `type` of null or undefined data throws and
   * ends the loop; a store sets `stored`, replies `null`, then broadcasts the
   * change; a retrieve replies with `stored`; anything else does nothing.
   */
  function Step(s: KvState, m: Provider.ReceivedMessage): (r: KvState)
  {
    if s.crashed then s
    else
      match Field(m.data, "type")
      case AccessThrew => s.(crashed := true)
      case Got(t) =>
        if t == Str("store") then
          var value := Field(m.data, "value").got;
          KvState(value, s.counter + 2,
                  s.out + [Provider.MessageOut(s.counter + 1, m.testWorker.id, Null, Some(m.id)),
                           Provider.BroadcastOut(s.counter + 2, Change(value))],
                  false)
        else if t == Str("retrieve") then
          s.(counter := s.counter + 1,
             out := s.out + [Provider.MessageOut(s.counter + 1, m.testWorker.id, s.stored, Some(m.id))])
        else s
  }

  /** The loop over a finite stretch of the subscription. */
  function Run(s: KvState, msgs: seq<Provider.ReceivedMessage>): KvState
  {
    if msgs == [] then s else Step(Run(s, msgs[..|msgs| - 1]), msgs[|msgs| - 1])
  }

  /** Once crashed, the loop is over: later messages change nothing and post nothing. */
  lemma {:induction false} CrashSticks(s: KvState, msgs: seq<Provider.ReceivedMessage>, n: nat)
    requires n <= |msgs| && Run(s, msgs[..n]).crashed
    ensures Run(s, msgs) == Run(s, msgs[..n])
    decreases |msgs| - n
  {
    if n == |msgs| {
      assert msgs[..n] == msgs;
    } else {
      assert msgs[..n + 1][..n] == msgs[..n];
      CrashSticks(s, msgs, n + 1);
    }
  }

  /** A stretch without stores leaves `stored` as it was. */
  lemma {:induction false} NoStoreKeepsStored(s: KvState, msgs: seq<Provider.ReceivedMessage>)
    requires forall k :: 0 <= k < |msgs| ==> !IsStore(msgs[k])
    ensures Run(s, msgs).stored == s.stored
  {
    if msgs != [] {
      NoStoreKeepsStored(s, msgs[..|msgs| - 1]);
    }
  }

  /** A run that did not crash did not crash on any prefix either. */
  lemma CrashMonotone(s: KvState, msgs: seq<Provider.ReceivedMessage>, n: nat)
    requires n <= |msgs|
    ensures Run(s, msgs[..n]).crashed ==> Run(s, msgs).crashed
  {
    if Run(s, msgs[..n]).crashed {
      CrashSticks(s, msgs, n);
    }
  }

  /** The last store wins: after it, `stored` holds its value as long as the loop runs. */
  lemma {:induction false} LastStoreWins(s: KvState, msgs: seq<Provider.ReceivedMessage>, j: nat)
    requires j < |msgs| && IsStore(msgs[j])
    requires forall k :: j < k < |msgs| ==> !IsStore(msgs[k])
    requires !Run(s, msgs).crashed
    ensures Run(s, msgs).stored == Field(msgs[j].data, "value").got
  {
    var init := msgs[..|msgs| - 1];
    CrashMonotone(s, msgs, |msgs| - 1);
    if j + 1 < |msgs| {
      assert init[..j + 1] == msgs[..j + 1];
      LastStoreWins(s, init, j);
    }
  }

  /** A retrieve before any store replies `undefined` to the sender. */
  lemma RetrieveBeforeStore(counter: int, msgs: seq<Provider.ReceivedMessage>, j: nat)
    requires j < |msgs| && IsRetrieve(msgs[j])
    requires forall k :: 0 <= k < j ==> !IsStore(msgs[k])
    requires !Run(Initial(counter), msgs[..j]).crashed
    ensures var r := Run(Initial(counter), msgs[..j + 1]);
            |r.out| > 0 && r.out[|r.out| - 1] == Provider.MessageOut(r.counter, msgs[j].testWorker.id, Undefined, Some(msgs[j].id))
  {
    assert msgs[..j + 1][..j] == msgs[..j];
    NoStoreKeepsStored(Initial(counter), msgs[..j]);
  }

  /**
   * Each turn posts a contiguous block of new ids: a store two (its reply,
   * then its broadcast), a retrieve one, anything else none.
   */
  lemma {:induction false} RunCounts(s: KvState, msgs: seq<Provider.ReceivedMessage>)
    ensures var r := Run(s, msgs);
            && r.counter - s.counter == |r.out| - |s.out|
            && |s.out| <= |r.out| && r.out[..|s.out|] == s.out
            && forall k :: |s.out| <= k < |r.out| ==> r.out[k].messageId == s.counter + (k - |s.out|) + 1
  {
    if msgs != [] {
      RunCounts(s, msgs[..|msgs| - 1]);
    }
  }

  /**
   * What a run that did not crash posts: two messages per store (its reply
   * and its broadcast), one per retrieve, none for anything else.
   */
  lemma {:induction false} RunPosts(s: KvState, msgs: seq<Provider.ReceivedMessage>)
    requires !Run(s, msgs).crashed
    ensures |Run(s, msgs).out| == |s.out| + 2 * |Filter(IsStore, msgs)| + |Filter(IsRetrieve, msgs)|
  {
    if msgs != [] {
      var init := msgs[..|msgs| - 1];
      var last := msgs[|msgs| - 1];
      CrashMonotone(s, msgs, |msgs| - 1);
      RunPosts(s, init);
      assert msgs == init + [last];
      FilterSnoc(IsStore, init, last);
      FilterSnoc(IsRetrieve, init, last);
    }
  }

  /**
   * A store reached while the loop runs sets `stored`, replies `null` to its
   * sender, and right after that broadcasts the change, under the next two ids.
   */
  lemma StorePosts(s: KvState, msgs: seq<Provider.ReceivedMessage>, j: nat)
    requires j < |msgs| && IsStore(msgs[j])
    requires !Run(s, msgs[..j]).crashed
    ensures var before := Run(s, msgs[..j]);
            var r := Run(s, msgs[..j + 1]);
            var value := Field(msgs[j].data, "value").got;
            && !r.crashed && r.stored == value
            && r.out == before.out + [Provider.MessageOut(before.counter + 1, msgs[j].testWorker.id, Null, Some(msgs[j].id)),
                                      Provider.BroadcastOut(before.counter + 2, Change(value))]
  {
    assert msgs[..j + 1][..j] == msgs[..j];
  }

  /** A retrieve reached while the loop runs replies to its sender with the value stored so far. */
  lemma RetrievePosts(s: KvState, msgs: seq<Provider.ReceivedMessage>, j: nat)
    requires j < |msgs| && IsRetrieve(msgs[j])
    requires !Run(s, msgs[..j]).crashed
    ensures var before := Run(s, msgs[..j]);
            var r := Run(s, msgs[..j + 1]);
            && !r.crashed && r.stored == before.stored
            && r.out == before.out + [Provider.MessageOut(before.counter + 1, msgs[j].testWorker.id, before.stored, Some(msgs[j].id))]
  {
    assert msgs[..j + 1][..j] == msgs[..j];
  }

  /** The worker offers exactly the protocol the provider requires, so negotiation succeeds. */
  method Start(host: Provider.Host) returns (r: Provider.Negotiation)
    modifies host`fatal
    ensures r.Negotiated? && host.fatal == old(host.fatal)
    ensures fresh(r.protocol) && r.protocol.Valid() && r.protocol.messageCounter == 0 && r.protocol.sent == []
  {
    r := host.NegotiateProtocol(Supported);
  }

  /**
   * The `for await` loop over `protocol.subscribe()`, for a finite stretch
   * of messages: the final `stored`, and whether the loop threw.
   */
  method Serve(protocol: Provider.Protocol, msgs: seq<Provider.ReceivedMessage>) returns (stored: Value, crashed: bool)
    requires protocol.Valid()
    modifies protocol`messageCounter, protocol`sent
    ensures protocol.Valid()
    ensures var r := Run(Initial(old(protocol.messageCounter)), msgs);
            && stored == r.stored && crashed == r.crashed
            && protocol.messageCounter == r.counter
            && protocol.sent == old(protocol.sent) + r.out
  {
    stored, crashed := Undefined, false;
    var i := 0;
    while i < |msgs| && !crashed
      invariant 0 <= i <= |msgs|
      invariant protocol.Valid()
      invariant var r := Run(Initial(old(protocol.messageCounter)), msgs[..i]);
                && stored == r.stored && crashed == r.crashed
                && protocol.messageCounter == r.counter
                && protocol.sent == old(protocol.sent) + r.out
    {
      var m := msgs[i];
      assert msgs[..i + 1][..i] == msgs[..i];
      match Field(m.data, "type") {
        case AccessThrew =>
          crashed := true;
        case Got(t) =>
          if t == Str("store") {
            stored := Field(m.data, "value").got;
            var _ := protocol.Reply(m, Null);
            var _ := protocol.Broadcast(Change(stored));
          } else if t == Str("retrieve") {
            var _ := protocol.Reply(m, stored);
          }
      }
      i := i + 1;
    }
    if crashed {
      CrashSticks(Initial(old(protocol.messageCounter)), msgs, i);
    } else {
      assert msgs[..i] == msgs;
    }
  }
}
