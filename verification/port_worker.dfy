/**
 * The plain worker-thread store used by the shared-worker fixture
 * (test/shared-worker-plugins/fixture/worker.js): a `message` handler that
 * keeps the last stored value and answers `retrieve` requests on
 * `parentPort`.
 */
module PortWorker {
  import opened Values

  /**
   * The thread's state: `stored`, the values posted on `parentPort`, and
   * whether the listener has thrown. The TypeError is uncaught in the worker
   * thread, so a thrown listener ends the thread and no later message is handled.
   */
  datatype PortState = PortState(stored: Value, posted: seq<Value>, crashed: bool)

  /** The module's state before any message: nothing stored, nothing posted. */
  const Start := PortState(Undefined, [], false)

  /** Reading `message.type` throws for a `null` or `undefined` message. */
  predicate Throws(message: Value)
  {
    Field(message, "type").AccessThrew?
  }

  predicate IsStore(message: Value)
  {
    FieldIs(message, "type", "store")
  }

  predicate IsRetrieve(message: Value)
  {
    FieldIs(message, "type", "retrieve")
  }

  /** The answer to a retrieve: `{id: message.id, value: stored}`. */
  function Answer(id: Value, stored: Value): Value
  {
    Obj(map["id" := id, "value" := stored])
  }

  /**
   * The listener on one message: after a throw nothing is handled; a message
   * whose `type` cannot be read throws; a store overwrites `stored` and posts
   * nothing; a retrieve posts the answer and keeps `stored`; anything else
   * changes nothing.
   */
  function Handle(s: PortState, message: Value): PortState
  {
    if s.crashed then s
    else if Throws(message) then s.(crashed := true)
    else if IsStore(message) then s.(stored := Field(message, "value").got)
    else if IsRetrieve(message) then s.(posted := s.posted + [Answer(Field(message, "id").got, s.stored)])
    else s
  }

  /** The listener applied to a sequence of messages, in order. */
  function Replay(s: PortState, msgs: seq<Value>): PortState
  {
    if msgs == [] then s else Handle(Replay(s, msgs[..|msgs| - 1]), msgs[|msgs| - 1])
  }

  /** Once the listener has thrown, later messages change nothing and post nothing. */
  lemma {:induction false} CrashSticks(s: PortState, msgs: seq<Value>, n: nat)
    requires n <= |msgs| && Replay(s, msgs[..n]).crashed
    ensures Replay(s, msgs) == Replay(s, msgs[..n])
    decreases |msgs| - n
  {
    if n == |msgs| {
      assert msgs[..n] == msgs;
    } else {
      assert msgs[..n + 1][..n] == msgs[..n];
      CrashSticks(s, msgs, n + 1);
    }
  }

  /** The thread dies exactly at the first message whose `type` cannot be read. */
  lemma {:induction false} CrashedIffThrown(s: PortState, msgs: seq<Value>)
    ensures Replay(s, msgs).crashed <==> s.crashed || exists k :: 0 <= k < |msgs| && Throws(msgs[k])
  {
    if msgs != [] {
      var init := msgs[..|msgs| - 1];
      CrashedIffThrown(s, init);
      assert forall k :: 0 <= k < |init| ==> init[k] == msgs[k];
    }
  }

  /**
   * Only retrieves post, one answer each, while the thread lives; stores and
   * other messages post nothing, and what was posted before stays.
   */
  lemma {:induction false} PostsOnlyOnRetrieve(s: PortState, msgs: seq<Value>)
    requires !Replay(s, msgs).crashed
    ensures |Replay(s, msgs).posted| == |s.posted| + |Filter(IsRetrieve, msgs)|
    ensures Replay(s, msgs).posted[..|s.posted|] == s.posted
  {
    if msgs != [] {
      var init := msgs[..|msgs| - 1];
      CrashMonotone(s, msgs, |msgs| - 1);
      PostsOnlyOnRetrieve(s, init);
      assert msgs == init + [msgs[|msgs| - 1]];
      FilterSnoc(IsRetrieve, init, msgs[|msgs| - 1]);
    }
  }

  /** A run that did not throw did not throw on any prefix either. */
  lemma CrashMonotone(s: PortState, msgs: seq<Value>, n: nat)
    requires n <= |msgs|
    ensures Replay(s, msgs[..n]).crashed ==> Replay(s, msgs).crashed
  {
    if Replay(s, msgs[..n]).crashed {
      CrashSticks(s, msgs, n);
    }
  }

  /** Without a store in between, `stored` keeps its value. */
  lemma {:induction false} NoStoreKeepsStored(s: PortState, msgs: seq<Value>)
    requires forall k :: 0 <= k < |msgs| ==> !IsStore(msgs[k])
    ensures Replay(s, msgs).stored == s.stored
  {
    if msgs != [] {
      NoStoreKeepsStored(s, msgs[..|msgs| - 1]);
    }
  }

  /** The last store wins, provided the thread is still alive. */
  lemma {:induction false} LastStoreWins(s: PortState, msgs: seq<Value>, j: nat)
    requires j < |msgs| && IsStore(msgs[j])
    requires forall k :: j < k < |msgs| ==> !IsStore(msgs[k])
    requires !Replay(s, msgs).crashed
    ensures Replay(s, msgs).stored == Field(msgs[j], "value").got
  {
    var init := msgs[..|msgs| - 1];
    CrashMonotone(s, msgs, |msgs| - 1);
    if j + 1 < |msgs| {
      assert init[j] == msgs[j];
      LastStoreWins(s, init, j);
    }
  }

  /** A retrieve before any store, reached while the thread lives, answers with `undefined`. */
  lemma RetrieveBeforeStore(msgs: seq<Value>, j: nat)
    requires j < |msgs| && IsRetrieve(msgs[j])
    requires forall k :: 0 <= k < j ==> !IsStore(msgs[k])
    requires !Replay(Start, msgs[..j]).crashed
    ensures var r := Replay(Start, msgs[..j + 1]);
            |r.posted| > 0 && r.posted[|r.posted| - 1] == Answer(Field(msgs[j], "id").got, Undefined)
  {
    assert msgs[..j + 1][..j] == msgs[..j];
    NoStoreKeepsStored(Start, msgs[..j]);
  }

  /** The worker thread: the module-level `stored`, the `parentPort` it posts on, and whether it has died. */
  class Worker {
    var stored: Value
    var posted: seq<Value>
    var crashed: bool

    constructor ()
      ensures stored == Undefined && posted == [] && !crashed
    {
      stored := Undefined;
      posted := [];
      crashed := false;
    }

    /**
     * Delivering one message to the `message` listener: on a `null` or
     * `undefined` message it throws a TypeError, which ends the thread; a
     * dead thread handles nothing.
     */
    method OnMessage(message: Value) returns (outcome: Outcome)
      modifies this
      ensures outcome == ThrewTypeError <==> !old(crashed) && Throws(message)
      ensures PortState(stored, posted, crashed) == Handle(PortState(old(stored), old(posted), old(crashed)), message)
    {
      if crashed {
        return Handled;
      }
      match Field(message, "type") {
        case AccessThrew =>
          crashed := true;
          return ThrewTypeError;
        case Got(t) =>
          if t == Str("store") {
            stored := Field(message, "value").got;
          } else if t == Str("retrieve") {
            posted := posted + [Answer(Field(message, "id").got, stored)];
          }
      }
      return Handled;
    }
  }
}
