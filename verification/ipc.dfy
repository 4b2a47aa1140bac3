/**
 * The test-worker end of the IPC link (lib/worker/ipc.js): the inbound
 * routing switch, the guarded `send`, the keep-alive counter `refs` and the
 * `flush` ping chain.
 */
module Ipc {
  import opened Values
  import opened Envelopes

  /** Events raised on the link's emitter, one constructor per event name. */
  datatype IpcEvent =
    | OptionsEvent(options: map<string, Value>)
    | PeerFailedEvent
    | PongEvent
    | SharedWorkerMessageEvent(channelId: int, messageId: int, replyTo: Option<int>, data: Bytes)

  /** The only envelope that raises `ev`. */
  function Unroute(ev: IpcEvent): Envelope
  {
    match ev
    case OptionsEvent(o) => OptionsMsg(o)
    case PeerFailedEvent => PeerFailed
    case PongEvent => Pong
    case SharedWorkerMessageEvent(c, m, r, d) => PassSharedWorkerMessage(c, m, r, d)
  }

  /** The four envelope types the test worker listens for. */
  predicate Routed(e: Envelope)
  {
    e.OptionsMsg? || e.PeerFailed? || e.Pong? || e.PassSharedWorkerMessage?
  }

  /**
   * The inbound `type` switch: a message without `ava` and an envelope of any
   * other type raise nothing; each routed type raises exactly one event,
   * carrying the envelope's payload unchanged.
   */
  function Route(m: Message): (r: Option<IpcEvent>)
    ensures r.Some? <==> m.ava.Some? && Routed(m.ava.value)
    ensures r.Some? ==> m.ava == Some(Unroute(r.value))
  {
    match m.ava
    case None => None
    case Some(e) =>
      match e
      case OptionsMsg(o) => Some(OptionsEvent(o))
      case PeerFailed => Some(PeerFailedEvent)
      case Pong => Some(PongEvent)
      case PassSharedWorkerMessage(c, id, rt, d) => Some(SharedWorkerMessageEvent(c, id, rt, d))
      case _ => None
  }

  /** Every event is raised by its own envelope, so the routing is onto and one-to-one. */
  lemma UnrouteIsRouted(ev: IpcEvent)
    ensures Route(Message(Some(Unroute(ev)))) == Some(ev)
    ensures Routed(Unroute(ev))
  {
  }

  /** A call on the underlying `process.channel`. */
  datatype ChannelCall = ChannelRef | ChannelUnref

  /**
   * Calls on `process.channel` alternate, starting with an unref (the channel
   * starts referenced), so the channel is never referenced or unreferenced twice in a row.
   */
  ghost predicate Alternating(calls: seq<ChannelCall>)
  {
    forall i :: 0 <= i < |calls| ==> calls[i] == (if i % 2 == 0 then ChannelUnref else ChannelRef)
  }

  /**
   * Flush tickets: flush number k (counting from 1) owns ticket k, and
   * `pendingPings` holds the ticket of the latest flush (0 is the initial,
   * already resolved promise). `chain` holds the tickets whose pong has not
   * been handled yet, in call order.
   */
  ghost predicate ChainOk(chain: seq<nat>, pendingPings: nat)
  {
    && StrictlyIncreasing(chain)
    && (forall i :: 0 <= i < |chain| ==> 0 < chain[i] <= pendingPings)
    && (chain != [] ==> chain[|chain| - 1] == pendingPings)
  }

  class Link {
    /** `process.connected`, maintained by the runtime. */
    var connected: bool
    /** Envelopes handed to `process.send`, in order. */
    var sent: seq<Envelope>
    /** Events raised on the emitter, in order. */
    var events: seq<IpcEvent>
    /** The value `exports.options` resolves with: the first `options` event. */
    var options: Option<map<string, Value>>
    /** Whether `exports.peerFailed` has resolved. */
    var peerFailed: bool
    /** The keep-alive counter. */
    var refs: int
    /** Calls made on `process.channel.ref` / `process.channel.unref`. */
    var channelCalls: seq<ChannelCall>
    var pendingPings: nat
    var chain: seq<nat>
    /** Whether the head of `chain` has sent its ping and awaits the pong. */
    var awaitingPong: bool
    /** Tickets whose ping has been sent, in sending order. */
    ghost var pinged: seq<nat>

    ghost predicate Valid()
      reads this`refs, this`channelCalls, this`pendingPings, this`chain, this`awaitingPong, this`pinged
    {
      && 0 <= refs
      && Alternating(channelCalls)
      && (0 < refs <==> |channelCalls| % 2 == 0)
      && ChainOk(chain, pendingPings)
      && StrictlyIncreasing(pinged)
      && (awaitingPong ==> chain != [] && pinged != [] && pinged[|pinged| - 1] == chain[0])
      && (forall i :: 0 <= i < |pinged| ==> pinged[i] <= pendingPings)
      && (forall i, j :: 0 <= i < |pinged| && 0 < j < |chain| ==> pinged[i] < chain[j])
      && (!awaitingPong ==> forall i :: 0 <= i < |pinged| && chain != [] ==> pinged[i] < chain[0])
    }

    /** The channel keeps the process alive exactly while it was last referenced. */
    ghost function ChannelReferenced(): bool
      reads this
    {
      channelCalls == [] || channelCalls[|channelCalls| - 1] == ChannelRef
    }

    /** The module's initial state: `refs` starts at 1 and no flush is pending. */
    constructor (connected: bool)
      ensures Valid()
      ensures this.connected == connected
      ensures refs == 1 && channelCalls == [] && ChannelReferenced()
      ensures sent == [] && events == [] && options == None && !peerFailed
      ensures pendingPings == 0 && chain == [] && !awaitingPong && pinged == []
    {
      this.connected := connected;
      sent := [];
      events := [];
      options := None;
      peerFailed := false;
      refs := 1;
      channelCalls := [];
      pendingPings := 0;
      chain := [];
      awaitingPong := false;
      pinged := [];
    }

    /** While `refs` is positive the channel is referenced, and not otherwise. */
    lemma ReferencedIffPositive()
      requires Valid()
      ensures ChannelReferenced() <==> 0 < refs
    {
      if channelCalls != [] {
        var n := |channelCalls| - 1;
        assert channelCalls[n] == (if n % 2 == 0 then ChannelUnref else ChannelRef);
      }
    }

    /** `send`: transmitted only while connected, silently dropped otherwise. */
    method Send(evt: Envelope)
      modifies this`sent
      ensures sent == old(sent) + (if connected then [evt] else [])
    {
      if connected {
        sent := sent + [evt];
      }
    }

    /** `ref`: always increments; references the channel only on the step to exactly 1. */
    method Ref()
      requires Valid()
      modifies this`refs, this`channelCalls
      ensures Valid()
      ensures refs == old(refs) + 1
      ensures channelCalls == old(channelCalls) + (if refs == 1 then [ChannelRef] else [])
    {
      refs := refs + 1;
      if refs == 1 {
        channelCalls := channelCalls + [ChannelRef];
      }
    }

    /** `unref`: never below 0; unreferences the channel exactly when `refs` becomes 0. */
    method Unref()
      requires Valid()
      modifies this`refs, this`channelCalls
      ensures Valid()
      ensures old(refs) == 0 ==> refs == 0 && channelCalls == old(channelCalls)
      ensures 0 < old(refs) ==> refs == old(refs) - 1
      ensures 0 < old(refs) ==> channelCalls == old(channelCalls) + (if refs == 0 then [ChannelUnref] else [])
    {
      if refs > 0 {
        refs := refs - 1;
        if refs == 0 {
          channelCalls := channelCalls + [ChannelUnref];
        }
      }
    }

    /**
     * `flush`, synchronous part: one `ref`, and a new link appended to the
     * chain, which becomes `pendingPings`.
     */
    method Flush()
      requires Valid()
      modifies this`refs, this`channelCalls, this`pendingPings, this`chain
      ensures Valid()
      ensures refs == old(refs) + 1
      ensures channelCalls == old(channelCalls) + (if refs == 1 then [ChannelRef] else [])
      ensures pendingPings == old(pendingPings) + 1
      ensures chain == old(chain) + [pendingPings]
    {
      Ref();
      pendingPings := pendingPings + 1;
      chain := chain + [pendingPings];
    }

    /**
     * The chain advances: when the previous link has completed, the head
     * flush sends its single ping. Pings therefore go out in flush order.
     */
    method SendNextPing()
      requires Valid()
      modifies this`sent, this`awaitingPong, this`pinged
      ensures Valid()
      ensures if old(chain) != [] && !old(awaitingPong) then
                && awaitingPong
                && pinged == old(pinged) + [chain[0]]
                && sent == old(sent) + (if connected then [Ping] else [])
              else
                && awaitingPong == old(awaitingPong)
                && pinged == old(pinged)
                && sent == old(sent)
    {
      if chain != [] && !awaitingPong {
        Send(Ping);
        awaitingPong := true;
        pinged := pinged + [chain[0]];
      }
    }

    /**
     * The head flush receives its pong: it unrefs only if it is still
     * `pendingPings`, that is, only if no later flush is queued behind it.
     */
    method ReceivePong()
      requires Valid()
      modifies this`refs, this`channelCalls, this`chain, this`awaitingPong
      ensures Valid()
      ensures !old(awaitingPong) ==> refs == old(refs) && channelCalls == old(channelCalls) && chain == old(chain) && !awaitingPong
      ensures old(awaitingPong) ==> !awaitingPong && chain == old(chain)[1..]
      ensures old(awaitingPong) ==> (old(chain)[0] == pendingPings <==> |old(chain)| == 1)
      ensures old(awaitingPong) && |old(chain)| > 1 ==> refs == old(refs) && channelCalls == old(channelCalls)
      ensures old(awaitingPong) && |old(chain)| == 1 ==> refs == (if old(refs) > 0 then old(refs) - 1 else 0)
      ensures old(awaitingPong) && |old(chain)| == 1 ==> channelCalls == old(channelCalls) + (if old(refs) == 1 then [ChannelUnref] else [])
    {
      if awaitingPong {
        var ticket := chain[0];
        if |chain| > 1 {
          assert chain[0] < chain[|chain| - 1];
        }
        if ticket == pendingPings {
          Unref();
        }
        chain := chain[1..];
        awaitingPong := false;
      }
    }

    /** Settles the `options` and `peerFailed` promises on their first event. */
    method Settle(m: Message)
      modifies this`options, this`peerFailed
      ensures options == (if old(options).None? && m.ava.Some? && m.ava.value.OptionsMsg? then Some(m.ava.value.options) else old(options))
      ensures peerFailed == (old(peerFailed) || m.ava == Some(PeerFailed))
    {
      if m.ava == Some(PeerFailed) {
        peerFailed := true;
      } else if m.ava.Some? && m.ava.value.OptionsMsg? && options.None? {
        options := Some(m.ava.value.options);
      }
    }

    /**
     * `process.on('message')`: routes the message, records the event, settles
     * the `options` and `peerFailed` promises on their first event, and lets a
     * pong complete the awaiting flush.
     */
    method OnMessage(m: Message)
      requires Valid()
      modifies this`events, this`options, this`peerFailed, this`refs, this`channelCalls, this`chain, this`awaitingPong
      ensures Valid()
      ensures events == old(events) + (if Route(m).Some? then [Route(m).value] else [])
      ensures options == (if old(options).None? && m.ava.Some? && m.ava.value.OptionsMsg? then Some(m.ava.value.options) else old(options))
      ensures peerFailed == (old(peerFailed) || m.ava == Some(PeerFailed))
      ensures m.ava != Some(Pong) || !old(awaitingPong) ==>
                refs == old(refs) && channelCalls == old(channelCalls) && chain == old(chain) && awaitingPong == old(awaitingPong)
      ensures m.ava == Some(Pong) && old(awaitingPong) ==> chain == old(chain)[1..] && !awaitingPong
      ensures m.ava == Some(Pong) && old(awaitingPong) ==> (old(chain)[0] == pendingPings <==> |old(chain)| == 1)
      ensures m.ava == Some(Pong) && old(awaitingPong) && |old(chain)| > 1 ==> refs == old(refs) && channelCalls == old(channelCalls)
      ensures m.ava == Some(Pong) && old(awaitingPong) && |old(chain)| == 1 ==>
                && refs == (if old(refs) > 0 then old(refs) - 1 else 0)
                && channelCalls == old(channelCalls) + (if old(refs) == 1 then [ChannelUnref] else [])
    {
      var r := Route(m);
      if r.Some? {
        events := events + [r.value];
      }
      Settle(m);
      if m.ava == Some(Pong) {
        ReceivePong();
      }
    }
  }
}
