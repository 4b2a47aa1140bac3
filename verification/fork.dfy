/**
 * The orchestrator's supervisor of one test-worker process (lib/fork.js):
 * the guarded `send`, the `finished` / `forcedExit` flags, the inbound
 * envelope switch, the table of shared-worker channels, the envelopes a
 * `SharedWorkerChannel` builds, and the classification of the exit.
 */
module Fork {
  import opened Values
  import opened Envelopes

  /** Why a worker is reported as failed. */
  datatype FailReason =
    | SpawnError(err: Value)
    | NonZeroExitCode(code: int)
    | Signal(signal: string)

  /** What a state change reports. */
  datatype StateEvent =
    | Forwarded(envelope: Envelope)
    | WorkerStdout(chunk: Value)
    | WorkerStderr(chunk: Value)
    | WorkerFailed(reason: FailReason)
    | WorkerFinished(forcedExit: bool)

  /** A `stateChange` event: the event, tagged with the test file. */
  datatype StateChange = StateChange(event: StateEvent, testFile: string)

  /** JavaScript truthiness of the exit signal, which is a signal name or `null`. */
  predicate SignalTruthy(signal: Option<string>)
  {
    signal.Some? && signal.value != ""
  }

  /**
   * The `exit` handler's classification. A forced exit is always a finish;
   * otherwise a positive exit code, or a `null` code with a signal, is a failure.
   * `code` is `None` for JavaScript's `null`.
   */
  function ClassifyExit(forcedExit: bool, code: Option<int>, signal: Option<string>): (r: StateEvent)
    ensures r.WorkerFinished? || r.WorkerFailed?
    ensures r.WorkerFailed? <==> !forcedExit && ((code.Some? && code.value > 0) || (code.None? && SignalTruthy(signal)))
    ensures r.WorkerFinished? ==> r.forcedExit == forcedExit
    ensures r.WorkerFailed? && code.Some? ==> r.reason == NonZeroExitCode(code.value)
    ensures r.WorkerFailed? && code.None? ==> r.reason == Signal(signal.value)
  {
    if forcedExit then WorkerFinished(forcedExit)
    else if code.Some? && code.value > 0 then WorkerFailed(NonZeroExitCode(code.value))
    else if code.None? && SignalTruthy(signal) then WorkerFailed(Signal(signal.value))
    else WorkerFinished(forcedExit)
  }

  /**
   * The options sent to the worker: `file` and `baseDir` (the orchestrator's
   * working directory) are always present, and the caller's keys override them.
   */
  function MergeOptions(file: string, cwd: string, options: map<string, Value>): (r: map<string, Value>)
    ensures r.Keys == options.Keys + {"file", "baseDir"}
    ensures forall k :: k in options ==> r[k] == options[k]
    ensures "file" !in options ==> r["file"] == Str(file)
    ensures "baseDir" !in options ==> r["baseDir"] == Str(cwd)
  {
    map["file" := Str(file), "baseDir" := Str(cwd)] + options
  }

  /** A `SharedWorkerChannel`: its id and its deserialized registration options. */
  datatype SharedWorkerChannel = SharedWorkerChannel(id: int, options: Value)

  /** A `message` event a channel emits towards the shared-worker side. */
  datatype ChannelMessage = ChannelMessage(channelId: int, messageId: int, replyTo: Option<int>, data: Value)

  /** The channel built from a `register-shared-worker` envelope. */
  function OpenChannel(channelId: int, registration: Bytes): (ch: SharedWorkerChannel)
    ensures ch.id == channelId && Serialize(ch.options) == registration
  {
    SharedWorkerChannel(channelId, Deserialize(registration))
  }

  /** `signalReady`: a `shared-worker-ready` envelope tagged with the channel's id. */
  function ReadySignal(ch: SharedWorkerChannel): (e: Envelope)
    ensures e.SharedWorkerReady? && ChannelIdOf(e) == Some(ch.id)
  {
    SharedWorkerReady(ch.id)
  }

  /** `signalError`: a `shared-worker-error` envelope tagged with the channel's id. */
  function ErrorSignal(ch: SharedWorkerChannel): (e: Envelope)
    ensures e.SharedWorkerError? && ChannelIdOf(e) == Some(ch.id)
  {
    SharedWorkerError(ch.id)
  }

  /**
   * `postMessage`: a `pass-shared-worker-message` envelope tagged with the
   * channel's id, passing `messageId` and `replyTo` through and carrying the
   * serialized data.
   */
  function Outgoing(ch: SharedWorkerChannel, messageId: int, replyTo: Option<int>, data: Value): (e: Envelope)
    ensures e.PassSharedWorkerMessage? && ChannelIdOf(e) == Some(ch.id)
    ensures e.messageId == messageId && e.replyTo == replyTo && Deserialize(e.data) == data
  {
    PassSharedWorkerMessage(ch.id, messageId, replyTo, Serialize(data))
  }

  /**
   * `receiveMessage`: the `message` event, tagged with the channel's own id
   * (not the envelope's), passing `messageId` and `replyTo` through and
   * carrying the deserialized data.
   */
  function Incoming(ch: SharedWorkerChannel, messageId: int, replyTo: Option<int>, data: Bytes): (m: ChannelMessage)
    ensures m.channelId == ch.id && m.messageId == messageId && m.replyTo == replyTo
    ensures Serialize(m.data) == data
  {
    ChannelMessage(ch.id, messageId, replyTo, Deserialize(data))
  }

  class Supervisor {
    const file: string
    /** The merged options sent in reply to `ready-for-options`. */
    const options: map<string, Value>
    /** `subprocess.connected`, maintained by the runtime. */
    var connected: bool
    var finished: bool
    var forcedExit: bool
    /** Whether `subprocess.kill()` has been called. */
    var killed: bool
    /** Envelopes handed to `subprocess.send`, in order. */
    var sent: seq<Envelope>
    /** `stateChange` events emitted, in order. */
    var stateChanges: seq<StateChange>
    /** `sharedWorkerChannels`, keyed by channel id. */
    var channels: map<int, SharedWorkerChannel>
    /** `sharedWorker` events emitted, in order. */
    var announced: seq<SharedWorkerChannel>
    /** `message` events emitted by the channels, in order. */
    var channelMessages: seq<ChannelMessage>
    /** How many envelopes had been sent when sending stopped for good. */
    ghost var sentAtStop: nat
    /** How many state changes had been emitted when the supervisor finished. */
    ghost var changesAtFinish: nat

    ghost predicate Valid()
      reads this`channels, this`finished, this`forcedExit, this`sent, this`stateChanges, this`sentAtStop, this`changesAtFinish
    {
      && (forall id :: id in channels ==> channels[id].id == id)
      && (finished ==> |stateChanges| == changesAtFinish)
      && (finished || forcedExit ==> |sent| == sentAtStop)
    }

    /** Whether `send` currently forwards. */
    predicate Open()
      reads this`connected, this`finished, this`forcedExit
    {
      connected && !finished && !forcedExit
    }

    /** Spawning the worker with `options` merged over `file` and `baseDir`. */
    constructor (file: string, cwd: string, options: map<string, Value>)
      ensures Valid()
      ensures this.file == file && this.options == MergeOptions(file, cwd, options)
      ensures connected && !finished && !forcedExit && !killed
      ensures sent == [] && stateChanges == [] && channels == map[] && announced == [] && channelMessages == []
    {
      this.file := file;
      this.options := MergeOptions(file, cwd, options);
      connected := true;
      finished := false;
      forcedExit := false;
      killed := false;
      sent := [];
      stateChanges := [];
      channels := map[];
      announced := [];
      channelMessages := [];
      sentAtStop := 0;
      changesAtFinish := 0;
    }

    /** `send`: forwards only while connected, not finished and not force-exited. */
    method Send(evt: Envelope)
      requires Valid()
      modifies this`sent
      ensures Valid()
      ensures sent == old(sent) + (if Open() then [evt] else [])
    {
      if connected && !finished && !forcedExit {
        sent := sent + [evt];
      }
    }

    /** `emitStateChange`: tags the event with the test file; nothing once finished. */
    method EmitStateChange(evt: StateEvent)
      requires Valid()
      modifies this`stateChanges
      ensures Valid()
      ensures stateChanges == old(stateChanges) + (if finished then [] else [StateChange(evt, file)])
    {
      if !finished {
        stateChanges := stateChanges + [StateChange(evt, file)];
      }
    }

    /** `finish`: sets `finished` for good. */
    method Finish()
      requires Valid()
      modifies this`finished, this`sentAtStop, this`changesAtFinish
      ensures Valid() && finished
    {
      if !finished {
        changesAtFinish := |stateChanges|;
        if !forcedExit {
          sentAtStop := |sent|;
        }
      }
      finished := true;
    }

    /** The runtime reports that the IPC channel closed. */
    method OnDisconnect()
      modifies this`connected
      ensures !connected
    {
      connected := false;
    }

    /** Output on the worker's stdout becomes a `worker-stdout` state change. */
    method OnStdout(chunk: Value)
      requires Valid()
      modifies this`stateChanges
      ensures Valid()
      ensures stateChanges == old(stateChanges) + (if finished then [] else [StateChange(WorkerStdout(chunk), file)])
    {
      EmitStateChange(WorkerStdout(chunk));
    }

    /** Output on the worker's stderr becomes a `worker-stderr` state change. */
    method OnStderr(chunk: Value)
      requires Valid()
      modifies this`stateChanges
      ensures Valid()
      ensures stateChanges == old(stateChanges) + (if finished then [] else [StateChange(WorkerStderr(chunk), file)])
    {
      EmitStateChange(WorkerStderr(chunk));
    }

    /**
     * The inbound `message` handler: `ready-for-options` is answered with the
     * options, `register-shared-worker` opens a channel under its id,
     * `pass-shared-worker-message` is delivered to the channel with that id,
     * `ping` is answered with `pong`, any other envelope is forwarded as a
     * state change, and a message without `ava` is ignored.
     */
    method OnMessage(m: Message) returns (outcome: Outcome)
      requires Valid()
      modifies this`sent, this`stateChanges, this`channels, this`announced, this`channelMessages
      ensures Valid()
      ensures outcome == ThrewTypeError <==> m.ava.Some? && m.ava.value.PassSharedWorkerMessage? && m.ava.value.channelId !in old(channels)
      ensures m.ava.None? || outcome == ThrewTypeError ==>
                sent == old(sent) && stateChanges == old(stateChanges) && channels == old(channels)
                && announced == old(announced) && channelMessages == old(channelMessages)
      ensures m.ava == Some(ReadyForOptions) ==>
                sent == old(sent) + (if Open() then [OptionsMsg(options)] else [])
      ensures m.ava == Some(Ping) ==>
                sent == old(sent) + (if Open() then [Pong] else [])
      ensures m.ava.Some? && m.ava.value.RegisterSharedWorker? ==>
                var ch := OpenChannel(m.ava.value.channelId, m.ava.value.registration);
                channels == old(channels)[ch.id := ch] && announced == old(announced) + [ch]
      ensures m.ava.Some? && m.ava.value.PassSharedWorkerMessage? && outcome == Handled ==>
                var e := m.ava.value;
                channelMessages == old(channelMessages) + [Incoming(old(channels)[e.channelId], e.messageId, e.replyTo, e.data)]
      ensures m.ava.Some? && !(m.ava.value.ReadyForOptions? || m.ava.value.RegisterSharedWorker? || m.ava.value.PassSharedWorkerMessage? || m.ava.value.Ping?) ==>
                stateChanges == old(stateChanges) + (if finished then [] else [StateChange(Forwarded(m.ava.value), file)])
      ensures !(m.ava.Some? && !(m.ava.value.ReadyForOptions? || m.ava.value.RegisterSharedWorker? || m.ava.value.PassSharedWorkerMessage? || m.ava.value.Ping?)) ==>
                stateChanges == old(stateChanges)
      ensures !(m.ava.Some? && m.ava.value.PassSharedWorkerMessage?) ==> channelMessages == old(channelMessages)
      ensures !(m.ava.Some? && m.ava.value.RegisterSharedWorker?) ==> channels == old(channels) && announced == old(announced)
      ensures !(m.ava.Some? && (m.ava.value.ReadyForOptions? || m.ava.value.Ping?)) ==> sent == old(sent)
    {
      outcome := Handled;
      match m.ava
      case None =>
      case Some(e) =>
        match e
        case ReadyForOptions =>
          Send(OptionsMsg(options));
        case RegisterSharedWorker(id, registration) =>
          var ch := OpenChannel(id, registration);
          channels := channels[ch.id := ch];
          announced := announced + [ch];
        case PassSharedWorkerMessage(id, messageId, replyTo, data) =>
          if id in channels {
            channelMessages := channelMessages + [Incoming(channels[id], messageId, replyTo, data)];
          } else {
            outcome := ThrewTypeError;
          }
        case Ping =>
          Send(Pong);
        case _ =>
          EmitStateChange(Forwarded(e));
    }

    /** The `error` event: a `worker-failed` state change, then `finish`. */
    method OnError(err: Value)
      requires Valid()
      modifies this`stateChanges, this`finished, this`sentAtStop, this`changesAtFinish
      ensures Valid() && finished
      ensures stateChanges == old(stateChanges) + (if old(finished) then [] else [StateChange(WorkerFailed(SpawnError(err)), file)])
    {
      EmitStateChange(WorkerFailed(SpawnError(err)));
      Finish();
    }

    /** The `exit` event: the classified state change, then `finish`. */
    method OnExit(code: Option<int>, signal: Option<string>)
      requires Valid()
      modifies this`stateChanges, this`finished, this`sentAtStop, this`changesAtFinish
      ensures Valid() && finished
      ensures stateChanges == old(stateChanges) + (if old(finished) then [] else [StateChange(ClassifyExit(forcedExit, code, signal), file)])
    {
      EmitStateChange(ClassifyExit(forcedExit, code, signal));
      Finish();
    }

    /** `exit()`: marks the exit as forced, so nothing is sent from now on, and kills the worker. */
    method Exit()
      requires Valid()
      modifies this`forcedExit, this`killed, this`sentAtStop
      ensures Valid() && forcedExit && killed && !Open()
    {
      if !finished && !forcedExit {
        sentAtStop := |sent|;
      }
      forcedExit := true;
      killed := true;
    }

    /** `notifyOfPeerFailure()`: sends `peer-failed` through the guarded `send`. */
    method NotifyOfPeerFailure()
      requires Valid()
      modifies this`sent
      ensures Valid()
      ensures sent == old(sent) + (if Open() then [PeerFailed] else [])
    {
      Send(PeerFailed);
    }

    /** `channel.signalReady()` through the supervisor's `send`. */
    method SignalReady(ch: SharedWorkerChannel)
      requires Valid()
      modifies this`sent
      ensures Valid()
      ensures sent == old(sent) + (if Open() then [ReadySignal(ch)] else [])
    {
      Send(ReadySignal(ch));
    }

    /** `channel.signalError()` through the supervisor's `send`. */
    method SignalError(ch: SharedWorkerChannel)
      requires Valid()
      modifies this`sent
      ensures Valid()
      ensures sent == old(sent) + (if Open() then [ErrorSignal(ch)] else [])
    {
      Send(ErrorSignal(ch));
    }

    /** `channel.postMessage(...)` through the supervisor's `send`. */
    method PostMessage(ch: SharedWorkerChannel, messageId: int, replyTo: Option<int>, data: Value)
      requires Valid()
      modifies this`sent
      ensures Valid()
      ensures sent == old(sent) + (if Open() then [Outgoing(ch, messageId, replyTo, data)] else [])
    {
      Send(Outgoing(ch, messageId, replyTo, data));
    }
  }

  /**
   * An example of the guarantee `Supervisor.Valid` keeps for every later
   * event: after `exit()`, a message, the exit event and a peer-failure
   * notice send nothing.
   */
  method AfterExitNothingIsSent(s: Supervisor, m: Message, code: Option<int>, signal: Option<string>)
    requires s.Valid()
    modifies s
    ensures s.sent == old(s.sent)
  {
    s.Exit();
    var _ := s.OnMessage(m);
    s.OnExit(code, signal);
    s.NotifyOfPeerFailure();
  }
}
