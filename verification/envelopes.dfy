/**
 * The `{ava: envelope}` messages that travel over the IPC link between the
 * orchestrator (lib/fork.js) and a test-worker process (lib/worker/ipc.js).
 */
module Envelopes {
  import opened Values

  /**
   * The envelope types the two ends of the link interpret. `Other` stands for
   * every envelope whose `type` string is none of the wire names given beside
   * the other constructors (test results, logs and the like): both ends treat
   * those alike.
   */
  datatype Envelope =
    | ReadyForOptions   // 'ready-for-options'
    | OptionsMsg(options: map<string, Value>)   // 'options'
    | RegisterSharedWorker(channelId: int, registration: Bytes)   // 'register-shared-worker'
    | PassSharedWorkerMessage(channelId: int, messageId: int, replyTo: Option<int>, data: Bytes)   // 'pass-shared-worker-message'
    | SharedWorkerReady(channelId: int)   // 'shared-worker-ready'
    | SharedWorkerError(channelId: int)   // 'shared-worker-error'
    | Ping   // 'ping'
    | Pong   // 'pong'
    | PeerFailed   // 'peer-failed'
    | Other(typeName: string, body: Value)

  /** A message as received from `process.on('message')`: the `ava` field may be absent. */
  datatype Message = Message(ava: Option<Envelope>)


  /** The channel an envelope is tagged with, if it carries a `channelId`. */
  function ChannelIdOf(e: Envelope): Option<int>
  {
    match e
    case RegisterSharedWorker(id, _) => Some(id)
    case PassSharedWorkerMessage(id, _, _, _) => Some(id)
    case SharedWorkerReady(id) => Some(id)
    case SharedWorkerError(id) => Some(id)
    case _ => None
  }
}
