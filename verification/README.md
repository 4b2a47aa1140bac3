# AVA shared-worker protocol and IPC link, modelled in Dafny

This project models how AVA lets test files talk to shared workers.

A test worker is a child process. It talks to the orchestrator over an IPC link (`lib/worker/ipc.js`, `lib/fork.js`). There it registers shared workers (`plugin.js`, `lib/worker/plugin.js`). In the main process those are worker threads (`lib/shared-workers.js`). Each runs a plugin behind the negotiated `experimental` protocol (`lib/shared-worker-provider.js`).

Two fixture plugins and the `fixture` test helper are modelled too:
- `test/shared-worker-plugins/fixtures/worker.js`;
- `test/shared-worker-plugins/fixture/worker.js`;
- `test/helpers/exec.js`.

Each source file becomes one module:

| file | module | form |
|---|---|---|
| `values.dfy` | `Values` | JavaScript values; property access that throws on `null`/`undefined`; `Option`; the opaque serialization boundary; a generic `Filter` with its lemmas |
| `envelopes.dfy` | `Envelopes` | the `{ava: envelope}` messages of the IPC link |
| `ipc.dfy` | `Ipc` | the routing switch as a function; the module state (`refs`, `pendingPings`) as class `Link` |
| `fork.dfy` | `Fork` | exit classification, option merging and channel envelopes as functions; the per-process state as class `Supervisor` |
| `plugin.dfy` | `Plugin` | `channelCounter`, `workers`, message counters and the deserialization cache as class `Registry` |
| `worker_plugin.dfy` | `WorkerPlugin` | the `workers` map and teardown lists as class `Registry`; a created worker as class `WorkerHandle` |
| `provider.dfy` | `Provider` | the closure state of one negotiation as class `Protocol`; the module scope as class `Host` |
| `shared_workers.dfy` | `SharedWorkers` | the `workers` map and the installed listeners as class `Hub` |
| `kv_worker.dfy` | `KvWorker` | the `for await` loop as method `Serve`, proved against the turn-by-turn function `Run` |
| `port_worker.dfy` | `PortWorker` | the `message` handler as method `Worker.OnMessage`, specified by `Handle`/`Replay` |
| `exec_helper.dfy` | `ExecHelper` | the stats accumulator and the in-place sort as class `Stats`; string order, `path.posix.relative` and the comparator as functions |

## How the model is built

**Async code.** Generators (`receiveMessages`) become loops over a finite stretch of inbound events. Each loop is proved against a filter function (`Matching`). The `reply` getters become a loop that stops at the first accepted event.

**Object identity.**
- An inbound event carries an `ident` field, so two equal-looking events can still be told apart as the `WeakMap` caches do.
- Received messages are Dafny classes, so "the same message object" is reference equality and "a new one" is `fresh`.

**Thrown errors.** Where the code throws a `TypeError` by reading a property of `undefined`, the model returns an `Outcome` of `ThrewTypeError`. This happens when:
- a message arrives for an unknown channel id;
- a test worker that was never registered is deregistered;
- a shared-worker message comes from an unregistered test worker;
- a fixture reads a property of `null` data.

**Serialization.** `Bytes` wraps the value it encodes. `v8.serialize` is not modelled at the byte level.

**Messages the model does not inspect.** Every envelope whose `type` is none of the wire names noted beside the constructors of `Envelopes.Envelope` is `Other(typeName, body)`. Both ends treat such envelopes alike: the orchestrator forwards them as state changes, and the test worker ignores them.

**Where the model follows the code.** Where the code and the protocol's general description differ, the model follows the code:
- **Unknown channel id.** A `pass-shared-worker-message` for an unknown channel id makes `lib/fork.js` throw (`Fork.Supervisor.OnMessage`). It is not silently dropped.
- **Posting from a test worker.** `plugin.js` never becomes available: `available` is the constant `false`, so every post throws a `ReferenceError`. There is no queue and no channel state machine.
- **Failed channels.** A `reply` does not reject when the channel fails. Channel failure is not represented in these files.
- **Names and envelopes.** These are the ones in the code (`register-shared-worker`, `pass-shared-worker-message`, `shared-worker-ready`, …).

**Files from different revisions.** The core files do not all come from the same revision:
- `lib/shared-workers.js` calls `fork.onRegisterSharedWorker`, `fork.passSharedWorkerMessage` and `fork.onPassSharedWorkerMessage`, which `lib/fork.js` does not expose. `SharedWorkers.Hub` therefore models those calls as inputs and outputs of the hub itself. Each `fork` passed to `addTestWorker` is a test worker numbered `fork`. Its listeners hear only that test worker's messages, and its channel ids are its own, so the hub names a registration by the pair (test worker, channel id).
- `plugin.js` calls `ipc.ref`, which `lib/worker/ipc.js` does not export. `Plugin.Registry.Ref` therefore models the call as throwing a `TypeError`.

## Model

| member | source | states |
|---|---|---|
| Ipc.Route | lib/worker/ipc.js:5-26 | a message raises an event iff it has `ava` and its type is one of `options`, `peer-failed`, `pong`, `pass-shared-worker-message`; the event carries that envelope's payload unchanged |
| Ipc.UnrouteIsRouted | lib/worker/ipc.js:10-22 | every event is raised by exactly its own envelope type, so routing is one-to-one and onto the four event names |
| Ipc.Link.constructor | lib/worker/ipc.js:39 | `refs` starts at 1 with the channel referenced; no flush is pending |
| Ipc.Link.ReferencedIffPositive | lib/worker/ipc.js:39-50 | the channel is referenced exactly while `refs` is positive |
| Ipc.Link.Send | lib/worker/ipc.js:31-35 | an envelope is transmitted only while connected, and dropped otherwise |
| Ipc.Link.Ref | lib/worker/ipc.js:40-44 | `refs` always goes up by one; the channel is re-referenced only on the step to exactly 1; channel calls keep alternating |
| Ipc.Link.Unref | lib/worker/ipc.js:46-50 | at 0 nothing changes; otherwise `refs` goes down by one, and the channel is unreferenced exactly when it reaches 0; `refs` never goes negative |
| Ipc.Link.Flush | lib/worker/ipc.js:55-66 | each flush refs once and becomes the new `pendingPings`, queued behind the earlier ones |
| Ipc.Link.SendNextPing | lib/worker/ipc.js:57-58 | pings go out one at a time, in flush order, through the guarded `send` |
| Ipc.Link.ReceivePong | lib/worker/ipc.js:59-62 | a pong completes the head flush, which unrefs iff it is still `pendingPings` (nothing queued behind it); that unref unreferences the channel exactly when `refs` was 1 |
| Ipc.Link.Settle | lib/worker/ipc.js:28-29 | `options` resolves with the first `options` payload and then keeps it; `peerFailed` resolves on `peer-failed` |
| Ipc.Link.OnMessage | lib/worker/ipc.js:5-26 | records the routed event; settles `options`/`peerFailed`; only a pong that completes the awaited flush touches the chain, `refs` and the channel calls: it pops the head flush, which unrefs iff nothing is queued behind it, unreferencing the channel exactly when `refs` was 1 |
| Fork.ClassifyExit | lib/fork.js:141-153 | a forced exit is always a finish; otherwise a positive code, or a null code with a signal, is a failure that carries that code or signal; anything else is a finish |
| Fork.MergeOptions | lib/fork.js:71-75 | `file` and `baseDir` are always present, and the caller's keys override them |
| Fork.OpenChannel | lib/fork.js:19-25 | a channel takes the envelope's id, and its options are the decoded registration |
| Fork.ReadySignal | lib/fork.js:27-32 | `shared-worker-ready`, tagged with the channel's own id |
| Fork.ErrorSignal | lib/fork.js:34-39 | `shared-worker-error`, tagged with the channel's own id |
| Fork.Outgoing | lib/fork.js:50-58 | `pass-shared-worker-message` tagged with the channel id; id and `replyTo` passed through; data decodes back to the value posted |
| Fork.Incoming | lib/fork.js:41-48 | the `message` event carries the channel's own id, the envelope's id and `replyTo`, and data that re-encodes to the bytes received |
| Fork.Supervisor.constructor | lib/fork.js:61-82 | starts connected and unfinished, with the merged options and no channels |
| Fork.Supervisor.Send | lib/fork.js:93-99 | sends only while connected, not finished and not force-exited |
| Fork.Supervisor.EmitStateChange | lib/fork.js:65-69 | state changes are tagged with the test file and stop once finished |
| Fork.Supervisor.Finish | lib/fork.js:104-107 | `finished` is set for good |
| Fork.Supervisor.OnDisconnect | lib/fork.js:94 | after the channel disconnects nothing more is sent |
| Fork.Supervisor.OnStdout | lib/fork.js:84-86 | stdout chunks become `worker-stdout` state changes |
| Fork.Supervisor.OnStderr | lib/fork.js:88-90 | stderr chunks become `worker-stderr` state changes |
| Fork.Supervisor.OnMessage | lib/fork.js:109-134 | options answer `ready-for-options`; `register-shared-worker` opens and announces a channel under its id; `pass-shared-worker-message` reaches the channel with that id, and throws, changing nothing, when there is none; `ping` gets `pong`; other types are forwarded; no `ava` is ignored; only forwarded types add a state change, and only a delivered `pass-shared-worker-message` adds a channel message |
| Fork.Supervisor.OnError | lib/fork.js:136-139 | a spawn error is reported as `worker-failed` (unless already finished), then the supervisor finishes |
| Fork.Supervisor.OnExit | lib/fork.js:141-153 | the exit is reported as its classification (unless already finished), then the supervisor finishes |
| Fork.Supervisor.Exit | lib/fork.js:157-160 | a forced exit kills the worker and closes `send` for good |
| Fork.Supervisor.NotifyOfPeerFailure | lib/fork.js:162-164 | `peer-failed` goes through the guarded `send` |
| Fork.Supervisor.SignalReady | lib/fork.js:27-32 | the ready signal goes through the supervisor's guarded `send` |
| Fork.Supervisor.SignalError | lib/fork.js:34-39 | the error signal goes through the supervisor's guarded `send` |
| Fork.Supervisor.PostMessage | lib/fork.js:50-58 | a channel post goes through the supervisor's guarded `send` |
| Fork.AfterExitNothingIsSent | lib/fork.js:93-99 | an example of what `Supervisor.Valid` keeps for every later event: after `exit()`, a message, the exit event and a peer-failure notice send nothing |
| Plugin.AcceptsReplies | plugin.js:53-63 | the three `continue` guards keep exactly the events of this channel whose `replyTo` equals the filter |
| Plugin.MatchingExactly | plugin.js:51-67 | a subscription yields exactly the events of the channel that match the `replyTo` rule, and misses none |
| Plugin.Registry.constructor | plugin.js:5-19 | the channel counter starts at 0, with no workers and an empty cache |
| Plugin.Registry.RegisterSharedWorker | plugin.js:21-38 | a known filename returns its stored worker and sends nothing; a new one gets `++channelCounter`, greater than every earlier channel id, sends one `register-shared-worker` envelope with that id and the serialized registration, and is stored, leaving every other stored worker as it was; so every later call for the same filename returns the same worker |
| Plugin.Registry.PostMessage | plugin.js:70-87 | unavailable throws `ReferenceError`; then `undefined` data throws `TypeError`; neither consumes an id; otherwise it always posts, using the worker's next id, sent with the data and `replyTo` |
| Plugin.Registry.Publish | plugin.js:111-113 | a post with no `replyTo` |
| Plugin.Registry.Reply | plugin.js:46-48 | a post replying to the received message's id |
| Plugin.Registry.Unref | plugin.js:123-125 | delegates to the link's `unref`: down by one, never below 0 |
| Plugin.Registry.Ref | plugin.js:115-117 | calling the link's missing `ref` throws a `TypeError` |
| Plugin.Registry.DeserializeEvent | plugin.js:6-14 | decodes on the first call for an event and caches it; later calls return the cached value without decoding again |
| Plugin.Registry.ReceiveMessages | plugin.js:51-67 | yields, in arrival order, one message (id, decoded data) per event that passes the filter, and nothing else |
| Plugin.Registry.AwaitReply | plugin.js:95-102 | `reply` resolves with the first message replying to the posted id, if one arrives |
| WorkerPlugin.MatchingExactly | lib/worker/plugin.js:24-33 | the filter keeps exactly the events whose `replyTo` equals the filter |
| WorkerPlugin.ReceivedMessage.constructor | lib/worker/plugin.js:10-14 | a message holds its id and data |
| WorkerPlugin.WorkerHandle.constructor | lib/worker/plugin.js:23 | a new worker has no channel calls and an empty message cache |
| WorkerPlugin.WorkerHandle.MessageFor | lib/worker/plugin.js:34-38 | a cached event returns the same message object; a new event gets a fresh message with its id and decoded data, which is cached |
| WorkerPlugin.WorkerHandle.ReceiveMessages | lib/worker/plugin.js:24-42 | one message per matching event, in order; each is the cached object for its event, fresh the first time; earlier cache entries are kept |
| WorkerPlugin.WorkerHandle.PostMessage | lib/worker/plugin.js:44-45 | a post is one `channel.post(data, replyTo)` call and returns the channel's id |
| WorkerPlugin.WorkerHandle.Publish | lib/worker/plugin.js:69-71 | a post with no `replyTo` |
| WorkerPlugin.WorkerHandle.Reply | lib/worker/plugin.js:16-18 | a post replying to the message's id |
| WorkerPlugin.WorkerHandle.AwaitReply | lib/worker/plugin.js:50-61 | refs the channel and resolves with the cached message of the first reply to the id; the `finally` unref happens only once that reply has arrived, so with none the channel stays referenced |
| WorkerPlugin.WorkerHandle.Subscribe | lib/worker/plugin.js:73-82 | refs the channel, yields every non-reply message, and unrefs in `finally` |
| WorkerPlugin.TeardownsForExactly | lib/worker/plugin.js:106-112 | a worker's teardown list holds exactly the callbacks its registrations passed |
| WorkerPlugin.TeardownsForSnoc | lib/worker/plugin.js:106-112 | a registration adds its callback to its own worker's list only, at the end |
| WorkerPlugin.TeardownsForAbsent | lib/worker/plugin.js:107-111 | a worker no registration added a callback to has an empty list |
| WorkerPlugin.Registry.constructor | lib/worker/plugin.js:4-5 | no workers and no teardown lists |
| WorkerPlugin.Registry.Insert | lib/worker/plugin.js:96-104 | a new worker is stored under its filename with an empty teardown list |
| WorkerPlugin.Registry.AddTeardown | lib/worker/plugin.js:106-112 | the callback is pushed onto an existing list or starts a new one; other workers' lists are unchanged |
| WorkerPlugin.Registry.RegisterSharedWorker | lib/worker/plugin.js:86-115 | without `experimental` it throws before touching any state; a new filename creates a worker, a known one reuses it and ignores the new initial data; the callback is appended to that worker's list; the result carries protocol `experimental` |
| WorkerPlugin.Registry.RunTeardown | lib/worker/plugin.js:98-102 | the combined teardown calls every callback registered for the worker, in registration order |
| Provider.MatchingExactly | lib/shared-worker-provider.js:33-50 | only `message`-type events, of the given test worker when there is one, whose `replyTo` equals the filter |
| Provider.ReceivedMessage.constructor | lib/shared-worker-provider.js:17-22 | a message holds its test worker, id and data |
| Provider.Protocol.constructor | lib/shared-worker-provider.js:29-32 | the counter starts at 0; the tables and the cache start empty |
| Provider.Protocol.NextId | lib/shared-worker-provider.js:62 | the next id is above every id posted so far |
| Provider.Protocol.Emit | lib/shared-worker-provider.js:63-69 | posting keeps the posted ids strictly increasing |
| Provider.Protocol.PostMessage | lib/shared-worker-provider.js:61-70 | takes `++messageCounter`, greater than every earlier id, and posts a `message` to the test worker carrying `replyTo` |
| Provider.Protocol.Broadcast | lib/shared-worker-provider.js:131-139 | takes the next id from the same counter, posts a `broadcast`, and returns the id |
| Provider.Protocol.Publish | lib/shared-worker-provider.js:97-99 | a post to the test worker with no `replyTo` |
| Provider.Protocol.Reply | lib/shared-worker-provider.js:24-26 | a post to the message's test worker replying to its id |
| Provider.Protocol.OnPortMessage | lib/shared-worker-provider.js:106-125 | register stores and announces the test worker; deregister resolves `finished` and deletes it, and throws, changing nothing, for an unknown id; other types change nothing |
| Provider.Protocol.MessageFor | lib/shared-worker-provider.js:51-55 | a cached event returns its message; a miss builds a fresh message for the registered test worker, and throws iff that worker is unknown |
| Provider.Protocol.ReceiveMessages | lib/shared-worker-provider.js:33-59 | one cached message per matching event, in order; it stops with a `TypeError` exactly at the first matching event that cannot be served |
| Provider.Protocol.ReceiveOne | lib/shared-worker-provider.js:35-57 | one event is skipped, yielded, or is the first matching event the generator fails on |
| Provider.Protocol.Subscribe | lib/shared-worker-provider.js:141-143 | every non-reply message from any test worker, each the cached object for its event; it stops with a `TypeError` exactly at the first such event that cannot be served; earlier cache entries are kept |
| Provider.Protocol.AwaitReply | lib/shared-worker-provider.js:74-83 | the first reply to the id from that test worker; none if none arrives; the same failure as `receiveMessages` when it cannot be served |
| Provider.Host.constructor | lib/shared-worker-provider.js:9 | `fatal` unset, nothing posted |
| Provider.Host.NegotiateProtocol | lib/shared-worker-provider.js:11-16 | fails and records `fatal` iff `experimental` is not offered; otherwise returns a fresh protocol with its counter at 0 and empty tables |
| Provider.Host.Announce | lib/shared-worker-provider.js:152-156 | throws `fatal` if a negotiation failed, otherwise posts `available` |
| SharedWorkers.ForwardsExactly | lib/shared-workers.js:23-33 | a worker's message is forwarded once per registration of that worker, each to that registration's test worker and on its channel, and nowhere else |
| SharedWorkers.DeliveriesExactly | lib/shared-workers.js:23-39 | a message a test worker sends on a channel reaches exactly the workers that test worker registered on that channel; another test worker's registration under the same channel id does not hear it |
| SharedWorkers.ForwardsCount | lib/shared-workers.js:23-33 | one copy per registration of the posting worker, so a worker registered twice on a test worker forwards twice |
| SharedWorkers.DeliveriesCount | lib/shared-workers.js:35-39 | one delivery per registration of the sending test worker on that channel, so duplicate registrations deliver duplicates |
| SharedWorkers.NoSubscriberNoDelivery | lib/shared-workers.js:35-39 | a message on a channel the sending test worker never registered reaches no worker |
| SharedWorkers.Hub.constructor | lib/shared-workers.js:6 | no workers |
| SharedWorkers.Hub.Register | lib/shared-workers.js:8-18 | a known id returns its worker and starts nothing; a new id starts one thread on the filename and stores it |
| SharedWorkers.Hub.OneThreadPerId | lib/shared-workers.js:8-18 | distinct ids never share a thread |
| SharedWorkers.Hub.OnRegisterSharedWorker | lib/shared-workers.js:22-45 | registers the worker as `register` does (a known id keeps its thread and every table; a new id starts one thread on the filename, and each table grows by exactly that entry), links that test worker's channel with it, and sends `online` to that test worker on the channel |
| SharedWorkers.Hub.OnWorkerMessage | lib/shared-workers.js:25-33 | the listeners forward the serialized value as specified by `Forwards`, each to its own test worker |
| SharedWorkers.Hub.OnForkMessage | lib/shared-workers.js:35-39 | only the sending test worker's listeners run, and they deliver as specified by `Deliveries` |
| SharedWorkers.Hub.Shutdown | lib/shared-workers.js:50-52 | terminates every stored worker exactly once, in insertion order; with no workers it does nothing |
| KvWorker.CrashSticks | test/shared-worker-plugins/fixtures/worker.js:5-13 | once the loop has thrown, later messages change nothing |
| KvWorker.CrashMonotone | test/shared-worker-plugins/fixtures/worker.js:5-13 | a run that did not throw did not throw on any prefix |
| KvWorker.NoStoreKeepsStored | test/shared-worker-plugins/fixtures/worker.js:6-9 | only a store changes `stored` |
| KvWorker.LastStoreWins | test/shared-worker-plugins/fixtures/worker.js:6-9 | `stored` holds the value of the last store |
| KvWorker.RetrieveBeforeStore | test/shared-worker-plugins/fixtures/worker.js:10-11 | a retrieve before any store replies `undefined` to the sender |
| KvWorker.RunCounts | test/shared-worker-plugins/fixtures/worker.js:6-11 | every post takes the next id from the protocol's counter, and earlier posts stay |
| KvWorker.RunPosts | test/shared-worker-plugins/fixtures/worker.js:5-13 | a run that did not throw posts two messages per store and one per retrieve, and nothing for other messages |
| KvWorker.StorePosts | test/shared-worker-plugins/fixtures/worker.js:6-9 | a store sets `stored`, replies `null` to its sender and then broadcasts `{type: 'change', value}`, under the next two ids |
| KvWorker.RetrievePosts | test/shared-worker-plugins/fixtures/worker.js:10-11 | a retrieve replies to its sender with the value stored so far, under the next id |
| KvWorker.Start | test/shared-worker-plugins/fixtures/worker.js:2 | offering `experimental` always negotiates |
| KvWorker.Serve | test/shared-worker-plugins/fixtures/worker.js:4-13 | the loop computes `Run`: final `stored`, whether it threw, and exactly the posts `Run` lists |
| PortWorker.CrashSticks | test/shared-worker-plugins/fixture/worker.js:6-12 | once the listener has thrown, the thread is gone: later messages change nothing and post nothing |
| PortWorker.CrashedIffThrown | test/shared-worker-plugins/fixture/worker.js:6-7 | the thread dies exactly when some message has no readable `type` |
| PortWorker.CrashMonotone | test/shared-worker-plugins/fixture/worker.js:6-12 | a run in which the thread survived survived every prefix |
| PortWorker.PostsOnlyOnRetrieve | test/shared-worker-plugins/fixture/worker.js:6-12 | while the thread lives, only retrieves post, one answer each, and earlier answers stay |
| PortWorker.NoStoreKeepsStored | test/shared-worker-plugins/fixture/worker.js:7-8 | only a store changes `stored` |
| PortWorker.LastStoreWins | test/shared-worker-plugins/fixture/worker.js:7-8 | while the thread lives, `stored` holds the value of the last store |
| PortWorker.RetrieveBeforeStore | test/shared-worker-plugins/fixture/worker.js:5-10 | a retrieve before any store answers `{id, value: undefined}` |
| PortWorker.Worker.constructor | test/shared-worker-plugins/fixture/worker.js:5 | `stored` starts `undefined`; the thread is alive |
| PortWorker.Worker.OnMessage | test/shared-worker-plugins/fixture/worker.js:6-12 | the listener does what `Handle` says; it throws exactly on a `null` or `undefined` message to a live thread, which then handles nothing more |
| ExecHelper.LexIrreflexive | test/helpers/exec.js:48-58 | no string is `<` itself |
| ExecHelper.LexTrichotomy | test/helpers/exec.js:48-58 | exactly one of `a < b`, `a == b`, `b < a` holds |
| ExecHelper.LexTransitive | test/helpers/exec.js:48-58 | string `<` is transitive |
| ExecHelper.RelativeResolves | test/helpers/exec.js:30 | the recorded relative path, resolved against the fixture directory, gives back the test file |
| ExecHelper.PassedSnoc | test/helpers/exec.js:27-36 | another message adds its entry if it is `test-passed`, and nothing otherwise |
| ExecHelper.PassedHas | test/helpers/exec.js:28-30 | every `test-passed` message has its entry among the collected ones |
| ExecHelper.PassedOnlyFrom | test/helpers/exec.js:27-36 | every collected entry comes from a `test-passed` message; no other type adds one |
| ExecHelper.PassedCount | test/helpers/exec.js:27-36 | as many entries as `test-passed` messages |
| ExecHelper.Compare | test/helpers/exec.js:47-61 | the comparator never returns 0, and returns -1 exactly when the first entry sorts before the second (file, then title) |
| ExecHelper.EqualEntriesCompareOne | test/helpers/exec.js:56-60 | equal entries compare as 1 |
| ExecHelper.BeforeTotal | test/helpers/exec.js:47-61 | the (file, title) order is a strict total order |
| ExecHelper.BeforeTransitive | test/helpers/exec.js:47-61 | the (file, title) order is transitive |
| ExecHelper.Insert | test/helpers/exec.js:47-61 | inserting into a sorted list keeps it sorted and adds exactly the new entry |
| ExecHelper.Stats.constructor | test/helpers/exec.js:20-22 | `passed` starts empty |
| ExecHelper.Stats.OnMessage | test/helpers/exec.js:24-37 | only `test-passed` appends, one entry with its title and its file relative to the fixture directory |
| ExecHelper.Stats.Collect | test/helpers/exec.js:24-37 | the handler over a whole run appends exactly `Passed`: the entries of the `test-passed` messages, in arrival order |
| ExecHelper.Stats.SortPassed | test/helpers/exec.js:47-61 | afterwards `passed` is ordered by file, then title, and is a permutation of what it was |
| ExecHelper.Settle | test/helpers/exec.js:39-61 | success returns `stats` and failure throws with `stats` attached; both are the same object, sorted by the time the caller sees it |

## Left out

- **Process and thread life cycle.** Spawning, killing and terminating are not modelled: `childProcess.fork`, `new Worker`, `subprocess.kill`, `worker.terminate`, and waiting for `online`. They are calls into Node.js. Where the code uses them, the model records the call (`killed`, `terminated`, `spawned`), and the runtime's reports (`connected`, `exit`, `error`, output chunks) become method parameters.
- **Byte encoding.** `v8.serialize`/`v8.deserialize`, the base64 form of the `online` value, and `lib/data-serialization.js` are not modelled. A serialized value keeps the value it encodes.
- **Async timing.** Promises, `for await`, `pEvent`, `Emittery` delivery order between listeners, and the `process.nextTick` rethrow are not modelled. Instead:
  - a subscription is a finite stretch of events, so the infinite stream is cut off at its end;
  - a flush's ping and pong are separate steps of `Ipc.Link`;
  - the test-worker table does not change while a subscription runs.
- **Garbage collection.** Nothing is ever collected. The `WeakMap` caches are maps that only grow.
- **The npm-link warning.** The `console.warn` in `lib/fork.js` lines 8-10 is not modelled; it is output only.
- **Outside these files.** `plugin.d.ts`, `subprocess.registerSharedWorker`, the channel object behind lib/worker/plugin.js, and the test drivers are not part of this model. `WorkerPlugin.WorkerHandle` records its channel calls. Where that channel assigns a message id, the id is a parameter.
- **The fixture helper's child process.** The `execa` launch and its environment in `test/helpers/exec.js` are not modelled; only the settled outcome is.
- **Paths.** Paths are normalized absolute paths given as segment lists. Resolving a relative `testFile` against the process directory is not modelled.
- **Strings.** Strings are sequences of Unicode scalar values. JavaScript compares UTF-16 code units, so for characters outside the Basic Multilingual Plane the model's `<` can differ from JavaScript's.
- **Sorting.** `ExecHelper.Stats.SortPassed` does not model the element moves of V8's `Array.prototype.sort`. It states the outcome: the result is sorted, and it is a permutation of the input.
- **The `available` getter.** In `plugin.js` it is the constant field `Plugin.Registry.available`.
- **Test workers.** A test worker is the value (`id`, `file`). Its `finished` promise is the `finished` log of `Provider.Protocol`.
- **Envelope names.** `Envelopes.Other(typeName, body)` stands for envelopes whose `type` is none of the named wire types. The datatype does not forbid `Other` with such a name (say `Other("ping", …)`). The handlers in the model treat every `Other` as a type they do not name, so such a value is forwarded by `Fork.Supervisor.OnMessage` and ignored by `Ipc.Route`, not handled as the named envelope.
- Plugin.Registry.Unref: states the change to `refs` but not the change to the link's channel calls; `Ipc.Link.Unref` states that.
