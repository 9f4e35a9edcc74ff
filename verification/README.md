# Worker connection state machine (gateway-client)

This project models the `Worker` class of `index.js`: the worker side of a cluster
gateway, an event emitter that keeps one WebSocket open to the coordinator at
`host`, reconnects whenever the socket closes, and answers the coordinator's
`identify` challenge with its `secret` and its partition `range`.

- `protocol.dfy` (module `Protocol`): the inbound message, the outbound identify frame,
  the `error` event and `RangeOrNew`, the `this.range ? this.range : 'new'` choice.
  Opcodes are an abstract datatype (`Identify`, `Ready`, `Other(code)`), because their
  numeric values live in `constants/OPCODES.js`, which is not part of this model.
- `worker_spec.dfy` (module `WorkerSpec`): the worker's fields as a value `State`, one
  function per handler (`Init`, `Connect`, `SendWS`, `OnError`, `OnConnect`,
  `OnDisconnect`, `OnMessage`), a trace of socket events (`Run`), and the lemmas that
  hold across any trace.
- `worker.dfy` (module `WorkerClient`): the `Worker` class, with the source's fields
  updated in place. Each method's `ensures` says that the new state is the matching
  `WorkerSpec` function applied to the old state, and spells out each field.

The socket is an abstract session. `connect()` opens session number `sockets` and makes
it the current `ws`. `sendWS` appends a `Delivery` (session, frame) to the `sent` log.
`emit('error', …)` appends to the `events` log. Three handlers can throw a `TypeError`
in the source. The model returns it as `Outcome.TypeError`:
- `sendWS` before any `connect()`, when `this.ws` is undefined: nothing is sent;
- `onConnect` before any `connect()`: `attempts` and `connected` are already set when
  `this.ws.on(…)` throws;
- the `ready` case when the message has no `range`, because `msg.range.join` is evaluated
  for the log line: no state changes.

The `ready` case only logs. It stores neither `range` nor `count` and emits no `range`
event. So `range` keeps its constructor value `null`, and every identify reply carries
`'new'` (`WorkerSpec.EveryReplyIsNew`, `WorkerClient.ReadyKeepsNew`). The code has no
`shuttingDown` latch and no `shutdown`, `ping`, `pong`, `request` or `resolve` handling.
It has no pending-call registry and no `connect` or `message` events. Every close
reconnects unconditionally.

## Model

| member | source | states |
|---|---|---|
| `Protocol.RangeOrNew` | index.js:54 | the reply range is `'new'` exactly when no range is stored; a stored range, even an empty one, is sent as it is |
| `WorkerClient.Worker.constructor` | index.js:6-15 | a new worker stores `host` and `secret` as given, has `attempts == 0`, `range == null`, `connected == false`, no socket and empty logs |
| `WorkerClient.Worker.Connect` | index.js:17-22 | opens a new socket to `host` and makes it the current one; no other field changes |
| `WorkerClient.Worker.SendWS` | index.js:24-26 | appends exactly the given frame, tagged with the current socket, to the sent log; throws a TypeError and sends nothing when no socket exists yet |
| `WorkerClient.Worker.Emit` | index.js:29 | emitting appends exactly the given event to the event log and changes no other field |
| `WorkerClient.Worker.OnError` | index.js:28-30 | emits exactly one `error` event carrying the error; `attempts`, `connected`, `range`, the socket and the sent log are unchanged |
| `WorkerClient.Worker.OnConnect` | index.js:32-39 | `attempts` becomes 1 whatever it was and `connected` becomes true; it then throws a TypeError exactly when no socket exists yet; nothing else changes |
| `WorkerClient.Worker.OnDisconnect` | index.js:41-46 | emits exactly one `error` event carrying the close reason, `connected` becomes false, `attempts` grows by one and a new socket is opened; `range` and the sent log are unchanged |
| `WorkerClient.Worker.OnMessage` | index.js:48-62 | an identify challenge appends exactly one frame `{identify, secret, range or 'new'}`; `ready` and every other op send nothing; no field changes; throws exactly when there is no socket for the reply or a ready message lacks a range |
| `WorkerSpec.RunAppend` | index.js:17-62 | handling two runs of socket events one after the other is handling their concatenation |
| `WorkerSpec.RunKeepsIdentityAndRange` | index.js:6-15 | no handler ever changes `host` or `secret`, and `range` is written only by the constructor |
| `WorkerSpec.RunKeepsValid` | index.js:17-26 | across any events, the current socket is the most recently opened one, to the worker's own host, and every frame went to a socket that had been opened |
| `WorkerSpec.RunEmitsExactly` | index.js:28-46 | across any events, the event log grows by exactly one `error` per close (with its reason) and per socket error (with the error), in order, and nothing else is emitted |
| `WorkerSpec.RunRepliesOncePerChallenge` | index.js:48-57 | once a socket exists, the sent log only grows, by exactly one frame per `onMessage` call with an identify challenge |
| `WorkerSpec.NoSocketNoFrames` | index.js:24-26 | before the first `connect()`, no sequence of events without a close sends anything |
| `WorkerSpec.RunOpensOnePerRedial` | index.js:17-46 | one new socket is opened per `connect()` call and per close, with no cap |
| `WorkerSpec.RunKeepsReplies` | index.js:50-56 | if every frame sent so far is an identify reply with the secret and the stored range (or 'new'), every frame sent later is one too |
| `WorkerSpec.EveryReplyIsNew` | index.js:50-56 | since `range` is only set to `null` (line 12), every frame a new worker ever sends is `{identify, secret, 'new'}` |
| `WorkerSpec.DisconnectsCountAttempts` | index.js:41-46 | n consecutive disconnects add n to `attempts`, open n new sockets and leave the worker disconnected on a socket to its own host |
| `WorkerSpec.AttemptsStrictlyIncrease` | index.js:41-46 | across any sequence of disconnects, `attempts` strictly increases: no reset, no cap |
| `WorkerClient.IdentifyAfterConnect` | index.js:50-56 | a worker that connects and is challenged replies `{identify, secret, 'new'}` |
| `WorkerClient.ReadyKeepsNew` | index.js:58-60 | a ready message carrying a range does not store it: the next identify reply still carries 'new' |
| `WorkerClient.ReconnectAfterClose` | index.js:32-46 | after one open and one close, `attempts` is 2, the worker is disconnected and its current socket is the second one opened |

## Left out

- The `ws` library is an abstract session. The model leaves out `ws.send` failing on a socket that is not open, and `new WebSocket(host)` in `connect()` throwing when `host` is not a valid URL: any `host` opens a session.
- Listener registration is left out. The `close` and `error` handlers run whichever socket fires them, as in the source, since they are bound to the worker. But each `open` adds one more `message` listener to the current socket, so after two `open` events on one socket (for example connect, connect, open, open) one inbound frame calls `onMessage` twice. A `Receive` input stands for one `onMessage` call, not one inbound frame, so `RunRepliesOncePerChallenge` counts replies per call.
- `JSON.stringify` and `JSON.parse`: frames and messages are datatypes, and decode failures are not modelled.
- `EventEmitter`: only the `error` events the worker emits are kept, in an append-only log. Node throws from `emit('error')` when nobody listens, and then `onDisconnect` would stop before it reconnects. The model assumes an `error` listener is registered.
- The `console.log` line of the `ready` case is left out. Only its TypeError on a missing range is modelled. A `range` field that is present but is not an array (which would also throw) cannot be expressed with `Message.range`.
- The opcode values of `constants/OPCODES.js` are left out. `Identify`, `Ready` and `Other` are assumed to be distinct.
- `attempts` is a JavaScript number. The model uses an unbounded `nat` and ignores the loss of precision past 2^53 increments.
- The close `code` argument of `onDisconnect` is accepted and ignored, as in the source.
