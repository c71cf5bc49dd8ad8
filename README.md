# Variable-length message framer with a handler registry

This project models the core of `messagehandler`, a small Node library that
sits between a serial port and application code. Each message on the wire is
one identifier byte followed by a fixed number of payload bytes. The payload
length is not sent: it is declared when a handler is registered for that
identifier. The library keeps

- a **registry** (`message_handlers`), an array indexed by identifier, filled by
  `addHandler` and read by `getHandler`;
- a **parser** (`variableLengthMessageParser`), whose closure variables `data`,
  `length` and `messageHandler` persist from one chunk to the next. It slices
  `length` bytes at a time off the buffer. With no active handler it reads an
  identifier byte: an unknown byte is dropped, a known one makes its handler
  active. With an active handler it emits the payload as `"message"` and
  `"data"` on that handler and goes back to awaiting an identifier;
- **`receive()`**, which returns a thunk; each call of the thunk adds a one-shot
  `"message"` listener whose promise resolves with that handler's next message.

There are two near-identical variants. `serialmessages.js` is the newer one and
emits `{data, messageHandler}` as the `"message"` value. `MessageHandler.js` is
the older one and emits the raw payload slice. The model has one definition of
each component, parameterised by `Framing.Variant` (`Current` or `Legacy`). For
the older file:

- its constructor (MessageHandler.js:15-29) is `Handlers.MakeHandlerAsWritten`
  as written, and `Handlers.MakeHandler` with the corrected range check (see
  Findings);
- `addHandler` (92-96) is `SerialMessages.Session.AddHandler`;
- `getHandler` (102-109) is `Registry.GetHandler`;
- the parser (57-83) is `SerialMessages.Session.Feed` with `Legacy`;
- `receive` (36-48) is `SerialMessages.Session.Receive`.

Layout, one module per file:

- `wrappers.dfy`: `Option` and `Result`.
- `handlers.dfy`: bytes, descriptors, handlers and the constructor's defaults
  and range check.
- `registry.dfy`: the registry as a map, with `GetHandler` and `Register`.
- `framing.dfy`: the parser as a specification. `Step` is one loop turn,
  `Drain` the whole loop and `Frame` one parser call. The lemmas about them
  live here too.
- `waiters.dfy`: the one-shot listeners added through `receive()`.
- `session.dfy`: the `Session` class, whose fields are the registry, the closure
  state, the pending listeners and a ghost trace of emitted events.
  `AddHandler`, `Feed` (the parser's `while` loop) and `Receive` are its
  methods. `Feed` is proved to compute `Frame`. `ExampleSession` is a client
  of the class. It uses the example drivers' 'a'/'b' handlers and feeds two
  chunks, with one `receive()` on each handler, and checks each promise's
  value. Both listeners are added before any byte arrives; the driver adds
  the 'b' listener only after 'a' has resolved.

The trace also records `Dropped(b)` for each identifier byte that matched no
handler. No listener ever sees such an entry. It lets byte conservation be
stated in stream order.

Two points where the code does something other than its own text suggests:

- The constructor's guard `id > Math.pow(2, 8 * MESSAGE_ID_BYTES)` accepts
  256, although its error message says the id must fit in one byte. The model
  keeps the guard as written in `Handlers.MakeHandlerAsWritten` and uses the
  corrected check elsewhere; see Findings.
- Every `receive()` waiter is an event-emitter `once` listener, so the next
  "message" on a handler resolves every waiter pending on it, not only the
  oldest (`Waiters.Wake`).

## Model

| member | source | states |
|---|---|---|
| `Handlers.MakeHandler` | serialmessages.js:15-29 | Falsy fields take their defaults: an absent or zero id gives 0, an absent or empty name gives "Unnamed Message", and an absent or zero length gives 1. Any other given name and length are kept. A result exists exactly when the id fits in one byte; otherwise the result is the range error for that id and name. The length is at least 1 exactly when the given length is absent or non-negative. The range check is the corrected one (see Findings). |
| `Handlers.MakeHandlerAsWritten` | MessageHandler.js:15-28 | The constructor with the guard as written: it accepts exactly the ids 0..256 and builds the handler from the defaulted fields. |
| `Handlers.AsWrittenAcceptsOutOfByteId` | serialmessages.js:22-25 | The written guard accepts id 256; the corrected check rejects it. |
| `Registry.GetHandler` | serialmessages.js:76-81 | A lookup returns a handler exactly when the id holds one, and then the stored handler; otherwise it returns `undefined` (`None`) and never fails. In a registry keyed by id, the handler found carries the id looked up. |
| `Registry.Register` | serialmessages.js:66-70 | After storing `h`, looking up `h.id` returns `h` (last write wins). Every other id looks up as before. The keys grow by `h.id` only. Keying by id and positive lengths are preserved. |
| `Registry.ReplacementWins` | MessageHandler.js:92-96 | After two registrations under one id, only the second handler is found. |
| `Registry.AcceptedHandlerIsAddressable` | serialmessages.js:94 | Every handler the corrected constructor accepts has an id that is a byte value, and once registered that byte looks it up. |
| `Framing.MessageValueOf` | serialmessages.js:101-102 | The "message" value carries exactly the payload slice. It is the record `{data, messageHandler}` naming the emitting handler in the newer variant, and the raw slice in the older one (MessageHandler.js:74). |
| `Framing.Step` | serialmessages.js:90-107 | One loop turn keeps the state invariant. It removes exactly the first `length` bytes of the buffer. |
| `Framing.Drain` | serialmessages.js:89-108 | The loop ends with the state invariant intact and fewer than `length` bytes left. With no active handler `length` is 1; with an active handler `h` it is `h.length`. |
| `Framing.Frame` | MessageHandler.js:60-83 | After a parser call the state invariant holds and the residual buffer is shorter than `length`. |
| `Framing.ChunkSplit` | serialmessages.js:51-56 | Feeding `a + b` in one call gives the same final state and the same event trace as feeding `a` and then `b`, because all framer state persists between calls. |
| `Framing.ChunkingInvariance` | serialmessages.js:86-108 | For any split of a stream into chunks, feeding them in order gives the same state and trace as feeding the whole stream at once. |
| `Framing.DrainConserves` | MessageHandler.js:62-64 | The loop accounts for every buffered byte, in order: each one is dropped as an unknown id, emitted in exactly one "data" slice, or left in the buffer. |
| `Framing.ByteConservation` | serialmessages.js:88-91 | For one parser call, the consumed bytes followed by the residual buffer equal the old buffer followed by the chunk. |
| `Framing.UnknownIdDropped` | serialmessages.js:93-98 | An identifier byte with no handler is consumed with no event and the framer stays awaiting an identifier. Framing goes on exactly as if the byte had not been sent. |
| `Framing.IdentifierCaptures` | MessageHandler.js:66-71 | A known identifier byte makes its handler active and sets `length` to the handler's length. It emits "data" with the identifier byte on that handler. |
| `Framing.PayloadDelivered` | MessageHandler.js:73-79 | With `h` active, a full payload emits "message" and then "data" with that slice on `h`, under any registry (even if `h` was replaced in the meantime). The framer is then back to awaiting an identifier. |
| `Framing.CompleteMessage` | serialmessages.js:93-107 | The input `id p1..pn` for a registered id of length n yields, in order: "data" with the id, "message" with `p1..pn`, then "data" with `p1..pn`. Framing then continues from the idle state. |
| `Framing.PartialMessageStalls` | serialmessages.js:89 | An identifier followed by fewer payload bytes than declared emits only the identifier's "data". The bytes wait in the buffer with the handler active. |
| `Framing.ReplacementRoutesToNewest` | serialmessages.js:68 | After re-registering an id, a message with that id goes to the new handler. |
| `Framing.UnaddressableHandlerNeverFires` | MessageHandler.js:21-24 | In a registry holding only it, a handler with id 256, which the written guard admits, receives nothing from any input. Every trace entry is a dropped byte. |
| `Framing.UnaddressableHandlerSilent` | serialmessages.js:22-25 | In any registry keyed by id, and from any state in which it is not already active, a handler with id 256 (which the written guard admits) has no event emitted on it for any input. |
| `Framing.ExampleStream` | example.js:13-24 | With handlers 'a'/4 and 'b'/5, the input "atestbhello" yields "test" to 'a' and then "hello" to 'b', and leaves the framer idle. |
| `Framing.SplitExampleStream` | run.js:13-25 | The same stream cut as "atestbh" and "ello". The first call delivers "test" to 'a' and stalls with 'b' active and one byte buffered. The second call completes "hello" for 'b' and leaves the framer idle. |
| `Waiters.Wake` | serialmessages.js:41-46 | A "message" on a handler resolves all of that handler's pending listeners with its value and removes them. Other listeners stay pending, and other promises keep their values. |
| `Waiters.ResolvedByNextMessage` | MessageHandler.js:36-48 | A pending listener resolves with the first "message" its handler emits afterwards. It is removed and keeps that value whatever is emitted later. |
| `Waiters.PendingWithoutMessage` | serialmessages.js:37-48 | While its handler emits no "message", a listener stays pending and its promise unresolved. |
| `Waiters.NotifyAllShrinks` | serialmessages.js:43 | Delivering events never adds listeners. It resolves only promises whose listeners were pending. |
| `SerialMessages.Session.constructor` | serialmessages.js:50-56 | A session starts with no handlers, an empty buffer, `length` 1 and no active handler. |
| `SerialMessages.Session.AddHandler` | serialmessages.js:66-70 | The result is the constructor's result. On success the handler is stored under its id (last write wins) and nothing else changes. On failure nothing changes. |
| `SerialMessages.Session.Feed` | serialmessages.js:86-111 | The new framer state is `Frame` of the old state and the chunk. The trace is extended by exactly `Frame`'s events. The pending listeners are those events delivered in order. The registry is unchanged and the session stays valid. |
| `SerialMessages.Session.Advance` | MessageHandler.js:62-80 | One turn of the parser's loop: the new state is `Step` of the old one, and its events are appended to the trace and delivered to the listeners. |
| `SerialMessages.Session.Receive` | serialmessages.js:37-48 | Calling the thunk returned by `receive()` on a handler this session's `addHandler` returned adds one listener on that handler with a fresh ticket. Nothing else changes. |

## Left out

- Serial port construction and opening, `openSerial`, `open`, `sendMessage` and
  `write` (serialmessages.js:118-176, MessageHandler.js:111-162). These are I/O
  through node-serialport and Q promises. The write callback at
  MessageHandler.js:145 names an undeclared `error`, so a failed write throws
  a ReferenceError inside the callback and the returned promise is never
  rejected; it stays pending.
- The pass-through `emitter.emit("data", buffer)` at the end of each parser
  call. It is an event on the serial port's own emitter, not on a handler.
- Durable `"message"`/`"data"` listeners attached with `on`: the ghost trace
  stands for what they observe. Listener storage, `util.inherits` and promise
  resolution order are not modelled.
- `SerialMessages.Session.Receive`: the handler must be one this session's
  `AddHandler` returned (the ghost field `issued`). The listener is keyed by
  the handler's serial, which is unique only among those. `receive()` on any
  other handler object, such as one built directly with the exported
  `MessageHandler` constructor or taken from another session, is not
  modelled; in the source its listener hears only that object's own emits.
- `receive()` itself only builds a closure. `SerialMessages.Session.Receive`
  models calling the thunk it returns; the promise is a ticket, and its value
  is the entry in `pending.resolved`.
- Listeners that throw: the model assumes no `"message"` or `"data"` listener
  throws, so `SerialMessages.Session.Feed` always runs its loop to the end. In
  the source, a listener that throws on a payload (serialmessages.js:101-103,
  MessageHandler.js:74-75) aborts the parser call after the slice has left
  `data` but before `length` and `messageHandler` are reset (lines 105-106,
  77-78). The next `h.length` buffered bytes are then framed as a second
  payload for the same handler, the rest of the buffer waits for the next
  call, and the pass-through `emit("data", buffer)` (line 109, 81) is skipped.
- Listeners that call back into the session (for example `addHandler` inside
  a `"message"` listener) while a chunk is being parsed. The registry is fixed
  for the duration of `Feed`.
- Descriptor fields that are not integers (strings, `NaN`, fractions) and their
  JavaScript truthiness. `Info` fields are integers or absent.
- `SerialMessages.Session.Feed`: requires every registered length to be at least
  1, as the protocol demands of payload lengths. The constructor accepts a
  negative length `-k`, and the source then behaves differently: `Buffer.slice`
  counts a negative index from the end, so the payload turn emits all but the
  last `k` buffered bytes as one "message" and "data", keeps those `k` bytes,
  and resets `length` to 1. The model does not capture that behaviour.
  `AddHandler` still accepts such a handler and reports when positivity is kept.
- `SerialMessages.Session.AddHandler`: uses the corrected range check, so id 256
  is rejected where the source accepts it. The source's behaviour is
  `Handlers.MakeHandlerAsWritten`.
- Node `Buffer` slices share memory with their parent. The model treats them
  as values; nothing in the core writes to a buffer after slicing it.
- Concurrency: the Node event loop serialises parser calls; the model is
  sequential.

## Findings

| source | as written | input that shows it | evidently intended | confidence | as-written member | corrected member |
|---|---|---|---|---|---|---|
| serialmessages.js:22 | `id > Math.pow(2, 8 * MESSAGE_ID_BYTES)` throws only above 256 | `addHandler({id: 256})` succeeds. No byte equals 256, so `getHandler(out[0])` never returns it and the handler never fires. | reject every id that does not fit in one byte (`id >= 256`), as the error message says | high; not executed | `Handlers.MakeHandlerAsWritten`, `Framing.UnaddressableHandlerNeverFires`, `Framing.UnaddressableHandlerSilent` | `Handlers.MakeHandler`, `Registry.AcceptedHandlerIsAddressable` |
| MessageHandler.js:21 | the same guard `id > Math.pow(2,8*MESSAGE_ID_BYTES)` | `addHandler({id: 256})` succeeds and the handler is unreachable | `id >= 256` rejected | high; not executed | `Handlers.MakeHandlerAsWritten`, `Framing.UnaddressableHandlerNeverFires`, `Framing.UnaddressableHandlerSilent` | `Handlers.MakeHandler`, `Registry.AcceptedHandlerIsAddressable` |
