# Request/reply over a message queue: gateway session and worker loop

This project models the two services of a request/reply ("RPC over a
queue") pair and proves properties of the model.

- **M1, the gateway.** Its `POST /send` handler checks the request's
  `content-type`. It then connects to the broker and declares the shared
  `rpc-queue` plus an exclusive reply queue. It draws a five-digit
  correlation id and arms a 10-second timer guarded by `gotResponse`. It
  subscribes to the reply queue, keeping only replies that carry its id, and
  publishes the task with that id and `replyTo` set to the reply queue.
- **M2, the worker.** It connects and sets `prefetch(1)`. For each delivered
  task it stamps `id` with a process-wide counter `lastId` and increments the
  counter. Two seconds later it sends the stamped message to the task's
  `replyTo` under the task's correlation id, then acknowledges the task.
- **Both services** format their log lines as `[YYYY/MM/DD HH:MM:SS]: message`.

Modules, one file each:

| file | module | contents |
|---|---|---|
| `wrappers.dfy` | `Wrappers` | `Option` |
| `messages.dfy` | `Messages` | the shared `Message` type `{ id?, text }` and the queue name |
| `format.dfy` | `Format` | `String(n)`, the two-digit padding, `getCurrTime`, the `log` prefix, and parsers that invert them |
| `correlation.dfy` | `CorrelationId` | `generateId` over explicit random draws, and its inverse |
| `gateway.dfy` | `Gateway` | the handler as a session: `Step` and `Run` over events, emitting effects |
| `worker.dfy` | `Worker` | `main` plus the consume callback as a worker state, with the broker's queue |

The gateway session is a pure transition function.

- **Events:** `Request`, `Connected`, `ConnectFailed`, `Reply`, `TimerFired`.
- **Effects:** `Respond`, `Connect`, `ArmTimer`, `Subscribe`, `Publish`,
  `CloseChannel`, `CloseConnection`.
- **States:** `Idle`, `Connecting`, `Waiting(correlationId, replyQueue,
  gotResponse)`, `Returned` (answered 400 or 500 before any timer) and
  `Closed` (the timer fired).

The worker is modelled the same way.

- **Events:** `Connected`, `ConnectFailed`, `Arrive(task)` (a task is
  published to the queue) and `Finish` (the 2-second timer of the
  unacknowledged task fires).
- **Effects:** `Received(task, id)`, `SendReply`, `Ack`.
- **State:** the counter, the tasks the broker still holds, and at most one
  unacknowledged task. This is what `prefetch(1)` enforces.

The model follows the code as written, including these behaviours a
request/reply client would not normally want:

- The consume callback has no `gotResponse` check. A duplicated matching
  reply before the timer is answered twice (`Gateway.DuplicateReplyAnsweredTwice`).
  "At most one response" holds only when at most one matching reply precedes
  the timer (`Gateway.ExactlyOneResponse`).
- The timer is never cancelled. After a reply, channel and connection stay
  open until the 10 seconds pass, and only then are they closed.
- If a later broker step fails after `amqp.connect` succeeded, the handler
  answers 500 without closing the connection. The model emits no close effect
  on that path.
- Ids are five random digits with no registry of ids in flight. Every
  well-formed id can be drawn (`CorrelationId.EveryWellFormedIdIsDrawn`), so
  two concurrent calls can collide.
- The worker never negatively acknowledges a task and never dead-letters one.

## Model

| member | source | states |
|---|---|---|
| `Format.NatToString` | M1/src/index.ts:123-129 | a number is printed as a canonical decimal numeral (digits only, no leading zero) that parses back to the number, one character exactly when it is below 10 |
| `Format.NatToStringOfParse` | M1/src/index.ts:123-129 | conversely every canonical numeral is the printing of the number it denotes, so printing and parsing are mutually inverse |
| `Format.Pad2` | M1/src/index.ts:124-129 | the `(v < 10 ? "0" : "") + v` field starts with `0` exactly when the value is below 10, has two digits for values below 100, and reads back as the value |
| `Format.CurrTime` | M1/src/index.ts:120-131 | `getCurrTime` on the getter values; for a valid date the string is the printed year plus 15 characters. Its meaning is stated by `Format.CurrTimeRoundTrip`, `Format.CurrTimeInjective` and `Format.CurrTimeCharset` |
| `Format.CurrTimeRoundTrip` | M1/src/index.ts:120-131 | for any date the getters can return, the `year/MM/DD HH:MM:SS` string (month printed as `getUTCMonth() + 1`) parses back to exactly those components |
| `Format.CurrTimeInjective` | M2/src/index.ts:74-85 | two different valid dates always print different time stamps |
| `Format.CurrTimeCharset` | M2/src/index.ts:74-85 | a time stamp contains only digits, `/`, space and `:`, and never `]` |
| `Format.LogLine` | M1/src/index.ts:106-108 | the `[${currTime}]: ${message}` line: the time stamp sits between the leading `[` and the `]: `, and the message follows unchanged. Its inverse is stated by `Format.LogLineRoundTrip` |
| `Format.LogLineRoundTrip` | M1/src/index.ts:106-108 | the `[` + time + `]: ` prefix can be split off again, giving back the time and the message, whenever the time holds no `]` |
| `Format.LogLineOfCurrTime` | M2/src/index.ts:60-62 | a logged line yields back the exact date it was stamped with and the unchanged message |
| `CorrelationId.AppendDraws` | M1/src/index.ts:98-101 | after each loop iteration the id has one character per draw, the digit `draw + 1`, which lies in `1`..`9` |
| `CorrelationId.GenerateId` | M1/src/index.ts:97-103 | the id has exactly 5 characters, each in `1`..`9`; `0` never appears |
| `CorrelationId.IdDeterminesDraws` | M1/src/index.ts:97-103 | the id is well formed and the draws can be recovered from it |
| `CorrelationId.EveryWellFormedIdIsDrawn` | M1/src/index.ts:96-103 | every 5-character string over `1`..`9` is produced by some draws: the id space has 9^5 members and nothing excludes ids in use |
| `CorrelationId.GenerateIdInjective` | M1/src/index.ts:97-103 | different draws give different ids |
| `Gateway.Step` | M1/src/index.ts:21-89 | the handler's reaction to one event: a returned or closed handler ignores every event, the handler never goes back to an earlier phase, and one event causes at most one HTTP response. Whole calls are stated by `Gateway.WaitingOutcome`, `Gateway.ForeignRepliesIgnored` and `Gateway.TerminalIsInert` |
| `Gateway.Run` | M1/src/index.ts:21-89 | the handler over a sequence of events never goes back to an earlier phase; its outcomes are stated by `Gateway.CallResponses` and `Gateway.WaitingOutcome` |
| `Gateway.InvalidContentTypeRejected` | M1/src/index.ts:25-31 | a request whose content type is not exactly `application/json` is answered 400 with the fixed text, and nothing else ever happens, in particular no connection attempt |
| `Gateway.ConnectFailureAnswers500` | M1/src/index.ts:42-54 | when connecting, creating the channel or asserting a queue fails, the only effects are the attempt and a 500 `Internal error`; no timer, subscription or publish follows, whatever events come later |
| `Gateway.ConnectedSubscribesThenPublishes` | M1/src/index.ts:57-88 | after connecting, the session waits with `gotResponse` false under the drawn id; its effects are exactly, in order, arming the 10-second timer, subscribing to the reply queue and publishing to `rpc-queue` the caller's body tagged with that correlation id and `replyTo` set to the reply queue |
| `Gateway.ForeignRepliesIgnored` | M1/src/index.ts:74-81 | replies carrying another correlation id, wherever they arrive, make no difference: removing them all from the events leaves the final session and every effect unchanged |
| `Gateway.EchoedReplyIsForwarded` | M1/src/index.ts:58-88 | the task is published under the drawn correlation id; a reply echoing that id, arriving at any point before the timer, is answered with status 200 and exactly the reply's message as JSON, and sets `gotResponse` |
| `Gateway.TimerClosesAndAnswersOnlyWithoutReply` | M1/src/index.ts:62-70 | on expiry the session answers 500 exactly when `gotResponse` is false, and closes channel and connection in both cases |
| `Gateway.TerminalIsInert` | M1/src/index.ts:28-70 | once the handler has returned (the 400 at lines 28-30, the 500 at lines 51-53) or the timer has closed channel and connection (lines 68-69), no event changes anything: a late reply is never answered |
| `Gateway.WaitingOutcome` | M1/src/index.ts:59-81 | from a waiting session, the number of responses is the number of matching replies before the timer, plus one 500 if the timer fires with none seen; `gotResponse` records whether a matching reply came |
| `Gateway.CallResponses` | M1/src/index.ts:21-89 | for a whole accepted call, the response count is the number of matching replies before the timer, or one 500 from the timer when there was none |
| `Gateway.ExactlyOneResponse` | M1/src/index.ts:62-81 | when the timer fires and at most one matching reply precedes it, the caller gets exactly one response |
| `Gateway.DuplicateReplyAnsweredTwice` | M1/src/index.ts:74-80 | the callback has no `gotResponse` guard: two matching replies before the timer produce two responses |
| `Worker.Stamp` | M2/src/index.ts:40-41 | `parsed.id = lastId`: the text is kept and `id` becomes the counter value; see `Worker.StampKeepsText` |
| `Worker.Admit` | M2/src/index.ts:31-42 | with `prefetch(1)` and nothing unacknowledged, the broker hands over the head of the queue: no task is lost, and nothing is in flight exactly when the queue was empty; the stamping is stated by `Worker.AdmitLaws` |
| `Worker.Step` | M2/src/index.ts:14-56 | the worker's reaction to one event: a stopped worker does nothing, and the counter never decreases and grows by at most one per event. The laws every step keeps are stated by `Worker.StepLaws` |
| `Worker.Run` | M2/src/index.ts:14-56 | over a sequence of events the counter never decreases and grows by at most one per event; the run's laws are stated by `Worker.Conservation` and `Worker.FreshWorker` |
| `Worker.StampKeepsText` | M2/src/index.ts:40-42 | stamping changes the message unless it already carried that id (the kept `text` and the new `id` are in `Worker.Stamp`'s own contract) |
| `Worker.StoppedIsInert` | M2/src/index.ts:24-28 | after `main` returned, no event leads to any effect, and every task published meanwhile stays queued at the broker in publication order |
| `Worker.ConnectFailureNeverConsumes` | M2/src/index.ts:20-28 | if connecting fails, no task is ever received, replied to or acknowledged, whatever is published later; the queued and later published tasks all remain with the broker |
| `Worker.FinishRepliesThenAcks` | M2/src/index.ts:45-55 | finishing sends the stamped reply to the task's `replyTo` with the task's correlation id, then acknowledges that task, and only then delivers the next queued task, if any |
| `Worker.DeliveryWaitsForAck` | M2/src/index.ts:31-35 | while a task is unacknowledged, no other task reaches the callback except right after that task's acknowledgment |
| `Worker.AdmitLaws` | M2/src/index.ts:35-42 | a delivery hands the head of the queue to the callback, stamps it with the current counter and increments the counter by one |
| `Worker.StepLaws` | M2/src/index.ts:31-56 | every step keeps first-in first-out acknowledgment, delivery-order acknowledgment, reply/stamp correspondence, consecutive ids and reply-before-ack |
| `Worker.Conservation` | M2/src/index.ts:14-56 | over any run, whether the connection succeeded or not: the tasks pending at the start followed by those published equal the tasks acknowledged followed by those still pending, so nothing is lost, duplicated or reordered; delivered tasks are acknowledged in delivery order; the replies sent are the stamped deliveries in order; the stamped ids are exactly the consecutive counter values passed through; each ack directly follows the reply for its task |
| `Worker.FreshWorker` | M2/src/index.ts:14-56 | from process start the stamped ids are 0, 1, 2, … in delivery order; tasks are acknowledged in publication and delivery order; at most one delivered task is unacknowledged; replies are the stamped tasks in order; and the broker never holds a task back while nothing is unacknowledged |
| `Worker.NoIdleBacklogKept` | M2/src/index.ts:31-35 | the other half of `prefetch(1)`: if the broker holds no task back while nothing is unacknowledged, that stays so after any events, so a consuming worker never sits idle while tasks wait |
| `Worker.SentAreStampedTasks` | M2/src/index.ts:40-49 | for a fresh worker, the k-th message sent back is the k-th delivered task's message with only `id` replaced, by the counter value k |

## Left out

- HTTP plumbing (Express routing, JSON body parsing, `app.listen`). The request is reduced to its `content-type` header and a body already decoded as a `Message`. Bodies of any other JSON shape are not modelled.
- JSON encoding of payloads. Messages travel as `Message` values, so `JSON.parse(JSON.stringify(m))` is taken to be `m`.
- amqplib itself. Connecting, creating the channel and asserting the queues form one success-or-failure event per service. Broker delivery is the `Reply` and `Arrive` events. The name of the reply queue arrives with the gateway's `Connected` event.
- Real time. The 10-second and 2-second `setTimeout` delays are the `TimerFired` and `Finish` events.
- Randomness. `Math.random()` is replaced by the five integer draws `Math.floor(Math.random() * 9)`, which come in the gateway's `Connected` event.
- The clock. `new Date()` is replaced by a record of the getter values. Years are non-negative.
- Console and log-file output, and which lifecycle messages are logged. Only the line format is modelled.
- Channel `close()` promises and errors raised by `res.send` or `res.json`, for example sending headers twice after a duplicate reply. A second `Respond` effect stands for that second attempt.
- The worker's behaviour on a malformed task, where `JSON.parse` throws uncaught, and on a crash between reply and acknowledgment, which leads to redelivery by the broker.
- `Worker.FreshWorker`, `Worker.SentAreStampedTasks`: `lastId` is a JavaScript number, so after 2^53 deliveries `lastId++` no longer changes it. The model's counter is unbounded and the ids stay consecutive for runs of any length. At one task per 2 seconds this bound is about 5.7·10^8 years away.
- `Format.NatToString`: JavaScript prints numbers from 10^21 on in exponent form (`1e+21`); the model prints every natural number in plain digits. Every number formatted here (years, date fields, draws) is far below 10^21.
- Several workers on one queue, and several concurrent gateway calls. Each model covers one worker process and one call.
