# Intelligent context system: a Dafny model of the message pipeline

This project models the core of the intelligent-context-system, a chat application. In it, every user message goes through these steps:

- it is **classified** by an LLM into an intent;
- a **context** (system prompt, memories, conversation history) is assembled for it;
- it is **routed** to a task, an interrupt answer or a simple reply;
- the reply is **streamed** back to the browser, where it becomes a node on a canvas.

The model follows the program's own structure, one module per source file:

| module | file | what it holds |
|---|---|---|
| `Js` | — | the JavaScript values the program passes around (`undefined`, `null`, booleans, numbers, strings, arrays, objects), property reads, the logical-or fallback, `trim`, `split`/`join`, `Number(...)` |
| `MessageQueue` | server/index.js | the per-connection FIFO of jobs with a concurrency limit |
| `Server` | server/index.js | the connection registry, the message queue of each connection, `handleWebSocketMessage`, and the queue's error report |
| `TaskOrchestrator` | server/core/task-orchestrator.js | the active-task map, the timeout sweep, the branches a classified message runs, and their traces of effects |
| `ContextBuilder` | server/core/context-builder.js | the context spec, `parseInt`-based settings, the history walk along `parentNodeId`, and the composed message list |
| `IntentEngine` | server/core/intent-engine.js | normalisation of the classifier's answer and the context hints derived from it |
| `LlmService` | server/llm/service.js | accumulation of a streamed completion and the classifier's fallback intent |
| `ApiPoller` | server/sensors/api-poller.js | pollers, dotted-path extraction and change detection |
| `Store` | client/src/store/index.js | the canvas store: node layout, collision search, subtree removal, tasks, events and the statistics counters |
| `WebSocket` | client/src/hooks/useWebSocket.js | the socket URL and the handling of every server event on the canvas nodes |
| `Markdown` | client/src/components/MarkdownRenderer.jsx | the LaTeX-delimiter preprocessing before rendering |

Asynchronous work is modelled as a **trace of effects**: the messages sent, the rows written and the broadcasts, in order, together with the exception a step ended with. Whatever the program takes from outside is a parameter of the model (an "oracle"), namely:

- the clock, `uuidv4`, the LLM's answers and stream chunks;
- the database rows read back;
- whether a socket is open;
- the outcome of the context builder's `build` as the orchestrator sees it. The orchestrator takes it as two `Result` parameters and does not call `ContextBuilder.ComposeContext`. So, inside the orchestrator, whether `build` fails and the `contextSize`/`memoryCount` that `context_built` reports are not tied to the intent. `ContextBuilder.Request` is not derived from the normalised intent either: its `topic` is a string, where `topic:${intent.topic}` would also convert a non-string topic.

The intent's id is `uuidv4()` unless the classifier's answer carries an `id` of its own, which replaces it (`TaskOrchestrator.IntentIdOf`).

An absent id (`undefined`/`null`) is the empty string `""`.

## Model

| member | source | states |
|---|---|---|
| MessageQueue.NewQueue | intelligent-context-system/server/index.js:21-25 | a new queue is empty, runs nothing, has had nothing submitted, and satisfies the queue invariant |
| MessageQueue.GetStats | intelligent-context-system/server/index.js:53-59 | `running` is the number of jobs in flight, `queued` the number waiting, and `total` the number submitted and not yet settled |
| MessageQueue.AddInv | intelligent-context-system/server/index.js:27-32 | `add` followed by `process` keeps the invariant: the running count matches the jobs in flight, the limit holds, jobs start in submission order, and no job waits while a slot is free |
| MessageQueue.SettleInv | intelligent-context-system/server/index.js:42-50 | a job settling (resolve or reject, then `finally`: `running--` and `process()`) keeps the invariant |
| MessageQueue.ProcessInv | intelligent-context-system/server/index.js:34-40 | `process()` starts the head job only when a slot is free, keeping the invariant |
| MessageQueue.RunInv | intelligent-context-system/server/index.js:27-51 | every queue reachable by any sequence of adds and settlements satisfies the invariant |
| MessageQueue.RunBounded | intelligent-context-system/server/index.js:34-40 | in every run from a new queue, at most `maxConcurrency` jobs run at once, and the started jobs are exactly the first ones submitted, in order |
| MessageQueue.SettleDispatches | intelligent-context-system/server/index.js:47-50 | a settling job records its own outcome, leaves the running set, keeps every other job running, and hands its slot to the oldest waiting job if there is one |
| MessageQueue.AddStartsOrWaits | intelligent-context-system/server/index.js:27-40 | a job added while a slot is free starts at once; otherwise it waits at the tail of the line |
| MessageQueue.HeadNotStarted | intelligent-context-system/server/index.js:40 | the job `shift()` takes from the head has never started and is neither running nor settled |
| Server.Connect | intelligent-context-system/server/index.js:110-125 | a connection registers the client as open, gives it a new queue with the configured limit, and sends it `connected` with its id and limit; no other client's inbox changes |
| Server.ConnectWf | intelligent-context-system/server/index.js:110-117 | connecting keeps the registries consistent: every client has a queue, and each queue's submissions match its recorded messages |
| Server.Closing | intelligent-context-system/server/index.js:75-82 | a socket that starts closing stays registered but is no longer open; every other client's open state is unchanged |
| Server.ClosingWf | intelligent-context-system/server/index.js:75-82 | a socket leaving the OPEN state keeps the server well formed |
| Server.Close | intelligent-context-system/server/index.js:153-157 | `close` removes the client from both registries and nothing else; the queue, its jobs and the messages stay where the `message` closure holds them |
| Server.CloseWf | intelligent-context-system/server/index.js:153-157 | closing keeps the server well formed |
| Server.ConnectThenClose | intelligent-context-system/server/index.js:110-157 | closing a connection just opened under a fresh id restores both registries, while its new queue outlives it |
| Server.Recipients | intelligent-context-system/server/index.js:75-82 | `broadcast` writes to exactly the open clients other than the excluded one |
| Server.Post | intelligent-context-system/server/index.js:75-82 | an event posted to a set of clients is appended to each of their inboxes and to no other |
| Server.Deliver | intelligent-context-system/server/core/task-orchestrator.js:452-456 | delivering one effect appends to each inbox what that effect sends there (`sendToClient` only to an open socket, `broadcast` to every open one) and changes no registry |
| Server.DeliverAll | intelligent-context-system/server/core/task-orchestrator.js:452-456 | delivering a trace changes no registry, queue or message list |
| Server.DeliverAllSends | intelligent-context-system/server/core/task-orchestrator.js:452-456 | a client receives, in order, exactly the events the effects address to it |
| Server.SentToClosed | intelligent-context-system/server/core/task-orchestrator.js:453 | no effect addresses anything to a socket that is not open |
| Server.ClosedClientHearsNothing | intelligent-context-system/server/index.js:78 | a client that is closed or unknown receives nothing from any trace |
| Server.Receive | intelligent-context-system/server/index.js:128-151 | a message that does not parse, or that reaches a closed or unknown client, changes nothing; otherwise it is recorded and one job is added to the client's queue |
| Server.ReceiveWf | intelligent-context-system/server/index.js:128-133 | receiving a message keeps the server well formed: the job count and the recorded messages stay in step |
| Server.Handle | intelligent-context-system/server/index.js:167-187 | a message that cannot be destructured (`null`/`undefined`) throws V8's "Cannot destructure property 'type' …" error; an unknown type does nothing; a `chat` or `reexecute` whose `data` is null or undefined throws the destructuring error naming `messageId` or `sessionId`; no handler changes the registries, the queues or the messages; the process is left crashing exactly when a `reexecute` names a stored interrupt intent |
| Server.DispatchChat | intelligent-context-system/server/index.js:172-174 | a `chat` message runs `handleUserInput` on its `data`, and that outcome's effects are delivered |
| Server.DispatchReexecute | intelligent-context-system/server/index.js:175-177 | a `reexecute` message runs `handleReexecute` on its `data`, and that outcome's effects are delivered |
| Server.DispatchPollApi | intelligent-context-system/server/index.js:181-183 | a `poll_api` message whose `data` is an object or a primitive fails only when the poller's `INSERT` rejects, with that error and nothing changed; otherwise it registers the poller under its fresh id, leaves the task map alone, and every open client hears `poller_added` with the poller's configuration |
| Server.QueueError | intelligent-context-system/server/index.js:134-147 | the corrected report: there is an error event exactly when the message can be destructured, and it carries the error text and the id of the message the client sent |
| Server.QueueErrorDropsId | intelligent-context-system/server/index.js:142 | for every message the client sends (`{type, data: {messageId, …}}`), the report as written carries no id, and the corrected one carries the client's id |
| Server.NullMessageCrashes | intelligent-context-system/server/index.js:134-147 | as written, a job whose message is `null` fails at its first destructuring, and while the socket is open the `.catch` throws again on `data.messageId`; the rejection is unhandled, so the process crashes, the client is sent nothing, and no later job completes |
| Server.NullMessageIntendedQuiet | intelligent-context-system/server/index.js:134-147 | with the report corrected, the same job only settles as failed: nothing is sent and the server keeps running |
| Server.CrashCauses | intelligent-context-system/server/index.js:134-147 | the process crashes only on a `null` message of an open client, which the corrected report avoids, or on the re-execution of an interrupt |
| Server.ReexecuteInterruptCrashes | intelligent-context-system/server/core/context-builder.js:21-32 | re-executing an interrupt sends `context_building` and `build`'s error, then the process crashes: `getRelevantMemories`, already called, rejects on the missing `contextHints.memoryTypes` with no handler, and no later job of any client completes |
| Server.RunningHasMessage | intelligent-context-system/server/index.js:133 | a job that runs was submitted, so its message is on record |
| Server.ConcludeWf | intelligent-context-system/server/index.js:42-50 | settling a job after its handler ran keeps the server well formed |
| Server.ConcludeKeeps | intelligent-context-system/server/index.js:137-146 | concluding a job changes only that job's queue, plus at most one error to its own client |
| Server.CompleteSettles | intelligent-context-system/server/index.js:133-147 | a running job's outcome (success, or the exception its handler threw) is what its queue records, and the server stays well formed |
| Server.FailedJobReported | intelligent-context-system/server/index.js:134-147 | a job that fails is reported to its open client as one error carrying the exception's message and the envelope's own `messageId` field, appended after whatever the handler sent |
| Server.ClientFailureLosesId | intelligent-context-system/server/index.js:142 | for a message shaped the way the client sends it, the failure report as written carries the empty id |
| Server.FailedJobReportedIntended | intelligent-context-system/server/index.js:142 | with the corrected report, the error carries the `data.messageId` of the failed message |
| Server.ClosedClientJobRuns | intelligent-context-system/server/index.js:153-157 | a job of a client that has closed still runs: the task map and the pollers change as the handler says, the queue settles the job, and the closed client's inbox stays unchanged |
| Server.HandleClosedQuiet | intelligent-context-system/server/index.js:137 | a handler sends nothing to a client that is not open |
| TaskOrchestrator.ConfigOf | intelligent-context-system/server/core/task-orchestrator.js:9-19 | an unset `MAX_TASKS_PER_SESSION` gives 5 and an unset `TASK_TIMEOUT_MS` gives five minutes; because the fallback also replaces 0, neither setting can be 0 |
| TaskOrchestrator.Find | intelligent-context-system/server/core/task-orchestrator.js:31 | `activeTasks.get` finds a task exactly when its id is a key |
| TaskOrchestrator.Delete | intelligent-context-system/server/core/task-orchestrator.js:221 | `activeTasks.delete` never grows the map |
| TaskOrchestrator.FindSetEntry | intelligent-context-system/server/core/task-orchestrator.js:180-185 | after `activeTasks.set`, the key maps to the new task and every other key is untouched |
| TaskOrchestrator.FindDelete | intelligent-context-system/server/core/task-orchestrator.js:221 | after `activeTasks.delete`, the key is gone and every other key is untouched |
| TaskOrchestrator.DeleteUndoesSet | intelligent-context-system/server/core/task-orchestrator.js:180-221 | deleting a key that `set` just added restores the map, order included |
| TaskOrchestrator.DeleteAbsent | intelligent-context-system/server/core/task-orchestrator.js:221 | deleting an absent key changes nothing |
| TaskOrchestrator.SessionCountSet | intelligent-context-system/server/core/task-orchestrator.js:161-162 | a new task counts once towards its own session's total and not at all towards another session's |
| TaskOrchestrator.KeptMembers | intelligent-context-system/server/core/task-orchestrator.js:21-24 | the sweep keeps exactly the entries that have not timed out |
| TaskOrchestrator.TimeoutsMembers | intelligent-context-system/server/core/task-orchestrator.js:21-24 | the sweep removes exactly the entries older than the timeout (`now - startTime > TIMEOUT`) |
| TaskOrchestrator.MarkTimedOut | intelligent-context-system/server/core/task-orchestrator.js:27 | the UPDATE creates no row: the table keeps its keys |
| TaskOrchestrator.MarkTimedOutRows | intelligent-context-system/server/core/task-orchestrator.js:27 | exactly the rows of removed tasks become `timeout`; every other row is unchanged |
| TaskOrchestrator.SweepRemovesExpired | intelligent-context-system/server/core/task-orchestrator.js:17-35 | one sweep removes exactly the expired entries, sends each task's client one error "Task timeout (5 minutes)" in map order, marks exactly their rows `timeout`, and leaves the intents alone |
| TaskOrchestrator.SweepIdempotent | intelligent-context-system/server/core/task-orchestrator.js:17-35 | a second sweep at the same time finds nothing to remove and sends nothing |
| TaskOrchestrator.KeptStable | intelligent-context-system/server/core/task-orchestrator.js:21-24 | when no entry has expired, the sweep keeps the map and sends nothing |
| TaskOrchestrator.Route | intelligent-context-system/server/core/task-orchestrator.js:113-122 | `interrupt` goes to `handleInterrupt`; otherwise a truthy `requiresAction` makes a task; everything else is a simple answer (the three cases are exclusive and exhaustive) |
| TaskOrchestrator.ExtractMemory | intelligent-context-system/server/core/task-orchestrator.js:288-297 | a memory is saved exactly when the reply's JavaScript `length`, in UTF-16 code units, exceeds 100; it is the reply's first 500 characters, and its type is `task` exactly for a task reply |
| TaskOrchestrator.ExtractMemoryCountsUnits | intelligent-context-system/server/core/task-orchestrator.js:288-297 | a reply of 60 emoji has `length` 120 and is kept as a memory; a reply of 101 plain characters is kept, and one of 100 is not |
| TaskOrchestrator.StartedShape | intelligent-context-system/server/core/task-orchestrator.js:242-265 | while a reply streams, the client is sent `response_start`, then one `response_chunk` per `onChunk` call |
| TaskOrchestrator.FinishedShape | intelligent-context-system/server/core/task-orchestrator.js:267-285 | a completed stream saves the assistant message, then the memory, then sends `response_end` with the reply's JavaScript `length` in UTF-16 code units |
| TaskOrchestrator.StreamOrder | intelligent-context-system/server/core/task-orchestrator.js:242-286 | a reply's effects are ordered as follows: `response_start` carrying the related message and parent node; one chunk per non-empty delta with the text so far; and, when the stream completes, the saved reply (whose content is the concatenation of all deltas), the memory and `response_end`. A failing stream stops after the chunks it delivered and propagates its error |
| TaskOrchestrator.StreamChunksComplete | intelligent-context-system/server/core/task-orchestrator.js:255-265 | every chunk carries the reply's id and a non-empty delta, and the last chunk's `accumulated` is the whole reply |
| TaskOrchestrator.Caught | intelligent-context-system/server/core/task-orchestrator.js:115-121 | the `.catch` swallows the failure of a branch and sends one error for the message; a successful branch is unchanged |
| TaskOrchestrator.TaskRefused | intelligent-context-system/server/core/task-orchestrator.js:164-171 | a session at its limit gets `task_limit_reached` and nothing else: no row, no entry, no broadcast |
| TaskOrchestrator.TaskCompletes | intelligent-context-system/server/core/task-orchestrator.js:157-225 | an admitted task with a fresh id broadcasts `task_created` first and `task_completed` last; its row ends `completed`, the map is left as it was, and the intents are untouched |
| TaskOrchestrator.TaskFailureLeaks | intelligent-context-system/server/core/task-orchestrator.js:175-221 | a task that fails while building its context or streaming leaves its map entry and its `running` row behind, and the entry counts towards the session limit |
| TaskOrchestrator.TimeoutThenCompletion | intelligent-context-system/server/core/task-orchestrator.js:17-221 | a task swept while running is marked `timeout` and removed, and its later completion overwrites the row with `completed` |
| TaskOrchestrator.StagesAppend | intelligent-context-system/server/core/task-orchestrator.js:434-441 | the stages reported for a message over two traces are those of the first, then those of the second |
| TaskOrchestrator.StreamHasNoStages | intelligent-context-system/server/core/task-orchestrator.js:242-286 | streaming a reply reports no stage |
| TaskOrchestrator.InterruptEffects | intelligent-context-system/server/core/task-orchestrator.js:127-155 | the interrupt branch reports `context_building`, then `responding`, then streams |
| TaskOrchestrator.InterruptStages | intelligent-context-system/server/core/task-orchestrator.js:127-155 | the interrupt branch reports `context_building` and, once its context is built, `responding` |
| TaskOrchestrator.ExecuteEffects | intelligent-context-system/server/core/task-orchestrator.js:206-224 | execution reports `executing`, streams, and, only when the stream completes, broadcasts `task_completed` |
| TaskOrchestrator.ExecuteStages | intelligent-context-system/server/core/task-orchestrator.js:206-224 | execution reports exactly the stage `executing` |
| TaskOrchestrator.TaskContextStages | intelligent-context-system/server/core/task-orchestrator.js:194-203 | a task's context step reports `context_building` when it builds the context, and nothing when the context is supplied |
| TaskOrchestrator.AdmittedEffects | intelligent-context-system/server/core/task-orchestrator.js:188-224 | an admitted task broadcasts `task_created`, runs its context step, and executes only if that step succeeded |
| TaskOrchestrator.AdmittedStages | intelligent-context-system/server/core/task-orchestrator.js:188-224 | an admitted task reports its context step's stages, then `executing` if the context was obtained |
| TaskOrchestrator.TaskStages | intelligent-context-system/server/core/task-orchestrator.js:157-225 | the stages of the task branch in all four cases: refused (none), supplied context (`executing`), built (`context_building`, `executing`), build failed (`context_building`) |
| TaskOrchestrator.SimpleStages | intelligent-context-system/server/core/task-orchestrator.js:227-240 | the simple branch reports `building_context` when it builds its context, and `responding` when the context is supplied |
| TaskOrchestrator.ClassifierFailurePropagates | intelligent-context-system/server/core/task-orchestrator.js:38-59 | a classifier exception propagates out of `handleUserInput` after the message was saved and `analyzing` reported; nothing else happens |
| TaskOrchestrator.RepliedIsClassified | intelligent-context-system/server/core/task-orchestrator.js:59 | a classifier answer is normalised by the intent engine as written, and handling continues from that intent under the id `IntentIdOf` gives |
| TaskOrchestrator.IntentIdOf | intelligent-context-system/server/core/intent-engine.js:29-31 | the intent's id is the string `id` of the classifier's answer when it has one, since `...normalized` spreads over `id: uuidv4()`; with no `id` it is the generated one |
| TaskOrchestrator.AnswerIdReplacesGenerated | intelligent-context-system/server/core/task-orchestrator.js:62-109 | an answer's `id` becomes the intent's id end to end: the `intents` row is stored under it and `intent_analyzed.intentId` carries it; if a row already has that id, the `INSERT` rejects and the handler fails with the message saved and `analyzing` reported |
| TaskOrchestrator.SameAnswerIdCollides | intelligent-context-system/server/core/task-orchestrator.js:62-74 | two messages whose answers carry the same `id` collide on the `intents` primary key: the second fails with SQLite's unique-constraint error and changes nothing |
| TaskOrchestrator.ClassifiedInputHandled | intelligent-context-system/server/core/task-orchestrator.js:62-125 | once the context is built, an intent id already stored makes the `INSERT` reject and nothing after it runs; otherwise `handleUserInput` does not fail: the intent row is recorded, and the third effect is `intent_analyzed` carrying the message id, the intent id and a numeric confidence (0 if it is not a number) |
| TaskOrchestrator.ClassifiedStages | intelligent-context-system/server/core/task-orchestrator.js:38-125 | a classified message reports `analyzing`, then the stages of the branch it was routed to; a rejected intent `INSERT` reports `analyzing` only |
| TaskOrchestrator.CaughtStages | intelligent-context-system/server/core/task-orchestrator.js:115-121 | reporting a failure adds no stage |
| TaskOrchestrator.BranchKeepsIntents | intelligent-context-system/server/core/task-orchestrator.js:127-240 | no branch writes the `intents` table |
| TaskOrchestrator.ReexecuteUnknown | intelligent-context-system/server/core/task-orchestrator.js:326-332 | an unknown intent id gets one error "Intent information not found" and nothing else |
| TaskOrchestrator.ReexecuteUsesSuppliedContext | intelligent-context-system/server/core/task-orchestrator.js:334-356 | a re-executed intent is a task exactly when its stored type is not `question`, and it reports only `responding` or `executing` (or nothing at the limit), since the supplied context is used without building |
| TaskOrchestrator.ReexecuteInterruptFails | intelligent-context-system/server/core/task-orchestrator.js:347-349 | re-executing an interrupt always fails: while filling its `Promise.all` array, `build` reads `contextHints.shouldIncludeRecentHistory` of the rebuilt intent, which has no hints, so the client hears `context_building` and then "Cannot read properties of undefined (reading 'shouldIncludeRecentHistory')" |
| ContextBuilder.SetOf | intelligent-context-system/server/core/context-builder.js:101-105 | `Array.from(new Set(s))` has no repetitions and holds exactly the elements of `s` |
| ContextBuilder.SetOfDistinct | intelligent-context-system/server/core/context-builder.js:101-105 | a list without repetitions passes through the `Set` unchanged, order included |
| ContextBuilder.DeriveRequired | intelligent-context-system/server/core/context-builder.js:93-106 | the requirements have no repetitions and are exactly the table entry for the intent type (`recent_history` for any other type) plus `topic:<topic>` when there is a topic |
| ContextBuilder.DeriveRequiredOrder | intelligent-context-system/server/core/context-builder.js:93-106 | the table entry comes first and unchanged, and a topic adds exactly one requirement after it |
| ContextBuilder.NoTopicTag | intelligent-context-system/server/core/context-builder.js:94-100 | no table entry is a `topic:` tag, so the topic tag never collides with an entry |
| ContextBuilder.FormatList | intelligent-context-system/server/core/context-builder.js:408-411 | "None" for no items; otherwise the items joined by "; " |
| ContextBuilder.FormatListAppend | intelligent-context-system/server/core/context-builder.js:408-411 | appending an item appends "; " and the item to the rendering |
| ContextBuilder.LeadingDigits | intelligent-context-system/server/core/context-builder.js:64-65 | the digits `parseInt` reads are the longest run of decimal digits at the start |
| ContextBuilder.ParseDigits | intelligent-context-system/server/core/context-builder.js:64-65 | there is a number (not NaN) exactly when the text starts with a digit, and it is never negative |
| ContextBuilder.ParseIntNumeral | intelligent-context-system/server/core/context-builder.js:64-65 | `parseInt(s, 10)` reads back every numeral, whatever non-digit text follows (`"6000px"` is 6000) |
| ContextBuilder.ParseIntDigits | intelligent-context-system/server/core/context-builder.js:64-65 | a run of digits followed by a non-digit parses to the run's value |
| ContextBuilder.ParseIntNegative | intelligent-context-system/server/core/context-builder.js:64-65 | a minus sign in front of a numeral negates it |
| ContextBuilder.ParseMinus | intelligent-context-system/server/core/context-builder.js:64-65 | text starting with a minus sign is NaN when no digit follows, else the negated digits |
| ContextBuilder.EnvInt | intelligent-context-system/server/core/context-builder.js:64-65 | `parseInt(v, 10)` or the default: the parsed number unless it is NaN or 0, in which case the default |
| ContextBuilder.ParseUnsignedAnyRadix | intelligent-context-system/server/core/task-orchestrator.js:9 | without a `0x` prefix, `parseInt` with no radix reads the same digits as radix 10, and it never reads a negative magnitude |
| ContextBuilder.LeadingHex | intelligent-context-system/server/core/task-orchestrator.js:9 | the hexadecimal digits read after `0x` are the longest run of hex digits |
| ContextBuilder.ParseIntAnyRadixHex | intelligent-context-system/server/core/task-orchestrator.js:9 | with no radix, `0x` or `0X` followed by hex digits reads as their hexadecimal value, whatever non-hex text follows |
| ContextBuilder.ParseIntAnyRadixDecimal | intelligent-context-system/server/core/task-orchestrator.js:19 | with no radix, text whose number has no `0x` prefix reads exactly as in radix 10 |
| ContextBuilder.EnvIntAnyRadix | intelligent-context-system/server/core/task-orchestrator.js:9 | `parseInt(v)` or the default: the parsed number unless it is NaN or 0; an unset variable gives the default; a nonzero default makes the result nonzero |
| ContextBuilder.HexSetting | intelligent-context-system/server/index.js:115 | a setting of `0x10` is 16 when read with no radix, and is ignored (read as 0, so the default applies) in radix 10 |
| ContextBuilder.HistoryAnchor | intelligent-context-system/server/core/context-builder.js:63 | `anchorNodeId` when present, else `parentNodeId` |
| ContextBuilder.BuildSpec | intelligent-context-system/server/core/context-builder.js:62-91 | the spec carries the intent id and the session; its requirements are `deriveRequired`'s; its constraints are the intent's when truthy and never falsy; its memory types and recent-history flag come from the hints (`[]` and `true` without hints); its anchor, turns and budgets match the source, and a zero or unset budget falls back to 6000 tokens and 10 memories |
| ContextBuilder.OfTypes | intelligent-context-system/server/core/context-builder.js:197-198 | the filter keeps exactly the memories whose type is hinted |
| ContextBuilder.RelevantMemories | intelligent-context-system/server/core/context-builder.js:193-212 | without a search result there are at most ten memories; with one, all found memories plus at most five stored ones |
| ContextBuilder.RelevantWithoutSearch | intelligent-context-system/server/core/context-builder.js:206-211 | without a search, or when it throws, the result is the newest ten stored memories of the hinted types, in stored order |
| ContextBuilder.RelevantWithSearch | intelligent-context-system/server/core/context-builder.js:201-205 | with a search, the newest five stored memories of the hinted types come first, followed by the memories found |
| ContextBuilder.LowerAscii | intelligent-context-system/server/core/context-builder.js:414 | `toLowerCase` maps each ASCII capital to its small letter and keeps every other character |
| ContextBuilder.ShouldCompile | intelligent-context-system/server/core/context-builder.js:413-422 | the mode `off` never compiles and `on` always compiles; any other mode compiles when history, memories and tasks together number at least three |
| ContextBuilder.CompileModeSpellings | intelligent-context-system/server/core/context-builder.js:414 | the mode is read case-insensitively, and an unset mode means `auto` |
| ContextBuilder.CompileContext | intelligent-context-system/server/core/context-builder.js:424-506 | there is no compiled context exactly when there is no model, the policy says no, the call throws, or the trimmed reply is empty; otherwise the output starts with the header, ends with the trimmed reply, and is itself trimmed |
| ContextBuilder.CompileIdempotent | intelligent-context-system/server/core/context-builder.js:499-501 | feeding a compiled context back through the output handling leaves it unchanged |
| ContextBuilder.NodeMap | intelligent-context-system/server/core/context-builder.js:135 | `new Map(nodes.map(...))` has a key for every node, and each key maps to a node with that id |
| ContextBuilder.MessageMap | intelligent-context-system/server/core/context-builder.js:168 | the map over stored messages has a key for every message, and each key maps to a stored message with that id |
| ContextBuilder.Parents | intelligent-context-system/server/core/context-builder.js:144-145 | the parent pointers have the same ids as the node or message map, each naming that entry's `parentNodeId` |
| ContextBuilder.Pick | intelligent-context-system/server/core/context-builder.js:145 | the entries named by a chain of ids, one per id and in chain order |
| ContextBuilder.Walk | intelligent-context-system/server/core/context-builder.js:139-149 | when the ancestor walk returns, it is a chain with no repeated id: root first, each id the parent of the next, and the target last |
| ContextBuilder.ChainUnique | intelligent-context-system/server/core/context-builder.js:139-149 | parent pointers are deterministic, so only one ancestor chain ends at a given node |
| ContextBuilder.RankedWalkReturns | intelligent-context-system/server/core/context-builder.js:142-149 | on acyclic parent pointers, the walk always returns |
| ContextBuilder.CycleDiverges | intelligent-context-system/server/core/context-builder.js:142-149 | two nodes naming each other as parent make the walk loop forever (modelled as no result) |
| ContextBuilder.ToMessage | intelligent-context-system/server/core/context-builder.js:153-160 | a conversation node becomes a message with its id, content and parent; its role is `user` exactly for a chat node titled "User"; its timestamp is the node's, or now when it has none |
| ContextBuilder.Conversation | intelligent-context-system/server/core/context-builder.js:151-160 | the filter keeps at most the path's nodes, and a conversation node at the end of the path ends the messages |
| ContextBuilder.ConversationFromMap | intelligent-context-system/server/core/context-builder.js:151-152 | every message of the graph path comes from a chat or task node, never from an intent node |
| ContextBuilder.MessagesUpToNode | intelligent-context-system/server/core/context-builder.js:130-191 | the history has at most twenty messages; a target found in neither the graph nor the store gives the last ten stored messages; off the graph, every message is a stored one |
| ContextBuilder.GraphHistoryConversationOnly | intelligent-context-system/server/core/context-builder.js:134-164 | every message of the graph history comes from a chat or task node of the graph |
| ContextBuilder.FlatHistory | intelligent-context-system/server/core/context-builder.js:167-190 | the stored-message history has at most twenty stored messages, and is the last ten when the target is not stored |
| ContextBuilder.GraphHistoryEndsAtTarget | intelligent-context-system/server/core/context-builder.js:138-163 | on an acyclic graph, the history ends with the target itself when the target is a chat or task node |
| ContextBuilder.AcyclicHistoryReturns | intelligent-context-system/server/core/context-builder.js:130-191 | on acyclic parent pointers, in the graph and in the store, the history is always produced |
| ContextBuilder.HistoryContent | intelligent-context-system/server/core/context-builder.js:301-305 | an unedited message contributes its content; an edited one contributes the newest edit's text, under the name the client writes it (`editedContent`), or else what the code as written reads |
| ContextBuilder.SystemMessages | intelligent-context-system/server/core/context-builder.js:258-286 | the prompt opens with the system prompt, and every leading message is a system message: the two directives, plus the compiled context and the memory block when present |
| ContextBuilder.HistoryWith | intelligent-context-system/server/core/context-builder.js:301-311 | every message of the window is copied with its role and its edited content, in order |
| ContextBuilder.ComposeContext | intelligent-context-system/server/core/context-builder.js:245-340 | the composed messages are the system messages, then the history window, then the current input unless the history already ends with it; `contextSize` is the sum of their JavaScript lengths in UTF-16 code units; `hasCompiledContext` holds exactly for a non-empty compiled context |
| ContextBuilder.SumLengthsAppend | intelligent-context-system/server/core/context-builder.js:334 | the context size of a message list is the sum of the sizes of its parts, and a message of one emoji adds 2 |
| ContextBuilder.ComposeSystemFirst | intelligent-context-system/server/core/context-builder.js:262-286 | all system messages come first: three, plus one for a compiled context and one for memories |
| ContextBuilder.ComposeHistory | intelligent-context-system/server/core/context-builder.js:289-326 | after the system messages come the window's messages in order with their edited content, then the input when the history does not end with it |
| ContextBuilder.WindowKeepsNewest | intelligent-context-system/server/core/context-builder.js:291-299 | the window holds the newest messages: at most five when the history ends with the input, else at most four, and it always includes the last message |
| ContextBuilder.ComposeEndsWithInput | intelligent-context-system/server/core/context-builder.js:289-326 | the prompt always ends with the current user input |
| ContextBuilder.EditedHistoryAsWrittenFails | intelligent-context-system/server/core/context-builder.js:304 | a history message edited on the canvas (whose edit entry has `editedContent` and no `newContent`) makes `composeContext` as written throw, while the corrected reading puts the edited text into the prompt |
| IntentEngine.AsArray | intelligent-context-system/server/core/intent-engine.js:83-86 | `asArray` turns a falsy value into `[]`, passes an array through, and wraps anything else in a one-element array |
| IntentEngine.AsArrayIdempotent | intelligent-context-system/server/core/intent-engine.js:83-86 | `asArray` applied twice is `asArray` applied once |
| IntentEngine.ToNumber | intelligent-context-system/server/core/intent-engine.js:88-95 | a number is kept, a string `Number` can read is converted, and anything else becomes the fallback; a numeric fallback makes the result numeric |
| IntentEngine.ToText | intelligent-context-system/server/core/intent-engine.js:97-100 | a string whose trim is non-empty gives that trim; anything else gives the fallback |
| IntentEngine.NormalizeIntentStruct | intelligent-context-system/server/core/intent-engine.js:66-81 | the corrected struct normalisation: the list fields are arrays, the evidence is never empty (the classifier's when non-empty, else the input's first 100 characters), the confidence is numeric when the analysis' is, and the goal is the trimmed goal or else the trimmed fallback |
| IntentEngine.NormalizeIntentAnalysis | intelligent-context-system/server/core/intent-engine.js:45-64 | unknown fields are carried over; `intent`, `urgency` and `topic` keep a truthy value and otherwise default to `question`, `medium` and the input's first 50 characters; `requiresAction` keeps a boolean and otherwise is "intent is not question"; related topics are an array; the confidence is `toNumber(…, 0.5)` |
| IntentEngine.AsWrittenDiffersInGoal | intelligent-context-system/server/core/intent-engine.js:68 | the source's normalisation and the corrected one agree on every field except the struct's goal, and on the goal too unless it fell back to the topic, where the corrected goal is the source's trimmed |
| IntentEngine.GetNamedFields | intelligent-context-system/server/core/intent-engine.js:45-64 | reading the named fields back from the object form of a normalised intent gives those fields, and the other fields are unchanged |
| IntentEngine.GetStructFields | intelligent-context-system/server/core/intent-engine.js:66-81 | reading the fields back from the object form of a normalised struct gives those fields |
| IntentEngine.NormalizeIdempotent | intelligent-context-system/server/core/intent-engine.js:45-81 | with the goal fallback trimmed, normalising a normalised result again with the same input changes nothing |
| IntentEngine.StructIdempotent | intelligent-context-system/server/core/intent-engine.js:66-81 | the corrected struct normalisation is a no-op on its own output |
| IntentEngine.GoalStable | intelligent-context-system/server/core/intent-engine.js:97-100 | `toText` with a trimmed fallback is idempotent |
| IntentEngine.AsWrittenNotIdempotent | intelligent-context-system/server/core/intent-engine.js:68 | the source's normalisation is not idempotent: the topic " a " becomes the untrimmed goal, and a second pass trims it to "a" |
| IntentEngine.FirstPassKeepsBlanks | intelligent-context-system/server/core/intent-engine.js:68 | a first pass over `{topic: " a "}` leaves the goal " a " untrimmed |
| IntentEngine.MissingStructGoal | intelligent-context-system/server/core/intent-engine.js:66-68 | without an `intentStruct`, the source's goal is the topic, untrimmed |
| IntentEngine.SecondPassTrims | intelligent-context-system/server/core/intent-engine.js:97-100 | a second pass over the goal " a " trims it |
| IntentEngine.MemoryTypes | intelligent-context-system/server/core/intent-engine.js:116-126 | a known intent type gets its memory types from the table; any other gets `conversation` |
| IntentEngine.MemoryTypesBounded | intelligent-context-system/server/core/intent-engine.js:116-126 | every intent asks for between one and three memory types, all among knowledge, conversation, task, project and code |
| IntentEngine.TimeRangeFor | intelligent-context-system/server/core/intent-engine.js:128-137 | `high` looks back one hour, `low` seven days, and any other urgency 24 hours |
| IntentEngine.UrgencyNarrowsRange | intelligent-context-system/server/core/intent-engine.js:128-137 | the more urgent the intent, the shorter the look-back: `high` alone gets the shortest range and `low` alone the longest |
| IntentEngine.ExtractContextHints | intelligent-context-system/server/core/intent-engine.js:102-114 | the profile and memories are always included; recent history is included exactly when the intent is not an interrupt; environment state exactly when urgency is `high`; the memory types and the time range come from their tables |
| IntentEngine.EmptyAnalysisDefaults | intelligent-context-system/server/core/intent-engine.js:45-64 | an analysis with no usable fields becomes a medium-urgency question that needs no action, with confidence 0.5 and the hints of a question |
| IntentEngine.QuestionHints | intelligent-context-system/server/core/intent-engine.js:102-137 | a medium-urgency question includes recent history but not the environment, looks in knowledge and conversation memories, and looks back a day |
| LlmService.StreamChat | intelligent-context-system/server/llm/service.js:28-47 | `onChunk` is called once per non-empty delta; the returned text is the concatenation of all deltas; a stream that throws propagates its exception after the calls already made |
| LlmService.ChunkCallsFacts | intelligent-context-system/server/llm/service.js:39-43 | `onChunk` never sees an empty chunk, and there is exactly one call per non-empty delta |
| LlmService.ChunkCallSource | intelligent-context-system/server/llm/service.js:38-44 | every call is made for a delta: its chunk is that delta, and its `accumulated` is the concatenation of the deltas up to and including it |
| LlmService.AccumulatedGrows | intelligent-context-system/server/llm/service.js:40-42 | each `accumulated` is a prefix of every later one |
| LlmService.AccumulatedPrefixOfTotal | intelligent-context-system/server/llm/service.js:37-46 | every `accumulated` is a prefix of the returned text |
| LlmService.LastAccumulatedIsConcat | intelligent-context-system/server/llm/service.js:37-46 | the last `accumulated` (what `streamResponse` saves) is the whole text, even when trailing deltas are empty or no call was made |
| LlmService.AnalyzeIntent | intelligent-context-system/server/llm/service.js:89-114 | an exception from `chat` propagates, parsed JSON is returned as is, and an unparsable reply is replaced by the fallback classification |
| LlmService.FallbackFields | intelligent-context-system/server/llm/service.js:97-113 | the fallback is a `question` needing no action, with confidence 0.5, no related topics and the input's first 50 characters as topic |
| LlmService.FallbackNormalizes | intelligent-context-system/server/llm/service.js:97-113 | the fallback survives normalisation as a question needing no action, with confidence 0.5 and the head of the input as topic, and without the environment hint |
| LlmService.FallbackStructNormalizes | intelligent-context-system/server/llm/service.js:105-112 | the fallback struct normalises to empty lists, confidence 0.5, one piece of evidence quoting the input, and the trimmed head of the input as goal |
| ApiPoller.ExtractDotted | intelligent-context-system/server/sensors/api-poller.js:78-85 | the path's keys are looked up left to right: the first segment on the data, the rest of the path on what it found |
| ApiPoller.ExtractSingleKey | intelligent-context-system/server/sensors/api-poller.js:78-85 | a path without dots is a single property lookup |
| ApiPoller.ExtractLength | intelligent-context-system/server/sensors/api-poller.js:82 | a path may end in `length`, which reads the size of an array |
| ApiPoller.WalkMissing | intelligent-context-system/server/sensors/api-poller.js:82 | once an intermediate value is `undefined` or `null`, optional chaining yields `undefined` for the rest of the path and nothing throws |
| ApiPoller.Serialised | intelligent-context-system/server/sensors/api-poller.js:56 | `JSON.stringify` maps `undefined` and nothing else to `undefined` |
| ApiPoller.SerialisedPlain | intelligent-context-system/server/sensors/api-poller.js:56 | a serialised form contains no `NaN` and no `undefined` below the top |
| ApiPoller.PlainFixed | intelligent-context-system/server/sensors/api-poller.js:56 | a plain value serialises to itself |
| ApiPoller.SerialisedIdempotent | intelligent-context-system/server/sensors/api-poller.js:56 | serialising twice is the same as serialising once |
| ApiPoller.Change | intelligent-context-system/server/sensors/api-poller.js:110-112 | `change` is `null` unless both values are numbers; two finite numbers give their difference, and NaN on either side gives NaN |
| ApiPoller.Default | intelligent-context-system/server/sensors/api-poller.js:26 | a destructuring default applies to `undefined` only |
| ApiPoller.ConfigOf | intelligent-context-system/server/sensors/api-poller.js:26-29 | the stored configuration takes name, url and extract path from the data, and defaults method, headers and interval (`GET`, `{}`, 60000) when they are undefined |
| ApiPoller.AddPoller | intelligent-context-system/server/sensors/api-poller.js:25-41 | destructuring `undefined` or `null` throws; otherwise a rejected `INSERT` propagates its error before any timer starts or anything is broadcast; only when both pass is a poller registered under its fresh id, with the last values untouched, and `api_poller_added` broadcast with the id and the configuration |
| ApiPoller.Poll | intelligent-context-system/server/sensors/api-poller.js:44-70 | a poll never changes the timers; a failed fetch or parse changes nothing; a failed event `INSERT` broadcasts nothing; no other poller's last value is touched |
| ApiPoller.PollDetectsChange | intelligent-context-system/server/sensors/api-poller.js:52-61 | a value that serialises differently from the last one is stored before its event is written; exactly one `value_changed` event with the new and old values is broadcast when the `INSERT` succeeds, and none when it fails; a value that serialises the same changes nothing |
| ApiPoller.FailedWriteLosesChange | intelligent-context-system/server/sensors/api-poller.js:55-100 | a change whose event `INSERT` fails is stored but never broadcast, and polling the same response again, with the database back, finds no change, so the event is lost for good |
| ApiPoller.PollSettles | intelligent-context-system/server/sensors/api-poller.js:55-61 | polling the same response again right afterwards produces nothing |
| ApiPoller.RemovePoller | intelligent-context-system/server/sensors/api-poller.js:119-131 | the timer and the last value of the poller are forgotten, every other poller is kept, and `api_poller_removed` is broadcast |
| ApiPoller.AddThenRemove | intelligent-context-system/server/sensors/api-poller.js:25-131 | removing a poller just added under a fresh id restores the registry |
| ApiPoller.LatePollAfterRemove | intelligent-context-system/server/sensors/api-poller.js:58-60 | a fetch still in flight when its poller is removed completes without a guard, and a changed value re-creates the last-value entry the removal deleted |
| Js.Or | intelligent-context-system/server/core/intent-engine.js:48-55 | the logical-or fallback keeps a truthy left operand and otherwise yields the right one; `undefined`, `null`, `false`, 0, `NaN` and `''` are the falsy values |
| Js.Get | intelligent-context-system/server/sensors/api-poller.js:82 | `value?.[key]` reads an object's own key, or `undefined` when the key is missing; an array or a string answers `length` (a string's in UTF-16 code units) and its in-range canonical index keys; `undefined`, `null`, booleans and numbers yield `undefined` |
| Js.TrimFacts | intelligent-context-system/server/core/intent-engine.js:98 | `trim()` yields a contiguous piece of its input that neither starts nor ends with white space, and trimming twice changes nothing |
| Js.TrimFixedPoint | intelligent-context-system/server/core/intent-engine.js:98 | text that neither starts nor ends with white space is its own trim |
| Js.Prefix | intelligent-context-system/server/core/intent-engine.js:49 | `slice(0, n)` is the first `n` characters, or the whole string when it is shorter |
| Js.Length | intelligent-context-system/server/core/task-orchestrator.js:290 | `length` counts UTF-16 code units: at least one and at most two per code point |
| Js.LengthAppend | intelligent-context-system/server/core/context-builder.js:334 | the length of a concatenation is the sum of the lengths |
| Js.LengthBmp | intelligent-context-system/server/core/task-orchestrator.js:290 | text inside the Basic Multilingual Plane has one code unit per code point |
| Js.LengthAstral | intelligent-context-system/server/core/task-orchestrator.js:290 | text made of code points outside the Basic Multilingual Plane, such as emoji, has two code units per code point |
| Js.Last | intelligent-context-system/server/core/context-builder.js:162 | `slice(-n)` is the last `n` elements, or all of them when there are fewer |
| Js.LastIn | intelligent-context-system/server/core/context-builder.js:162 | every element `slice(-n)` returns is an element of the input |
| Js.NumberOf | intelligent-context-system/server/core/intent-engine.js:91 | `Number(s)` is always a number or `NaN`, and a blank string reads as 0 |
| Js.NumberOfDigits | intelligent-context-system/server/core/intent-engine.js:91 | `Number` of a run of decimal digits is the value those digits denote |
| Js.NumberOfNegative | intelligent-context-system/server/core/intent-engine.js:91 | `Number` of a minus sign followed by digits is the negated value of the digits |
| Js.Split | intelligent-context-system/server/sensors/api-poller.js:79 | `split('.')` yields at least one piece, and no piece contains the separator |
| Js.SplitCons | intelligent-context-system/server/sensors/api-poller.js:79 | the text before the first separator is the first piece, and the rest is split on its own |
| Js.SplitJoin | intelligent-context-system/server/sensors/api-poller.js:79 | joining the pieces of a split with the separator gives back the original path |
| Js.JoinSplit | intelligent-context-system/server/sensors/api-poller.js:79 | splitting a join of separator-free pieces gives back exactly those pieces |
| Markdown.FindCloser | intelligent-context-system/client/src/components/MarkdownRenderer.jsx:84-91 | the lazy `*?` body ends at the first closing delimiter; an inline body may not cross a line break, because `.` does not match one |
| Markdown.Preprocess | intelligent-context-system/client/src/components/MarkdownRenderer.jsx:77-96 | missing or empty content renders as the empty string |
| Markdown.ConvertNoOpener | intelligent-context-system/client/src/components/MarkdownRenderer.jsx:84-93 | text without an opening delimiter is left unchanged by a replacement pass |
| Markdown.PreprocessPlain | intelligent-context-system/client/src/components/MarkdownRenderer.jsx:77-96 | content with neither `\[` nor `\(` renders exactly as written |
| Markdown.FindCloserAfter | intelligent-context-system/client/src/components/MarkdownRenderer.jsx:84-91 | after a formula that holds no closer, the scan stops at the closer that follows it |
| Markdown.ConvertPair | intelligent-context-system/client/src/components/MarkdownRenderer.jsx:84-93 | the text before the first opener is kept; the opener pairs with the nearest closer after it; the formula between them is trimmed and wrapped in `$$` fences (display) or `$` signs (inline); the rest is converted on its own |
| Markdown.ConvertPrefix | intelligent-context-system/client/src/components/MarkdownRenderer.jsx:84-93 | text in front of the first opener is copied unchanged |
| Markdown.InlineNeedsOneLine | intelligent-context-system/client/src/components/MarkdownRenderer.jsx:91-93 | an inline formula broken across lines is not converted |
| Markdown.DisplayBeforeInline | intelligent-context-system/client/src/components/MarkdownRenderer.jsx:84-93 | display formulas are converted first, so an inline formula nested inside a display formula ends up inside the `$$` fences, converted to `$…$` |
| Store.GapValues | intelligent-context-system/client/src/store/index.js:34-63 | the vertical gap is 24, 128 or 48; the two special gaps only separate a user message from a reply (24 from the user message down, 128 from the reply down), and any intent node gets the default 48 |
| Store.EstimateNodeHeight | intelligent-context-system/client/src/store/index.js:74-107 | a collapsed intent is 0 high and an open one 200; any other node is between 120 and 400, and exactly 120 when it has no content |
| Store.TallContentCapped | intelligent-context-system/client/src/store/index.js:92-106 | text of fourteen lines or more reaches the 400 cap |
| Store.ShortLineAtMinimum | intelligent-context-system/client/src/store/index.js:92-106 | one short line of narrow characters with no code fence stays at the 120 minimum |
| Store.OverlapSymmetric | intelligent-context-system/client/src/store/index.js:124-143 | whether two rectangles overlap does not depend on their order |
| Store.OverlapTranslation | intelligent-context-system/client/src/store/index.js:124-143 | whether two rectangles overlap does not change when both move by the same offset |
| Store.StackedApart | intelligent-context-system/client/src/store/index.js:124-143 | rectangles stacked at least their height plus the margin apart do not overlap, in either order |
| Store.HasCollision | intelligent-context-system/client/src/store/index.js:170-187 | a collision exists exactly when some node that is not excluded, is visible, and comes closer than the 48-pixel margin blocks the rectangle |
| Store.CollisionIgnores | intelligent-context-system/client/src/store/index.js:170-187 | excluded ids and collapsed intents never cause a collision |
| Store.FindAvailablePosition | intelligent-context-system/client/src/store/index.js:223-241 | the search keeps `x`, moves down in steps of 48, and tries at most 100 positions; every position it passed over collides; when it stops early the position it returns is free; after 100 attempts it returns the last position it tried |
| Store.Closure | intelligent-context-system/client/src/store/index.js:886-889 | the set `findAllChildren` collects contains the starting node and the children of each of its members |
| Store.ClosureLeast | intelligent-context-system/client/src/store/index.js:886-889 | that set is the smallest such set: it holds the node and its descendants and nothing else |
| Store.CoreGreatest | intelligent-context-system/client/src/store/index.js:886-889 | every set of descendants each of which has a child in the set lies inside the part of the walk that never ends |
| Store.CycleDiverges | intelligent-context-system/client/src/store/index.js:886-889 | a non-empty set of descendants each with a child in the set, such as a node that is its own parent, makes the recursion never end |
| Store.RemoveNode | intelligent-context-system/client/src/store/index.js:881-912 | an unknown id changes nothing; a removal whose walk never ends throws and changes nothing; otherwise the node and all its descendants are deleted, every other node is kept in order, the selected and active node are cleared when they are deleted, and tasks and the streaming and processing sets are untouched |
| Store.SelfParentThrows | intelligent-context-system/client/src/store/index.js:886-889 | removing a node that is its own parent overflows the stack |
| Store.RankedRemoveSucceeds | intelligent-context-system/client/src/store/index.js:881-912 | removal succeeds whenever some rank grows from parent to child below the node, as depth does in a tree |
| Store.RemoveNodeExactly | intelligent-context-system/client/src/store/index.js:881-912 | a successful removal deletes the node and every child of a deleted node, and stays inside every child-closed set containing the node |
| Store.RemoveNodeKeepsOthers | intelligent-context-system/client/src/store/index.js:881-912 | a node outside a child-closed set containing the removed node survives the removal |
| Store.Without | intelligent-context-system/client/src/store/index.js:901 | the filter keeps exactly the nodes whose id is not deleted |
| Store.UpdateContent | intelligent-context-system/client/src/store/index.js:596-598 | `updateNode(id, { content })` keeps the length, changes only the content of the nodes with that id, and leaves the other nodes unchanged |
| Store.UpdateContentLastWins | intelligent-context-system/client/src/store/index.js:596-598 | of two content updates to the same node, the later one wins |
| Store.MoveNode | intelligent-context-system/client/src/store/index.js:600-602 | `moveNode` changes only the position of the nodes with that id and leaves everything else unchanged |
| Store.MoveKeepsShape | intelligent-context-system/client/src/store/index.js:600-602 | moving a node keeps the set of ids and the estimated height of every node |
| Store.Merge | intelligent-context-system/client/src/store/index.js:1010 | the spread `{ ...t, ...task }` keeps the order and ids of the tasks, and overrides only the fields of the task with that id |
| Store.AddTask | intelligent-context-system/client/src/store/index.js:1004-1012 | a new id is appended at the end; a known id keeps the list of ids and is merged into, its fields now holding the new values |
| Store.AddTaskDistinct | intelligent-context-system/client/src/store/index.js:1004-1012 | `addTask` never creates a second card with the same id |
| Store.UpdateTask | intelligent-context-system/client/src/store/index.js:1014-1016 | `updateTask` keeps the list of ids and gives the task with that id the new field values |
| Store.AddEvent | intelligent-context-system/client/src/store/index.js:1019-1021 | the new event comes first, followed by the newest older events, and at most 50 are kept |
| Store.AddStreamingNode | intelligent-context-system/client/src/store/index.js:926-933 | the id joins the streaming set, and the streaming counter becomes the set's size |
| Store.RemoveStreamingNode | intelligent-context-system/client/src/store/index.js:935-942 | the id leaves the streaming set, and the streaming counter becomes the set's size |
| Store.EndStreaming | intelligent-context-system/client/src/store/index.js:950-953 | every stream is finished and the streaming counter is 0 |
| Store.AddActiveProcessing | intelligent-context-system/client/src/store/index.js:969-976 | the id joins the processing set, and the processing counter becomes the set's size |
| Store.RemoveActiveProcessing | intelligent-context-system/client/src/store/index.js:978-985 | the id leaves the processing set, and the processing counter becomes the set's size |
| Store.StatsFollowSets | intelligent-context-system/client/src/store/index.js:926-985 | each of the five actions keeps the status-bar counters equal to the sizes of their sets, and adding then removing a new id restores the state |
| Store.AddNode | intelligent-context-system/client/src/store/index.js:520-528 | the node is appended at the chosen position with its own id, and `expanded` defaults to false for an intent and true otherwise |
| WebSocket.Scheme | intelligent-context-system/client/src/hooks/useWebSocket.js:15 | the socket is `wss:` exactly when the page was loaded over `https:`, and `ws:` otherwise |
| WebSocket.UrlPath | intelligent-context-system/client/src/hooks/useWebSocket.js:17-19 | an undefined `VITE_WS_PATH` gives `/ws`; an empty one gives no path; any other path starts with exactly one added `/` when it lacked one |
| WebSocket.UrlPathIdempotent | intelligent-context-system/client/src/hooks/useWebSocket.js:17-19 | normalising a path that was already normalised changes nothing |
| WebSocket.ResolveUrl | intelligent-context-system/client/src/hooks/useWebSocket.js:9-22 | a set `VITE_WS_URL` is used verbatim; otherwise the URL is the scheme, `//`, the host, then the normalised path |
| WebSocket.ResolveUrlDefaults | intelligent-context-system/client/src/hooks/useWebSocket.js:9-22 | without `VITE_WS_URL` the URL is secure exactly when the page is, ends in `/ws` when no path is configured, and ends right after the host when the path is empty |
| WebSocket.ReplyNode | intelligent-context-system/client/src/hooks/useWebSocket.js:176-183 | the reply's node takes the reply's id and message id, starts empty, is a task card for a task response and an AI reply otherwise, and hangs under the parent the server named, else under the last intent node |
| WebSocket.DisplayExamples | intelligent-context-system/client/src/hooks/useWebSocket.js:127-141 | the card's `${intent}` text: `${7}` is "7", `${-12}` is "-12", and `${{}}` is "[object Object]" |
| WebSocket.DisplayArrayExamples | intelligent-context-system/client/src/hooks/useWebSocket.js:127-141 | the card's `${intent}` text for arrays: `${["a","b"]}` is "a,b", and a `null` item shows as "" |
| WebSocket.IntentCard | intelligent-context-system/client/src/hooks/useWebSocket.js:127-141 | the intent node has the intent's id, is an intent, and hangs under the user message the server named |
| WebSocket.OnIntentAnalyzed | intelligent-context-system/client/src/hooks/useWebSocket.js:119-145 | an intent already on the canvas changes nothing; otherwise its node is appended and becomes the current intent |
| WebSocket.OnResponseStart | intelligent-context-system/client/src/hooks/useWebSocket.js:161-190 | the related message is marked as responding; when no node carries the reply's message id, the reply's node is appended and its stream starts; processing tracking is untouched |
| WebSocket.OnResponseChunk | intelligent-context-system/client/src/hooks/useWebSocket.js:192-198 | the reply's node (the current stream's when the event has no id) shows the accumulated text, and nothing else changes |
| WebSocket.OnResponseEnd | intelligent-context-system/client/src/hooks/useWebSocket.js:200-221 | the reply's stream stops, the related message's status is forgotten and it is no longer tracked, the reply (else the current stream) is selected, and no node changes |
| WebSocket.OnEnvironmentEvent | intelligent-context-system/client/src/hooks/useWebSocket.js:243-259 | the event is put first in the feed and a node for it is appended |
| WebSocket.HandleMessage | intelligent-context-system/client/src/hooks/useWebSocket.js:79-272 | every server event only ever adds nodes, and the two status-bar counters keep matching the sizes of their sets |
| WebSocket.ChunkIdempotent | intelligent-context-system/client/src/hooks/useWebSocket.js:192-198 | the same chunk delivered twice shows what it shows once, and only the reply's node changes |
| WebSocket.IntentAnalyzedOnce | intelligent-context-system/client/src/hooks/useWebSocket.js:119-145 | `intent_analyzed` adds the intent node only when no node has its id, and the repeated event changes nothing |
| WebSocket.ResponseStartOnce | intelligent-context-system/client/src/hooks/useWebSocket.js:161-190 | `response_start` adds the reply's node and stream only when no node carries its message id, under the named parent or else the last intent node; a repeated event adds no node |
| WebSocket.ErrorStopsTracking | intelligent-context-system/client/src/hooks/useWebSocket.js:108-117 | an `error` naming a message marks it failed and stops tracking it; one without a message id changes nothing |
| WebSocket.ResponseEndSettles | intelligent-context-system/client/src/hooks/useWebSocket.js:200-221 | `response_end` stops the stream, forgets the related message and selects the reply, without touching the nodes |
| WebSocket.HandleAppend | intelligent-context-system/client/src/hooks/useWebSocket.js:69-76 | handling two runs of events one after the other is handling their concatenation |
| WebSocket.ReceivedAppend | intelligent-context-system/server/index.js:74-82 | what a client receives of two traces is what it receives of each, in order |
| WebSocket.ChunksShowLast | intelligent-context-system/client/src/hooks/useWebSocket.js:192-198 | after a reply's chunks, its node shows the last accumulated text, and nothing else in the client has changed |
| WebSocket.StreamReceived | intelligent-context-system/server/core/task-orchestrator.js:242-286 | a client receives a completed stream as `response_start`, one `response_chunk` per delta and `response_end`; nothing the server stores is sent |
| WebSocket.StartThenChunks | intelligent-context-system/client/src/hooks/useWebSocket.js:161-198 | a reply started on a canvas without its node, followed by its chunks, shows the last accumulated text and is still streaming |
| WebSocket.ReplyShown | intelligent-context-system/client/src/hooks/useWebSocket.js:161-221 | a reply started, streamed and ended shows the last accumulated text, no longer streams, and is selected |
| WebSocket.StreamShown | intelligent-context-system/client/src/hooks/useWebSocket.js:161-221 | the client receiving a completed stream shows exactly the text the model produced, no longer streams it, and selects it |
| WebSocket.QueueErrorTracking | intelligent-context-system/client/src/hooks/useWebSocket.js:108-117 | the queue's error report as written carries no message id, so the client keeps the failed message active; the corrected report stops tracking it and marks it failed |
| WebSocket.Submit | intelligent-context-system/client/src/components/InputArea.jsx:20-39 | blank input or a closed connection does nothing; otherwise the user message is appended, tracked as active with stage `sending`, and the counters keep matching their sets |
| WebSocket.SubmittedThenQueueError | intelligent-context-system/client/src/components/InputArea.jsx:20-39 | a submitted message whose job then fails in the queue stays active forever with the error as written, and is released with the corrected one |

## Left out

- I/O is an oracle parameter: SQLite and LevelDB reads, `fetch`, the OpenAI client, `uuidv4` and `Date.now()`. Writes are recorded as effects, not as storage. Only the API poller's two `INSERT`s can fail for any reason; the `INSERT` into `intents` fails exactly on a duplicate id, the one rejection an answer's own `id` can cause. Any other rejected write in the orchestrator's handlers would propagate like any other exception of the job; the model's traces do not include it.
- TaskOrchestrator.IntentIdOf: an `id` in the classifier's answer that is not a string (a number, `null`, an object) would also replace the generated id; the model keeps the generated id then, because intent ids are strings throughout the protocol and the canvas. The `INSERT`'s reaction to such an id is not modelled either.
- The `subscribe`/`unsubscribe` socket messages go to the subscription manager. It is RSS and web-page fetching, so it is not part of this model. `file-watcher.js` is left out for the same reason.
- Timers are not modelled: the `setInterval` of the timeout sweep, the 3-second reconnect, and the delayed `saveCanvasState`. The sweep is a function of `now`.
- True concurrency is not modelled. Each asynchronous branch is one sequential trace, and the queue interleaves whole jobs.
- The prompt texts are left out: the system prompt, the directive text, the compiled-context prompt and the memory formatting. Only their order, count and lengths are modelled.
- Floating-point scoring is left out: embeddings, `searchSimilar` and cosine similarity. The similar memories are an oracle.
- The client UI is left out: rendering, zoom and scale, `centerOnNode`, `reorganizeLayout` and `adjustNodePositions`. The input area is modelled only as far as `WebSocket.Submit` needs.
- The positioning heuristics of `addNode` (`calculatePosition`) are left out. The position is a parameter.
- `appendToNode`, `setStatus` and the subscription list actions of the store are left out. The socket handler never calls `appendToNode`.
- IntentEngine.MemoryTypes: looks the intent up by exact string only. JavaScript's `typeMap[intent.intent]` first turns the key into a string (so `["task"]` finds the `task` row) and also finds `Object.prototype` names such as `constructor`; neither is modelled.
- IntentEngine.TimeRangeFor: matches only the exact strings `high` and `low`, without the string conversion or prototype keys of `ranges[intent.urgency]`.
- ContextBuilder.RequiredFor: matches only exact strings; an intent named after an `Object.prototype` member, which makes `new Set(fn)` throw in the source, is not modelled.
- Js.NumberOf: reads only decimal numerals with an optional sign and point. Exponents (`1e-1`), hexadecimal, binary and octal prefixes, and `Infinity` read as `NaN`, which makes `toNumber` return its fallback.
- Js.Prefix: counts Unicode code points, while `slice(0, 50)` counts UTF-16 code units. The two differ only for characters outside the Basic Multilingual Plane, where the source can cut a surrogate pair in half, which a Dafny string cannot hold. `length` itself is modelled in code units (`Js.Length`).
- Js.Get: reads own keys, `length` and index keys. It does not read prototype properties or the methods of primitives. A string's index keys count code points; its `length` counts UTF-16 code units.
- Server.DispatchChat: a `chat` message whose `content` is missing or not a string runs as if the content were the empty text (`Server.ChatInputOf`). In the source, the value goes on as `userInput`. When it is `undefined` or `null`, `userInput.slice` throws in `normalizeIntentAnalysis` or in the classifier's fallback, whichever runs first. If the classifier's answer avoids every `slice`, `contextSize` throws on `content.length` instead. Either way the queue reports the error. A number or an object avoids the `length` throw (the sum becomes `NaN`) but not the `slice` one, and an array has a `slice` of its own. Where each throw happens depends on the classifier's answer, which is an oracle here, so the model keeps the content a string.
- Js.Fields: spreads only objects. A classifier answer that parses to an array or a string spreads to index keys (`"0"`, `"1"`, …) in the source, which carry over into the normalised intent; in the model it spreads to no keys.
- ApiPoller.Change: subtracts exact reals, not IEEE doubles, so rounding is not modelled.
- ApiPoller.Serialised: compares values, not their `JSON.stringify` text. Two objects with the same entries in a different key order are equal in the model but differ in the source.
- Store.AddNode: the node always brings its own id, and no position of its own is modelled. Every caller passes an id and no `x`/`y`, so the `uuidv4()` fallback and the spread overriding the chosen position never matter.
- WebSocket.Submit: the `send('chat', …)` it ends with is not part of the result. The server side takes that message as its input (`Server.Receive`).

## Findings

| source | as written | input that shows it | evidently intended | confidence | as-written member | corrected member |
|---|---|---|---|---|---|---|
| intelligent-context-system/server/core/intent-engine.js:68 | when the classifier gives no usable `goal`, the fallback is the untrimmed `topic` | a classifier answer `{ topic: " a " }` gives goal `" a "`; normalising that result again gives `"a"` | the fallback goal goes through the same trim as a goal the classifier supplies. The fallback is the one place where `toText`'s trim does not reach the topic. The source promises no idempotence and normalises each answer once; idempotence is the property this model proves of the trimmed form | not executed | IntentEngine.AsWrittenNotIdempotent | IntentEngine.NormalizeIdempotent |
| intelligent-context-system/server/core/context-builder.js:304 | the history loop reads the newest edit's `newContent`, but the canvas stores the edit as `editedContent` | a history message whose edit history is `[{ originalContent: "typo", editedContent: "fixed" }]` gets content `undefined`, and `contextSize` then throws on `undefined.length` | the prompt shows the edited text `fixed` | not executed | ContextBuilder.EditedHistoryAsWrittenFails | ContextBuilder.ComposeHistory |
| intelligent-context-system/server/index.js:142 | the queue's error report reads `messageId` from the top level of the message, but clients send `{ type, data }` with the id inside `data` | a failing `chat` job sent as `{ type: "chat", data: { messageId: "m1", … } }` is reported with `messageId: null`, so the client keeps `m1` in its processing set forever | the error names `m1`, and the client marks it failed and stops tracking it | not executed | Server.QueueErrorDropsId | Server.FailedJobReportedIntended |
| intelligent-context-system/server/index.js:138-142 | for a failed job, the `.catch` reads `data.messageId` of the parsed message without a guard, and nothing handles the promise the `.catch` returns | a client that sends the text `null`: `JSON.parse` gives `null`, the handler throws on destructuring it, and the `.catch` throws again on `null.messageId`; on Node.js 15 and later the unhandled rejection ends the server process | the failed job is reported, or skipped, and the server keeps running | not executed | Server.NullMessageCrashes | Server.NullMessageIntendedQuiet |
