# NexQ: a verified model of its queues and its terminal renderer

NexQ is a message broker with an in-memory and an SQL store, and a terminal user interface.
This project models the parts of it in which a mistake is hardest to see, and proves what they
keep over every run.

**The in-memory broker.** `Messages`, `Queues` and `Stores` say, on values, what each operation makes
of a message, a queue and the whole store: sending with delay, retention and deduplication, leased
receive in priority order, nak, visibility, polling with its three behaviours, dead-lettering to a
queue and a topic, moving, publishing, and the record of queues and topics. `MemoryQueueMessage`,
`MemoryQueue`, `MemoryTopic` and `MemoryStore` are the objects of the source, with its loops and
splices, each method proved to compute the function it stands for. `Stores.Op` lists the operations;
a run is any sequence of them from an empty store, with time passing in between. On runs stand the
theorems about leases and handles (`Leases`), receive limits and deduplication (`Limits`), order (`Fifo`),
pauses (`Pauses`), the life of queues (`Expiries`) and of the targets they name (`Lifecycles`), the first
three derived from one step theorem (`Steps`, `Invariants`). `PollPass` describes a whole poll pass,
`Failures` what one that fails loses, `Transfers` publishing and moving, `Scans` what a receive hands out,
`BrokerRuns` two runs that end badly. `Sendings` and `Promises` say what each operation promises of the
messages it touches, by the instants at which a message can be had rather than by the functions above.

**The SQL store.** `SqlTables` is the message table with the statements that change it and the queries
that read it, unique indexes included; `RowPromises` says what each statement promises of every row and
exactly when it fails, `RowLeases` what a lease on a row excludes, and `Dialects` has the methods that run
them. `Scans` relates both stores: the receive query and the counts answer what the memory queue
does on the same rows.

**Waiting for messages.** `Triggers` is the one-shot event. `WakeUp` is the protocol of the SQL store
(register, query, wait; commit, notify; publish in a transaction) as a machine in which any number of
receivers, senders and publishes interleave at every `await`, over a database with a transaction mutex
(SQLite) or with notifications of its own (Postgres); `SqlStores` has the methods that wait and wake, each
proved to make a step of the machine. `Waiters` is the machine of a memory queue. `Wakings` lists the queues
an operation of the memory store sends to, whose receivers the methods of `MemoryStores` are proved to
signal, and `WakeGuards` says when a queue is among them. `Sleepers` says which other operations make a message
receivable, and `SleepRuns` runs the store and its receivers together: when one of them sleeps beside a
message it could have.

**The renderer.** `Geometry` and `Paint` say what painting a tree of items does to each cell, `Clipping`
that its rectangles leave each item exactly the cells it should have, `Terminals` what a terminal makes of
output, `DiffRender` that writing only the changes has the effect of a full redraw, `Frames` that this holds
over any run of frames and resizes; `Renderers` has the loops over the two buffers, `ColorRuns` runs that
show wrong colours and `HexColors` the colours that never do.

Time is a parameter that only grows, `createId` a counter that never repeats, and a record lists its
values in an order that is a parameter. A statement that throws is one that answers an error.

Where the code does not do what it seems to promise, the model follows the code:

- `publishMessage` of the SQL store notifies inside its transaction. SQLite is safe from missing a publish
  by the mutex of its transactions, and Postgres by the notification it sends at the commit, but only while
  the listening connection is up (`WakeUp.MayMissExactly`, `WakeUp.PublishIsMissed`).
- A receiver of the memory store is signalled by sends and resumes alone. What becomes receivable by time, a
  nak, a deadline set in the past, a move or a higher limit is not noticed before its wait ends
  (`Sleepers.FreesExactly`, `SleepRuns.BlockedBeside`, `SleepRuns.MovedBeside`).
- The timer of a wait that has ended can end a later wait on the same trigger without settling it
  (`Triggers.StaleTimerLosesEvent`); both stores wait on each trigger once.
- The style cache of the renderer puts two colour names together without a separator, so two different
  pairs can share a text; exactly then a frame shows wrong styles (`Frames.RunShowsExactly`,
  `ColorRuns.WrongColorsShow`). Colours of seven characters, as #rrggbb, never do
  (`HexColors.HexRunShows`).
- Clearing a buffer keeps the colours of its cells, so a cell nothing is painted on shows those of two
  frames before (`Frames.RunColorsExactly`, `ColorRuns.StaleColorsShow`). A background colour drops the
  foreground colour (`Frames.RunForeground`).
- A first frame on a terminal of no size at all finds no buffers and throws (`Renderers.Renderer.Render`).
- A message that is moved into a queue whose receive limit it has already reached, and that holds no
  deadline, is never received there nor taken off as exhausted (`Limits.StuckExactly`,
  `BrokerRuns.MoveGetsStuck`). Nothing is ever received from a queue with a receive limit of zero.
- `deleteExpiredMessagesOverReceiveCount` binds AND before OR: it deletes rows of other queues, and every
  row of this one whose lease lapsed (`SqlTables.OverCountExactly`, `SqlTables.DeleteWipesOthers`).
- The three counts of a queue in the SQL store are queries of their own, so a row received in between is counted
  twice (`Dialects.ReceivedCountsTwice`).
- The SQL store answers received messages as their rows were before the update
  (`Dialects.Dialect.ReceiveMessages`), the memory store as they are after it.
- A turn of a poll pass takes all exhausted messages off their queue before it looks for the dead-letter
  targets. When one of these is missing or refuses a message, those not yet forwarded are in no queue any more
  (`Failures.SurvivesExactly`).
- A dead-letter queue can expire; as long as a queue names it then, every poll pass fails, whether or not a
  message is exhausted (`PollPass.PassSucceeds`, `BrokerRuns.ExpiredTargetFails`).

`dafny verify dfyconfig.toml` checks the project.

## Model

| member | source | states |
|---|---|---|
| `Leases.LeaseExclusive` | packages/store-memory/src/MemoryQueue.ts:175-223 | Between two deliveries of one message, in whatever queues a move or dead-lettering brought it, the first deadline strictly passed or the first handle was used to nak it or change its visibility; for every run of the broker |
| `Leases.ScanOnce` | packages/store-memory/src/MemoryQueue.ts:190-207 | One scan never hands out the same message twice |
| `Leases.Superseded` | packages/store-memory/src/MemoryQueueMessage.ts:61-69 | When a message no longer holds a handle, after redelivery, nak, removal or dead-lettering, no message holds it |
| `Leases.DeadPowerless` | packages/store-memory/src/MemoryQueue.ts:359-428 | An update, nak, visibility change or delete keyed by a handle no message holds leaves the whole store as it was |
| `Leases.StaleHandle` | packages/store-memory/src/MemoryQueue.ts:359-428 | In every run, once the message has lost the handle of a delivery, no later operation keyed by that handle changes anything |
| `Leases.DeleteExact` | packages/store-memory/src/MemoryQueue.ts:415-428 | A delete succeeds exactly if the queue holds the id under the given handle, then removes that message alone; when it throws it has changed nothing |
| `Steps.StepKeeps` | packages/store-memory/src/MemoryStore.ts:111-470 | Every operation, failing or not, keeps ids unique across all queues, handles unique and subscriptions distinct, and changes each message only by delivery, use of its handle, the end of its lease or dead-lettering |
| `Steps.InvAfter` | packages/store-memory/src/MemoryStore.ts:111-470 | These facts hold in every state of every run |
| `Steps.NoDuplicateId` | packages/store-memory/src/MemoryQueue.ts:111-113 | The duplicate-id error of sendMessage is unreachable through the store |
| `Steps.SameIdSame` | packages/store-memory/src/MemoryQueue.ts:103-144 | An id determines the message and the queue it is in |
| `Limits.NeverStuck` | packages/store-memory/src/MemoryQueue.ts:192-206 | With a fixed limit and nothing moved in, deliveries never exceed the limit and a message at the limit always carries a deadline, in every run |
| `Limits.DeliveriesWithinLimit` | packages/store-memory/src/MemoryQueue.ts:192-206 | A delivered message has a receive count between one and the limit |
| `Limits.PollRemovesExhausted` | packages/store-memory/src/MemoryQueue.ts:337-354 | The first poll of its queue after the deadline takes a message at the limit out |
| `Limits.StuckExactly` | packages/store-memory/src/MemoryQueue.ts:192-354 | The messages never received and never taken off as exhausted are exactly those at the limit without a deadline, or with a retention that ends by then; with a limit of zero, every message |
| `BrokerRuns.MoveGetsStuck` | packages/store-memory/src/MemoryQueue.ts:463-481 | A run from an empty store that moves a message into a queue where it is stuck |
| `Limits.DedupRun` | packages/store-memory/src/MemoryQueue.ts:115-156 | In every run, a queue nothing is moved into never holds two messages never received that share a non-empty deduplication id |
| `PollPass.PassIsDelivery` | packages/store-memory/src/MemoryStore.ts:241-277 | A pass that succeeds equals polling every queue once and then delivering one letter per target of each exhausted message, for any queue order and any dead-letter cycles |
| `PollPass.PassMessages` | packages/store-memory/src/MemoryStore.ts:241-277 | After it, each queue holds exactly what its poll kept, in order, followed by one message per letter addressed to it |
| `PollPass.ArrivalsCarry` | packages/store-memory/src/MemoryStore.ts:251-268 | Each arrival is a message as a send with the body, priority, attributes and nak reason of the exhausted one leaves it, under the delay and the retention of its queue; only the dead-letter queue gets it under its own id, subscribed queues under fresh ids |
| `PollPass.PassSucceeds` | packages/store-memory/src/MemoryStore.ts:244-250 | A pass succeeds if and only if all dead-letter targets exist and every addressed queue exists and accepts the size |
| `BrokerRuns.ExpiredTargetFails` | packages/store-memory/src/MemoryStore.ts:232-250 | A run in which the dead-letter queue of a queue has expired and a poll pass fails, although no message was ever sent |
| `PollPass.ExhaustedRehomed` | packages/store-memory/src/MemoryStore.ts:251-260 | An exhausted message ends the pass exactly once in the whole store, in its dead-letter queue, with what it carried |
| `Failures.PassStops` | packages/store-memory/src/MemoryStore.ts:241-277 | A pass that fails fails in the turn of one queue: the turns before keep their effect, so does what that turn had done, and the queues after it are not polled |
| `Failures.SurvivesExactly` | packages/store-memory/src/MemoryStore.ts:242-268 | In a turn, failing or not, an exhausted message is still in a queue afterwards if and only if both dead-letter targets exist, its dead-letter queue takes its size, and every exhausted message behind it in the list could be forwarded to all its targets; otherwise it is lost |
| `Failures.GoneWithoutTarget` | packages/store-memory/src/MemoryStore.ts:269-275 | Without a dead-letter queue an exhausted message is in no queue afterwards |
| `Failures.DeadLettersReversed` | packages/store-memory/src/MemoryQueue.ts:325-340 | Dead letters of one queue arrive in the reverse of their order in its list |
| `PollPass.FatePartition` | packages/store-memory/src/MemoryQueue.ts:324-357 | A poll does exactly one of three things to each message: keep it, drop it because its retention has passed, or take it off because its lease has passed and its deliveries have reached a limit other than zero |
| `PollPass.KeptInOrder` | packages/store-memory/src/MemoryQueue.ts:324-357 | The kept messages stay in relative order |
| `PollPass.PollTwice` | packages/store-memory/src/MemoryStore.ts:217-277 | A second poll at the same instant, in any order, changes nothing, so a lease is penalised at most once |
| `Fifo.FifoRun` | packages/store-memory/src/MemoryQueue.ts:126-141 | On a queue that retries, without priority updates and moves in, the messages of each priority are at every moment of a run in the order they arrived |
| `Fifo.ScanTakesEarliest` | packages/store-memory/src/MemoryQueue.ts:190-207 | Among the messages of one priority a scan takes the deliverable ones that arrived first |
| `Fifo.RunTakesEarliest` | packages/store-memory/src/MemoryQueue.ts:190-207 | In every state of every run that leaves the queue orderly, a scan takes of each priority the deliverable messages that arrived first |
| `Fifo.SortPriority` | packages/store-memory/src/MemoryQueue.ts:275-277 | Sorting leaves the messages of one priority alone if they are in time order |
| `Fifo.NotOwnTargetAfter` | packages/store-memory/src/MemoryStore.ts:117-119 | No queue is its own dead-letter queue, in every run |
| `Transfers.PublishExactly` | packages/store-memory/src/MemoryTopic.ts:51-61 | A publish accepted by all subscribed queues adds exactly one message to each, as a send with these options leaves it under a fresh id of its own, and touches no other queue; it is accepted exactly if each takes its copy; if a queue is missing nothing is sent |
| `Transfers.SubscriptionsDistinct` | packages/store-memory/src/MemoryTopic.ts:41-49 | In every run a topic names each queue at most once |
| `Transfers.MoveExactly` | packages/store-memory/src/MemoryQueue.ts:463-481 | The source keeps its unavailable messages in order, the target gets the available ones in reverse; also when both are the same queue |
| `Transfers.MoveConserves` | packages/store-memory/src/MemoryStore.ts:152-156 | The two queues together hold the same messages as before, each as it was but for its retention; held or delayed ones stay, and so do those of the target |
| `Scans.ScanTakesFirst` | packages/store-memory/src/MemoryQueue.ts:190-207 | One scan hands out exactly the first k receivable messages of the stable order, each with the next handle |
| `Scans.PeekPredictsReceive` | packages/store-memory/src/MemoryQueue.ts:225-255 | Peeking shows what a receive at that instant would hand out, in that order |
| `Scans.PeekAllIsOrder` | packages/store-memory/src/MemoryQueue.ts:257-267 | Peeking at everything is the list getMessage counts positions in |
| `Scans.ScanAnswersQuery` | packages/store-sql/src/sql/Sql.ts:219-237 | The choice of the memory scan is an answer to the SQL query over the same rows |
| `Scans.ScanIsQuery` | packages/store-sql/src/sql/Sql.ts:219-237 | With a limit set, memory scan and SQL query hand out equally many messages with the same priorities and order times, position by position |
| `Scans.QueryWithoutLimit` | packages/store-sql/src/dialect/Dialect.ts:282-289 | Without a limit they differ exactly on available messages received a million times |
| `Scans.CountsAgree` | packages/store-memory/src/MemoryQueue.ts:279-297 | The SQL counts equal the counts of the if-chain in memory, up to rows both held and delayed |
| `Sorting.SortSorts` | packages/store-memory/src/MemoryQueue.ts:275-277 | Of any two messages the one that comes first has the higher priority, or the same and no later order time |
| `Sorting.SortStable` | packages/store-memory/src/MemoryQueue.ts:275-277 | Sorting is a permutation that keeps the order of equal messages (section 23.1.3.30 of ECMA-262, 14th edition) |
| `Sorting.SortUnique` | packages/store-memory/src/MemoryQueue.ts:275-277 | A stable sort by this comparison has only one possible result |
| `Sorting.SortFixesSorted` | packages/store-memory/src/MemoryQueue.ts:275-277 | Sorting a list that is in order changes nothing |
| `Sendings.SendExactly` | packages/store-memory/src/MemoryQueue.ts:103-144 | A send that succeeds puts one message with the body behind the others: to be had from the delay on, its own, else that of the queue; over retention once the period of the queue has passed, if it has one; with the priority and the attributes given, else zero and none |
| `Sendings.RefusedExactly` | packages/store-memory/src/MemoryQueue.ts:111-156 | A send is refused if and only if the id is taken, or a message without a handle has its deduplication id, unless that is empty, or the body is longer than a limit other than zero; the first of these is the error |
| `Promises.ReceiveHolds` | packages/store-memory/src/MemoryQueue.ts:175-207 | A message that is handed out could be had, has one delivery more and a first receive time, and is held for the time asked for, else that of the queue, else a minute; nothing else of it changes |
| `Promises.ReceiveLeavesOthers` | packages/store-memory/src/MemoryQueue.ts:190-207 | What a receive does not hand out it leaves as it is |
| `Promises.NakReturns` | packages/store-memory/src/MemoryQueue.ts:403-413 | A message returned by its holder can be had at once unless it is delayed, counts as lapsed for a poll at the same instant, and keeps the reason and its deliveries; who does not hold it changes nothing |
| `Promises.ExtendFromNow` | packages/store-memory/src/MemoryStore.ts:279-287 | The holder of a message can hold it for a time from now on; nothing else in the store changes |
| `Promises.UpdateSets` | packages/store-memory/src/MemoryQueue.ts:384-401 | An update sets exactly what it names, fails exactly if it names a deadline without a handle or a handle not held, and changes nothing else |
| `Promises.NobodyFound` | packages/store-memory/src/MemoryQueue.ts:384-428 | An update, nak or delete of a message that is not there fails as such |
| `Promises.DeleteByHandleExactly` | packages/store-memory/src/MemoryQueue.ts:367-382 | A delete by handle removes the message with the handle and keeps the others in order |
| `Promises.PollExactly` | packages/store-memory/src/MemoryQueue.ts:324-357 | What a poll keeps, and as what: a message whose lease ended is free again, with priority and order time as before under retry, the order time of the poll under move to end, and a priority lower by the amount under decrease priority; nothing else of it changes, and any other message stays as it is |
| `Promises.PollAddsNothing` | packages/store-memory/src/MemoryQueue.ts:324-357 | A poll adds nothing |
| `Promises.PeekShows` | packages/store-memory/src/MemoryQueue.ts:225-255 | Peeking shows what can be had, what is held if asked for, and what is delayed, held or not, if asked for, for each setting of the two flags |
| `Pauses.PausedExactly` | packages/store-memory/src/MemoryQueue.ts:158-165 | A queue is paused after an operation if and only if the operation pauses it, or it was and the operation does not resume it |
| `Pauses.PausedHandsOutNothing` | packages/store-memory/src/MemoryQueue.ts:190-207 | In every run, from a pause to the next resume or the removal of the queue, no receive hands anything out or changes the list of messages, its order included |
| `Expiries.UseRenews` | packages/store-memory/src/MemoryQueue.ts:186-231 | A receive or a peek gives a queue its whole period again, also a receive of a paused queue |
| `Expiries.CreateRenews` | packages/store-memory/src/MemoryQueue.ts:78-101 | So does a create that names a period; one that does not leaves the expiry as it is, or the new queue without one |
| `Expiries.OthersKeepExpiry` | packages/store-memory/src/MemoryQueue.ts:317-322 | No other operation changes when a queue expires |
| `Expiries.RemovedExactly` | packages/store-memory/src/MemoryStore.ts:232-358 | A queue goes if and only if it is polled after its expiry, or deleted while no queue names it as its dead-letter queue |
| `Expiries.ExpiresExactly` | packages/store-memory/src/MemoryStore.ts:232-239 | In every run, after a receive or a peek and with no other use of the queue since, a poll finds it gone or removes it if and only if more than its period has passed |
| `Messages.MemoryQueueMessage.constructor` | packages/store-memory/src/MemoryQueueMessage.ts:40-51 | A new message, never received, in send order |
| `Messages.MemoryQueueMessage.MarkReceived` | packages/store-memory/src/MemoryQueueMessage.ts:61-69 | Sets deadline, fresh handle, first receive time once, and counts the delivery |
| `Messages.MemoryQueueMessage.IsAvailable` | packages/store-memory/src/MemoryQueueMessage.ts:95-102 | Neither held by an unexpired lease nor delayed |
| `Messages.MemoryQueueMessage.IsDelayed` | packages/store-memory/src/MemoryQueueMessage.ts:104-111 | The delay has not passed |
| `Messages.MemoryQueueMessage.IsNotVisible` | packages/store-memory/src/MemoryQueueMessage.ts:113-115 | Held and not delayed |
| `Messages.MemoryQueueMessage.CompareTo` | packages/store-memory/src/MemoryQueueMessage.ts:117-124 | Higher priority first, then earlier order time |
| `Messages.MemoryQueueMessage.Update` | packages/store-memory/src/MemoryQueueMessage.ts:126-136 | Changes only what the update names |
| `Messages.MemoryQueueMessage.Nak` | packages/store-memory/src/MemoryQueueMessage.ts:138-142 | Ends the lease one millisecond ago, drops the handle, keeps the reason |
| `MemoryQueues.MemoryQueue.constructor` | packages/store-memory/src/MemoryQueue.ts:61-82 | An empty queue created now, with its options and tags, that expires as they say |
| `MemoryQueues.MemoryQueue.Update` | packages/store-memory/src/MemoryQueue.ts:84-101 | New options and tags, modified now; the expiry restarts only if they set one |
| `MemoryQueues.MemoryQueue.SendMessage` | packages/store-memory/src/MemoryQueue.ts:103-144 | Appends the message and signals every waiting receiver, or refuses and changes nothing but the id counter |
| `MemoryQueues.MemoryQueue.Refusal` | packages/store-memory/src/MemoryQueue.ts:111-125 | Which error is raised, in the order of the checks |
| `MemoryQueues.MemoryQueue.IsDuplicateMessage` | packages/store-memory/src/MemoryQueue.ts:146-156 | Some message without a handle has this deduplication id |
| `MemoryQueues.MemoryQueue.Pause` | packages/store-memory/src/MemoryQueue.ts:158-160 | Only the flag changes |
| `MemoryQueues.MemoryQueue.Resume` | packages/store-memory/src/MemoryQueue.ts:162-165 | Clears the flag, empties the list of triggers and signals each once |
| `MemoryQueues.MemoryQueue.TriggerAll` | packages/store-memory/src/MemoryQueue.ts:167-173 | Empties the list and signals each trigger that was in it |
| `MemoryQueues.MemoryQueue.ReceivePass` | packages/store-memory/src/MemoryQueue.ts:183-222 | One turn of the receive loop equals one scan, and on a paused queue hands out nothing and leaves the list as it is; it answers when the batch is full or time is up, else it leaves a fresh blocked trigger in the list |
| `MemoryQueues.MemoryQueue.ReceiveAvailable` | packages/store-memory/src/MemoryQueue.ts:192-206 | The loop over the sorted list equals the scan function |
| `MemoryQueues.MemoryQueue.SleepOrWaitForEvent` | packages/store-memory/src/MemoryQueue.ts:269-273 | A fresh trigger joins the list and is waited on |
| `MemoryQueues.MemoryQueue.PeekMessages` | packages/store-memory/src/MemoryQueue.ts:225-255 | The first matching messages of the sorted list; the queue is touched and sorted |
| `MemoryQueues.MemoryQueue.PeekAvailable` | packages/store-memory/src/MemoryQueue.ts:234-254 | The loop equals filtering the list up to the maximum |
| `MemoryQueues.MemoryQueue.GetMessage` | packages/store-memory/src/MemoryQueue.ts:257-267 | The first position with the id in the sorted list, or none |
| `MemoryQueues.MemoryQueue.GetInfo` | packages/store-memory/src/MemoryQueue.ts:279-297 | The three counts of the if-chain, and that they add up to the number of messages |
| `MemoryQueues.MemoryQueue.IsExpired` | packages/store-memory/src/MemoryQueue.ts:317-322 | The expiry has strictly passed |
| `MemoryQueues.MemoryQueue.Poll` | packages/store-memory/src/MemoryQueue.ts:324-357 | The backward loop with splices equals the poll function and answers the exhausted messages, last first |
| `MemoryQueues.MemoryQueue.UpdateMessageVisibilityByReceiptHandle` | packages/store-memory/src/MemoryQueue.ts:359-365 | Sets the deadline of the holder of the handle, or fails and changes nothing |
| `MemoryQueues.MemoryQueue.DeleteMessageByReceiptHandle` | packages/store-memory/src/MemoryQueue.ts:367-382 | Removes exactly the messages with the handle, in place and in order |
| `MemoryQueues.MemoryQueue.UpdateMessageById` | packages/store-memory/src/MemoryQueue.ts:384-401 | Updates the message, or fails with the error of the first check that does and changes nothing |
| `MemoryQueues.MemoryQueue.Nak` | packages/store-memory/src/MemoryQueue.ts:403-413 | Returns the message with its handle, or fails and changes nothing |
| `MemoryQueues.MemoryQueue.Delete` | packages/store-memory/src/MemoryQueue.ts:415-428 | The backward delete loop, including what it has removed when it throws |
| `MemoryQueues.MemoryQueue.Purge` | packages/store-memory/src/MemoryQueue.ts:459-461 | No message is left |
| `MemoryQueues.MemoryQueue.MoveMessages` | packages/store-memory/src/MemoryQueue.ts:463-481 | The backward move loop equals the move function, with the exact count, also onto itself |
| `MemoryStores.MemoryTopic.SubscribeQueue` | packages/store-memory/src/MemoryTopic.ts:41-49 | Adds a subscription with a fresh id unless the queue has one, and answers its id |
| `MemoryStores.MemoryTopic.PublishMessage` | packages/store-memory/src/MemoryTopic.ts:51-61 | Looks all queues up first, then sends to each under an id of its own; stops where a send fails. Any receiver waiting on a queue is signalled, and taken off its list, exactly if the queue was sent to |
| `MemoryStores.MemoryTopic.DeleteSubscription` | packages/store-memory/src/MemoryTopic.ts:63-69 | Removes the first subscription with the id, or fails |
| `MemoryStores.MemoryStore.CreateQueue` | packages/store-memory/src/MemoryStore.ts:111-150 | Creates or reconfigures the queue of the trimmed name, or fails with the error of the first check that does |
| `Lifecycles.CreateFailsExactly` | packages/store-memory/src/MemoryStore.ts:111-150 | Which error a create of a queue ends with, as conditions on names, options and targets, and that it changes nothing then |
| `Lifecycles.CreateExactly` | packages/store-memory/src/MemoryStore.ts:111-150 | The queue has the options asked for; one that was there keeps its messages, its pause and its age, a new one is empty and not paused; no other queue changes |
| `Lifecycles.OptionsStay` | packages/store-memory/src/MemoryQueue.ts:84-101 | Only a create changes the options of a queue |
| `Lifecycles.TargetsStayExactly` | packages/store-memory/src/MemoryStore.ts:111-358 | If all dead-letter queues exist, they all exist after an operation if and only if it is not a poll that finds one of them expired while the queue that names it is not |
| `Lifecycles.TargetsAlwaysThere` | packages/store-memory/src/MemoryStore.ts:111-358 | In every run in which none expires that way, every dead-letter queue exists at every moment |
| `Lifecycles.TopicsAlwaysThere` | packages/store-memory/src/MemoryStore.ts:447-457 | In every run every dead-letter topic exists at every moment |
| `Basics.TrimExactly` | packages/store-memory/src/MemoryStore.ts:112-115 | Trimming a name cuts off white space at both ends and nothing else |
| `MemoryStores.MemoryStore.DeleteQueue` | packages/store-memory/src/MemoryStore.ts:347-358 | Removes the queue unless it is missing or a dead-letter queue of another |
| `MemoryStores.MemoryStore.MoveMessages` | packages/store-memory/src/MemoryStore.ts:152-156 | Moves between two queues of the store and answers the count |
| `MemoryStores.MemoryStore.SendMessage` | packages/store-memory/src/MemoryStore.ts:158-161 | Sends under a fresh id and answers it; any receiver is signalled exactly if the message was added to its queue |
| `MemoryStores.MemoryStore.RemoveExpiredQueues` | packages/store-memory/src/MemoryStore.ts:232-239 | Removes exactly the expired queues |
| `MemoryStores.MemoryStore.PollOne` | packages/store-memory/src/MemoryStore.ts:242-268 | One turn of the pass: poll the queue, then forward what is exhausted; any receiver is signalled exactly if its queue was sent to |
| `MemoryStores.MemoryStore.PollQueues` | packages/store-memory/src/MemoryStore.ts:241-277 | The pass over the record of queues equals the pass function, and signals any receiver exactly if its queue was sent to |
| `MemoryStores.MemoryStore.Poll` | packages/store-memory/src/MemoryStore.ts:217-222 | Expired queues go first, then the pass; receivers are signalled by the pass, and those of a queue that expired hear nothing |
| `MemoryStores.MemoryStore.CreateTopic` | packages/store-memory/src/MemoryStore.ts:394-413 | A new topic of the trimmed name takes the place of one with the same tags; its subscriptions are lost |
| `Lifecycles.CreateTopicExactly` | packages/store-memory/src/MemoryStore.ts:394-413 | When a create of a topic fails, and that one that succeeds leaves it without subscriptions |
| `Lifecycles.SubscribeExactly` | packages/store-memory/src/MemoryTopic.ts:41-49 | Subscribing adds the queue behind the subscriptions, unless it is among them |
| `Lifecycles.UnsubscribeExactly` | packages/store-memory/src/MemoryTopic.ts:63-69 | The first topic with a subscription of the id loses the first such one; without one nothing changes |
| `Lifecycles.TopicRemovedExactly` | packages/store-memory/src/MemoryStore.ts:447-457 | A topic goes if and only if it is deleted while no queue names it as its dead-letter topic |
| `MemoryStores.MemoryStore.DeleteTopic` | packages/store-memory/src/MemoryStore.ts:447-457 | Removes the topic unless it is missing or a dead-letter topic of a queue |
| `MemoryStores.MemoryStore.SubscribeQueue` | packages/store-memory/src/MemoryStore.ts:436-440 | Subscribes an existing queue to an existing topic and answers the id of the subscription |
| `MemoryStores.MemoryStore.PublishMessage` | packages/store-memory/src/MemoryStore.ts:442-445 | Publishes to an existing topic; any receiver is signalled exactly if its queue was sent to |
| `WakeGuards.PublishWakesExactly` | packages/store-memory/src/MemoryTopic.ts:51-61 | A publish signals the receivers of a queue if and only if all subscribed queues exist and the queue is subscribed and takes its copy, as do those before it |
| `WakeGuards.PassWakesExactly` | packages/store-memory/src/MemoryStore.ts:241-277 | A pass that succeeds signals the receivers of exactly the queues its letters are addressed to, in their order |
| `Triggers.BlockedExactly` | packages/core/src/Trigger.ts:10-68 | The first wait on a trigger stays unresolved if and only if it was asked for and neither an event, before or after, nor its timeout came |
| `Triggers.StaysPendingExactly` | packages/core/src/Trigger.ts:10-68 | If a trigger is waited on again, a wait stays unresolved if and only if its own timer has not run out and every event since came only after the timer of an earlier wait, whose callback forgets the wait that is on |
| `Triggers.StaleTimerLosesEvent` | packages/core/src/Trigger.ts:18-30 | Such a run: the timer of a settled wait runs out during a second one, and the event that comes then does not resolve it |
| `Triggers.StaleSignalHarmless` | packages/core/src/Trigger.ts:58-68 | What a wait has been answered stays answered, whatever happens to the trigger later |
| `Triggers.SignalReaches` | packages/store-memory/src/MemoryQueue.ts:167-173 | After signalling a list, every trigger on it has been reached and the others are as they were |
| `Triggers.Trigger.Wait` | packages/core/src/Trigger.ts:10-56 | Answers a remembered event at once, refuses while a wait is on, and otherwise begins one, also after earlier ones |
| `Triggers.Trigger.Trigger` | packages/core/src/Trigger.ts:58-68 | Resolves the wait later, or remembers the event |
| `Triggers.Trigger.TimerCallback` | packages/core/src/Trigger.ts:21-30 | Ends its wait with a timeout unless it has ended, and forgets the wait that is on |
| `Triggers.Trigger.ResolveCallback` | packages/core/src/Trigger.ts:63-65 | Ends the wait with the event unless it has ended |
| `WakeUp.NoLostWakeUp` | packages/store-sql/src/SqlStore.ts:369-400 | In every interleaving, while a receiver is blocked every send committed to its queue since its query, indeed since it registered, still has its notification to come |
| `WakeUp.QueryAfterRegistration` | packages/store-sql/src/SqlStore.ts:369-380 | The query of a blocked receiver came after it had added its trigger |
| `WakeUp.NotificationReaches` | packages/store-sql/src/SqlStore.ts:436-447 | After a notification no receiver of that queue is blocked |
| `WakeUp.NotificationLeadsToQuery` | packages/store-sql/src/SqlStore.ts:369-400 | A notification leads a blocked receiver of the queue to its next query, which sees every commit there is |
| `WakeUp.QuiescentMissesNothing` | packages/store-sql/src/SqlStore.ts:277-316 | When no notification is pending, a blocked receiver has missed no send |
| `WakeUp.MutexMissesNothing` | packages/store-sql/src/dialect/SqliteDialect.ts:17-53 | On SQLite, whose transactions exclude each other, a blocked receiver was not published to since its query, although publishes notify before they commit |
| `WakeUp.ConnectedHearsAll` | packages/store-sql/src/dialect/PostgresDialect.ts:58-115 | While the listening connection of Postgres stays up, no publish goes unheard |
| `WakeUp.MissesExactly` | packages/store-sql/src/SqlStore.ts:318-343 | What a blocked receiver misses, committed after its query and with no notification to come, is exactly a publish, without the mutex, that no connection took up |
| `WakeUp.PublishIsMissed` | packages/store-sql/src/SqlStore.ts:318-343 | A run without mutex and connection in which a publish is missed: it has notified, a receiver comes, queries and waits, and then it commits |
| `WakeUp.MayMissExactly` | packages/store-sql/src/SqlStore.ts:318-343 | A run that leaves the connection as it is can miss a publish if and only if there is neither the mutex nor the connection |
| `WakeUp.MayEverMissExactly` | packages/store-sql/src/SqlStore.ts:318-343 | With a connection that may go down, if and only if there is no mutex |
| `SqlStores.SqlStore.AddTrigger` | packages/store-sql/src/SqlStore.ts:429-434 | A fresh trigger joins the list of the queue: the registration step of the `WakeUp` machine |
| `SqlStores.SqlStore.TriggerAll` | packages/store-sql/src/SqlStore.ts:436-447 | Takes the list of the queue out of the record and signals each trigger on it: the notification of the `WakeUp` machine |
| `SqlStores.SqlStore.AfterQuery` | packages/store-sql/src/SqlStore.ts:376-398 | Answers when something was found or time is up, else waits on the trigger of this pass: the answering and the waiting step of the `WakeUp` machine |
| `SqlStores.SqlStore.UpdateMessage` | packages/store-sql/src/SqlStore.ts:695-706 | Refuses a deadline without a handle, then an unknown queue, then what the database access refuses; changes the row only if none does |
| `Waiters.BlockedMissesNothing` | packages/store-memory/src/MemoryQueue.ts:209-216 | In every interleaving a blocked receiver of a memory queue has its trigger in the list, and nothing was sent or resumed since its scan |
| `Waiters.EventWakesAll` | packages/store-memory/src/MemoryQueue.ts:142-173 | A send or resume empties the list and leaves no receiver blocked |
| `Waiters.EventLeadsToScan` | packages/store-memory/src/MemoryQueue.ts:175-223 | A send or resume leads a receiver that waits to its next scan |
| `Waiters.EventRefines` | packages/store-memory/src/MemoryQueue.ts:167-173 | What sendMessage and resume do to the trigger objects is the event step of the machine |
| `Waiters.PassRefines` | packages/store-memory/src/MemoryQueue.ts:209-216 | What a receive pass that ends in a wait does to them is its scan step |
| `Sleepers.FreesExactly` | packages/store-memory/src/MemoryQueue.ts:142-481 | One operation that does not signal the receivers of a queue without a receivable message: there is one afterwards if and only if the operation frees it, by time, nak, a deadline set in the past, a move in, or a create that sets a higher limit; each by conditions on the store before |
| `SleepRuns.BlockedBeside` | packages/store-memory/src/MemoryQueue.ts:175-223 | In every run of the store and its receivers together: a receiver that is blocked since a pass over a queue that was not paused coexists with a message it could have if and only if an operation since freed one that was not taken again |
| `SleepRuns.LastPass` | packages/store-memory/src/MemoryQueue.ts:142-223 | A blocked receiver has a pass in which it fell asleep, and no operation since signalled it |
| `SleepRuns.MovedBeside` | packages/store-memory/src/MemoryQueue.ts:463-481 | A run from an empty store in which a receiver sleeps on beside a message that was moved in |
| `Sleepers.ScanLeavesNothing` | packages/store-memory/src/MemoryQueue.ts:190-207 | A scan that did not fill its room leaves no receivable message behind |
| `Sleepers.MoveGoesUnnoticed` | packages/store-memory/src/MemoryQueue.ts:463-481 | A move of an available message into a queue with nothing to be had makes it receivable there without a signal |
| `SqlTables.AnswersTie` | packages/store-sql/src/sql/Sql.ts:219-237 | All answers to the receive query are equally long and agree, position by position, on priority and order time |
| `RowLeases.RowLeaseExclusive` | packages/store-sql/src/sql/Sql.ts:219-253 | Between two statements of a run that hand out one row the first deadline strictly passed, or the row was removed or had its lease changed under the first handle |
| `SqlTables.ReceiveEach` | packages/store-sql/src/sql/Sql.ts:239-253 | Receiving gives exactly the listed rows a deadline, one delivery more and a handle of their own, and never fails on an index |
| `RowPromises.InsertExactly` | packages/store-sql/src/sql/Sql.ts:198-216 | An insert fails if and only if the queue has the id or a row without a handle with the deduplication id; else it adds one row, to be found from the delay on unless that is zero, and nothing else changes |
| `RowPromises.AnswerListsFirst` | packages/store-sql/src/sql/Sql.ts:219-237 | The receive query lists visible rows under the limit, by priority and then order time; what it leaves out comes no earlier, and only for want of room |
| `RowPromises.ReceiveHides` | packages/store-sql/src/sql/Sql.ts:239-253 | A row that is handed out is hidden until its deadline under a handle of its own, with one delivery more; nothing else of it changes |
| `RowPromises.NakFrees` | packages/store-sql/src/sql/Sql.ts:619-632 | A row that is returned can be found at once as long as its deliveries allow, counts as visible and no longer as held, and keeps its handle, the reason and every other field |
| `RowPromises.OthersFail` | packages/store-sql/src/sql/Sql.ts:619-632 | Who does not hold the row neither returns nor changes it |
| `RowPromises.ExtendHides` | packages/store-sql/src/sql/Sql.ts:289-299 | A row that is held longer or shorter is hidden until then; the other rows stay |
| `RowPromises.ChangeSets` | packages/store-sql/src/dialect/Dialect.ts:219-250 | An update sets exactly what it names, in the row it names |
| `RowPromises.DeletesExactly` | packages/store-sql/src/sql/Sql.ts:106-333 | Which rows each delete leaves: by id, by handle, over retention, over the receive count, and all of a queue |
| `RowPromises.SetsBack` | packages/store-sql/src/sql/Sql.ts:370-398 | The rows of the queue whose lease ended lose deadline and handle and go to the end or lose priority, and the others stay; the statement fails if and only if two rows of one deduplication id would be without a handle |
| `RowPromises.DeadLettersExactly` | packages/store-sql/src/sql/Sql.ts:351-368 | The rows of the queue whose lease ended at the limit start anew in the dead-letter queue; all others are as they were |
| `RowPromises.DeadLetterFails` | packages/store-sql/src/sql/Sql.ts:351-368 | That statement fails if and only if a row to go finds its id taken there, or its deduplication id at a row without a handle there or at another row to go |
| `RowPromises.MovesExactly` | packages/store-sql/src/sql/Sql.ts:274-286 | A move takes exactly the visible rows of the queue along, with the retention of the new one, unless one of them clashes |
| `SqlTables.GoodAfter` | packages/store-sql/src/sql/Sql.ts:198-461 | In every state of every run of statements a row with a deadline or a handle is past its delay |
| `SqlTables.OverCountExactly` | packages/store-sql/src/sql/Sql.ts:324-333 | The delete over the receive count deletes the lapsed rows of its queue at the limit, as meant, if and only if no row of another queue is at the limit and those of its own at the limit are those that lapsed |
| `SqlTables.DeleteWipesOthers` | packages/store-sql/src/sql/Sql.ts:324-333 | A run in which it empties the table: the held row of another queue, and a row of its own received no more often than allowed |
| `SqlTables.CountsExactly` | packages/store-sql/src/dialect/Dialect.ts:460-483 | The three counts miss no row and count twice exactly the rows both delayed and held |
| `SqlTables.CountsPartition` | packages/store-sql/src/dialect/Dialect.ts:460-512 | In every reachable state the counts are disjoint and sum to the number of rows |
| `Dialects.Dialect.ReceiveMessages` | packages/store-sql/src/dialect/Dialect.ts:276-309 | Updates each row of the answer with a handle of its own; the messages answered show the rows as they were before |
| `Dialects.Dialect.GetQueueInfo` | packages/store-sql/src/dialect/Dialect.ts:460-483 | Three counts, each of the table its query sees; their sum is the number of rows if it is one table |
| `Dialects.ReceivedCountsTwice` | packages/store-sql/src/dialect/Dialect.ts:470-474 | A row received between the first count and the others is counted twice |
| `Dialects.Dialect.NakMessage` | packages/store-sql/src/dialect/Dialect.ts:252-274 | Changes the row held under the handle, or tells apart a missing message and a wrong handle |
| `Dialects.Dialect.UpdateMessage` | packages/store-sql/src/dialect/Dialect.ts:219-250 | Changes the row, or fails with the right error and changes nothing, also when no field is named |
| `Dialects.Dialect.MoveMessages` | packages/store-sql/src/dialect/Dialect.ts:683-697 | Either every visible row of the source is in the target, changed in its retention alone, every other row is where it was, and the count is that of the visible rows; or nothing changes, if and only if a visible row clashes with one of another queue it would join |
| `Dialects.MoveExactly` | packages/store-sql/src/sql/Sql.ts:274-286 | When the statement violates an index, and what it makes of each row otherwise |
| `Dialects.SelectedById` | packages/store-sql/src/sql/Sql.ts:619-632 | The primary key selects at most one row, and such an update cannot break an index |
| `DiffRender.FrameWrites` | packages/tui/src/render/Renderer.ts:184-212 | Each frame writes exactly the changed cells, each once, never the bottom right one, and leaves the style plain |
| `DiffRender.FrameShowsExactly` | packages/tui/src/render/Renderer.ts:154-217 | A frame leaves the terminal showing its buffer if and only if no two characters it writes share a cache text but not a style |
| `DiffRender.DiffRefinesRedraw` | packages/tui/src/render/Renderer.ts:154-217 | The differential output has the effect of a full redraw on every cell |
| `DiffRender.OutputEffect` | packages/tui/src/render/Renderer.ts:154-217 | The skipped cursor moves and style switches make no difference: each character lands at its place in the cached style |
| `ColorRuns.SharedTextShowsWrong` | packages/tui/src/render/Renderer.ts:157-176 | Two texts whose colours make one cache text: in the first frame the second is shown on the background of the first |
| `ColorRuns.WrongColorsShow` | packages/tui/src/render/Renderer.ts:157-176 | Such a frame: "yellowgreen" on "yellow" beside "yellow" on "greenyellow" |
| `ColorRuns.StaleColorsShow` | packages/tui/src/render/Renderer.ts:143-152 | A run of three frames whose last, without any text, shows the background of a text two frames before, where a new renderer shows a plain blank |
| `HexColors.HexRunShows` | packages/tui/src/render/Renderer.ts:154-217 | In every run whose trees only use colours of seven characters, as #rrggbb, the terminal shows each painted buffer, whatever is resized in between |
| `Frames.RunShows` | packages/tui/src/render/Renderer.ts:81-141 | After any sequence of frames and resizes the terminal shows value and style of the last painted buffer in every cell but the bottom right one |
| `Frames.RunShowsExactly` | packages/tui/src/render/Renderer.ts:81-141 | A frame that follows fine ones, resized or not, shows its buffer if and only if it is faithful |
| `Frames.RunColorsExactly` | packages/tui/src/render/Renderer.ts:143-152 | A cell looks as on a new renderer if and only if the frame or the one before it came with a new size, its colours two frames before were those of a new buffer, or an item is painted on it |
| `Frames.RunForeground` | packages/tui/src/render/Renderer.ts:161-170 | A cell is shown without its foreground colour if and only if its background colour is set and not empty, and inverse exactly as it was painted |
| `Frames.RunCursor` | packages/tui/src/render/Renderer.ts:125-131 | After each frame the cursor is shown if and only if the tree has a cursor item, at the sum of the offsets on the way to the first one |
| `Frames.RunWrites` | packages/tui/src/render/Renderer.ts:184-212 | Each frame of a run writes exactly the cells whose text, colours or inverse flag differ from the buffer shown before, once each |
| `Frames.ResizeRedraws` | packages/tui/src/render/Renderer.ts:111-116 | After a resize every cell is rendered |
| `Paint.ChangedIsClipped` | packages/tui/src/render/Renderer.ts:230-357 | Painting a tree changes only cells inside the rectangles of the item that marks them and of all items above it, and inside the container |
| `Paint.StrokesAreClipped` | packages/tui/src/render/Renderer.ts:230-357 | A cell is only ever touched through a chain of clip rectangles that all contain it |
| `Clipping.StrokesAreSeen` | packages/tui/src/render/Renderer.ts:230-357 | The clip rectangles amount to this, cell by cell: an item paints where its rectangle and what its parent leaves it meet; a bordered parent leaves a child that may not paint on borders the visible cells with all four neighbours visible, and any other child all of them |
| `Clipping.RimExactly` | packages/tui/src/render/Renderer.ts:342-354 | On the rim of what is visible of a bordered box come its border and then only the children that may paint there |
| `Clipping.BorderShows` | packages/tui/src/render/Renderer.ts:295-340 | Every visible cell of a border shows its character in the colour of the border, unless a child that may paint there, or an item below it, does |
| `Clipping.BorderCharacters` | packages/tui/src/render/Renderer.ts:319-337 | Which characters these are: corners, sides, and blanks inside |
| `Clipping.WithoutBorder` | packages/tui/src/render/Renderer.ts:295-354 | A box without a border colour has no border, and its children may paint wherever it can be seen |
| `Clipping.GlyphShows` | packages/tui/src/render/Renderer.ts:249-284 | Each glyph of a text shows as many columns to the right as there are glyphs before it in its line, in the colours of its token, else those of the text, where nothing as high is |
| `Clipping.NoGlyph` | packages/tui/src/render/Renderer.ts:249-284 | A text does nothing to the cells beside, above and below its lines |
| `Paint.HighestShows` | packages/tui/src/render/Renderer.ts:269-280 | Among texts the first of those with the highest z-index shows |
| `Paint.NeverLower` | packages/tui/src/render/Renderer.ts:269-280 | Painting never lowers the z-index of a cell |
| `Paint.PaintedAfreshExactly` | packages/tui/src/render/Renderer.ts:143-152 | Painting a cleared buffer gives a cell the look it would have on a new one if and only if its old colours were blank or something is painted over them |
| `Paint.AbsoluteSums` | packages/tui/src/render/Renderer.ts:219-228 | An absolute position and z-index is the sum of those on the way down; nothing else of an item changes |
| `Geometry.RectIntersection` | packages/tui/src/render/Geometry.ts:23-42 | Exactly the cells in both rectangles; undefined exactly when there is none |
| `Renderers.ClearBuffer` | packages/tui/src/render/Renderer.ts:143-152 | Resets value, inverse and z-index of every cell, and not its colours |
| `Renderers.RenderText` | packages/tui/src/render/Renderer.ts:249-284 | The loops over lines, tokens and glyphs put each mark into its cell, clipped and by z-index |
| `Renderers.RenderBorder` | packages/tui/src/render/Renderer.ts:295-340 | The loops over the box write border and blanks into the visible cells of the box |
| `Renderers.RenderItem` | packages/tui/src/render/Renderer.ts:230-247 | Painting in place equals drawing the strokes of the tree on every cell |
| `Renderers.RenderBuffer` | packages/tui/src/render/Renderer.ts:154-217 | The loop with its local variables writes the differential output |
| `Renderers.Renderer.Render` | packages/tui/src/render/Renderer.ts:81-141 | One frame paints one buffer, writes what differs from the other, places the cursor, and lets the buffers change places; a first frame of no size throws |
| `Renderers.FindCursorItem` | packages/tui/src/render/RenderItem.ts:42-56 | The recursive search finds the first cursor item of the tree |

## Left out

- MemoryQueues.MemoryQueue: its list holds message values that are replaced in place, not references to message objects, so that a caller keeps a reference to a message the queue updates later is not captured; the message object is modelled on its own as `Messages.MemoryQueueMessage`.
- MemoryQueues.MemoryQueue.ReceivePass: one turn of the receive loop up to its `await`; what happens between turns is `Waiters`, where the messages themselves do not appear. A batch collected over several turns may hold a message twice when its lease is short, so distinct ids are only stated for one scan (`Leases.ScanOnce`).
- Fifo.FifoRun: only for queues that retry, since the other two behaviours reorder on purpose, and without moves in, which append in reverse.
- Limits.NeverStuck: without moves into the queue; `Limits.StuckExactly` says what a move can bring.
- Limits.DedupRun: without moves into the queue, which do not check; a message returned by nak is checked like a new one.
- Failures.SurvivesExactly: one turn of a pass; that a pass that fails ends with the turn that fails is `Failures.PassStops`.
- PollPass.PollTwice: for retention periods that are not negative; with a negative one an arrival is dropped at once.
- WakeUp.NoLostWakeUp: resumes, notifications for other changes of a row and timeouts are steps that may happen at any time; a send that fails has no step. Time limits are not modelled: a timeout may happen whenever a wait is on. On the one connection of SQLite a plain send made while a publish is open joins its transaction and is undone if that rolls back; here it commits at once. One process is modelled: another one on the same SQLite file would share neither mutex nor notifications.
- SleepRuns.BlockedBeside: for a pass over a queue that was paused nothing is claimed; what is there then can be had only after the resume, which signals. Several receivers of one queue are modelled, one queue at a time; a queue that is removed takes its receivers out of the picture.
- SqlTables.IsAnswer: Postgres skips rows that another transaction has locked (`FOR UPDATE SKIP LOCKED`, packages/store-sql/src/sql/Sql.ts:235), so there an answer may leave out rows that come earlier.
- WakeUp.Step: the connection may come back by the step `Connects`; in the source the handler of a lost connection finds the old client still set and throws (packages/store-sql/src/dialect/PostgresDialect.ts:58-71), so that it never does. The step only adds runs, and those that miss a publish do without it.
- SqlTables.GoodAfter: statements of a transaction that is rolled back are not undone by a step; each state before and after is covered. Messages without a deduplication id stand for those whose own id is stored there.
- Frames.RunShows: characters are one column wide and no glyph is empty.
- Stores.Apply: a receiver that is blocked on a queue object which is then deleted or expires goes on scanning that object, though the store no longer has it (packages/store-memory/src/MemoryStore.ts:236, 357); a run here only receives from queues of the store.
- Methods of the store that only find a queue and call its method (receive, peek, update, nak, delete, pause, resume, purge); as operations of a run they are covered.
- Batch sends and deletes, which repeat the single operation; the batch delete of the source reports an id that occurs twice by its last outcome.
- The poll loop of the SQL store, its migrations, save points, and caches of queue and topic infos; it polls differently from the memory store and no agreement is claimed.
- Users and passwords, configuration, logging, the REST, Keda and Prometheus servers and the generated clients.
- The rest of the terminal interface: elements, layout, key handling, and the parsing of escape sequences into tokens; items come with integer rectangles, texts with their glyphs.
- What two colour names look like: styles are compared by the names that were asked for.
