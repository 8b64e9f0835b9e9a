# Verification of the durable execution engine

A Dafny model of the engine that makes TypeScript workflows durable, with proofs of what it promises over whole
runs: crashes, recoveries, duplicate executions, serialization failures, overlapping transactions and failing
batches may happen anywhere.  `dafny verify dfyconfig.toml` checks the whole project.

A run is always a sequence of labels; a label that is not enabled changes nothing, so a statement about every
label sequence is a statement about every interleaving.  Code that updates fields or tables step by step is also
given as classes whose methods are proved to take exactly the steps of these runs.

## The parts

**Durable workflows.** `Workflows` has programs as deterministic functions from outcomes to the next operation;
`DurableSteps` has each database transaction of an execution as one step on the user database, the two output tables,
events and mailboxes, with the in-memory buffer of read-only results.  `DurableRuns` interleaves any number of
executions and proves that effects happen exactly once and that executions agree; `DurableMessages` does the same for
messages and events.  `CleanRuns` finds the invariant that ties tables, buffers and histories together, for runs in
which no buffered read is lost; `CrashFree` draws prefix durability and event order from it, `Agreement` when
executions agree, when their outcome is final and that stored outcomes are that one, and `Refinement` shows that such
runs are runs of a machine that never crashes, with its mailboxes and events.  `Limits` gives the exact conditions
under which the guarantees hold and runs that break them.  `OperationMoves` has
whole operations, retries included, as sequences of the steps, and `OperationAnswers` what they return and leave
behind, told by what their bodies do; `WorkflowContexts` is the context object, proved to do both.

**Messages and events.** `Mailboxes` defines the abstract first-in-first-out mailbox, the timestamped rows of
Postgres and the lists of FoundationDB; `MailboxRuns` proves conservation, order and that both stores refine the
mailbox, whose operations are those of the durable workflows (`DurableMessages.ExchangeIsMailbox`); `MailboxStores` has
both stores as classes.

**Workflow queue.** `WorkflowQueue` is the claim transaction with its loop and counters, `QueueRuns` lets claim
transactions overlap under snapshot isolation, `QueueLimits` proves the concurrency limit and the order of claims,
`QueueRates` the sliding-window rate limit, and `QueueLateness` that it holds if and only if no snapshot is late by
more than a millisecond.

**Schedules.** `Crontab` is the chain of text rewritings of a crontab, on characters; `CronMeaning` and
`CronCorrectness` prove that it keeps the meaning of a field, with numbers written with leading zeros or without, and
that validation is exact; `CronWeekdays` treats the weekday field, whose first 7 is replaced by 0 in the text,
and `CronNames` the names of months and weekdays.
`TimeMatchers` matches whole crontabs and searches for the next time; `Schedulers` proves that executors together skip
no scheduled time; `DetachableLoops` is the loop object.

**The rest of the machinery.** `FlushBuffers` and `FlushResults` are the write-behind flush loops (over `Batches`),
`DeadLetters` the counting of recovery attempts, `DebugReplays` the debugger's replay and `DebugRuns` its use on
what durable runs leave behind, `Codec` the encoding of recorded values, `Decimals` and `Options` shared vocabulary.

## Where the code falls short of its promises

Each of these is proved, with the condition under which the promise does hold where there is one.

- The result buffer is cleared before COMMIT (src/workflow.ts:708), so a serialization failure at COMMIT of a writing
  transaction loses buffered reads: harmless if and only if nothing was buffered.
- `getEvent`, `sleep` and the `getStatus` of a retrieved workflow record themselves without flushing
  (src/workflow.ts:935-963, src/system_database.ts:755-758): harmless if and only if nothing was buffered; otherwise a
  replay can follow a history that never happened.
- A `getEvent` that waits records the end of its wait under its second identifier before it has read anything, also
  without flushing (src/system_database.ts:497-508, 687): again harmless if and only if nothing was buffered.  Otherwise
  a replay can take that time for the result of a step.
- The output of a read-only transaction whose COMMIT fails stays in the buffer (src/workflow.ts:702).  A retry that
  succeeds replaces it; if the body of a retry throws, recording the error meets the execution's own identifier
  (src/workflow.ts:740-743), and the execution waits for the outcome of another one that need not exist
  (src/dbos-executor.ts:700-704).  That happens if and only if a COMMIT of the same operation failed before.
- Reads left in the buffer when a workflow returns are written in the background (src/dbos-executor.ts:735): if the
  executor crashes before, a recovery may read again and return another value.  The outcome is final once all reads
  are recorded; if they are whenever an outcome is published, everyone returns the same one, those who take it over
  included.
- A workflow that throws rethrows before its buffer is handed to the background flush (src/dbos-executor.ts:706-739):
  the reads it made last are never written.
- A recorded transaction error is not returned by a replay: the lookup throws it, the error path tries to record it
  again and meets its own row (src/workflow.ts:261-262, 738-743), so the replay ends in a conflict.  The comment at
  src/workflow.ts:670 promises the original result.  A replay gets past a recorded transaction if and only if the row is
  an output.
- The DELETE of `recv` matches the timestamp only (src/system_database.ts:602-607): exactly one message is taken if
  and only if its timestamp is unique.  Of two messages sent in the same millisecond one is lost.
- A claim reads its clock before its snapshot (src/system_database.ts:910): another dispatcher's garbage collection
  in between can hide recent starts.  Every rate limit holds if and only if no snapshot is taken after a deletion whose
  clock is more than a millisecond ahead.
- The first 7 in the text of a weekday field becomes 0 before ranges are expanded (src/scheduler/crontab.ts:62).  The
  field is matched on the days it means if and only if that does no harm: a list whose first 7 is a number of its own
  is safe unless a step leaves out 7 and nothing else lists 0; a range must not have it unless the rest of the list
  makes up for it; the 7 of a step is read as 0, so every seventh day is refused although Sunday is meant; and 70 is
  accepted as Sunday.
- Recovery attempts are counted and judged by two statements (src/system_database.ts:186-225): a workflow that is
  pending with no recovery under way has no attempts left if and only if a recovery was cut off between them after
  using up the last.  Dispatching a queued workflow counts as a recovery (src/wfqueue.ts:71), so with a limit of one it
  never runs.
- One row that exists already fails the whole batch of the result flush (src/dbos-executor.ts:1040-1087), every time,
  over all later flushes.
- Inputs buffered after recording the workflow's error has failed (src/dbos-executor.ts:719-731) have no status to refer
  to: they are never written, and neither is anything in a batch with them.
- A sleep of zero takes no identifier live but one in the debugger (src/workflow.ts:957-961), which then answers with
  the outcome of another operation.

## Model

| member | source | states |
|---|---|---|
| Workflows.IdsIncrease | src/workflow.ts:213-215 | function identifiers grow along a history and stay below the counter |
| Workflows.SameNext | src/workflow.ts:213-215 | two histories of one deterministic program that agree so far go on with the same operation under the same identifier |
| DurableRuns.EffectsHappenExactlyOnce | src/workflow.ts:638-750 | in every run the user database is exactly the committed effects in order, each effect has one output row and each row of a writing transaction one effect |
| DurableRuns.RecordedOutcomesAreHeld | src/workflow.ts:659-675 | in every run each completed operation that is durable when it completes is held by every execution with the outcome its row records |
| DurableRuns.ExecutionsAgree | src/dbos-executor.ts:683-739 | any two executions of one workflow, at any point of any run, hold the same outcome of the same operation under the same identifier, unless it is a read-only transaction that is not recorded with the outcome one of them holds |
| DurableRuns.HistoriesFollowPrograms | src/workflow.ts:638-644 | in every run each execution has done what its program asks for, under the identifiers the counter gives |
| DurableRuns.MoveGrows | schemas/user_db_schema.ts:14-24 | no transaction changes or removes an output row that exists |
| DurableRuns.CompletedIsBacked | src/workflow.ts:333-347 | an operation other than a buffered read completes only with its outcome recorded |
| DurableMessages.MessagesOnceAndInOrder | src/system_database.ts:513-640 | in every run each recorded send has delivered its message once, what was sent to an address is what recorded receives have returned there, in order, followed by what waits, and stored events were set |
| DurableMessages.ReceiveTakesTheNext | src/system_database.ts:547-617 | in every run a receive that is recorded takes the first message sent to its address that none has taken, and nothing if and only if there is none |
| DurableMessages.ExchangeIsMailbox | src/system_database.ts:513-640 | what the durable runs do to mailboxes and events is the operation of the mailbox that both stores refine, with its reply |
| CleanRuns.CleanRunsStayExact | src/workflow.ts:284-317 | in every run that loses no buffered read, failed COMMITs of read-only transactions included, the tables hold exactly the rows of one history per workflow, beside the ends of waits of that history and of its next operation, and every execution replays it, leads it with the rest in its buffer, or can never write again |
| CrashFree.RecordingMakesThePrefixDurable | src/workflow.ts:284-317 | whenever an execution of a clean run adds an output row, of an operation or of the end of a wait, every earlier result of the execution is durable too |
| CrashFree.FlushedBeforeRecording | src/workflow.ts:784-862 | in every run a step, a send, a receive or an event is recorded only with an empty buffer; of the operations that record themselves only `getEvent`, `getStatus` and sleeps can overtake a buffered read |
| CrashFree.LogsAreFullyDurable | src/workflow.ts:284-317 | every operation of the recorded history of a workflow has its row |
| Agreement.ReadsDecide | src/dbos-executor.ts:683-739 | in every run, of two executions of one workflow one has done what the other did, and perhaps more, if and only if they hold the same outcomes of their reads |
| Agreement.InStepIffReadsRecorded | src/workflow.ts:284-317 | in every clean run the history of an execution is the beginning of the recorded one if and only if every read it holds has its row |
| Agreement.SettledExecutionsAgree | src/dbos-executor.ts:683-739 | executions of a clean run whose reads are all recorded agree on their whole history |
| Agreement.FinalOutcomeIsUnique | src/dbos-executor.ts:683-739 | once an execution of a clean run has reached the end with all reads recorded, any other that reaches the end, then or later, has the same history and outcome, if and only if all its reads are recorded |
| Agreement.OutcomesAreOne | src/dbos-executor.ts:683-739 | in a clean run in which publishers have their reads recorded, every stored outcome is that of the complete recorded history, and every finished execution returns it, those that took it over included; one at the end of its own program does if its reads are recorded |
| Agreement.StoredForever | src/dbos-executor.ts:687-706 | in such a run a stored outcome stays as it is |
| Agreement.LosersReturnIt | src/dbos-executor.ts:687-706 | in such a run, once an outcome is published every execution that loses a race, then or later, can take it over and returns it |
| Agreement.SettledIsRecorded | src/workflow.ts:284-317 | an execution of a clean run with an empty buffer has all its reads recorded |
| Limits.TrailingReadChangesOutcome | src/dbos-executor.ts:734-739 | a clean run in which an execution returns, crashes with its last read unrecorded, and its recovery returns another value |
| CrashFree.LastSetIsLargest | src/system_database.ts:619-640 | the last event a history sets for a key is the one with the largest identifier |
| CrashFree.EventsNeverRegress | src/system_database.ts:619-640 | in every clean run the stored value of an event is that of the recorded `setEvent` with the largest identifier |
| Refinement.CleanStepRefines | src/workflow.ts:638-750 | a step of a clean run is a step of the machine without crashes, with its database, mailboxes and events, or nothing |
| Refinement.CleanRunsAreCrashFree | src/workflow.ts:638-750 | every clean run, with its crashes, retries and duplicates, ends like a run of the machine that never crashes |
| Limits.CommitFailureIsHarmlessIffNothingBuffered | src/workflow.ts:700-709 | in a clean run, after a serialization failure at COMMIT of a writing transaction and its retry, everything the execution has done is in the tables if and only if the buffer was empty |
| Limits.CommitFailureLosesARead | src/workflow.ts:700-709 | a run in which the cleared buffer makes two executions of a workflow disagree on a read before a durable write |
| Limits.UnflushedRecordIsHarmlessIffNothingBuffered | src/workflow.ts:935-963 | in a clean run, when a `getEvent`, `getStatus` or sleep has recorded itself, everything the execution has done is in the tables if and only if nothing was buffered |
| Limits.UnflushedGetEventMisleadsReplay | src/workflow.ts:935-944 | a run in which a replay takes the row of a `getEvent` for the result of a step |
| Limits.UnflushedWaitIsHarmlessIffNothingBuffered | src/system_database.ts:497-508 | in a clean run, when a `getEvent` records the end of its wait, everything the execution has done is in the tables if and only if nothing was buffered |
| Limits.UnflushedWaitMisleadsReplay | src/system_database.ts:680-690 | a run in which a replay takes the end of a wait that was recorded before a crash for the result of a step |
| Limits.BufferedIffCommitFailed | src/workflow.ts:694-702 | in every run an execution has the output of the read it is at in its buffer if and only if the COMMIT of an attempt at it has failed |
| Limits.ThrownReadConflictsIffCommitFailed | src/workflow.ts:738-745 | in every run the error of a read that nobody else has recorded is taken for a conflict if and only if the COMMIT of an earlier attempt had failed |
| Limits.ThrownRetryWaitsForNobody | src/dbos-executor.ts:699-706 | a run in which the only execution of a workflow ends in a conflict, with no outcome stored that it could take over |
| Limits.NoReplayPastARecordedError | src/workflow.ts:738-748 | no replay ever gets past a recorded transaction error |
| Limits.ReplayPassesIffOutput | src/workflow.ts:659-675 | an execution that comes to a recorded transaction can get past it if and only if the row is an output |
| Limits.RecoveryMeetsARecordedError | src/workflow.ts:738-748 | a run in which a workflow whose transaction threw returns, and a later execution of it is stuck at the recorded error |
| Limits.ThrownKeepsItsReads | src/dbos-executor.ts:706-739 | the reads left in the buffer of an execution that has thrown stay there, whatever happens, unless it crashes |
| OperationMoves.TransactionIsMoves | src/workflow.ts:655-749 | the retry loop of a transaction is a sequence of enabled steps of the runs |
| OperationMoves.OperationIsMoves | src/workflow.ts:784-841 | flush, lookup and record of any other operation are enabled steps of the runs |
| OperationMoves.StepOutcomeYields | src/workflow.ts:799-833 | a step yields its only attempt if it must not retry, and otherwise its first success within the limit, or the error if there is none |
| OperationMoves.WaitsGrow | src/workflow.ts:644-646 | capping each wait of a transaction caps the powers of the factor: one millisecond, half as much again each time, at most two seconds |
| OperationAnswers.NewOperation | src/workflow.ts:784-841 | an operation without a row records and returns what its step, query or mailbox yields: a step its result, a receive the oldest message, an event read a value that is set; it has its effect on mailboxes and events, flushes if it is one that does, and changes nothing else |
| OperationAnswers.RecordedOperation | src/system_database.ts:437-446 | an operation with a row is not done again: a step returns or throws what the row says, the others their output or nothing |
| OperationAnswers.HinderedOperation | src/workflow.ts:284-317 | an operation that cannot flush ends in a conflict and changes nothing |
| OperationAnswers.NewTransaction | src/workflow.ts:655-749 | for every sequence of failures, a transaction without a row returns and records what its body makes of the database as it is: the data, the row and the buffered results appear together, with the buffer unless a COMMIT failed; a read is buffered; an error is recorded |
| OperationAnswers.RecordedTransaction | src/workflow.ts:669-680 | an execution that looks is answered from the row of its transaction, and nothing changes |
| OperationAnswers.HinderedWrite | src/workflow.ts:333-347 | a writing transaction that meets a row of its own, or of a buffered result, ends in a conflict and changes nothing, for every sequence of failures |
| OperationAnswers.EndsAndFlushes | src/dbos-executor.ts:683-739 | at the end of its program an execution returns or throws what the program says; what is left in the buffer of one that returns is then written, as a whole or not at all |
| WorkflowContexts.SystemDatabase.CheckOperationOutput | src/system_database.ts:437-446 | returns the recorded output or error of an identifier, if any |
| WorkflowContexts.SystemDatabase.RecordOperation | src/system_database.ts:448-476 | adds the row if the primary key is free, otherwise reports a conflict and changes nothing |
| WorkflowContexts.SystemDatabase.SetEvent | src/system_database.ts:619-640 | sets the event and its output row together, or neither |
| WorkflowContexts.SystemDatabase.Send | src/system_database.ts:513-545 | puts the message into the mailbox together with its output row, or neither |
| WorkflowContexts.SystemDatabase.Recv | src/system_database.ts:580-617 | takes the oldest message, or finds none, together with its output row, or changes nothing |
| WorkflowContexts.SystemDatabase.Sleepms | src/system_database.ts:497-508 | records the end of a wait if there is no row yet, and leaves a row that is there |
| WorkflowContexts.UserDatabase.Insert | src/workflow.ts:333-347 | adds a row to the transaction outputs, or refuses a second one |
| WorkflowContexts.WorkflowContext.FunctionIDGetIncrement | src/workflow.ts:213-215 | hands out the counter and advances it |
| WorkflowContexts.WorkflowContext.CheckExecution | src/workflow.ts:242-268 | finds the recorded output, throws the recorded error, or finds nothing |
| WorkflowContexts.WorkflowContext.FlushResultBuffer | src/workflow.ts:284-317 | inserts all buffered results or none, and none if any of their rows exists |
| WorkflowContexts.WorkflowContext.RunAttempt | src/workflow.ts:658-720 | one attempt of a transaction is one step of the runs, whatever its fate |
| WorkflowContexts.WorkflowContext.RecordThrown | src/workflow.ts:738-748 | records the error of a transaction with the flushed buffer, or ends in a conflict |
| WorkflowContexts.WorkflowContext.Transaction | src/workflow.ts:638-750 | the loop with its capped waits, one for each failure, ends as its specification says and as the body, the row or the conflict demands, for every sequence of failures |
| WorkflowContexts.WorkflowContext.RunStep | src/workflow.ts:799-833 | a step is attempted up to its limit and yields its first success, or an error; it waits between attempts, the configured interval first and then longer by the rate, up to an hour |
| WorkflowContexts.WorkflowContext.External | src/workflow.ts:757-847 | a step flushes, and returns its recorded outcome, or runs, and records and returns its first success within the limit, or the error |
| WorkflowContexts.WorkflowContext.Send | src/workflow.ts:853-862 | a send flushes, and delivers its message once per identifier |
| WorkflowContexts.WorkflowContext.Recv | src/workflow.ts:869-879 | a receive flushes, and returns its recorded message or, after recording the end of its wait if no message is there, takes and records the oldest |
| WorkflowContexts.WorkflowContext.GetEvent | src/workflow.ts:935-944 | returns its recorded value, or records the value it has read, after recording the end of its wait if the event is not set, all without a flush |
| WorkflowContexts.WorkflowContext.GetStatus | src/system_database.ts:730-760 | returns the recorded status of a retrieved workflow, or records the one it has read, without a flush |
| WorkflowContexts.WorkflowContext.Sleep | src/workflow.ts:957-963 | records itself once, without a flush |
| WorkflowContexts.WorkflowContext.SetEvent | src/workflow.ts:885-894 | an event is set once per identifier, after a flush |
| Mailboxes.DeleteRemovesTied | src/system_database.ts:588-607 | the DELETE of a receive removes exactly the messages that share address and timestamp with the oldest |
| Mailboxes.OthersStay | src/system_database.ts:602-607 | the DELETE leaves the messages of every other address alone |
| Mailboxes.ReceiveTakesOneIffUnique | src/system_database.ts:588-611 | a receive takes exactly the message it returns if and only if no other message for the address has its timestamp |
| MailboxRuns.MailIsConserved | src/system_database.ts:513-617 | in every run each identifier takes effect exactly once, and what was sent to an address is what was received there followed by what waits, in order |
| MailboxRuns.ReceivesTheNext | src/system_database.ts:547-617 | in every run a receive that is not a repetition finds the first message sent to its address that none has received, and none if and only if all have been |
| MailboxRuns.EventsAreLastSet | src/system_database.ts:619-640 | in every run an event has the value it was last set to by a `setEvent` that was not a repetition |
| MailboxRuns.EffectsRecord | src/system_database.ts:478-495 | sends and events record nothing, receives what they received, and other operations their output |
| MailboxRuns.OldestIsFirst | src/system_database.ts:588-600 | with increasing timestamps the row of the least timestamp is the first message waiting |
| MailboxRuns.PgRefines | src/system_database.ts:513-640 | with increasing timestamps every Postgres operation is the operation of the mailbox, or is turned away with the reply that its reason demands and changes nothing |
| MailboxRuns.RefusedIffUnknown | src/system_database.ts:530-536 | a send is refused for its destination if and only if no such workflow is known and the send is not answered from its record |
| MailboxRuns.FdbRefines | src/foundationdb/fdb_system_database.ts:284-362 | every FoundationDB operation is the operation of the mailbox |
| MailboxRuns.PostgresConserves | src/system_database.ts:513-617 | conservation and order for the Postgres tables over every run |
| MailboxRuns.PostgresConservesBags | src/system_database.ts:513-617 | with timestamps that are only distinct, each identifier still takes effect once and what was sent is what was received plus what waits, as multisets |
| MailboxRuns.TiedMessageIsLost | src/system_database.ts:588-611 | a run, for any address and messages, in which two messages with one timestamp are sent, one is received and the other is gone |
| MailboxRuns.StoresAgree | src/foundationdb/fdb_system_database.ts:284-345 | after the same accepted operations both stores hold the same outputs, events and waiting messages |
| MailboxRuns.RepliesAgree | src/foundationdb/fdb_system_database.ts:284-345 | both stores give the next operation the same reply |
| MailboxStores.PostgresSystemDatabase.CheckOperationOutput | src/system_database.ts:437-446 | returns the recorded output of an identifier, if any |
| MailboxStores.PostgresSystemDatabase.RecordNotificationOutput | src/system_database.ts:481-495 | adds the output row, or refuses a second one |
| MailboxStores.PostgresSystemDatabase.Send | src/system_database.ts:513-545 | a send adds its message and its output together, or nothing: already recorded, unknown destination, or conflict |
| MailboxStores.PostgresSystemDatabase.Recv | src/system_database.ts:547-617 | a recorded receive is answered from its record; otherwise the oldest message leaves the table and is recorded, or a conflict undoes it |
| MailboxStores.PostgresSystemDatabase.SetEvent | src/system_database.ts:619-640 | an event and its output are set together, or neither |
| MailboxStores.FoundationDbSystemDatabase.Send | src/foundationdb/fdb_system_database.ts:284-307 | a send appends to the list of its address once per identifier |
| MailboxStores.FoundationDbSystemDatabase.Recv | src/foundationdb/fdb_system_database.ts:326-344 | a receive takes the first message and clears an empty list, or a conflict changes nothing |
| MailboxStores.FoundationDbSystemDatabase.SetEvent | src/foundationdb/fdb_system_database.ts:347-362 | an event is set once per identifier |
| WorkflowQueue.ClaimFacts | src/system_database.ts:914-968 | a claim takes the oldest claimable workflows in order, skips none, stays within the oldest rows of the concurrency limit and within what the rate limit leaves |
| WorkflowQueue.ClaimsExactlySelected | src/system_database.ts:945-967 | a claim takes a workflow if and only if it is a claimable one of the selected rows and, under a rate limit, the recent starts and the unstarted rows ahead of it leave it a start |
| WorkflowQueue.SelectedRank | src/system_database.ts:931-943 | a row selected under limit N has fewer than N older uncompleted rows |
| WorkflowQueue.TakenFits | src/system_database.ts:950-967 | rows passed over count against the rate limit as well, and the limit is never exceeded |
| WorkflowQueue.QueueTables.EnqueueWorkflow | src/system_database.ts:882-889 | adds a row, or nothing if the workflow has one |
| WorkflowQueue.QueueTables.DequeueWorkflow | src/system_database.ts:891-907 | completes the row of a rate-limited queue, deletes that of any other |
| WorkflowQueue.QueueTables.MarkStarted | src/system_database.ts:956-964 | marks a workflow pending and started if and only if it is enqueued |
| WorkflowQueue.QueueTables.MarkWhileAllowed | src/system_database.ts:950-967 | the loop with its counter takes exactly what the specification takes |
| WorkflowQueue.QueueTables.ClaimStartable | src/system_database.ts:914-968 | the claim transaction marks exactly the claimed workflows |
| WorkflowQueue.QueueTables.FindAndMarkStartable | src/system_database.ts:909-983 | the claim, then the deletion: exactly the completed rows of a rate-limited queue that were started more than a period ago are deleted, the claimed ones are marked, and nothing else changes |
| QueueRuns.ClaimsNeverOverlap | src/system_database.ts:914-968 | a claim that takes something commits only if no other claim on its queue committed since its snapshot |
| QueueRuns.SameFirst | src/system_database.ts:931-967 | two overlapping transactions that both want to claim want the same oldest workflow first |
| QueueRuns.FirstIsOldest | src/system_database.ts:931-950 | the first workflow a transaction decides on, while unchanged, is the oldest claimable one at that moment |
| QueueRuns.StepIsLater | src/system_database.ts:882-983 | no step enqueues a workflow again or undoes a start or a completion, and row times stay distinct |
| QueueLimits.ConcurrencyHolds | src/system_database.ts:929-967 | in every run at most N uncompleted rows of a queue are started, and they are among its oldest |
| QueueLimits.SlotsAreHeld | src/system_database.ts:897-983 | in every run the started, uncompleted rows of a queue are exactly those of the workflows that were claimed on it and have not been dequeued since |
| QueueLimits.HeldAreFew | src/system_database.ts:929-947 | in every run, of all workflows ever claimed on a queue at most the limit's number have not been dequeued since |
| QueueLimits.CancelledIsNeverClaimed | src/system_database.ts:956-966 | a workflow whose status changes before it is claimed is not claimed in any continuation of the run |
| QueueLimits.ClaimedOnceAndInOrder | src/system_database.ts:945-967 | in every run a workflow is claimed at most once, and claims on a queue follow the order of enqueueing |
| QueueRates.RateLimitHolds | src/system_database.ts:914-983 | in every run whose snapshots are late by no more than a millisecond, every window of one period holds at most the limit's number of starts, deleted rows included |
| QueueRates.CommitFits | src/system_database.ts:914-927 | what a committing claim takes fits beside all starts of the period before it |
| QueueRates.SweepInvisibleIffNotEarlier | src/system_database.ts:970-979 | the deletion of old completed rows changes no later count, if and only if the count's clock is at most a millisecond behind |
| QueueLateness.LateSnapshotBreaksTheLimit | src/system_database.ts:909-983 | for every rate limit and every lateness of more than a millisecond there is a run that is no later than that, in which a window holds one start more than the limit |
| QueueLateness.LimitHoldsIffInTime | src/system_database.ts:909-983 | a rate limit holds in every window of all runs that are late by no more than a given time if and only if that is at most a millisecond |
| Decimals.ParseToString | src/scheduler/crontab.ts:85-100 | reading back a printed number gives the number |
| Decimals.ParseIntToString | src/scheduler/crontab.ts:140-152 | reading back any printed integer gives the integer |
| Decimals.ParsesTheFront | src/scheduler/crontab.ts:145-152 | a number is read from the front of a text, after white space and a sign, as far as its digits go |
| Decimals.ParsesNothingElse | src/scheduler/crontab.ts:145-152 | a text without digits there has no number |
| Decimals.ParseNumeral | src/scheduler/crontab.ts:85-88 | a number is read as its value, however many leading zeros it is written with |
| Decimals.ToStringInjective | src/scheduler/crontab.ts:257-264 | two numbers have the same text only if they are equal |
| Crontab.SplitJoin | src/scheduler/crontab.ts:144-153 | splitting at commas undoes joining |
| Crontab.ConvertNames | src/scheduler/crontab.ts:37-59 | the loop replaces every name of a list by its number, in the order of the list and in upper or lower case |
| Crontab.WeekDayNamesConversion | src/scheduler/crontab.ts:61-65 | the first 7 becomes 0, then the long names and then the short names of the weekdays become numbers |
| Crontab.PassRemovesADash | src/scheduler/crontab.ts:102-110 | every pass of the range loop removes exactly one minus sign |
| Crontab.ReplacesTheMatch | src/scheduler/crontab.ts:85-100 | replacing the matched text at its first occurrence expands the leftmost range, and nothing else |
| Crontab.ConvertRange | src/scheduler/crontab.ts:102-110 | the loop ends, with every range expanded |
| Crontab.ApplyStep | src/scheduler/crontab.ts:130-138 | the loop, which runs one index too far, keeps exactly the multiples |
| Crontab.IsValidExpression | src/scheduler/crontab.ts:155-173 | accepts exactly the lists whose options are all permitted and in range |
| Crontab.ConvertAsterisksToRanges | src/scheduler/crontab.ts:67-83 | replaces the first asterisk of each of the six fields, in place |
| Crontab.ConvertAllRanges | src/scheduler/crontab.ts:112-117 | expands the ranges of every field, in place |
| Crontab.ConvertSteps | src/scheduler/crontab.ts:119-142 | applies the step of every field, or fails if and only if one is not a number |
| Crontab.NormalizeIntegers | src/scheduler/crontab.ts:144-153 | rewrites every number of every field, in place |
| Crontab.ConvertFields | src/scheduler/crontab.ts:239-251 | the conversion of names and of 7, and the four passes, compile each of the six fields, or fail because one does not compile |
| CronMeaning.AsteriskConverted | src/scheduler/crontab.ts:67-72 | the first pass turns the first asterisk of a field into its range |
| CronMeaning.RangesConverted | src/scheduler/crontab.ts:85-110 | repeating the pass turns the text of a list into the text of all its numbers |
| CronMeaning.ExpandMeans | src/scheduler/crontab.ts:85-100 | expanding ranges, in either order, changes no meaning |
| CronCorrectness.StepApplied | src/scheduler/crontab.ts:119-142 | the step at the end of a field keeps exactly the multiples of the whole list |
| CronCorrectness.MatchesExactlyDenoted | src/scheduler/crontab.ts:244-264 | for every list of numbers, ranges and asterisks, with or without a step, the matcher accepts a number on the text compiled by the four passes if and only if the field denotes it |
| CronCorrectness.ValidExactlyWithin | src/scheduler/crontab.ts:155-173 | a compiled field is valid if and only if it denotes something, nothing outside the limits, and does not repeat an asterisk without a step |
| CronCorrectness.NormalizedValid | src/scheduler/crontab.ts:143-173 | whatever the text of a field, it is accepted after its numbers are rewritten if and only if each of its parts starts with a number that is not negative and within the limits |
| CronCorrectness.StepIsAWord | src/scheduler/crontab.ts:119-126 | what follows the last slash is a step if and only if it is made of letters, digits and underscores |
| CronWeekdays.WeekdayMatches | src/scheduler/crontab.ts:61-65 | every weekday field is matched like the field in which the first 7, in its list or else in its step, is a 0 |
| CronWeekdays.WeekdayValid | src/scheduler/crontab.ts:155-180 | every weekday field is valid if and only if that field is |
| CronWeekdays.WeekdaysKeptIffHarmless | src/scheduler/crontab.ts:61-65 | a field of weekdays, whatever its list and step, is matched on exactly the days it means if and only if its first 7 does no harm, a condition on its items and its step |
| CronWeekdays.RangeKeptIffNoSeven | src/scheduler/crontab.ts:61-65 | a range of weekdays is matched on exactly the days it means if and only if neither end is 7 |
| CronWeekdays.SeventhDayRefused | src/scheduler/crontab.ts:61-65 | a step that is read as 0, as that of every seventh day is, means Sunday and makes the field invalid |
| CronWeekdays.NoWeekdayAccepted | src/scheduler/crontab.ts:61-65 | a number written with a 7 is valid if and only if it is a weekday once the first 7 is a 0, and is matched as that: 70 is Sunday |
| CronNames.MonthsAreNumbers | src/scheduler/crontab.ts:32-48 | a field with names of months among its other characters, long or short and in any case, is read as the field with their numbers |
| CronNames.WeekdaysAreNumbers | src/scheduler/crontab.ts:50-65 | so is a field with names of weekdays, its first 7 a 0 |
| CronNames.NamesCompileAlike | src/scheduler/crontab.ts:32-65 | a field of the grammar with names written for its numbers is compiled to the same text as the field itself |
| TimeMatchers.RunsExactlyWhenDenoted | src/scheduler/crontab.ts:291-308 | a crontab runs at a moment if and only if each of its six fields, the weekday with its first 7 read as 0, denotes its part of it |
| TimeMatchers.RunsAsMeantIffHarmless | src/scheduler/crontab.ts:239-308 | at a time the other fields denote, a crontab runs on exactly the days its weekday field means if and only if the first 7 of that field does no harm |
| TimeMatchers.ScheduleAsMeantIffHarmless | src/scheduler/crontab.ts:239-308 | a schedule runs as it is meant on every day of every week if and only if the first 7 of its weekday field does no harm or its other fields denote no time |
| TimeMatchers.TimeMatcher.NextWakeupTime | src/scheduler/crontab.ts:310-320 | finds the first match among the next 3599 seconds, or their end, and never steps over a match |
| TimeMatchers.NextIsUnique | src/scheduler/crontab.ts:310-320 | what the search may find is determined by the schedule |
| TimeMatchers.ValidateFields | src/scheduler/crontab.ts:182-202 | accepts six fields if and only if each is valid within its limits |
| TimeMatchers.RefusedIffUnacceptable | src/scheduler/crontab.ts:175-202 | a field of the grammar is accepted at its position if and only if it means something, nothing that is on no calendar (second, minute, hour, day of the month, month, weekday up to 7), and repeats no asterisk without a step |
| TimeMatchers.AsterisksRunAlways | src/scheduler/crontab.ts:75-83 | six asterisks are accepted and run at every date and at nothing else |
| TimeMatchers.CompileCrontab | src/scheduler/crontab.ts:208-251 | a crontab is refused if and only if it has fewer than five fields or one that does not compile or is not valid; an accepted one is compiled |
| Schedulers.NoTimeIsSkipped | src/scheduler/scheduler.ts:116-183 | in every run of several executors every matching second after the latest start without a record and up to the stored time has been started |
| Schedulers.JumpsAreCovered | src/scheduler/scheduler.ts:151-180 | a loop jumps only over seconds that do not match or are started |
| Schedulers.StoredNeverDecreases | src/system_database.ts:815-825 | the stored last-run time never decreases |
| Schedulers.OnlyMatchesStart | src/scheduler/scheduler.ts:145-154 | only times the schedule matches are started |
| DetachableLoops.SchedulerState.SetLastScheduledTime | src/system_database.ts:815-825 | stores and returns the greater of the stored and the given time |
| DetachableLoops.DetachableLoop.NextExecTime | src/scheduler/scheduler.ts:127 | the next time after the last one, by the search of the matcher |
| DetachableLoops.DetachableLoop.Round | src/scheduler/scheduler.ts:126-181 | one round is a sequence of scheduler steps: from the last time it goes to the next one; if that is scheduled, its workflow is started and the stored time becomes the greater of the two, as does the last time; otherwise the database is unchanged |
| DetachableLoops.DetachableLoop.StartLoop | src/scheduler/scheduler.ts:116-183 | the loop is a sequence of scheduler steps that begins at the record, if the mode asks for one that is there, or at its clock, goes on by each round, and has covered every time up to its last one |
| Batches.NextBatch | src/system_database.ts:383-402 | a batch takes at most its size, skips what it must, and is short only if nothing else is left |
| FlushBuffers.StatusRoundSafe | src/system_database.ts:261-317 | a batch of statuses that is written, refused or unanswered loses no entry |
| FlushBuffers.InputsRoundSafe | src/system_database.ts:381-424 | a batch of inputs loses no entry and overwrites no row |
| FlushBuffers.FitsIffNoOrphan | src/system_database.ts:386-409 | a batch satisfies the foreign key if and only if none of its inputs is without any status, buffered or written |
| FlushBuffers.InputsRoundOwes | src/system_database.ts:248-252 | if inputs are buffered only for workflows with a status, the database takes a batch, and every input keeps a status |
| FlushBuffers.RoundsInv | src/system_database.ts:374-424 | over any sequence of batches, failures and arrivals nothing is lost, nothing is overwritten and every row of inputs has its row of status |
| FlushBuffers.RoundsFit | src/system_database.ts:374-424 | if a status was buffered or recorded before the inputs, at any time, no batch is ever refused for the foreign key |
| FlushBuffers.OrphanBlocks | src/dbos-executor.ts:719-731 | inputs whose status is never written are never written, and each batch that has them leaves everything in it unwritten |
| FlushBuffers.SystemBuffers.FlushWorkflowStatusBuffer | src/system_database.ts:254-317 | the loop ends, early only at the first statement that is not written; each entry is written or back in the buffer or superseded there; if all batches are written nothing is left |
| FlushBuffers.SystemBuffers.InsertInputs | src/system_database.ts:404-409 | inserts if and only if the foreign key holds, and does not overwrite |
| FlushBuffers.SystemBuffers.WriteInputBatches | src/system_database.ts:380-411 | the loop ends although skipped entries are counted in every batch; with inputs in order and no status buffered, a willing database takes them all |
| FlushBuffers.SystemBuffers.FlushWorkflowInputsBuffer | src/system_database.ts:374-424 | each entry is written or back in the buffer or superseded there; inputs without a status row stay in the buffer |
| FlushBuffers.SystemBuffers.FlushWorkflowSystemBuffers | src/system_database.ts:248-252 | statuses first, then inputs: nothing is lost, the foreign key holds, with inputs in order a willing database empties both buffers in one flush, and inputs whose status never comes stay |
| FlushResults.RoundSafe | src/dbos-executor.ts:1045-1078 | a batch of results is written as a whole or not at all, loses nothing and changes no row |
| FlushResults.WrittenIffNoConflict | src/dbos-executor.ts:1070-1076 | a batch leaves the buffer if and only if the database answers that it is written and none of its rows existed |
| FlushResults.ConflictBlocksBatches | src/dbos-executor.ts:1040-1087 | over any sequence of flushes, arrivals and failures the results of a workflow with a row that exists already stay unwritten, and each batch that has them leaves everything in it unwritten |
| FlushResults.ResultBuffers.FlushWorkflowResultBuffer | src/dbos-executor.ts:1040-1087 | the loop ends and nothing is lost; if the database is willing and nobody else writes, everything is written if and only if no row exists already; in a buffer of less than one batch one such row keeps everything unwritten |
| DeadLetters.EntriesAreBounded | src/system_database.ts:220-225 | however recoveries overlap and crash, fewer of them than the limit ever enter the body |
| DeadLetters.AttemptsAreRecoveries | src/system_database.ts:204-207 | in every run the attempts of a workflow are the number of its recoveries, however often it was started otherwise |
| DeadLetters.FinishedStays | src/system_database.ts:221-224 | no recovery, under way or to come, changes the status of a workflow that has finished |
| DeadLetters.QueuedUntilClaimed | src/system_database.ts:186-232 | a workflow that was queued stays queued until it is claimed, whatever recoveries meet it |
| DeadLetters.ClaimedIsPending | src/system_database.ts:956-966 | a workflow is pending from its start or its claim, and finished when it finishes, with the attempts it had |
| DeadLetters.EachEntryCounts | src/system_database.ts:204-221 | every recovery that enters was given a count of its own |
| DeadLetters.PendingHasAttemptsLeft | src/system_database.ts:186-232 | with one recovery at a time attempts exceed the limit by no more than the recoveries cut off between the two statements |
| DeadLetters.PendingExhaustedIffCut | src/system_database.ts:186-232 | in every run, however recoveries overlap, a workflow that is pending with no recovery under way has used up its attempts if and only if a recovery was cut off after using up the last |
| DeadLetters.PendingWithoutAttempts | src/system_database.ts:186-225 | a run that leaves a pending workflow with its attempts exhausted |
| DeadLetters.NextRecoveryPutsAside | src/system_database.ts:220-225 | the next recovery of such a workflow that is not cut off puts it aside and does not enter its body |
| DeadLetters.DispatchRunsIffTwoAllowed | src/wfqueue.ts:64-71 | in every run whose first count follows a claim, the first dispatch of a queued workflow enters its body if and only if the limit is at least two; with a limit of one no recovery ever does |
| DeadLetters.StatusTable.InitWorkflowStatus | src/system_database.ts:186-232 | creates the row without attempts; a start that is no recovery leaves a row as it is; a recovery counts one attempt, runs if and only if that is below the limit, and otherwise puts a pending workflow aside |
| DeadLetters.StatusTable.RecoverPendingWorkflows | src/dbos-executor.ts:908-929 | one pass gives every listed workflow an attempt for each time it is listed, runs the recoveries within the limit and puts aside what has no attempts left |
| DebugReplays.AlignedIffNoIdleSleep | src/debugger/debug_workflow.ts:136-416 | both contexts give the next operation the same identifier if and only if no sleep before it was of no or negative duration |
| DebugReplays.ReplayIsFaithful | src/debugger/debug_workflow.ts:136-416 | with a complete recording and positive sleeps the debugger repeats the live history and its result |
| DebugReplays.StopsAtTheFirstGap | src/debugger/debug_workflow.ts:136-435 | with any recording the debugger answers every operation from its row until the program finishes or asks for an operation whose row is missing, and stops there |
| DebugReplays.ChildIdsDiffer | src/workflow.ts:396 | the children of all workflows have different identifiers |
| DebugRuns.FinishedWorkflowsReplay | src/dbos-executor.ts:773-811 | in every clean run, once an execution has reached the end of its workflow with its reads recorded, the debugger replays its whole history from the output tables and ends with its outcome |
| DebugRuns.SameIds | src/debugger/debug_workflow.ts:57-59 | the durable runs and the live histories of the debugger count identifiers alike |
| DebugReplays.ZeroSleepMisleadsReplay | src/workflow.ts:957-963 | a sleep of zero makes the debugger answer one step with the outcome of another |
| DebugReplays.WorkflowContextDebug.FunctionIDGetIncrement | src/debugger/debug_workflow.ts:57-59 | hands out the counter and advances it |
| DebugReplays.WorkflowContextDebug.Invoke | src/debugger/debug_workflow.ts:273-435 | each operation advances the counter as the debugger does and is answered from the recording |
| DebugReplays.WorkflowContextDebug.Replay | src/dbos-executor.ts:773-811 | running a workflow under the debug context is the replay |
| Codec.RoundTripIffPlain | src/utils.ts:87-147 | a value comes back unchanged if and only if none of its objects carries a tag of the codec and none of its dates is invalid |
| Codec.Format | src/utils.ts:87-104 | dates, bigints and buffers are recorded under the tags that readers look for |
| Codec.ObjectTrips | src/utils.ts:108-137 | an object comes back if and only if its fields do and it is not taken for a tagged one |
| Codec.ArrayTrips | src/utils.ts:126-137 | an array comes back if and only if its elements do |
| Codec.DateTrips | src/utils.ts:90-96 | a valid date comes back, given that its text can be read |
| Codec.BigIntTrips | src/utils.ts:98-104 | a bigint of either sign comes back |
| Codec.BufferTrips | src/utils.ts:126-130 | a buffer comes back byte by byte |

## Left out

- Child workflows, handles that are only waited for, and sleeps of no duration are in the debugger's model only; the durable runs do not have them.  They ask a retrieved handle for its status once, where it is retrieved, and a status is any value; a later question of the same handle would find the row of the first.
- A sleep's wake-up time: its row holds nothing; the row for the end of the wait of a `recv` or `getEvent` holds any value.
- DurableRuns.ExecutionsAgree: leaves out reads that are not recorded as they are held, because a lost buffer can make two executions differ on them; Agreement.ReadsDecide says what their agreement decides.
- Agreement.OutcomesAreOne: assumes that publishers have their reads recorded, because a status may be flushed while the results it rests on are still in the buffer; Limits.TrailingReadChangesOutcome shows what happens then.
- DurableMessages.ReceiveTakesTheNext: the durable runs deliver in the order in which sends are recorded; MailboxRuns proves this of both stores, of Postgres while timestamps increase.
- In the durable runs a `getEvent` yields any value that was set before, which it may have read earlier, or none.
- Stored procedures (src/workflow.ts:454-636): the body runs in the database, outside these sources; the local path looks up a different identifier than it records.
- Isolation of user transactions: a transaction body acts on the user database as a whole; serialization failures happen at any time but weaker isolation is not modelled.
- Workflow code that catches a conflict error and goes on, and database errors other than conflicts and serialization failures: an execution that meets one counts as crashed.
- Sending to an unknown workflow is refused in the mailbox model; in the durable runs every destination exists.
- Notifications (LISTEN/NOTIFY, watches): waiting is over at any time, before the last transaction of a receive.
- Concurrent receives of one workflow under different identifiers; a workflow's operations are sequential.
- QueueRates.RateLimitHolds: assumes snapshots taken before another dispatcher's deletion with a clock more than a millisecond later; QueueLateness.LimitHoldsIffInTime shows that this is exactly what it takes.
- Queue rows are enqueued with increasing creation times, and a workflow is enqueued on one queue only; a row is dequeued by the limits of its own queue.
- Progress of a queue: a row whose workflow was cancelled or completed before it was claimed is never claimed and keeps its slot.
- Manual status changes: cancelling is a step of the queue's runs; resuming or resetting attempts is not modelled.
- Registration of queues by name and the one-second dispatch timer (src/wfqueue.ts:16-62).
- Names of months and weekdays that touch each other or other letters.
- Collapsing of spaces in crontabs, numbers that `parseInt` reads as hexadecimal, and numbers beyond the precision of a double.
- CronCorrectness.MatchesExactlyDenoted: is about fields written in the grammar of lists, ranges, asterisks and one trailing step; other texts go through the same passes, but have no meaning to compare with.
- Time zones and calendars: a function from times to their parts.
- Schedulers.NoTimeIsSkipped: says that the workflow of each time was started, not that it finished; a workflow that was started is durable by the rest of the model.
- Overlapping flushes: one flush at a time, as the timer allows; the final flush of an executor that shuts down may overlap one.
- The order of entries within a buffer: batches take them in any order.
- JSON text, `undefined`, functions and non-finite numbers; a tagged buffer whose data is not an array counts as an error, and a bigint's text is a sign and digits.
- The text of dates is a parameter with an assumed inverse.
- The debugger's proxy mode, which runs transactions again, and its comparison of inputs and results.
- HTTP handlers, configuration, telemetry, user database drivers, migrations, the command line, and the Kafka, SQS, S3 and SES packages: input and output, or thin wrappers around what is modelled.
