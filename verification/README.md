# RootCX Core: a Dafny model

RootCX Core supervises worker processes, one per identity, and schedules their work. This project
models the protocols at its heart and proves what they promise over every run:

- **Worker supervisor** (`TxActor`, `Supervisor`, `SupervisorInvariants`, `SupervisorRuns`,
  `SupervisorHistory`, `SupervisorTxHistory`, `SupervisorLedger`, `SupervisorLoop`): one event per arm
  of the select loop, with transaction actors, the tasks that deliver commits, and one-shot data tasks
  moving in between. An arm that awaits is split in two, so that only the environment moves during the
  await.
- **Callback transactions in the worker** (`TxRunner`, `TxRunnerTrace`, `TxRunnerSpans`,
  `TxRunnerCalls`, `TxRunnerReach`, `TxRunnerActor`): the asynchronous function behind
  `ctx.transaction`, its promise queue and its wire trace.
- **Schema reconciliation** (`Schema`, `SchemaProofs`, `SchemaConvergence`, `SchemaMeaning`,
  `SchemaSync`): the diff, the seven-phase DDL, and what the statements do to a table.
- **Job queue and scheduler** (`Delivery`, `DeliveryProofs`, `DeliveryLedger`, `Scheduler`, `Timing`):
  redelivery, dead-lettering, the dispatch pool, single-flight runs, lease heartbeat and watchdog.
- **Worker pool** (`Slots`, `Encoding`, `WorkerKeys`): slot accounting and the text of worker keys.
- **Line readers** (`Lines`, `LineReaders`, `ReaderVerdicts`, `JsonText`, `Framing`): the builder
  response reader with its cursor, the prelude's transport, the text of JSON and its newline framing.
- **Authority, crons, windows** (`Permissions`, `Authority`, `AuthorityAdmission`, `Crons`, `CronSync`,
  `Windows`).

State machines are datatypes with an `Enabled`/`Apply` pair and theorems over runs. Where the code
updates fields in place there is also a class whose methods keep the machine's invariant and take its
steps; drivers (`SupervisorLoop.Serve` and `Replay`, `Scheduler.Serve` and `Replay`,
`TxRunnerActor.Live`, `Windows.Live`) prove that any script of calls leads through a run of the
machine, and for the first two also that every run can be led through. Beside the safety theorems each
machine has its books told from the events alone: an entry is in a table exactly since what opened it,
until what closed it (`Common.LedgerIff`), and runs exist in which the work gets done.

Where the code does not do what its comments or its purpose suggest, the model follows the code and
says exactly when:

- `sync_from_manifest` does not carry a changed timezone over to an existing schedule
  (`CronSync.Store.SyncFromManifest`, `CronSync.ZoneStaysBehind`, with an input in
  `CronSync.ParisMovesToUtc`).
- A default that contains a cast is set again on every schema sync
  (`SchemaConvergence.SecondDiffIsEmptyIff`).
- Narrowing permissions loses a key below a doubled scope (`Permissions.MeetIsExactIff`).
- A statement of `ctx.transaction` whose parameters cannot be serialized never reaches the wire but
  leaves a pending entry (`TxRunnerTrace.UnwrittenStatementRollsBack`), and if serializing threw a
  falsy value the transaction commits all the same (`TxRunnerTrace.CommitMeansSuccessIff`,
  `TxRunnerTrace.FalsyErrorCommits`).
- Two entity links can be given one constraint name (`SchemaConvergence.FksStayDistinctIff`,
  `SchemaConvergence.TwoLinksOneName`).
- Deliveries to an agent are not bounded (`DeliveryProofs.AgentDeliveriesUnbounded`).

Checking everything: `dafny verify dfyconfig.toml`.

## Model

| member | source | states |
|---|---|---|
| TxActor.CancelDecidesTheRace | core/src/governance/enforcement/sql_proxy.rs:756-780 | a cancellation before finalization starts means the transaction never commits whatever follows; one that comes after changes nothing |
| TxActor.OnlyAQueuedCommitCommits | core/src/governance/enforcement/sql_proxy.rs:882-1032 | a commit needs a queued Commit and an unset failure flag |
| TxActor.FinishedIsFrozen | core/src/governance/enforcement/sql_proxy.rs:774-786 | a finished actor never changes again |
| TxActor.OutcomeIff | core/src/governance/enforcement/sql_proxy.rs:882-1032 | told by what was done to the actor: committed iff a Commit was taken before any cancellation, deadline, other end and failed or poisoned statement, and the COMMIT reported success; undecided iff it was sent and nothing came back; serving iff nothing ended it |
| TxActor.CommandsAreTakenInOrder | core/src/governance/enforcement/sql_proxy.rs:903-1032 | commands are taken in the order in which they were queued |
| TxActor.QueueIsBounded | core/src/governance/enforcement/sql_proxy.rs:903 | never more than eight commands wait |
| TxActor.QueueTakesEight | core/src/governance/enforcement/sql_proxy.rs:903 | and eight do fit |
| SupervisorInvariants.StepKeeps | core/src/worker.rs:770-1958 | every arm of the loop keeps the invariant over all tables |
| SupervisorRuns.RunKeeps | core/src/worker.rs:770-1958 | every state of every run satisfies it |
| SupervisorRuns.ApprovedActionIsFinal | core/src/worker.rs:395-417 | once an approved action's call is resolved, no transaction under its invocation is committing, none commits or opens later, and no data task under it runs |
| SupervisorRuns.StopIsFinal | core/src/worker.rs:908-945 | when the stop of an approved worker is answered, every transaction's outcome is fixed and no data task runs |
| SupervisorRuns.ApprovedExecutionIsSettled | core/src/worker_manager.rs:682-700 | one approved call between start and stop: when the loop has exited it was told to stop, everything the worker opened was opened under that call and is decided for good, no data task runs, and what was committed when the call was resolved is what stays committed |
| SupervisorRuns.ServedUnderItsOpener | core/src/worker.rs:500-514 | a statement or commit that reaches a session, or a rollback that is admitted, quotes the live invocation that opened the transaction |
| SupervisorRuns.OpenMeansOwnerLive | core/src/worker.rs:1512-1572 | an open transaction of an echoing worker has a recorded owner that is still active |
| SupervisorRuns.FateIsSealed | core/src/worker.rs:1573-1702 | a transaction that left the table never returns, keeps its fate, and commits only if that fate was a commit |
| SupervisorRuns.CommitsAreAdmittedOnce | core/src/worker.rs:135-148 | a transaction that commits was asked to by exactly one admitted commit of the run |
| SupervisorRuns.CommittedOnce | core/src/worker.rs:210-219 | the fate "commit asked" has exactly one cause in the run |
| SupervisorRuns.SingleFlight | core/src/worker.rs:999-1039 | two sends of the same numeric job are separated by its result, a stop or a crash |
| SupervisorRuns.TablesStayBounded | core/src/worker.rs:776-822 | at most four open transactions, equal domains of the job and agent tables, owners only of open transactions, process handles exactly while running |
| SupervisorRuns.IdleMeansNothingTracked | core/src/worker.rs:479-489 | an idle answer means no call, job, transaction or agent run is tracked |
| SupervisorHistory.GateIff | core/src/worker.rs:238-369 | which messages of an approved and a public worker get through, by kind, protocol 4 and live invocation, and which are answered with a denial |
| SupervisorHistory.ProtocolStep | core/src/worker.rs:1199-1215 | a worker speaks the protocol it last announced, and 1 from each start or crash on |
| SupervisorTxHistory.TxStep | core/src/worker.rs:1512-1702 | what every event does to one transaction: opened iff a begin is admitted as one of at most four, sent to commit iff an admitted commit reached it, to roll back iff an admitted rollback, a refused message or a statement it could not take did, its actor touched only by its own commands, cancellations and moves; an admitted, queued statement is an Exec, or a Poison beyond the rate |
| SupervisorLedger.RunningIff | core/src/worker.rs:878-945 | in every run the worker runs exactly since its last start, until a stop, a kill or a crash |
| SupervisorLedger.CrashedIff | core/src/worker.rs:1843-1944 | and is given up exactly since something gave it up, until it is stopped |
| SupervisorLedger.ActiveIff | core/src/worker.rs:947-1040 | an invocation is live exactly from the call or job sent under it to its answer, timeout or the end of the worker |
| SupervisorLedger.WaitsIff | core/src/worker.rs:947-998 | a call waits for its answer exactly since it was sent |
| SupervisorLedger.InFlightIff | core/src/worker.rs:999-1040 | a queue message is in flight exactly since it was written |
| SupervisorLedger.AgentIff | core/src/worker.rs:1041-1067 | an agent run is streamed exactly since it was sent |
| SupervisorLedger.TaskIff | core/src/worker.rs:40-68 | a data task of an approved worker runs exactly since it was admitted, until it ends |
| SupervisorLedger.OpenIff | core/src/worker.rs:1512-1572 | a transaction is open exactly since its begin was admitted, until it is handed over or dropped |
| SupervisorLedger.ResolvedIff | core/src/worker.rs:395-417 | a call is resolved exactly when the wait behind its answer ended, or in an approved worker when the worker was lost while it waited |
| SupervisorLedger.AnswerIsResolved | core/src/worker.rs:395-417 | an answer that is waited out is resolved |
| SupervisorLedger.FateIff | core/src/worker.rs:1573-1702 | the fate of a transaction is a commit iff an admitted commit reached it, and a rollback iff an admitted rollback, a message that was not admitted or a statement it could not take did |
| SupervisorLedger.CommittedIff | core/src/worker.rs:137-148 | a transaction is committed iff the Commit it was told to make was taken before anything else ended it, with no failed or poisoned statement before, and PostgreSQL reported it |
| SupervisorLedger.CommitCanTakePlace | core/src/worker.rs:137-148 | from any state with a commit on its way to an actor with nothing against it, a run goes on to the commit |
| SupervisorLedger.RunGoesOn | core/src/worker.rs:826-1958 | any command, message under fresh ids, timeout or task end that may come while the loop is ready, and the end of a wait, is a next step of the run |
| SupervisorLedger.TransactionCanGoThrough | core/src/worker.rs:826-1958 | in ordinary and approved workers some run opens a transaction in a call, executes in it, commits it and resolves the call |
| SupervisorLoop.Serve | core/src/worker.rs:826-1958 | any script of commands, messages, timers and actor moves takes the loop through a run of the machine, and the invariant holds of its fields |
| SupervisorLoop.Replay | core/src/worker.rs:826-1958 | every run of the machine is one the loop can be led through |
| SupervisorLoop.Loop.FinishStop | core/src/worker.rs:911-945 | a stop leaves every table empty, and in an approved worker every transaction it ever opened is over |
| SupervisorLoop.Loop.OnJob | core/src/worker.rs:999-1040 | a queue message is in flight afterwards iff it was before or was just written to a running worker; lease, invocation and payload are recorded for the same messages |
| SupervisorLoop.Loop.IsIdle | core/src/worker.rs:1072-1081 | idle is answered iff every table of calls, jobs, agent runs and transactions is empty |
| SupervisorLoop.Loop.FinishResponse | core/src/worker.rs:395-417 | when a call is resolved nothing is live under its invocation: no session opened under the echo, no data task, and in an approved worker no actor that is not over |
| SupervisorLoop.Loop.CloseWorkflowInvocation | core/src/worker.rs:377-393 | closing an invocation drops exactly the sessions it owns |
| SupervisorLoop.Loop.CloseApproved | core/src/worker.rs:174-188 | the actors taken out of the table are cancelled before they are awaited |
| SupervisorLoop.Loop.FinishCrash | core/src/worker.rs:1843-1944 | a crash leaves every table empty whatever follows the backoff, and the worker running iff it was started again |
| TxRunnerTrace.TransactionTrace | core/src/backend_prelude.js:332-429 | for every interleaving, with statements that fail before they are sent, the wire is whole transactions one after the other and at most one unfinished; each is a begin, the statements that reached Core one at a time in call order, and one commit or rollback iff the begin succeeded; commit iff the callback returned and no accepted statement latched a failure; at most one written request unanswered |
| TxRunnerTrace.StepKeeps | core/src/backend_prelude.js:368-429 | every event keeps that shape |
| TxRunnerTrace.FailureIsFinal | core/src/backend_prelude.js:415-425 | nothing is sent after a failed begin or a failed commit |
| TxRunnerTrace.CommitIsSent | core/src/backend_prelude.js:408-413 | the commit goes out only with the queue drained and no statement failed |
| TxRunnerTrace.RollbackIsSent | core/src/backend_prelude.js:415-424 | the rollback goes out only with the queue drained and the transaction still open |
| TxRunnerTrace.StatementIsSent | core/src/backend_prelude.js:392-395 | the next queued statement goes out in its place in call order, with nothing else unanswered |
| TxRunnerTrace.StatementIsSilent | core/src/backend_prelude.js:392-401 | a statement that is skipped after a latched failure or fails to serialize puts nothing on the wire and keeps the order |
| TxRunnerTrace.OnlyTheLatchStops | core/src/backend_prelude.js:392-401 | every statement gets its turn up to the first latched failure and none after it |
| TxRunnerTrace.AnswersAreTheSent | core/src/backend_prelude.js:332-344 | a statement is on the wire iff it succeeded or was refused by Core, at its place in call order |
| TxRunnerTrace.CommitMeansSuccessIff | core/src/backend_prelude.js:392-413 | in every run, a transaction whose commit goes out had all its accepted statements succeed iff none was called with parameters whose serialization throws a falsy value |
| TxRunnerTrace.ResolvedMeansSuccess | core/src/backend_prelude.js:388-414 | in every run in which `tx.sql` is never called with such parameters, a transaction that resolves had every statement succeed |
| TxRunnerTrace.UnwrittenStatementRollsBack | core/src/backend_prelude.js:332-344 | one statement with a BigInt parameter: begin and rollback on the wire, and its entry left pending |
| TxRunnerTrace.FalsyErrorCommits | core/src/backend_prelude.js:392-411 | one statement whose serialization throws a falsy value: the transaction commits |
| TxRunnerSpans.StatementsAreTheCalls | core/src/backend_prelude.js:368-414 | in every run each transaction, finished or in progress, has its call, the first reply to its begin and the first callback end behind that, and its accepted statements are exactly the calls of `tx.sql` on its handle between the two, in order |
| TxRunnerCalls.ReplyIsLogged | core/src/backend_prelude.js:332-344 | the first reply or timeout of a written request is logged as it came, any other changes nothing in the log |
| TxRunnerCalls.CallBegins | core/src/backend_prelude.js:368-387 | a call goes out as a begin iff no transaction is in progress, and else changes nothing |
| TxRunnerCalls.NextStatementRuns | core/src/backend_prelude.js:392-401 | with nothing unanswered the next statement goes out, fails or is skipped, by its parameters and the latch alone, also before the callback has ended |
| TxRunnerCalls.EndGoesOut | core/src/backend_prelude.js:408-424 | with all statements settled and the callback over, the commit goes out if it returned and nothing is latched, and else the rollback |
| TxRunnerReach.SeenIff | core/src/backend_prelude.js:368-429 | the lists of transactions some run shows its callers are exactly those in which each was refused at its begin, or had every statement come out by its parameters and the latch and resolved only after a callback that returned with nothing latched |
| TxRunnerActor.Live | core/src/backend_prelude.js:368-429 | any script of calls, replies and timeouts leaves the fields where the machine's run ends, with a log that tells whole transactions, at most one written request unanswered, and the statements of each transaction exactly the calls made in its callback |
| TxRunnerActor.Invocation.LogTellsTransactions | core/src/backend_prelude.js:368-429 | the same of every reachable object |
| TxRunnerActor.Invocation.CallSql | core/src/backend_prelude.js:388-405 | a call is accepted iff it is on the current handle and the callback is running, and then joins the end of the queue |
| SchemaConvergence.ReconcileMeetsTarget | core/src/schema_sync.rs:80-256 | applying the generated DDL takes every column to its target, for every table and every order |
| SchemaMeaning.SyncMeans | core/src/schema_sync.rs:80-256 | stated from manifest and table alone: after a sync the three system columns are what they were, no undeclared column is left, and every declared column has its type by name, its nullability, a default that the catalog already showed or that was set, and, if it is a link that had a key, a key with its delete rule, the old one iff that agreed and else a new one to the table it names |
| SchemaMeaning.TypeIsMeant | core/src/data_types.rs:141-160 | the catalog's name for each field type, and of the key a link points at |
| SchemaMeaning.DefaultsMatchIff | core/src/schema_sync.rs:66-69 | a shown default is the wanted one iff, up to its first cast and blanks at the ends aside, the texts are the same |
| SchemaMeaning.DefaultIsMeant | core/src/data_types.rs:218-234 | which fields ask for a default and what text it has; a quoted string reads back |
| SchemaMeaning.RuleIsMeant | core/src/manifest.rs:551-559 | the delete rule of a link, declared or by being required |
| SchemaConvergence.SystemColumnsUntouched | core/src/schema_sync.rs:92-95 | id, created_at and updated_at are never changed |
| SchemaConvergence.FieldOrderDoesNotMatter | core/src/schema_sync.rs:204-213 | manifests that list the same fields in any order give the same table |
| SchemaConvergence.FksStayDistinctIff | core/src/schema_sync.rs:148-170 | constraint names are unique after a sync iff the planned ones are apart |
| SchemaConvergence.TwoLinksOneName | core/src/schema_sync.rs:165-166 | two links of one table that are given the same constraint name |
| SchemaConvergence.SecondDiffIsEmptyIff | core/src/schema_sync.rs:66-69 | the diff after a sync is empty iff no declared default contains "::" |
| SchemaConvergence.CompoundDefaultNeverSettles | core/src/data_types.rs:218-234 | a JSON object or array default is set again on every sync |
| SchemaConvergence.PrintedMatchesIff | core/src/schema_sync.rs:66-69 | a default printed back with at most a cast is recognised iff it contains no "::" |
| SchemaConvergence.FreshTableIff | core/src/manifest.rs:348-393 | a table with freshly created columns has an empty diff iff every declared column settles |
| SchemaSync.CreationNeedsNoSyncIff | core/src/manifest.rs:248-273 | the same for the table `generate_create_table` makes |
| SchemaSync.GenerateCreateTable | core/src/manifest.rs:248-273 | the columns of a new table, in order |
| SchemaSync.CreatedTableMeans | core/src/manifest.rs:248-273 | a new table has every declared column with its type, nullability and default, a generated key if it is a UUID, an id and two timestamps unless it is derived, and nothing else |
| SchemaSync.ComputeDiff | core/src/schema_sync.rs:80-187 | the two loops compute the diff whose effect is proved |
| SchemaSync.EmitDdlPhases | core/src/schema_sync.rs:215-256 | a change is pushed onto exactly its phases |
| SchemaSync.GenerateDdl | core/src/schema_sync.rs:204-213 | the phases are flattened in order: dropped constraints, types, new columns, nullability, defaults, new constraints, dropped columns |
| SchemaSync.SyncTable | core/src/schema_sync.rs:80-213 | diff and DDL together take every column to its target, which is what its field asks for (`SchemaMeaning.TableMeans`) |
| DeliveryProofs.BoundedRedelivery | core/src/scheduler.rs:435-445 | a message of any kind is handed to an app's worker or a runner at most five times in every run with crashes |
| DeliveryLedger.BoundedByKind | core/src/scheduler.rs:356-445 | in every run with crashes an app job and a workflow are handed over, to anyone, at most five times, and a message without provenance never |
| DeliveryLedger.FiveDeliveriesHappen | core/src/scheduler.rs:435-445 | and for every n up to five some run does hand one over n times |
| DeliveryLedger.RunsAreWorkflows | core/src/scheduler.rs:356-524 | only a workflow is started as a run, and it is never handed to a worker |
| DeliveryLedger.HandoverIsRecorded | core/src/scheduler.rs:356-524 | every handover is recorded with its message and delivery count, and nothing else is |
| DeliveryLedger.ReadCountIs | core/src/jobs.rs:188-200 | the delivery count of a message is the number of times it was read |
| DeliveryLedger.QueueIff | core/src/jobs.rs:188-267 | a message is on the queue exactly since it was sent, until something archives or deletes it |
| DeliveryLedger.ArchivedIff | core/src/jobs.rs:202-267 | it is archived exactly since it was completed or archived after its copy, until an uninstall |
| DeliveryLedger.CopiedIff | core/src/jobs.rs:254-267 | it has a dead-letter copy exactly since a handler or a worker made one |
| DeliveryLedger.RunGoesOn | core/src/scheduler.rs:349-564 | reports, uninstalls and crashes at any time, and reads with a permit, are next steps of any run |
| DeliveryProofs.NoMessageIsLost | core/src/jobs.rs:254-267 | a message is on the queue, archived after completion or a dead-letter copy, or deleted on purpose (by a handler, a worker or the uninstall of its app), and in only one of these places |
| DeliveryProofs.AgentDeliveriesUnbounded | core/src/scheduler.rs:73-150 | for every n some run hands one agent job, or one cron message of an app with an agent, over n times |
| DeliveryProofs.PermitsAddUp | core/src/scheduler.rs:531-564 | free permits, running handlers and loops holding one always make eight |
| DeliveryProofs.InFlightIsLiveRuns | core/src/scheduler.rs:155-226 | the in-flight set is the messages of live run tasks, no two alike |
| DeliveryProofs.StepKeeps | core/src/scheduler.rs:349-564 | every queue call, task step and crash keeps these |
| Scheduler.Serve | core/src/scheduler.rs:349-564 | any script of queue calls, task steps and crashes takes the scheduler through a run of the machine, with every book kept |
| Scheduler.Replay | core/src/scheduler.rs:349-564 | every run of the machine is one the scheduler can be led through |
| Scheduler.Core.Handle | core/src/scheduler.rs:356-524 | what a delivery comes to by kind, count and checks: without provenance, or as an app job or known workflow read more than five times, it is dead-lettered and archived; refused it is deleted; an accepted job stays on the queue after one handover, one not taken is deleted after it; a workflow starts one run, or changes nothing while one is in flight |
| Scheduler.ReadThenHandled | core/src/scheduler.rs:356-524 | the same from the read on: the delivery is counted, and a cron message goes to the agent iff its app has one |
| Scheduler.Core.Dispatch | core/src/scheduler.rs:356-524 | through the machine's steps for its route, with every book kept |
| Scheduler.Core.PollOnce | core/src/scheduler.rs:539-563 | a message is read only with a permit, which passes to its task or goes back, so the loop never keeps it |
| Timing.LeaseIsHeld | core/src/jobs.rs:227-252 | a heartbeat started within 30 s, without three failed renewals in a row, keeps the lease at every moment |
| Timing.AlwaysHeldIff | core/src/jobs.rs:9-10 | and the 30 s are exact |
| Timing.HungHandlerIsReleased | core/src/jobs.rs:12-21 | the message is visible again no later than the lifetime plus 120 s |
| Timing.LeaseEndsAfterRenewal | core/src/jobs.rs:227-252 | the lease ends 120 s after the last renewal that succeeded, the k-th being 30k s after the start |
| Timing.LeaseEndsAfterRead | core/src/jobs.rs:9-21 | and without one, 120 s after the read |
| Timing.LeaseHeartbeat | core/src/jobs.rs:227-252 | the loop renews each interval until it is cancelled or the lifetime is over |
| Timing.DeadLoopIsAborted | core/src/scheduler.rs:647-671 | one that stopped is aborted within 136 s of its last tick |
| Timing.AbortCanTakeLonger | core/src/scheduler.rs:34-38 | 135 s would not be enough, because of whole seconds |
| Timing.Watch | core/src/scheduler.rs:651-663 | the watchdog stops at the first look that finds the tick too old, and never if no look finds it more than 120 s old |
| Timing.WatchDeadLoop | core/src/scheduler.rs:647-671 | the watchdog catches a loop that stopped ticking, at its first stalled look, less than 136 s after the last tick |
| Slots.PoolNeverExceedsCap | core/src/worker_manager.rs:237-254 | free slots and distinct held permits make the cap, so workers, spawns and approved executions never exceed it |
| Slots.StepKeeps | core/src/worker_manager.rs:468-545 | every acquisition, copy, registration and release keeps that |
| Slots.HeldIff | core/src/worker_manager.rs:468-545 | in every run a holder holds a slot exactly since it acquired, copied or registered it, until it lets go or its spawn becomes a worker |
| Slots.SlotsMove | core/src/worker_manager.rs:468-545 | a copy has its entry's slot, a worker its spawn's, a new slot is nobody else's, and whoever else holds one keeps it |
| Slots.Pool.TakeSlot | core/src/worker_manager.rs:468-498 | a slot is free or comes from an idle one of the first four candidates; nobody else loses theirs; it fails only with none free and every idle one of the four gone |
| Slots.Pool.EvictFor | core/src/worker_manager.rs:478-492 | evicting one worker frees a slot unless its entry is still copied elsewhere |
| Slots.Pool.StopWorkers | core/src/worker_manager.rs:554-564 | exactly the listed workers leave the map, and the accounting holds |
| Slots.Pool.SpawnInto | core/src/worker_manager.rs:529-545 | a failed spawn leaves no slot behind; with a free slot a spawn that works is registered |
| WorkerKeys.SameKeyIff | core/src/worker_manager.rs:61-130 | two requests share a worker iff app, principal (permissions as a multiset) and scope agree |
| WorkerKeys.UserKeyReadsBack | core/src/worker_manager.rs:120-128 | a user key can be read off any text that begins with it |
| WorkerKeys.PublicKeyReadsBack | core/src/governance/publications.rs:29-46 | and so can a public execution's |
| WorkerKeys.PartitionReadsBack | core/src/governance/execution.rs:147-150 | and an agent partition |
| WorkerKeys.PartitionIsJson | core/src/governance/execution.rs:147-150 | a partition is the JSON text of the pair of lineage and origin |
| WorkerKeys.InvalidationIsExact | core/src/worker_manager.rs:72-78 | invalidation for a user selects exactly their workers and their agent's app |
| WorkerKeys.CommaWouldCollide | core/src/manifest.rs:658-669 | without the charset of permission keys two identities would share a worker |
| Encoding.QuotedReadsBack | core/src/worker_manager.rs:126-127 | an escaped string can be told from any other, whatever follows |
| Encoding.SortedSameIff | core/src/worker_manager.rs:122-123 | sorting forgets the order of permissions and nothing else |
| Lines.SplitsAnywhere | core/src/backend_prelude.js:96-106 | a stream may be cut anywhere without changing its lines |
| Lines.SplitIff | core/src/backend_prelude.js:96-106 | a list of lines and a rest are those of a stream iff they make it up and contain no delimiter |
| LineReaders.Read | core/src/builder/pipeline.rs:255-318 | the reader with its cursor and size limit gives the verdict of splitting the whole stream |
| LineReaders.DrainLines | core/src/builder/pipeline.rs:268-309 | the inner loop takes off exactly the complete lines |
| LineReaders.AcceptsIff | core/src/builder/pipeline.rs:273-318 | accepted iff progress events, one result and a final newline |
| ReaderVerdicts.ReaderRefuses | core/src/builder/pipeline.rs:258-308 | the first line out of place, in chunks that fit, is the verdict, with its own error and exactly the updates before it |
| ReaderVerdicts.ReaderStopsAtLimit | core/src/builder/pipeline.rs:263-266 | else the first chunk that makes more than 160 MiB with the unfinished line is |
| ReaderVerdicts.ReaderEnds | core/src/builder/pipeline.rs:310-318 | else the stream is accepted with its result, or refused for an unfinished line or a missing result |
| ReaderVerdicts.EveryStreamIsJudged | core/src/builder/pipeline.rs:268-308 | one of these is the case of every stream |
| ReaderVerdicts.LineIsDispatched | core/src/backend_prelude.js:96-106 | a line adds its message iff it is not blank and parses, and affects no other |
| LineReaders.ChunkingDoesNotMatter | core/src/builder/pipeline.rs:258-308 | chunkings within the limit give the same outcome |
| LineReaders.Transport.OnData | core/src/backend_prelude.js:95-106 | a chunk dispatches the lines that are now complete |
| LineReaders.Feed | core/src/backend_prelude.js:89-108 | what was dispatched depends only on the whole input |
| Framing.Deliver | core/src/ipc.rs:423-431 | the transport, fed with any pieces of the written stream, dispatches exactly the messages that were sent, in order |
| Framing.MessagesArriveAsTheirValues | core/src/ipc.rs:423-431 | for the reader that takes each text for the value it is the text of, the messages arrive unchanged for every chunking, with nothing assumed of the parser |
| JsonText.TextIsOneLine | core/src/ipc.rs:424-425 | no JSON text contains a newline |
| JsonText.TextReadsBack | core/src/ipc.rs:424-425 | a JSON text is read off any continuation in only one way |
| JsonText.SameTextIff | core/src/ipc.rs:424-425 | two values have the same text iff they are equal, so a parser can undo the printer |
| JsonText.EscapesAre | core/src/ipc.rs:424-425 | the escapes of a string are those of section 7 of RFC 8259, short where there is a short form |
| JsonText.ArraysAre | core/src/ipc.rs:424-425 | items are joined by commas between brackets |
| JsonText.ObjectsAre | core/src/ipc.rs:424-425 | and members between braces, a quoted name, a colon and the value each |
| Permissions.IntersectNeverWidens | core/src/governance/authority/perms.rs:84-95 | an intersection covers nothing that either side does not |
| Permissions.MeetIsExactIff | core/src/governance/authority/perms.rs:70-95 | an intersection loses nothing at a requirement, for all pairs of grants, iff the requirement is scoped at most once or twice below a wildcard |
| Permissions.MatchIsTransitive | core/src/governance/authority/perms.rs:97-107 | a key that satisfies a key satisfies what that one satisfies |
| Permissions.MatchesIff | core/src/governance/authority/perms.rs:97-107 | the star satisfies everything, a prefix with ":*" what continues it with a colon, any other key only itself |
| Permissions.ScopedIff | core/src/governance/authority/perms.rs:75-80 | a scope is ".own" or ".shared" at the end |
| Permissions.ScopesAreDistinct | core/src/governance/authority/perms.rs:70-95 | own and shared meet all in themselves and each other in nothing |
| Authority.AuthorityNeverWidens | core/src/governance/execution.rs:113-143 | what revalidation returns stays within the run's and every ancestor's ceiling, its task scope, the human and every agent as read; the lineage has no app twice and each may invoke the next |
| Authority.RevalidationIsExact | core/src/governance/execution.rs:113-143 | a key is granted iff ceiling, human and every agent cover it |
| Authority.FinishedLineageIsDead | core/src/governance/execution.rs:175-187 | after an ancestor finished nothing below it revalidates or delegates |
| Authority.LiveRunRevalidates | core/src/governance/execution.rs:181-187 | revalidation is refused only for a finished ancestor or an unreadable lineage |
| Authority.StepKeeps | core/src/governance/execution.rs:42-111 | admitting keeps lineages and ceilings nested |
| Authority.AdmittedWithin | core/src/governance/execution.rs:82-96 | the ceiling of a new run is within what admitted it, the agent's own permissions and its task scope |
| AuthorityAdmission.AdmittedIsExact | core/src/governance/execution.rs:82-96 | for every requirement scoped at most once the new ceiling covers it iff what admitted the run, the agent and the task scope, if any, do |
| AuthorityAdmission.RootIsAdmittedIff | core/src/governance/execution.rs:68-111 | a root run is admitted iff the human is enabled and may invoke the agent, who is enabled, and the origin is valid; then it is exactly that run and nothing else changes |
| AuthorityAdmission.ChildIsAdmittedIff | core/src/governance/execution.rs:51-111 | a child is admitted iff it is of the same human, its app is not in the lineage, no run above has finished, and the lineage as read now may invoke it; then it is exactly that run under its parent's scope |
| AuthorityAdmission.RevalidatesIff | core/src/governance/execution.rs:113-143 | revalidation succeeds iff no run above has finished, the origin is valid, and the human and every agent are enabled and may invoke those after |
| AuthorityAdmission.FinishedIff | core/src/governance/execution.rs:175-187 | a run has finished iff it was told to |
| Authority.NarrowLineage | core/src/governance/execution.rs:123-140 | the loop narrows over the lineage |
| Authority.Revalidate | core/src/governance/execution.rs:113-143 | checked before and after the reads at two moments of any history, it returns what revalidation at the later moment is defined to be |
| Crons.JobsMatchSchedules | core/src/crons.rs:151-266 | after any creates, updates, deletes and uninstalls, jobs are one-to-one with enabled schedules, and each fires on its schedule's times with its id, app and payload, skipping iff its overlap is "skip" |
| Crons.UpdateSucceedsIff | core/src/crons.rs:181-225 | an update succeeds iff the schedule is there, its new values are valid and, if it is on afterwards, its times are accepted |
| Crons.CreateSucceedsIff | core/src/crons.rs:151-179 | a create succeeds iff the name is 1 to 64 letters, digits, "_" or "-" and free in its app, the overlap is "skip" or "queue" and the schedule is valid and accepted |
| Crons.UpdateKeeps | core/src/crons.rs:181-225 | an update changes one schedule: what it leaves out stays, being enabled included |
| Crons.DeleteSucceedsIff | core/src/crons.rs:227-246 | a delete fails only when there is no such schedule |
| CronSync.Store.CreateCron | core/src/crons.rs:151-179 | succeeds iff the values and the name allow it, then exactly one schedule is new, enabled, with a job that fires with its values; otherwise nothing changed, also when the job was refused after the insert |
| CronSync.Store.UpdateCron | core/src/crons.rs:181-225 | succeeds iff the schedule is there and its new values are accepted, then only it changed, what the edit leaves out stayed, and it has a job iff it is enabled, which fires with its values; otherwise the old job is back |
| CronSync.Store.DeleteCron | core/src/crons.rs:227-246 | succeeds iff the schedule is there, then it and its job are gone and nothing else changed |
| CronSync.Store.DeleteAllForApp | core/src/crons.rs:248-266 | unscheduling one by one leaves exactly the other apps' schedules and jobs |
| CronSync.Store.SyncFromManifest | core/src/crons.rs:336-387 | stops at the first definition that is not applicable or names again a schedule just created, with those before it in force; for every definition of a sync that succeeds, the timezone is the declared one iff every schedule of that name that was there had it |
| CronSync.SyncedExactly | core/src/crons.rs:336-387 | exactly the declared names are left, enabled, with a job and the values of the last definition of the name |
| CronSync.PayloadIs | core/src/crons.rs:353-363 | a definition's payload is the declared one or an empty object, with the method put into it; only a method without an object to go into is refused |
| CronSync.LastNamedIs | core/src/crons.rs:352-385 | of several definitions of one name the last one counts |
| CronSync.ZoneStaysBehind | core/src/crons.rs:366-371 | for every schedule and every applicable definition of its name with another timezone, the sync succeeds, the other declared values arrive and the timezone stays |
| CronSync.ParisMovesToUtc | core/src/crons.rs:366-371 | a report at nine in Paris, synchronized with eight in UTC, is left at eight in Paris |
| Windows.AdmitAll | core/src/worker.rs:125-133 | for any clock that never goes back no second holds more than 100 admitted calls, and a call is refused iff the second before it holds 100 |
| Windows.RateBuckets.Admit | core/src/worker.rs:112-121 | a call draws on its own class only and is refused iff the last second of that class holds 100 |
| Windows.SpacedMeansBounded | core/src/worker.rs:125-133 | spacing of admissions is the window bound |
| Windows.CrashWindow.OnCrash | core/src/worker.rs:1882-1944 | the remembered minute decides as all restarts since the last stop would: given up iff four of them are recent, else started again unless stopped or failing |
| Windows.CrashWindow.OnStop | core/src/worker.rs:908-938 | a stop clears the record |
| Windows.Live | core/src/worker.rs:1882-1944 | in any life of starts, stops and crashes, told by its happenings: a crash of a running worker gives it up iff the minute before held four restarts since the last stop, and else it is started again unless stopped or failing; no minute between two stops holds more than four restarts |

## Left out

- Supervisor: jobs and agent invocations are sent to ordinary workers only, as the managers do; a job
  with a non-numeric id keeps its invocation until the worker stops; the loop's end by a closed
  command channel, outbound replies and SQL text are not modelled.
- Supervisor: an approved begin that times out leaves an actor without a session; the model keeps it
  as one that can only roll back.
- Supervisor: in `ApprovedExecutionIsSettled` the 35 s timeout of the manager is any moment at which it
  sends the stop; its audit rows and its slot are not part of the run.
- Supervisor: the collection reads of a public worker change no table of the loop and are not messages of
  the machine.
- TxRunner: how a statement's parameters serialize is fixed when it is called, although they are read
  when its turn comes; begin, commit and rollback messages carry strings only and always serialize; what Core
  does with a request is the reply the environment picks.
- Schema: type strings are parsed elsewhere, decimals are given in canonical form, enum checks and
  row data (a failing ALTER or SET NOT NULL) are not modelled, and the catalog is a parameter that
  prints a literal back with at most a cast.
- Schema: a statement is taken to be accepted; PostgreSQL refuses a constraint name that is in use and
  cuts identifiers at 63 bytes, neither of which the model does.
- SchemaSync.CreationNeedsNoSyncIff: speaks of the table before its foreign keys are added by separate statements.
- Foreign keys across creation and replacement use different names in the source; the model has one
  foreign key per column.
- Delivery: pgmq's visibility clock is not part of the machine, so a message may be read at any
  moment; a manual workflow whose execution is not bound is dead-lettered by the machine but not by
  `Handle`; whether the app of a cron message has an agent is picked anew at each delivery, and so is
  which messages an uninstall finds.
- Timing: query latency and the millisecond granularity of timers are taken as zero.
- Schema: trimming a default knows spaces, tabs and line ends only.
- Slots: the order of the eviction candidates is given; the process behind a permit is not modelled, so nothing is claimed about live processes;
  the class methods run one caller at a time, the state machine interleaves them.
- Authority: whether a principal is enabled and what it may do are read at one moment per principal;
  role expansion is not modelled, and grant lists are sets.
- LineReaders: a database error while a progress update is stored, and responses that are not
  streamed, are not modelled.
- Framing.Deliver: the receiver's JSON parser is a parameter that undoes the printer on the messages
  sent; that there is one is proved (`JsonText.ParserUndoesPrinter`), that the worker's runtime has it
  is not.
- Crons: schedule syntax is a parameter, foreign jobs of pg_cron are not listed, pg_cron is taken to
  be installed, and a concurrent writer between two transactions of one sync is not modelled.
- Windows: the length of the backoff is not modelled.
- Not modelled: the table of pending calls in `ipc.rs` with its timeouts and `resolve`, the choice of
  the worker cap from memory and environment (`worker_cap`), and the wording of the errors a worker is
  given for an unknown transaction (`match_session`).
- Not modelled: HTTP routes, OIDC, secrets, Git and archive I/O, process spawning, the SQL of
  publications, the statuses of builder runs and the PL/pgSQL hooks.
