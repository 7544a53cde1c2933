# LazGate: agreement between a control plane and its node agents

LazGate's server and its node agents keep separate databases and talk over a stream that loses,
repeats and delays. This project models the protocols that keep those databases in agreement and
proves what they promise in every reachable state. Every SQL statement or transaction is one step,
crashes and refused statements are ordinary steps, and edits may fall between any two steps of
somebody else. Code that works by updating things step by step is a class or a method proved against
the functions and state machines that the theorems are about; pure code is functions and lemmas.

| file | what it models |
|---|---|
| `Ids.dfy`, `Numbers.dfy`, `Wrappers.dfy` | identifiers in their lexicographic order; bytes; optional values |
| `Manifest.dfy` | one credential manifest: sorting, filtering, page cut, validation, the paging loop |
| `SyncMachine.dfy`, `SyncResults.dfy` | credential synchronisation and finalization as a machine; its consequences and limits |
| `SyncEngine.dfy` | the agent's pass over the server's pages, with concurrent server writes, as runs of that machine |
| `TrafficStore.dfy`, `UsageLedger.dfy` | the agent's traffic table and the server's usage ledger |
| `UsageMachine.dfy`, `UsageDelivery.dfy` | usage accounting over both agent databases, two flushes, the network and the server; which requests are retried, stranded or completed |
| `UsageQueue.dfy`, `UsageOutbox.dfy` | the agent's flushes as runs of that machine, with everybody else at work in between; its outbox as a table of the message queue |
| `CounterHistory.dfy` | what readings of a counter with resets can account for |
| `MessageQueue.dfy` | the durable queue: leases, retries, expiry and cleanup |
| `AwgInstall.dfy`, `WorkChain.dfy`, `WorkEnds.dfy`, `ServerWorker.dfy` | the installation steps; their messages, executions and events as a machine; how operations end; the server's worker as runs of that machine on the queue |
| `HysteriaSettings.dfy`, `HysteriaNode.dfy`, `AwgNode.dfy`, `Ipv4Pool.dfy` | versioned settings, issued client configurations, address allocation |
| `RefreshTokens.dfy`, `Cps.dfy` | refresh token families; the packet signature printer and parser |

## Hypotheses

- The server clock never goes back. A connection write carries the clock reading that stamps it, and
  no manifest starts between that reading and the commit; `SyncResults.LateCommitSafeIff` says what
  happens otherwise, and `SyncResults.LateCommitUnseen` is a run that meets it.
- The set of active accounts is fixed while credentials are synchronised, because changing an account's
  status stamps no connection; `SyncResults.AccountStatusSafeIff` says exactly when that is harmless, and
  `SyncResults.AccountHeldUnseen` is a run after which it is not.
- Only for "applied means applied": refreshes are finalized for snapshot versions below the manifest start
  of the pass that served them; `SyncResults.FinalizeRightIff` shows that this is the exact condition, and
  `SyncResults.UntimelyRefresh` is a run in which the system does not meet it. Sync safety needs no such
  hypothesis.
- Generated identifiers (usage requests, messages, sessions, tokens, families) are fresh.
- A transaction that reports an error has changed nothing.
- One worker process handles the server's messages, one after the other, as the server starts it.
- The agent has two flushes, one after synchronisations and one on the telemetry ticker; each runs one
  after the other, and both run side by side.
- A node configuration starts with a positive version, as registration stores it.

## Limits that the proofs expose

- Two edits of one connection in one millisecond can push a snapshot version past the manifest start of
  the pass that answers it, and a connection created in that millisecond is then marked applied unseen.
- The comment on the outbox repair says that repeating it is safe after any crash; it is, but a delivery
  failure written more than a minute late makes the row terminal while its traffic is still frozen. The
  request goes out again only after that row is cleaned up, unless the other flush still holds the message:
  `MarkFailed` looks at no status, so its own failure revives the row (`UsageDelivery.RetriesIff`).
- If the row was redacted in between, it is revived without its payload. Such a row is neither delivered nor
  cleaned up nor replaced, and its connections stay frozen until a failure of it is written late again
  (`UsageDelivery.StrandsIff`, `UsageDelivery.LostRequest`, `UsageDelivery.CompletesInTimeIff`).
- The agent counts up to 2^63 - 1 bytes in each direction, and the server refuses a record whose two
  directions add up to more, or whose connection belongs to another node. Such a batch is never credited and
  keeps up to a hundred connections frozen for ever (`UsageMachine.FrozenRequestCompletesIff`,
  `UsageMachine.StuckBatch`).
- An installation ends without an event exactly if its message expires, five minutes after the deadline, or
  if a failure is written after its own retry time: the completion of an interrupted step, or the mark after a
  refused completion, ten seconds or more after the step had ended (`WorkEnds.EndIsToldIff`,
  `WorkEnds.SilentEnd`).
- An address pool that ends at 255.255.255.255 is not exhausted but continued from 0.0.0.0; pools built
  from a subnet never end there.
- Issued Hysteria configurations go stale: exactly when a creation commits after the settings it has read were
  replaced, or when an edit commits without having listed a live connection, which its count does not notice
  if another one was deleted (`HysteriaNode.FreshIff`, `HysteriaNode.StaleCreation`, `HysteriaNode.StaleSwap`).
- Saving AmneziaWG settings can lower the applied version: exactly when a result for the edited version was
  recorded after the editor's own reading, which had found a lower one.

## Model

| member | source | states |
|---|---|---|
| `Manifest.SortPermutes` | internal/protocol/types.go:47-49 | sorting keeps the connections with their multiplicities |
| `Manifest.SortAscends` | internal/server/agentprotocol/stored_projection.go:57-59 | connections with distinct identifiers come out in strictly ascending order |
| `Manifest.SelectAfter` | internal/agent/common/sync_engine.go:96-107 | moving the page cursor to a listed connection leaves exactly the changes after it |
| `Manifest.ListSyncChanges` | internal/server/agentprotocol/stored_projection.go:46-94 | the result is the first page of the sorted, filtered listing, or an error exactly if a connection has no identifier |
| `Manifest.ValidateResponse` | internal/protocol/types.go:65-83 | accepts exactly the pages of valid size with named, strictly ascending identifiers, and reports a size error exactly for the others |
| `Manifest.PageIsValid` | internal/server/agentprotocol/projector.go:22-46 | every page cut from named, distinct connections passes the response validation |
| `Manifest.BuildResponse` | internal/server/agentprotocol/projector.go:22-46 | which error each bad input gives, and otherwise the page with the clock reading and mode of the request |
| `Manifest.FetchAllPages` | internal/agent/common/sync_engine.go:73-107 | with a fixed server the pages add up to the whole filtered listing in identifier order, in n / pageSize + 1 fetches |
| `Manifest.ListingIsExact` | internal/server/agentprotocol/stored_projection.go:57-92 | that listing holds every selected connection once and nothing else |
| `SyncMachine.WritesAreStamped` | internal/server/storage/domain_sql.go:397-408 | creating, changing, deleting and re-issuing connections all raise the version of what they touch to at least their clock reading |
| `SyncMachine.StampedKeepsInv` | internal/server/storage/domain_sql.go:397-408 | a stamped write between any two steps of a pass keeps the whole synchronisation invariant |
| `SyncMachine.FetchKeeps` | internal/server/agentprotocol/stored_projection.go:57-92 | fetching a page loses no connection that the pass still has to see |
| `SyncMachine.ApplyKeepsRight` | internal/agent/common/credential_sync.go:110-129 | after each applied change the pass is right about every connection up to its page cursor |
| `SyncMachine.FinishKeeps` | internal/agent/common/credential_sync.go:130-150 | ending a pass and moving the cursor keeps the invariant, for full and incremental passes |
| `SyncMachine.NextKeepsInv` | internal/agent/common/sync_engine.go:56-115 | every step of either side, finalizations of any snapshot included, keeps the invariant |
| `SyncMachine.SyncSafety` | internal/agent/common/sync_engine.go:42-116 | in every state of every run the agent holds a connection below its cursor, with its current material, exactly if it is active |
| `SyncMachine.AppliedMeansApplied` | internal/server/storage/domain_sql.go:410-449 | while all finalizations so far were timely, every connection marked applied at its current version is held by the agent as desired |
| `SyncMachine.MarksAreCovered` | internal/server/storage/domain_sql.go:410-449 | over every run, whatever is marked applied was marked by a finalization whose snapshot covers that version and which found it with that desired status; later changes are never marked by it |
| `SyncEngine.ListedPageIsPage` | internal/server/agentprotocol/stored_projection.go:46-94 | the page computed by the query code is a page in the machine's sense |
| `SyncEngine.Node.ApplySyncChange` | internal/agent/common/credential_sync.go:110-129 | an incremental change is written through and a full one collected, as one machine step |
| `SyncEngine.Node.ListPage` | internal/server/agentprotocol/projector.go:22-46 | a page request is always answered, after arbitrary concurrent writes, as a machine step whose page is valid |
| `SyncEngine.Node.ApplyPage` | internal/agent/common/sync_engine.go:96-107 | applying a page change by change, with concurrent writes, is a run of the machine; it stops short only if a statement is refused |
| `SyncEngine.Node.RunPage` | internal/agent/common/sync_engine.go:73-107 | one turn of the loop adopts the mode of the first response and leaves the pass where the machine says |
| `SyncEngine.Node.RunPass` | internal/agent/common/sync_engine.go:42-116 | whatever the server does meanwhile and wherever the pass fails, the agent stays right below its cursor; a pass that is done is one whole pass of the machine with the mode, page size and refresh asked for, and sets the cursor to the manifest start; where nothing is refused it fails only when its page requests are used up |
| `SyncEngine.Node.FinishSyncPass` | internal/agent/common/credential_sync.go:130-150 | a full pass replaces store and cursor together, an incremental pass that fails to remove keeps its old cursor, and one that does not fail is finished and answered |
| `SyncResults.ModesAgree` | internal/server/agentprotocol/manifest.go:25-41 | agent and server choose the same mode on every page, and it is full exactly if forced, without a cursor or with a zero cursor |
| `SyncResults.QuietPassIsExact` | internal/agent/common/credential_sync.go:110-150 | a pass with no concurrent write leaves exactly the effective connections and the manifest start as cursor |
| `SyncResults.IncrementalRefinesFull` | internal/agent/common/credential_sync.go:110-150 | from the same state a quiet incremental pass ends in the same store and cursor as a quiet full pass |
| `SyncResults.StatusReachesAgent` | internal/server/storage/domain_sql.go:397-408 | after a connection's status was set, a complete quiet pass leaves it on the agent, with its material, exactly if the status is active and so is its account |
| `SyncResults.CreationReachesAgent` | internal/server/storage/domain_sql.go:240-326 | after a creation, a complete quiet pass leaves the new connection on the agent with the material given for it |
| `SyncResults.NodeDeletionReachesAgent` | internal/server/storage/domain_sql.go:55-80 | after a node was deleted, a complete quiet pass leaves nothing on the agent |
| `SyncResults.ConfigReachesAgent` | internal/server/storage/amnezia_settings.go:9-54 | after a new configuration, a complete quiet pass leaves every active connection on the agent with its re-issued material |
| `SyncResults.AccountStatusSafeIff` | internal/server/storage/sqlite.go:171-180 | changing an account's status keeps sync safety exactly if none of its live connections lies below the cursor |
| `SyncResults.AccountHeldUnseen` | internal/server/storage/sqlite.go:171-180 | a run from the empty system after which holding an account leaves its connection on the agent, below the cursor |
| `SyncResults.LateCommitSafeIff` | internal/server/storage/domain_sql.go:397-408 | a late stamped status change is safe exactly if its version reaches the cursor or effectiveness does not change |
| `SyncResults.LateCommitUnseen` | internal/server/storage/domain_sql.go:397-408 | a run from the empty system after which a deletion stamped before the last manifest start stays unseen below the cursor |
| `SyncResults.FinalizeRightIff` | internal/server/storage/domain_sql.go:410-449 | finalizing a snapshot is right in all states with a cursor exactly if the snapshot lies below the cursor |
| `SyncResults.FinalizedIsApplied` | internal/server/storage/domain_sql.go:410-449 | over every run, finalizing a snapshot that covers a listed connection's version, its own included, by a pass that started after it leaves the connection marked applied in that version and held by the agent as desired |
| `SyncResults.RefreshEndsApplied` | internal/server/workqueue/auth_refresh.go:46-72 | a connection refreshed under its own version by a quiet pass that starts later is answered for that version, and finalizing the answer marks it applied |
| `SyncResults.UntimelyRefresh` | internal/server/workqueue/auth_refresh.go:46-72 | a run from the empty system, timely up to its last step, in which a connection the agent never saw is marked applied |
| `TrafficStore.Store.ObserveTraffic` | internal/agent/common/store/store.go:191-222 | a snapshot is taken over completely, in order, or refused with the table unchanged, including overflow of 64-bit sums |
| `TrafficStore.Store.SelectEligible` | internal/agent/common/store/store.go:236-248 | the selection is the first unfrozen connections that owe traffic, in identifier order |
| `TrafficStore.Store.PrepareUsageRequest` | internal/agent/common/store/store.go:224-265 | exactly those connections are frozen under the request with what they owe |
| `TrafficStore.ReadRecords` | internal/agent/common/store/store.go:293-302 | an acknowledgement is readable exactly if it names each connection once with natural totals |
| `TrafficStore.Store.AcknowledgeUsage` | internal/agent/common/store/store.go:292-346 | a request is released exactly if the acknowledgement matches its frozen rows, and otherwise nothing changes |
| `TrafficStore.AcknowledgesIff` | internal/agent/common/store/store.go:303-338 | a frozen request is released exactly if the acknowledgement names exactly its connections, each with no less than was sent |
| `UsageLedger.DecodeUsage` | internal/server/agenttelemetry/telemetry.go:117-143 | accepts exactly the non-empty batches with distinct, named, natural records whose directions add up within 64 bits |
| `UsageLedger.CreditRecords` | internal/server/storage/telemetry_sql.go:166-180 | succeeds exactly if every record is natural, distinct and of the node, and then adds the batch to the totals |
| `UsageLedger.Ledger.ApplyUsageRecords` | internal/server/storage/telemetry_sql.go:135-206 | a new request is credited once and answered, for exactly its connections, with the former total plus its own bytes in each direction; a known one changes nothing and is answered with the totals as they are |
| `UsageLedger.Ledger.HandleUsage` | internal/server/agenttelemetry/telemetry.go:85-115 | a cached answer is repeated if the inbox can be read; otherwise a batch is accepted exactly if it is acceptable, credited by now, and its answer can be cached; a rejection may leave a credit but no answer |
| `UsageMachine.ObserveCounts` | internal/agent/common/store/store.go:191-222 | a connection's unacknowledged bytes grow by exactly the deltas of its readings |
| `UsageMachine.FrozenIsIssued` | internal/agent/common/store/store.go:267-290 | the frozen rows of an unsettled request are exactly the payload it was issued with |
| `UsageMachine.ApplyKeeps` | internal/server/storage/telemetry_sql.go:135-189 | crediting a delivered batch keeps conservation and every answer fair |
| `UsageMachine.AnswersFit` | internal/agent/common/store/store.go:292-346 | any answer the server can give names exactly the frozen connections or finds none, and is accepted |
| `UsageMachine.StepKeepsInv` | internal/agent/common/usage_queue.go:32-54 | every step of both flushes, network and server, crashes, late and overtaken failures and cleanup included, keeps the accounting invariant |
| `UsageMachine.UsageIsConserved` | internal/agent/common/store/store.go:191-346 | in every reachable state, with both flushes at work, server total plus unacknowledged bytes less what is already credited equals the observed deltas, per connection and direction; what a row was acknowledged with never exceeds the server's total, nor that the observed sum; the unacknowledged bytes fit a signed 64-bit column |
| `UsageMachine.AcknowledgementsFit` | internal/server/storage/telemetry_sql.go:154-206 | every fresh, repeated or cached acknowledgement is accepted, and accepting it twice is accepting it once |
| `UsageDelivery.TotalsAreCredits` | internal/server/storage/telemetry_sql.go:166-180 | over every run the server's total of a connection is the sum of the batches it has credited |
| `UsageDelivery.FreshAnswersAreTotals` | internal/server/storage/telemetry_sql.go:191-206 | over every run a fresh answer reports, for exactly the connections of its request, the sum of everything credited for each up to then |
| `UsageMachine.NoStrandedUsage` | internal/agent/common/usage_queue.go:35-83 | the outbox row of a frozen request is absent, or live with exactly the frozen payload, or failed because a failure was written late, or live without payload because the other flush held the message at such a failure |
| `UsageDelivery.HistoryOfFailures` | internal/queue/sqlstore.go:191-204 | over every run, the two histories are exactly the requests with a late failure, and those with one that was written while the other flush held the message |
| `UsageDelivery.RetriesIff` | internal/queue/sqlstore.go:191-204 | after a failure some run without a cleanup of its row leases the request again exactly if its retry time had not passed when the failure was written, or the other flush still holds the message |
| `UsageDelivery.StrandsIff` | internal/queue/sqlstore.go:191-204 | after a late failure of a frozen request some run without a cleanup leaves its row live without payload exactly if the other flush still holds the message |
| `UsageDelivery.WaitsForCleanup` | internal/agent/common/usage_queue.go:114-120 | a reachable state in which a frozen request waits for the cleanup of its failed row |
| `UsageDelivery.LostRequest` | internal/agent/common/processor.go:245-269 | a reachable state in which a frozen request is stranded and no flush can deliver it |
| `UsageDelivery.LostStays` | internal/queue/sqlstore.go:275-326 | in every run without a late failure of it a lost request stays lost, with its connections frozen as they were |
| `UsageDelivery.CompletesInTimeIff` | internal/agent/common/usage_queue.go:35-112 | from every reachable state a frozen batch that the server can accept completes without a late failure exactly if it is not lost |
| `UsageDelivery.FrozenRequestCompletesIff` | internal/server/agenttelemetry/telemetry.go:117-143 | from every reachable state, lost requests included, some run completes a frozen batch exactly if its directions add up within 64 bits and no connection is of another node; otherwise it stays frozen unchanged in every run |
| `UsageDelivery.StuckBatch` | internal/agent/common/store/store.go:369-374 | a reachable state with a frozen batch that can never complete |
| `UsageQueue.EnvironmentKeeps` | internal/agent/common/processor.go:200-269 | whatever the other flush, observations, heartbeats, network and server do between two statements, a flush keeps its memory and its fresh identifiers, and every request has its row unless it is settled or failed late |
| `UsageQueue.Queue.Observe` | internal/agent/common/usage_queue.go:28-30 | an observation is a machine step exactly if the snapshot is accepted |
| `UsageQueue.Queue.Enqueue` | internal/agent/common/usage_queue.go:56-83 | inserts the row of a prepared batch unless it exists, as a machine step |
| `UsageQueue.Queue.EnqueuePrepared` | internal/agent/common/usage_queue.go:36-44 | afterwards every request that was frozen has its row unless it is settled or failed late, whatever happened in between; left alone, every frozen request has one; only a refused statement keeps it from that |
| `UsageQueue.Queue.EnsureOutbox` | internal/agent/common/usage_queue.go:35-54 | on success every request that was frozen has its row unless it is settled or failed late, and no unfrozen connection owes anything; unless a statement is refused it succeeds with no more rounds than connections owed something at first or came to do so meanwhile; left alone, every frozen request has a row |
| `UsageQueue.Queue.LeasePending` | internal/agent/common/usage_queue.go:85-90 | exactly the first hundred due rows, by availability and identifier, go into flight and into the hands of the flush, as machine steps |
| `UsageQueue.Queue.SendUsageBatch` | internal/agent/common/grpcclient.go:132-139 | while a batch is out everybody else may do anything; an answer comes exactly if the server has given one to that request and it is not lost |
| `UsageQueue.Queue.FlushUsage` | internal/agent/common/processor.go:245-269 | with the other flush at work beside it: where nothing is refused the first hundred due rows are leased, unless new usage has used up the fresh identifiers, and the loop ends early only with the failure of a message without an answer; when it gets to its end, every message was readable and no acknowledgement was refused, every batch it sent is settled and its connections are released |
| `UsageQueue.Queue.Ack` | internal/agent/common/usage_queue.go:92-112 | unless a statement is refused an answer of the server is accepted, settles its request, releases its connections and marks its row; a refused one changes nothing |
| `UsageQueue.Queue.Fail` | internal/agent/common/usage_queue.go:114-120 | only the request's row changes, whatever the other flush has made of it: it waits for its retry exactly if the failure is written in time, and otherwise it is failed |
| `UsageQueue.HandlingIsRun` | internal/server/agenttelemetry/telemetry.go:85-115 | what the ledger does with a delivered batch, whether the inbox can be read or not, is a run of the machine, and an accepting answer is an acknowledgement of it |
| `UsageOutbox.BulkIsRun` | internal/queue/sqlstore.go:143-326 | a lease, requeue, deletion or redaction of many rows is a run of the usage machine over them |
| `UsageOutbox.QueueStepIsRun` | internal/agent/common/usage_queue.go:56-120 | every statement that either flush or the heartbeat issues on the outbox table is a run of the usage machine, so what reachable states promise holds of that table |
| `CounterHistory.CountersBalance` | internal/agent/common/store/store.go:360-367 | deltas, still readable and lost bytes add up to the true traffic for every history of growth, resets and readings |
| `CounterHistory.NothingLostIff` | internal/agent/common/store/store.go:360-367 | no byte is lost exactly if every reset follows a reading and every first reading after a reset is lower, or the one before was zero |
| `CounterHistory.NeverOvercounts` | internal/agent/common/store/store.go:191-222 | in every run the server's totals never exceed the traffic that passed through the counters |
| `MessageQueue.MessageTable.WriteMessage` | internal/queue/sqlstore.go:105-133 | enqueueing if absent changes nothing on an existing identifier; replacing keeps only the creation time |
| `MessageQueue.MessageTable.SelectLeasable` | internal/queue/sqlstore.go:155-158 | the selection is the first due, unexpired, pending messages of the actor by availability and identifier |
| `MessageQueue.MessageTable.LeasePending` | internal/queue/sqlstore.go:143-181 | exactly those messages go into flight until the end of the lease |
| `MessageQueue.MessageTable.MarkMessageFailed` | internal/queue/sqlstore.go:191-204 | the message is pending again exactly if its retry time lies ahead |
| `MessageQueue.MessageTable.MarkMessageDone` | internal/queue/sqlstore.go:210-218 | status, result and error of the identifier's rows change, in every actor |
| `MessageQueue.MessageTable.RequeueExpiredLeases` | internal/queue/sqlstore.go:254-264 | unless the second statement is refused, afterwards no lease of the actor has ended and no live message of it has expired |
| `MessageQueue.MessageTable.CleanupTable` | internal/queue/sqlstore.go:275-326 | the statements are a run of the queue wherever it stops, and live rows are untouched; all of them together leave a row out exactly if it is older than the policy's time for its status, of its type or of all types, and redact it exactly if it is failed, expired or acknowledged and old enough for that |
| `MessageQueue.LiveUntilDecided` | internal/queue/sqlstore.go:143-326 | over every run a message without expiry stays live with its content until a mark or a replacing write |
| `MessageQueue.CreationTimeStays` | internal/queue/sqlstore.go:120-133 | over every run a message keeps its creation time as long as it is there, replaced or not |
| `MessageQueue.WaitsUntilDue` | internal/queue/sqlstore.go:143-264 | over every run a leased message stays as leased until its lease ends, and a retried one as it is until its retry time, unless it expires or somebody decides about it |
| `MessageQueue.FinishedStaysFinished` | internal/queue/sqlstore.go:187-326 | over every run a finished message keeps its status until it is deleted, without a mark or a new enqueue |
| `MessageQueue.NoDoubleLease` | internal/queue/sqlstore.go:143-181 | two leases of a message in a run mean that the first had ended, the message expired or was decided in between |
| `MessageQueue.LeaseEnds` | internal/queue/sqlstore.go:254-264 | a requeue makes an unexpired message leasable exactly if its lease is over |
| `MessageQueue.CleanupSparesLive` | internal/queue/sqlstore.go:275-326 | under any policy cleanup keeps every pending and in-flight message unchanged |
| `MessageQueue.DeletableIff` | internal/queue/sqlstore.go:275-310 | the twenty rules delete a message exactly if it is older than the policy's time for its status, of its type or of all types |
| `WorkChain.StepKeepsInv` | internal/server/workqueue/worker.go:73-119 | every lease, execution, completion, retry, expiry, crash and cleanup keeps the tables in order and every operation's executions a chain that its live message continues |
| `WorkChain.ChainIsAtomic` | internal/server/workqueue/worker.go:73-119 | in every state of every run each unfinished operation has exactly one live message and a finished one none, and successors and events were recorded together with the completion they belong to |
| `WorkChain.OperationsTerminate` | internal/server/workqueue/worker.go:85-119 | in every run, whatever is interrupted, refused or lost, no operation is executed more than 1154 times, and at most four launches are counted |
| `WorkEnds.ReportedMeansInstalled` | internal/server/workqueue/awg_install.go:32-79 | an installation that is reported done has executed every step, its installer reported success and its agent came up with the settings applied, in every run |
| `WorkEnds.EventsWereTold` | internal/server/transportdb/store.go:94-110 | whatever cleanup deletes, the table of events holds only what a completion has recorded |
| `WorkEnds.EndsIff` | internal/server/transportdb/store.go:162-196 | a step ends an unfinished operation exactly if it completes an execution that has done or failed it, or ends it silently |
| `WorkEnds.EndsSomewhere` | internal/server/workqueue/worker.go:73-119 | over every run, an operation that was started and is not unfinished has ended at some step |
| `WorkEnds.EndIsToldIff` | internal/server/transportdb/store.go:162-196 | over every run, an ended operation has an event that says done or failed exactly if it did not end by an expiry, or by a failure of an interrupted step or a refused completion that was written after its retry time |
| `WorkEnds.SilentEnd` | internal/server/transportdb/store.go:181-189 | a run in which an operation ends without such an event |
| `WorkChain.CompletionKeepsOk` | internal/server/transportdb/store.go:112-134 | after a completion a message is applied exactly if its successor or the end of its operation was recorded with it, an event exists exactly if the step changed, a reported failure is final, and each unfinished operation has exactly one live message |
| `WorkEnds.SuccessorIsRecorded` | internal/server/workqueue/awg_install.go:28-79 | a completed step leaves its successor available exactly when the wait that the outcome asked for has passed since the handler's end, with the outcome's state and expiry, and an event exactly if the step changes |
| `WorkEnds.RetryIsRecorded` | internal/server/transportdb/store.go:181-189 | an interrupted step and a refused completion leave the message waiting until ten seconds after the end, or failed if that has passed, and nothing else changed |
| `ServerWorker.Worker.Start` | internal/server/workqueue/awg_install.go:25-31 | a new operation starts with one pending message, as a machine step |
| `ServerWorker.RequeueUsesQueue` | internal/queue/sqlstore.go:254-264 | the two requeue statements on the worker's messages are the queue's steps on its outbox |
| `ServerWorker.CompletionUsesQueue` | internal/server/transportdb/store.go:137-196 | a completion writes the successor and marks the message as the queue's own steps do |
| `ServerWorker.Worker.Requeue` | internal/queue/sqlstore.go:254-264 | ended leases return and then expired operations end, exactly as far as the statements are accepted, each a machine step; if both go through no live message has expired and no lease has ended |
| `ServerWorker.Worker.LeaseBatch` | internal/queue/sqlstore.go:143-181 | exactly the first ten due messages, by availability and identifier, go into flight, or none if the transaction is refused |
| `ServerWorker.Worker.Complete` | internal/server/transportdb/store.go:112-196 | successor, event and message change together or not at all, whichever statement is refused |
| `ServerWorker.Worker.RetryLater` | internal/server/workqueue/worker.go:100-118 | after a refused completion the message waits ten seconds, is failed if that time has passed already, or stays in flight if the statement is refused as well |
| `ServerWorker.Worker.Handle` | internal/server/workqueue/worker.go:85-119 | the execution enters its operation's log and is recorded as the handler's result and the time of the completion say; a refused completion records no event, and the message is put off unless that is refused as well |
| `ServerWorker.Worker.RunOnce` | internal/server/workqueue/worker.go:73-83 | exactly the first ten messages that are due after the requeue are leased, each is executed exactly once, in order, up to where the worker stops, and no other operation is executed |
| `AwgInstall.TransitionDescends` | internal/server/provisioning/awg.go:298-410 | a step repeats itself after at least five seconds or lowers the rank; runs grow only by a counted launch; no step is skipped and the only way back is from poll to launch |
| `AwgInstall.FailsIff` | internal/server/provisioning/awg.go:298-410 | a step fails exactly at the deadline, on a fatal reply, after four launches, on a report that is neither success nor a reboot nor work in progress, or on settings that the agent failed to apply; the installation is done exactly at its last step |
| `AwgInstall.LeadsTo` | internal/server/provisioning/awg.go:298-410 | a step that does not fail is repeated exactly while its answer is still to come, after ten or five seconds, and otherwise leads to the next one, or back to a launch under the new boot identifier |
| `AwgInstall.SuccessIsDone` | internal/server/provisioning/awg.go:298-410 | where every answer is favourable and in time an installation is done after its nine steps |
| `AwgInstall.RepeatsOnlyDelay` | internal/server/provisioning/awg.go:298-410 | answers that only repeat a step do not change what the installation comes to |
| `AwgInstall.InstallationTerminates` | internal/server/provisioning/awg.go:298-410 | every chain, executions repeated after an interruption or a lost completion included, counts at most four launches and has at most rank plus waits-before-expiry executions |
| `AwgInstall.NewInstallationTerminates` | internal/server/workqueue/awg_install.go:25-79 | a new installation ends within 1154 executions, repeated ones included |
| `AwgInstall.FinishedMeansInstalled` | internal/server/provisioning/awg.go:304-398 | an installation that reaches its end has executed every step, its installer reported success, its commands went through, and its agent was online with the settings applied |
| `AwgInstall.RelaunchNeedsReboot` | internal/server/provisioning/awg.go:310-349 | the installer is launched again only after a poll has seen another boot identifier, which is then recorded |
| `HysteriaSettings.StepKeepsInv` | internal/server/storage/hysteria_settings.go:22-60 | every edit, delivery, late answer and result keeps the versions honest and lowers neither version |
| `HysteriaSettings.AppliedIsHonest` | internal/server/hysteriaagent/settings.go:66-132 | over every run applied never exceeds desired, never decreases, and equals it only if the agent confirmed exactly the stored settings |
| `HysteriaSettings.ResultCountsIff` | internal/server/storage/hysteria_settings.go:53-60 | a confirmed delivery of the desired version makes the row applied and clears its error, and a late one changes nothing |
| `HysteriaSettings.DeliveryCompletes` | internal/server/hysteriaagent/settings.go:66-132 | from every reachable state a message of the desired version can be sent with the stored settings, answered and recorded, and then exactly those are applied; a failing agent confirms nothing |
| `HysteriaSettings.Delivery.UpdateNodeConfig` | internal/server/storage/hysteria_settings.go:22-52 | an edit is accepted exactly if it has seen the current version and rendered as many configurations as there are live connections, and then gets a later version |
| `HysteriaSettings.Delivery.Apply` | internal/server/hysteriaagent/settings.go:66-132 | a message is superseded exactly if its version is not the desired one, and then nothing happens; an acknowledged delivery of the desired version means applied and confirmed, whatever happened while waiting |
| `HysteriaNode.FreshStepIff` | internal/server/connections/service.go:106-129 | while all issued configurations in use are fresh, a commit leaves them so exactly if a creation has read the current settings, and an accepted edit changes nothing or has listed every live connection |
| `HysteriaNode.FreshIff` | internal/server/hysteriasettings/service.go:161-177 | over every run, all issued configurations are fresh as long as every commit met that condition, and the first one that does not leaves one stale |
| `HysteriaNode.EditRepairs` | internal/server/storage/hysteria_settings.go:22-52 | an accepted edit that has listed every live connection makes all configurations fresh, whatever was stale before |
| `HysteriaNode.NoEditIsLost` | internal/server/storage/hysteria_settings.go:22-52 | over every run, an edit that takes effect after another one was made in knowledge of the version that one made |
| `HysteriaNode.StaleCreation` | internal/server/connections/service.go:106-129 | a run in which an edit between a creation's reading and its insert leaves a stale configuration |
| `HysteriaNode.StaleSwap` | internal/server/storage/hysteria_settings.go:39-45 | a run in which a deletion and a creation behind an edit's listing leave a stale configuration although the counts agree |
| `AwgNode.RenderAll` | internal/server/amneziasettings/service.go:62-72 | renders every material, or fails exactly if the address of some client is not strictly inside the new network or is the server's |
| `AwgNode.NodeTables.UpdateNodeConfig` | internal/server/storage/amnezia_settings.go:9-54 | succeeds exactly if version and material count match, and then rewrites exactly the listed configurations in use |
| `AwgNode.SameCountSame` | internal/server/storage/amnezia_settings.go:38-44 | since materials are only added, an equal count means that the edit has rendered all of them |
| `AwgNode.CreateKeeps` | internal/server/storage/domain_sql.go:271-326 | a creation that committed under its version guard issues a current configuration with a free host address |
| `AwgNode.EditKeeps` | internal/server/amneziasettings/service.go:52-80 | a committed edit re-renders every configuration in use and keeps every address in the new network |
| `AwgNode.NeverStale` | internal/server/connections/service.go:131-163 | in every state of every run each issued configuration in use renders the current settings and its material, and client addresses are distinct hosts of the network, off the server's |
| `AwgNode.EditLowersAppliedIff` | internal/server/storage/amnezia_settings.go:9-54 | over every run, committing an edit raises the version, and lowers the applied version exactly if a result for the edited version was recorded since the edit had read its settings and the edit had read a lower applied version |
| `AwgNode.AppliedCanDecrease` | internal/server/amneziasettings/service.go:52-80 | from every new node whose first settings are not applied yet, some run lowers the applied version |
| `Ipv4Pool.CompareIP` | internal/server/connections/service.go:353-363 | byte-wise comparison is the order of the 32-bit numbers |
| `Ipv4Pool.NextIP` | internal/server/connections/service.go:365-374 | byte-wise carry is adding one modulo 2^32 |
| `Ipv4Pool.NextAvailable` | internal/server/connections/service.go:335-351 | the least free address of the pool, an error exactly if the pool is malformed or exhausted below 255.255.255.255, and otherwise the least free address after wrapping around |
| `Ipv4Pool.ParsedPoolIsSound` | internal/server/provisioning/awg_subnet.go:19-30 | the 32-bit arithmetic never wraps, and network < server < first <= last < broadcast |
| `Ipv4Pool.PreparedPoolIsSound` | internal/server/amneziasettings/service.go:24-50 | settings are accepted exactly if the server is a host of the network, and the pool is all of its hosts |
| `Ipv4Pool.AllocatedIsAdmitted` | internal/server/connections/service.go:335-351 | an address allocated from a sound pool is a free host, not the server's |
| `RefreshTokens.CreateKeeps` | internal/server/storage/sqlite.go:419-449 | a new session with its first token keeps the family invariant |
| `RefreshTokens.SuccessorKeeps` | internal/server/storage/sqlite.go:486-512 | a rotation keeps the family invariant, with family and absolute expiry passed on |
| `RefreshTokens.EndedKeeps` | internal/server/storage/sqlite.go:528-537 | ending a family keeps the invariant |
| `RefreshTokens.RevokeKeeps` | internal/server/storage/sqlite.go:557-589 | revoking an identity's sessions, all or all but one, keeps the invariant |
| `RefreshTokens.RevokeEndsExactly` | internal/server/storage/sqlite.go:557-589 | exactly the identity's sessions and their active tokens end, and a session to keep is left as it is |
| `RefreshTokens.ExactlyOneActive` | internal/server/storage/sqlite.go:467-538 | an active session with a refresh token has exactly one active token, the one it points to, and a deleted one has none |
| `RefreshTokens.FamilyInvariant` | internal/server/storage/sqlite.go:419-589 | the invariant holds in every state of every run |
| `RefreshTokens.SessionContinues` | internal/server/storage/sqlite.go:467-538 | identity and absolute expiry never move, and a deleted session stays deleted |
| `RefreshTokens.ReuseEndsTheFamily` | internal/server/storage/sqlite.go:513-537 | presenting a rotated token after the grace window leaves the session deleted and without an active token for the rest of every run |
| `RefreshTokens.OnlyTheCurrentTokenRotates` | internal/server/storage/sqlite.go:486-512 | a presented token yields a successor exactly if it is the current one of an active session |
| `RefreshTokens.RotationChangesOnly` | internal/server/storage/sqlite.go:486-512 | presenting the current token marks it rotated at that time, adds its active successor in its family and makes it the session's current one; nothing else changes |
| `RefreshTokens.ReuseEndsOnly` | internal/server/storage/sqlite.go:528-537 | any other use marks the presented token reused, revokes all others of its session and ends the session; other sessions are untouched |
| `RefreshTokens.RotatedWhenPresented` | internal/server/storage/sqlite.go:486-489 | over every run a rotated token was rotated by the presentation of it at the time it is marked with |
| `RefreshTokens.GraceIff` | internal/server/storage/sqlite.go:513-537 | over every run, a token rotated at one step and presented again is answered with its session's current token, and nothing changes, exactly if no more than the grace has passed since that step; otherwise the session ends |
| `RefreshTokens.AuthStore.CreateSession` | internal/server/storage/sqlite.go:419-449 | session and first token are stored together, exactly if both are new and nothing is refused, or not at all; the family invariant is kept |
| `RefreshTokens.AuthStore.Rotate` | internal/server/storage/sqlite.go:467-538 | statement by statement, the transaction does nothing if one is refused; otherwise tables and answer are exactly those of the presentation: the successor, the session's own current token within the grace, or not found |
| `Cps.Encode` | internal/server/integrations/nativeawg/cps/encoding.go:17-44 | succeeds exactly on packets of allowed size with ordered, disjoint, known spans, and prints their layout in chunks of at most 480 bytes |
| `Cps.ValidateCPS` | internal/protocol/awgconfig/parameters.go:84-123 | the search for matches accepts exactly the texts of a grammar of valid tags and white space within the limits, and adds up their size |
| `Cps.HexRoundTrip` | internal/server/integrations/nativeawg/cps/encoding.go:25-30 | printed bytes read back as the same bytes |
| `Cps.ParsePrinted` | internal/protocol/awgconfig/parameters.go:95-115 | the grammar reads back exactly the tags that were printed |
| `Cps.LayoutMask` | internal/server/integrations/nativeawg/cps/encoding.go:31-42 | the layout of a packet is the packet itself with exactly its dynamic spans left open |
| `Cps.EncodedIsAccepted` | internal/server/integrations/nativeawg/cps/encoding.go:17-44 | whatever the encoder prints is accepted, its size is the packet's, and its literals decode to the packet's bytes at their places |
| `Cps.RoundTrip` | internal/protocol/awgconfig/parameters.go:84-123 | encoding and then validating accepts every encodable packet with its own length |

## Left out

- gRPC, TLS, SSH, HTTP handlers, shell scripts and systemd units: what the host or the stream answers is a parameter or a free choice.
- JSON, protobuf, base64, bcrypt and sealing: encodings are taken as injective and are not modelled.
- Reconciliation of runtime peers: the synchronisation results are about the agent's store.
- The agent's replay of answers to repeated server messages: each answer is computed from the stored one.
- Runtime commands, online snapshots, heartbeats, audit events, dashboards and subscription texts: they read the databases modelled here, or overwrite one row each, and take part in none of the protocols above.
- The route arithmetic of AmneziaWG settings and the remaining parameter checks.
- Hysteria and AmneziaAPI connections beyond what the credential manifest sees of them.
- Usage of a node that is reinstalled under another instance: one instance is modelled, so requests that belong to another one do not occur.
- Width of the server's usage totals: they are unbounded integers, while the agent's sums stop at 64 bits.
- Times are whole milliseconds: the sub-millisecond part that comparisons with a retry time still see is not modelled.
- Defaults that a message gets when its times or status are missing: messages are written with them filled in.
- Handlers that enqueue more than one successor, and message types without a handler: the chain is about installation steps.
- Text outside ASCII in packet signatures: the length limit counts characters, as the encoder's output has one byte each.
- `UpdateAuthSessionTokens`: it rewrites a session's hash without touching its tokens and is not part of the rotation protocol.
- Ipv4Pool.NextAvailable: asks for a free address somewhere when the pool ends at 255.255.255.255, because the loop would not end without one.
- SyncEngine.Node.RunPass: the number of page requests before the context expires is a parameter, since concurrent creations could prolong a pass for ever.
