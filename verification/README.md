# Synthia: verified models of execution, paging, outboxes and sweeps

Dafny models of the parts of Synthia that decide whether an approved action happens, how often, what is
recorded of it and what a reader gets to see, with proofs of what those parts promise.

- **The Integrations execution protocol.** `ExecutionProtocol` is the execution leg as a transition
  system: any number of deliveries on any number of replicas, each one read, call or transaction at a
  time; other writers change entitlements, versions, bindings, tenants and work between any two steps;
  exceptions and crashes anywhere. `ExecutionInvariant` is what every step keeps, `ExecutionSafety`,
  `ResultConclusion`, `InvocationAccounting`, `ExecutionAuthority`, `AbandonedDeliveries` and
  `CorrelationIsInert` are what follows for every run, `DoubleCallRuns` shows which hypotheses are needed,
  and `ExecutionLegProgram` is the program itself (consumer, leg, transaction, and the HTTP request of
  `Egress`), proved to be the transition system's runs of one delivery. `Redelivery` is what a redelivery of
  recorded or of unrecorded work comes to, `DeliveryRecords` every column one delivery writes, and `WorkStates` which finished work is still executed.
- **Keyset paging.** `Keyset` is one page, `SortKeys` the declared sort keys, `KeysetWalk` a walk over a
  table that holds still or changes, `Cursors` and `TextEncodings` the opaque cursor and the walk as an API
  client makes it, `ReadScope` the same inside the scope a request is bound to.
- **The two outboxes.** `IntegrationOutbox` and `OutboxPasses` (locked claims, replicas, a ceiling of
  ten); `TriggerOutbox` and `TriggerOutboxPasses` (RagCore's `dispatch_once`).
- **Texts that must read back.** `Uuids`, `Idempotency`, `RoleHeader`, `EnumStorage`.
- **Sweeps and runs.** `WorkExpiry`, `RetentionSweep` and `IngestionRuns`.

Keys are a function of tenant, work item and operation; that the function tells operations apart is proved
from collision-freedom of the hash, which is a hypothesis wherever it is needed. Instants are whole
numbers. Surrogate keys drawn for a transaction are assumed unused.

Rows marked "spelled out" fix what a definition used by the results around them means, in literals, columns or
code points of their own; they are short, and the results are the other rows.

## Where the code does not do what its documentation says

- "At most one external effect" (migration 0023, the unique key's comment; executor.py:90) holds of
  records, not of calls: two overlapping deliveries, or one lost between its call and its commit, call
  twice (`OverlapCallsTwice`, `LossCallsTwice`). It holds of an operation whose own deliveries keep apart
  and are not lost between call and commit, whatever other operations do (`OrderlyRunsCallOnce`); breaking
  the first costs a second call (`CarelessCheckCallsTwice`), and a permitted redelivery doubles a call exactly
  when the key was sent and has no record (`RedeliveryDoublesIff`).
- consumer.py:120-124 says an escaping exception comes before any effect. It does if and only if it struck
  before the call and before the commit (`NoEffectIff`, `ExceptionTellsWhatWasDone`); after the call, the
  redelivery calls again under its key (`LossCallsTwice`); after the commit, it is a duplicate
  (`AbandonedWriteIsTheOnlyOne`, `AbandonedWriteIsRedelivered`).
- `ExecutionOutcome.is_refusal` includes `UNREACHABLE`, where a call was attempted; the outcomes that mean
  "not called" are the four `REFUSED_*` (`OutcomeTellsWhetherCalled`).
- `is_executable_at` is documented as refusing work in a terminal state. Of RagCore's five it refuses
  exactly `failed`, `expired` and `cancelled` (`FinishedWorkIsRefusedIff`); `executed` and `escalated` work
  is executed (`FinishedWorkStillExecutes`).
- Keyset.cs:248 renders an enum by number "so cursor ordering matches the sort". Enum types have no
  greater-than for the anchor predicate to use, so the page after the first is an error, and the stored
  order is that of the labels (`EnumWalkEndsIff`).
- Nothing makes (tenant, work item, operation) unique among jobs. A second job for a recorded operation
  completes and never gets a result (`CompletedJobHasResultIff`).
- outbox_dispatch.py:13-20 says a blocked row never blocks another and that a row past the ceiling is never
  retried. A row that cannot be rebuilt raises outside the `try` and ends the pass, and the query has no
  ceiling (`EverTriedIff`, `FailuresAreRetriedForEver`).
- A second retention pass deletes nothing, as documented, but reports the same threads pruned again
  (`SweepIsIdempotent`).
- ingestion.py:30 (RagCore's domain) says a terminal run never advances again; `close_run` does not ask
  whether the run is still open (`FinishedRunsCloseAgainIff`).
- A walk sorted by the nullable `expiresAt` loses the class of rows ordered last unless that class is
  empty or begins on the first page (`WalkIsCompleteIff`).

## Model

| member | source | states |
|---|---|---|
| Uuids.ParseRender | integrations/src/integrations/messaging/envelope.py:160-165 | the hyphenated text form of every UUID parses back to it |
| Uuids.HexValueIff | integrations/src/integrations/messaging/envelope.py:160-165 | a digit is read from its own character, the letters in either case, and from no other (spelled out) |
| Idempotency.MaterialInjective | integrations/src/integrations/execution/idempotency.py:60-64 | the joined key material determines tenant, work item and operation |
| Idempotency.DeriveKeyInjective | integrations/src/integrations/execution/idempotency.py:43-64 | under a collision-free hash two keys are equal exactly when the three identifiers are |
| Idempotency.MaterialSpelledOut | integrations/src/integrations/execution/idempotency.py:43-64 | the hashed text is the namespace, organisation, work item and operation with a unit separator between each two (spelled out) |
| Domain.EnvelopeRoundTrip | integrations/src/integrations/messaging/envelope.py:93-182 | a written envelope reads back as itself exactly when its correlation identifier is well formed, and is refused otherwise |
| Domain.CorrelationIsAccepted | integrations/src/integrations/messaging/envelope.py:49 | a correlation identifier is accepted if and only if it has 1 to 128 characters, each a letter, a digit, a dot, an underscore or a hyphen (spelled out) |
| Domain.RenderedUuidIsACorrelation | integrations/src/integrations/messaging/envelope.py:160-182 | every rendered UUID is accepted as a correlation identifier (spelled out) |
| Domain.AcceptedBodies | integrations/src/integrations/messaging/envelope.py:112-182 | whatever body is accepted has exactly the three fields, carries journey and kind verbatim, and is an envelope that survives the wire |
| Domain.ValidIdentityIff | integrations/src/integrations/domain/catalogue.py:93-108 | an identity can be constructed if and only if its version is positive and its identifier has a visible character (spelled out) |
| AccessPolicy.RefusalOutcome | integrations/src/integrations/execution/executor.py:63-68 | every refusal is recorded as an outcome decided before any call; the `FAILED` fallback is unreachable |
| ExecutionStore.Database.InsertExecution | integrations/src/integrations/persistence/executions.py:113-180 | the execution row and its announcement are written together if and only if surrogate key and idempotency key are new, the version is at least one and no refusal claims to be confirmed |
| ExecutionStore.Database.AppendAudit | integrations/src/integrations/persistence/audit.py:105-153 | one audit row with the record's tenant, its work item, instant of the attempt, outcome, verification and journey, column by column; nothing else changes |
| ExecutionStore.Database.RecordResult | integrations/src/integrations/persistence/jobs.py:180-214 | the job's result columns and no other column |
| ExecutionStore.Database.RecordAttempt | integrations/src/integrations/execution/executor.py:250-333 | the four writes happen together, or none when a constraint would be violated |
| ExecutionInvariant.OnlyDuplicateKey | integrations/src/integrations/persistence/executions.py:161-169 | of all integrity errors only the duplicate key can stop an insert the leg issues, so a swallowed error always means "already recorded" (a step of `StepPreserves`) |
| ExecutionInvariant.StepPreserves | integrations/src/integrations/execution/executor.py:128-333 | every step of every delivery, fault, crash and outside write keeps the whole invariant |
| ExecutionInvariant.RunInv | integrations/src/integrations/execution/executor.py:128-333 | so does every run |
| ExecutionSafety.DerivedKeysDistinguish | integrations/src/integrations/execution/idempotency.py:43-64 | the deployed derivation tells operations apart whenever its hash is collision-free |
| ExecutionSafety.AttemptsAreWhole | integrations/src/integrations/execution/executor.py:275-333 | at every moment of every run records, audit rows, announcements and job results are in bijection and agree column by column, the audit row with the job's own organisation and work item |
| ExecutionSafety.OneRecordPerOperation | ragcore/migrations/versions/0023_integration_execution.py:79-82 | each (tenant, work item, operation) has at most one record, however many jobs, replicas and redeliveries |
| ExecutionSafety.OnlyItsOwnOperationBlocks | integrations/src/integrations/execution/idempotency.py:60-64 | a job's key is taken if and only if its own operation has a record |
| ExecutionSafety.SettlementIsSound | integrations/src/integrations/messaging/consumer.py:90-137 | COMPLETE: a durable record exists for the key; DEAD_LETTER: no call and no write; ABANDON: it called if and only if the exception struck after the call, wrote if and only if it struck after the commit, and then its key is taken |
| ExecutionSafety.CompletedJobHasResultIff | integrations/src/integrations/execution/executor.py:300-306 | a completed job has a result of its own if and only if no other job of its operation holds one |
| ExecutionSafety.OutcomeTellsWhetherCalled | integrations/src/integrations/execution/executor.py:139-248 | the recorded outcome is one of the four refusals if and only if the writer did not call; after a call it is SUCCEEDED if and only if the answer reported success, FAILED if and only if it reported anything else, UNREACHABLE if and only if there was no usable answer |
| ExecutionSafety.ResultIsWriteOnce | integrations/src/integrations/persistence/jobs.py:180-214 | once a job has a result no run changes it, nor the job's own columns ever |
| ResultConclusion.ConclusionIsFinal | ragcore/workers/integration_result_worker.py:158-182 | what RagCore concludes leaves PENDING at most once and never changes afterwards |
| ResultConclusion.ConcludedFromIff | ragcore/workers/integration_result_worker.py:158-182 | each conclusion by what the result columns say; RESOLVED takes an executed result that the far side confirmed (spelled out) |
| ResultConclusion.ConclusionMatchesRecord | ragcore/workers/integration_result_worker.py:158-182 | never RESOLVED; PENDING if and only if there is no record; ACTED_UNVERIFIED if and only if it SUCCEEDED if and only if COMPLETED was announced if and only if the connector answered that record's call with success |
| ResultConclusion.SuccessWasAnswered | integrations/src/integrations/execution/executor.py:228-248 | a record says SUCCEEDED if and only if its writer called and was answered with success |
| InvocationAccounting.EveryCallIsAccountedFor | integrations/src/integrations/execution/executor.py:185-248 | calls for a key equal those in flight, aborted or crashed, lost at the insert, and at most one winner; each caller is where its fate says |
| InvocationAccounting.CheckedBeforeCommit | integrations/src/integrations/execution/executor.py:188-199 | whoever sent a key looked for its record before the key's record was committed |
| InvocationAccounting.UnrecordedCalls | integrations/src/integrations/execution/executor.py:185-248 | while an operation has no record, every delivery that called for it is still in flight, or was aborted or crashed after its call |
| InvocationAccounting.OrderlyRunsCallOnce | integrations/src/integrations/execution/executor.py:188-226 | for each key: if, while it has no record, no delivery of the operation looks for it while another is between its own look and its record, and none is lost between call and record, any number of redeliveries sends it at most once, whatever other operations do |
| DoubleCallRuns.CarelessCheckCallsTwice | integrations/src/integrations/execution/executor.py:188-208 | from every state that breaks the first of these rules, three further steps send the key twice |
| DoubleCallRuns.OverlapCallsTwice | integrations/src/integrations/execution/executor.py:194-208 | from any state in which a job may run, two overlapping deliveries call twice under one key |
| DoubleCallRuns.LossCallsTwice | integrations/src/integrations/messaging/consumer.py:114-128 | from any such state, a fault or crash after the call makes the redelivery call again |
| AbandonedDeliveries.ExceptionTellsWhatWasDone | integrations/src/integrations/messaging/consumer.py:114-128 | striking an active delivery anywhere abandons it, and its program counter says exactly whether it had called and whether it had written |
| AbandonedDeliveries.NoEffectIff | integrations/src/integrations/messaging/consumer.py:120-124 | in every reachable state an abandoned delivery had no effect if and only if the exception struck before its call and before its commit |
| AbandonedDeliveries.AbandonedWriteIsTheOnlyOne | integrations/src/integrations/execution/executor.py:299-331 | after a delivery abandoned past its commit no other delivery of its job ever writes, and one that completes is a duplicate |
| Redelivery.RedeliveryIsADuplicate | integrations/src/integrations/execution/executor.py:128-306 | a message for a recorded operation changes no table; if its job can be read it completes as a duplicate, and calls again if and only if the job is permitted under a binding without a key |
| Redelivery.AbandonedWriteIsRedelivered | integrations/src/integrations/messaging/consumer.py:114-137 | the redelivery after an abandoned write completes as a duplicate with every table as it was |
| Redelivery.RedeliveryDoublesIff | integrations/src/integrations/execution/executor.py:188-248 | for an operation sent at most once so far, a permitted message under a key, left alone, sends the key again if and only if it has been sent and has no record; whoever sent it is then in flight or was lost, and afterwards there is a record |
| WorkStates.FinishedWorkStillExecutes | integrations/src/integrations/persistence/jobs.py:109-132 | work in `executed` or `escalated` with everything else in order is executable (corollary; the exact condition is `FinishedWorkIsRefusedIff`) |
| WorkStates.FinishedWorkIsRefusedIff | ragcore/src/ragcore/domain/work.py:11-22 | of RagCore's terminal states execution is refused at every instant in exactly `failed`, `expired` and `cancelled` |
| WorkStates.StoredAs | ragcore/src/ragcore/domain/work.py:11-22 | each state by the text it is stored as (spelled out) |
| ExecutionAuthority.EveryCallWasAuthorised | integrations/src/integrations/execution/executor.py:139-208 | every call of every run was preceded in its own delivery, in order, by the load, the window check and the three policy reads, each satisfied in the state of its moment, and carried that binding's destination and that job's parameters |
| ExecutionAuthority.AuthorityMeans | integrations/src/integrations/persistence/jobs.py:109-132 | what was so at each read: active tenant, unblocked work, granted approval, open window, enabled entitlement, registered version, that binding, and under a key policy no record (corollary; the proof work is in `EveryCallWasAuthorised`) |
| ExecutionLegProgram.ExecutionLeg.Load | integrations/src/integrations/persistence/jobs.py:147-178 | nothing if and only if the job, its work item or its organisation is missing; otherwise each column from its own table, and the work item's window when it has one, else the job's |
| ExecutionLegProgram.ExecutionLeg.EvaluatePolicy | integrations/src/integrations/policy/checks.py:60-101 | the decision is the policy's on the facts, naming the first thing wrong, and the delivery is where the transition system puts it |
| ExecutionLegProgram.ExecutionLeg.RecordOutcome | integrations/src/integrations/execution/executor.py:250-333 | the attempt is written or lost exactly as the transition system's transaction, and the report tells which |
| ExecutionLegProgram.ExecutionLeg.Attempt | integrations/src/integrations/execution/executor.py:182-248 | pre-check, one call, record: the run the transition system gives for these steps |
| ExecutionLegProgram.ExecutionLeg.CallOut | integrations/src/integrations/mcp/client.py:152-208 | the call is exactly one HTTP request, carrying the logged call's destination, parameters, journey and key, and its answer is the reply recorded |
| ExecutionLegProgram.ExecutionLeg.Execute | integrations/src/integrations/execution/executor.py:128-248 | the whole leg, with an exception striking at any stage, the commit's acknowledgement included, is a run of the transition system |
| ExecutionLegProgram.ExecutionLeg.Handle | integrations/src/integrations/messaging/consumer.py:81-137 | the verdict and the tables after one message are those of that delivery's own run, and every call it logs is one request on the wire |
| DeliveryRecords.WhatADeliveryWrites | integrations/src/integrations/execution/executor.py:128-333 | a message for a job that can be read and has no record, left alone, writes one record, one audit row, one announcement and the job's result and makes at most one call, every column of them being what tables, clocks and answer say; the outcome names the first thing wrong, or how the call went |
| ExecutionLegProgram.WireRepeatsIff | integrations/src/integrations/mcp/client.py:182-201 | any one key is on the wire twice if and only if it was sent twice in the protocol (corollary; the proof work is in `CallOut` and `Handle`, which keep log and wire call for call) |
| ExecutionLegProgram.OrderlyRunsSendOnce | integrations/src/integrations/execution/executor.py:188-226 | in a run orderly for a key, that key goes over the wire at most once |
| CorrelationIsInert.MessagesCarryOnlyTheJob | integrations/src/integrations/execution/executor.py:128-137 | runs whose messages differ in correlation identifiers only make the same calls, settle alike and write the same job, execution, audit and outbox rows, correlation identifiers apart |
| Egress.Send | integrations/src/integrations/egress/http.py:120-172 | a non-retriable call is sent exactly once; a retriable one is re-sent only after transient answers, three times at most; the last answer is surfaced and the final raise is never reached |
| Egress.TransientByStatus | integrations/src/integrations/egress/http.py:45 | no answer, 429, and 500 to 504 without 501 are worth another attempt, and nothing else is (spelled out) |
| Egress.Invoke | integrations/src/integrations/mcp/client.py:152-219 | one POST to the binding's destination with the parameters, the key header exactly when there is a key, and the reply the answer stands for |
| Egress.ReplyByStatus | integrations/src/integrations/mcp/client.py:203-219 | success if and only if a 2xx body could be normalized; a failure if and only if any other status came back; an error the leg handles if and only if nothing came back or the body was refused (spelled out) |
| Keyset.SortedFacts | dotnet/src/Synthia.Persistence/Paging/Keyset.cs:120-127 | `Order` keeps exactly the rows, strictly ordered by key then identifier, NULLs where PostgreSQL puts them |
| Keyset.TakeAsync | dotnet/src/Synthia.Persistence/Paging/Keyset.cs:285-319 | a page is what lies beyond the anchor, sorted and cut at the limit, with the last row's anchor exactly when more remains; a limit below one and an unreadable anchor are refused |
| Keyset.WhatAPageHolds | dotnet/src/Synthia.Persistence/Paging/Keyset.cs:119-150 | over any table a page holds rows after the anchor, in order by key and identifier, ascending from lesser to greater and descending the reverse; no row before them is passed over, fewer than the limit only at the end, and the next anchor is the last row's |
| KeysetWalk.PageIsCut | dotnet/src/Synthia.Persistence/Paging/Keyset.cs:130-157 | with an anchor that reads back, the page ranges over exactly the rows beyond it |
| KeysetWalk.WalkIsStable | dotnet/src/Synthia.Persistence/Paging/Keyset.cs:136-150 | under any inserts and deletes between pages a walk is strictly increasing, repeats no row, and if it ends has returned every row that stayed exactly once (no NULL keys) |
| KeysetWalk.WalkIsExact | dotnet/src/Synthia.Persistence/Paging/Keyset.cs:120-151 | over a still table without NULL keys the pages are the sorted rows cut at the limit, in max(1, ceil(n / limit)) pages |
| KeysetWalk.WalkIsCompleteIff | dotnet/src/Modules/Synthia.Modules.Approvals/ApprovalReadModel.cs:83-88 | with NULL keys a walk is complete if and only if the class ordered last is empty or the class ordered first is shorter than a page; otherwise it returns exactly the class ordered first |
| KeysetWalk.WalkEnds | dotnet/src/Synthia.Persistence/Paging/Keyset.cs:285-319 | following anchors over a still table comes to an end, from anywhere |
| SortKeys.DeclaredKeysReadBack | dotnet/src/Synthia.Persistence/Paging/Keyset.cs:211-246 | text, timestamp and nullable timestamp keys compare by a total order and every value they can hold reads back from its anchor |
| SortKeys.TimestampPagesRunInTime | dotnet/src/Synthia.Persistence/Paging/Keyset.cs:119-127 | the rows of a page sorted by a timestamp run forwards in time when ascending and backwards when descending |
| SortKeys.EnumPageRunsByLabel | dotnet/src/Synthia.Persistence/Paging/Keyset.cs:119-127 | the first page sorted by an enum runs by the stored labels, not by the members' numbers |
| SortKeys.EnumWalkEndsIff | dotnet/src/Synthia.Persistence/Paging/Keyset.cs:165-190 | a walk sorted by an enum key ends if and only if the table fits one page: its cursor reads back, but the page after it is a server error |
| TextEncodings.Utf8RoundTrip | dotnet/src/Synthia.Api/Paging/OpaqueCursor.cs:42-67 | UTF-8 decodes back to every text |
| TextEncodings.OnlyUtf8Decodes | dotnet/src/Synthia.Api/Paging/OpaqueCursor.cs:42-67 | bytes are well-formed only if they are the encoding of the text they stand for: no overlong form, no surrogate, no stray continuation |
| TextEncodings.Base64UrlRoundTrip | dotnet/src/Synthia.Api/Paging/OpaqueCursor.cs:42-58 | base64url (section 5 of RFC 4648) decodes back to every byte sequence |
| Cursors.CursorRoundTrip | dotnet/src/Synthia.Api/Paging/OpaqueCursor.cs:35-85 | every position survives its cursor, also with an empty sort value or one holding the separator |
| Cursors.CursorsAreFaithful | dotnet/src/Synthia.Api/Paging/OpaqueCursor.cs:35-43 | cursors are equal exactly when positions are, and need no escaping in a URL |
| Cursors.OnlyAnAbsentCursorIsTheFirstPage | dotnet/src/Synthia.Api/Paging/OpaqueCursor.cs:49-85 | decoding yields the first page if and only if the cursor is absent or empty, and a position it yields has a cursor that yields it again |
| Cursors.BoundLimitsCanBeTaken | dotnet/src/Synthia.Api/Querying/QueryBinding.cs:251-276 | every limit that binds is between 1 and 200 and never rejected by the page; a decimal in range binds to itself, a larger one to 200, one beyond 32 bits is refused |
| Cursors.ApiWalkIsKeysetWalk | dotnet/src/Synthia.Contracts/Paging/KeysetPage.cs:56-59 | echoing cursors is following anchors |
| Cursors.KeysetWalkIsApiWalk | dotnet/src/Synthia.Api/Endpoints/CursorEnvelope.cs:36-43 | and following anchors to the end is a walk a client can make |
| Cursors.ApiWalkEnds | dotnet/src/Synthia.Api/Querying/QueryBinding.cs:53-91 | a client with a limit that binds always comes to the end of a still table |
| Cursors.ApiWalkIsExact | dotnet/src/Synthia.Api/Querying/QueryBinding.cs:53-91 | a client that echoes cursors over a still table gets every row once, by key and identifier in the direction asked for, in the fewest pages |
| IntegrationOutbox.OutboxIsSound | integrations/src/integrations/persistence/executions.py:58-91 | over all runs of any number of replicas: attempts at most 10, undispatchable if and only if 10, never with dispatched, dispatched only if sent, no row held twice, the CHECK never refuses |
| IntegrationOutbox.FatesAreFinal | integrations/src/integrations/persistence/executions.py:212-235 | attempts never fall and a dispatched or undispatchable row never changes again |
| IntegrationOutbox.RowsAreConserved | integrations/src/integrations/persistence/executions.py:171-179 | over any run there is one row more for each one enqueued, pending when it comes, and none is lost |
| IntegrationOutbox.ClaimedRowIsItsReplicasAlone | integrations/src/integrations/persistence/executions.py:58-91 | whatever other replicas do meanwhile, a claimed row is written at its replica's commit and by that replica's first answer for it alone: dispatched, or one attempt more and at the tenth the end, or untouched; and by a replica that dies not at all; either end frees it |
| IntegrationOutbox.TenFailuresAndOut | integrations/src/integrations/persistence/executions.py:83-91 | a new row is pending after each of nine failures and undispatchable after the tenth |
| OutboxPasses.PassIsATransaction | integrations/src/integrations/persistence/executions.py:61-91 | a lone replica's claim, settlements in any order and commit are the pass that settles each of the oldest pending rows by its own publication |
| OutboxPasses.ClaimsTheOldest | integrations/src/integrations/persistence/executions.py:61-70 | the claim takes exactly the oldest pending rows: a full batch, or all there are |
| OutboxPasses.PassesDrain | integrations/src/integrations/persistence/executions.py:83-91 | the attempts left fall with every pass that finds work, and after so many passes nothing is pending |
| OutboxPasses.NoRowStarves | integrations/src/integrations/persistence/executions.py:61-91 | a row with fewer than (q + 1) batches of pending rows before it is tried by pass 10q + 1, whatever is accepted and whatever arrives behind it |
| TriggerOutbox.EnqueuedRowsRebuild | ragcore/workers/outbox_dispatch.py:77-119 | a row written for a trigger or a command is rebuilt as that envelope and never as the other sort |
| TriggerOutbox.RebuiltIff | ragcore/workers/outbox_dispatch.py:77-119 | a row is rebuilt if and only if its kind is one of five triggers or three commands and it holds that sort's identifier and a journey (spelled out) |
| TriggerOutbox.Outbox.SettleOne | ragcore/workers/outbox_dispatch.py:152-187 | one row ends by its own publication alone, and is marked only after it was sent |
| TriggerOutbox.Outbox.DispatchOnce | ragcore/workers/outbox_dispatch.py:122-189 | the rows before the first that cannot be rebuilt are settled, each by its own publication, and no others; the pass finishes if and only if all can be rebuilt; wherever it dies nothing is marked that was not sent |
| TriggerOutbox.CountsAddUp | ragcore/workers/outbox_dispatch.py:148-189 | published, failed and undispatchable add up to the batch |
| TriggerOutboxPasses.TriedIff | ragcore/src/ragcore/persistence/repositories.py:909-927 | a pass tries a row if and only if it waits among the oldest, can be rebuilt, and no older waiting row cannot |
| TriggerOutboxPasses.EverTriedIff | ragcore/workers/outbox_dispatch.py:150-187 | with each row always answered alike, a row is ever tried if and only if no older waiting row is beyond rebuilding and fewer older rows than a batch never publish |
| TriggerOutboxPasses.FailuresAreRetriedForEver | ragcore/src/ragcore/persistence/repositories.py:946-973 | a row that is tried and never accepted is tried in every later pass, its attempts growing past any ceiling |
| RoleHeader.TryParseRoles | dotnet/src/Synthia.SharedKernel/Identity/PrincipalFactory.cs:143-196 | a header is accepted with a set if and only if the set is admissible and the header is its rendering; each refusal has its reason |
| RoleHeader.ReadParts | dotnet/src/Synthia.SharedKernel/Identity/PrincipalFactory.cs:153-174 | the parts are read as role names, or no role set is rendered as them |
| RoleHeader.RoleWords | dotnet/src/Synthia.SharedKernel/Authorization/StaffRole.cs:72-82 | a role is read from its one word and from no other (spelled out) |
| RoleHeader.InOrder | dotnet/src/Synthia.SharedKernel/Identity/PrincipalFactory.cs:176-184 | accepted if and only if the names ascend ordinally |
| RoleHeader.RenderedInjective | dotnet/src/Synthia.SharedKernel/Authorization/StaffRole.cs:193-194 | different role sets render differently, so accepted headers and admissible sets are in bijection |
| EnumStorage.ToSnakeCase | dotnet/src/Synthia.Persistence/Conventions/SnakeCaseNaming.cs:18-37 | the loop builds exactly the form whose faithfulness the rows below state |
| EnumStorage.SnakeRoundTrip | dotnet/src/Synthia.Persistence/Conventions/SnakeCaseNaming.cs:18-37 | an explicit inverse recovers every PascalCase name from its snake form |
| EnumStorage.StoredAlikeIff | dotnet/src/Synthia.Persistence/Conventions/SnakeCaseNaming.cs:18-37 | names without underscores are stored alike if and only if they differ at most in the first letter's case |
| EnumStorage.RecoveredIff | dotnet/src/Synthia.Persistence/Conventions/SnakeCaseNaming.cs:18-37 | for every name the inverse recovers it if and only if it begins with no small letter and has no underscore between its first and last character |
| EnumStorage.StoredFormInjective | dotnet/src/Synthia.Persistence/Conventions/EnumStorage.cs:28-38 | both the lower and the upper form are injective on PascalCase names |
| EnumStorage.StorageIsLossless | dotnet/src/Synthia.Persistence/Conventions/EnumStorage.cs:44-114 | the lookup never collides; a text reads as a member if and only if it is that member's form and the member is not `Unknown` |
| WorkExpiry.WorkItems.SweepExpired | ragcore/workers/expiry_sweep.py:68-93 | the pass over its candidates with arbitrary writes before each transition, counted |
| WorkExpiry.WorkItems.Transition | ragcore/src/ragcore/persistence/repositories.py:380-406 | moves the row if and only if it is the organisation's and at the version read |
| WorkExpiry.Swept | ragcore/workers/expiry_sweep.py:70-84 | expired and contended add up to the candidates tried |
| WorkExpiry.OnlyUnchangedRowsExpire | ragcore/workers/expiry_sweep.py:68-84 | a candidate expires if and only if its row is still the row that was read, then still unclaimed, authorized and overdue; any other is left as its writer set it |
| WorkExpiry.ExpiresIffOverdue | ragcore/src/ragcore/persistence/repositories.py:408-424 | a row nobody else writes during a pass is expired if and only if it is the organisation's, unclaimed, authorized and overdue, unless a full listing of rows that expire no later left it out; every other row stays as it is |
| WorkExpiry.OneWinnerPerVersion | ragcore/src/ragcore/persistence/concurrency.py:74-119 | however sweeps, claims and other writers interleave, one version of one row is moved on at most once |
| IngestionRuns.Runs.OpenRun | ragcore/workers/ingestion_run.py:33-62 | a run opens running, at version one, on the watermark it resumes from |
| IngestionRuns.Runs.CloseRun | ragcore/workers/ingestion_run.py:65-112 | state, watermark and count are written together or not at all, by version; a state that is not terminal is refused |
| IngestionRuns.ClosedAsOneWriterWrote | ragcore/workers/ingestion_run.py:74-79 | whatever writers race, a run says what exactly one winner wrote, and nobody has won since |
| IngestionRuns.OneCloserPerVersion | ragcore/workers/ingestion_run.py:93-112 | of the writers that read one version of a run at most one closes it |
| IngestionRuns.KeptIff | ragcore/workers/ingestion_run.py:93-112 | over any history a run keeps its content if and only if no closing in it wins |
| IngestionRuns.FinishedRunsCloseAgainIff | ragcore/workers/ingestion_run.py:93-112 | a finished run changes in a history if and only if some writer in it has the run's organisation and finished version |
| RetentionSweep.Platform.SweepTenant | ragcore/workers/retention_sweep.py:186-229 | a session is left if and only if it is another organisation's, never expires or has not expired yet; exactly the messages, steps and feedback of the sessions left are left, unchanged; eligible threads are pruned; and the counts are those |
| RetentionSweep.Platform.PruneCheckpoints | ragcore/workers/retention_sweep.py:158-183 | every listed thread is gone, no other, and each listed one counts |
| RetentionSweep.ThreadKeyInjective | ragcore/src/ragcore/graph/threads.py:31-43 | thread keys are equal exactly when organisation, requester and session are |
| RetentionSweep.ThreadKeySpelledOut | ragcore/src/ragcore/graph/threads.py:31-43 | a thread key is organisation, requester and session, in that order, with a colon between each two (spelled out) |
| RetentionSweep.SweepLeavesNoOrphans | ragcore/workers/retention_sweep.py:86-106 | no message, step or feedback is left without its session or message (corollary; the proof work is in `LaterSweepsAbsorb`) |
| RetentionSweep.LaterSweepsAbsorb | ragcore/workers/retention_sweep.py:202-204 | a later pass leaves what it would have left without the earlier ones |
| RetentionSweep.SweepIsIdempotent | ragcore/workers/retention_sweep.py:202-204 | a second pass at the same instant changes nothing and selects the same threads again (corollary; the proof work is in `LaterSweepsAbsorb`) |
| RetentionSweep.OtherTenantsAreUntouched | ragcore/workers/retention_sweep.py:101-155 | another organisation keeps its sessions with their children, its work and its threads |
| RetentionSweep.ThreadIsPrunedIff | ragcore/workers/retention_sweep.py:126-155 | a work item's thread is pruned if and only if that work item is the organisation's, in one of the five finished states and a window past its last change |
| RetentionSweep.ThreadIsPrunedAfterDays | ragcore/src/ragcore/persistence/retention.py:76-102 | the window is the organisation's own number of days when that is a positive whole number, and thirty days otherwise |
| RetentionSweep.UnfinishedWorkKeepsItsThread | ragcore/migrations/versions/0007_work_item.py:59 | unfinished work never loses its thread, because a session belongs to one work item |
| ReadScope.RequestScope.BindAll | dotnet/src/Synthia.Api/Middleware/RequestScope.cs:44-91 | of any sequence of bind calls the first takes effect and every later one is refused and changes nothing |
| ReadScope.RangedIsInScope | dotnet/src/Synthia.Persistence/Conventions/ReadModelQueryFilter.cs:50-80 | a query ranges over exactly the rows of the bound organisation (any, when bound to all) that are not deleted and that the narrowing asks for |
| ReadScope.OtherTenantsDoNotShow | dotnet/src/Synthia.Persistence/Conventions/ReadModelQueryFilter.cs:50-80 | two tables that agree on one organisation's rows give a request bound to it the same answer, cursors and refusals included |
| ReadScope.ReturnedRowsAreInScope | dotnet/src/Synthia.Persistence/SynthiaReadContext.cs:91-104 | for every bind sequence, cursor, sort (enum keys included), limit and narrowing each returned row is the bound organisation's, not deleted and within the narrowing; an unbound request gets none |
| ReadScope.WholeWalkIsTheScope | dotnet/src/Synthia.Persistence/Paging/Keyset.cs:285-319 | following the cursors returns exactly the bound organisation's rows within the narrowing, by key and identifier in the direction asked for |

## Left out

- SQL, EF Core translation, Service Bus, HTTP transport, Key Vault and JSON text: tables are maps or
  sequences with the stated constraints, messages are decoded fields.
- An exception from the rollback after a lost insert: like one before the transaction, it abandons a delivery
  that wrote nothing.
- SHA-256: a hypothesis of collision-freedom, never an assumption inside a definition.
- Freshness of `uuid4`: a transaction is taken with unused surrogate keys.
- Job rows are taken to be added by RagCore and never rewritten or deleted while a delivery of theirs runs;
  the cascade from a deleted work item is not part of this model.
- Column widths: a value too long for its column is an error this model does not have.
- Leniency of the libraries' parsers (braced or unhyphenated UUIDs, padding and whitespace in base64url,
  trailing NUL in a number): such texts are refused here; nothing the code itself writes is affected.
- `lossy` in `Cursors.TryDecode` stands for the replacement of ill-formed UTF-8, which is a parameter.
- That `DateTimeOffset` in format "O" reads back, and that the database compares text by a total order, are
  hypotheses of `SortKeys.DeclaredKeysReadBack`; enum members have numbers from zero. That the expression
  library defines no greater-than for enum types is taken from its own contract.
- Full-text, enum and date filters of a list query are one narrowing predicate.
- IntegrationOutbox.OutboxIsSound: assumes that a dispatcher settles each row it claimed at most once in a
  transaction and claims once per transaction; the dispatcher loop is not in the repository.
- OutboxPasses.NoRowStarves: assumes one pass at a time, and that rows arriving later also sort later by
  `created_at`.
- TriggerOutbox.Outbox.DispatchOnce: updates are taken to last once issued; the caller's transaction,
  which could take them back together, is not part of this model.
- Backoff delays and jitter, tracing, metrics, logging and dead-letter reports.
- Credential resolution: a missing credential escapes the leg before anything is sent; in the leg it is one
  of the exceptions that strike before the call.
- `RoleSet` operations other than rendering, `QueryBinding`'s sort and enum binders, `parse_result_message`,
  `RoleIntersection` and the argument validators: reading them settles them.
- EnumStorage.StorageIsLossless: covers ASCII names without underscores; other letters depend on the
  runtime's case tables.
