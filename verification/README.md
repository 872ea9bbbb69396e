# Verified models of the AI SaaS backend

This project models the delivery, accounting, text and assignment logic of the backend in Dafny and proves what
that logic keeps over every input and every run. SQL statements, Redis scripts and stream commands are atomic
steps on maps and sequences; everything between two statements may be interleaved with the steps of other workers.
Verify with `dafny verify dfyconfig.toml`.

## What is modelled

| files | subject |
|---|---|
| `Outbox*.dfy` | the transactional outbox: workers that scan, claim by compare-and-swap, handle, and write back |
| `StaleCounts.dfy` | how often consumers can act on retry counts they read earlier; used for outbox and dead letters |
| `Quota*.dfy` | session quota: the deduct and snapshot scripts, creation with rollback, settlement, clean-up |
| `TaskStream*.dfy` | memory tasks in a Redis stream: read, process, acknowledge, requeue or dead-letter |
| `Metering*.dfy`, `Usage.dfy`, `DeadLetter*.dfy`, `Billing.dfy` | batching of usage records, charging, dead letters, the recorder's `Close`, the balance ledger |
| `Chunker*.dfy` | cutting documents into overlapping windows |
| `Sse*.dfy`, `Synthesis.dfy`, `ToolLoop.dfy` | the tool loop, the synthesised stream, the SSE writer, the client's line loop |
| `AbTest.dfy`, `AbShares.dfy`, `AbOrder.dfy`, `AbCreate.dfy`, `AbAssign.dfy` | bucket shares, the order of equal allocations, creating an experiment, sticky assignment |
| `Float64.dfy` | rounding to IEEE 754 doubles, which decides bucket boundaries and charges |
| `StringArrays.dfy`, `QuotaJson*.dfy` | the hand-written JSON printers and parsers |
| `Paging.dfy`, `SessionHistory.dfy` | cursor pages, and a device's history as a walk over its newest session |

Each protocol is a state machine (`Sys`, `Step`, `Enabled`, `Apply`, `After`) whose laws are proved for every
reachable state. Where the code is a loop over mutable state there is also a class whose methods have the code's
control flow. `Interfere` lets the rest of the deployment take any steps between two statements, so such a method's
contract holds under every interleaving. I/O outcomes, the clock, JSON decoding and the hash are parameters or
nondeterministic choices.

## Where the code and its comments disagree

The model follows the code; several of these are stated as theorems.

- `internal/platform/redisx/redisx.go:138-160` never binds `amount`, `redisx.go:175` reads scalar replies as a list,
  `internal/tenantm/session/session.go:128` formats an id in base 0, and `internal/tenantm/session/cleanup.go:84` writes
  a column the session table does not have. `Quota.Build` has a flag for each; `AsWrittenCreatesNothing` says what
  follows from the code as it stands, the conservation theorems say exactly which repairs are needed.
- The outbox's compare-and-swap looks at the status alone, neither at the scanned retry count nor at `next_retry_at`.
  The limit of eleven handlings and the back-off therefore hold exactly for at most one consumer. With n of them a
  message is handled at most as often as the binomial coefficient of n + 10 over 10 says (`HandlingsAreBounded`), and
  that often in some run (`MostHandlingsAreReached`).
- The retry of dead letters writes the count it read plus one. With overlapping passes a row is tried more than
  `maxRetry` times and alerts more than once; `RetryLimitNeedsOnePass` and `OneAlertNeedsOnePass` are exact.
- A failed memory task is acknowledged before it is added back (`internal/tenantm/memory/worker.go:206-214`), so a
  failed XADD loses it; `NothingIsLostWhenAddsSucceed` follows from the conservation of tasks.
- `migrations/000011_metering_dlq.up.sql` has none of the columns `taskId`, `retryCount`, `lastError` that
  `internal/platform/metering/dlq.go:18-25` writes. Against that table every push fails: `WithoutDeadLetters`.
- `Close` of the recorder is described as draining; a worker that sees the stop signal first leaves what is still
  queued (`internal/platform/metering/metering.go:298-302`). `CloseDrainsExactly`: everything is flushed whatever the
  workers do if and only if the channel is empty when `stopCh` is closed.
- Costs are summed in doubles before they are floored, so ten records of a tenth of a cent charge nothing
  (`TenTenthsAreNoCent`), although `internal/platform/metering/metering.go:366` names that case as the reason for
  adding first.
- `Recharge` can report an error after its transaction committed (`internal/billing/billing.go:166`).
- Reported usage is not checked to be non-negative when a session ends, nor do overlapping or failing settlements keep
  a session from being refunded twice: `LowerBoundNeedsOrder` says exactly when sessions can push a counter below the
  plain deductions.
- The chunker drops windows of a single visible rune: `NothingVisibleIsLost`.
- The client ignores event names, so the payload of an event frame reaches the caller like a chunk; the buffer of
  `pkg/openaiclient/client.go:257-270` is written and never read.
- `validateAllocation` accepts negative allocations, sums off by a hundredth of a percent, and numbers the column then
  rounds: seven times 14.286 passes and is stored as 100.03 (`SeventhsDrift`). `StoredSumIsClose` bounds how far the
  stored sum is off, `WithinOneNeedsOneVariant` and `WholeHundredthsStay` say when it is off by at most one hundredth.
- Buckets are compared with sums of doubles: 0.10, 0.20 and 99.70 per cent get 10, 21 and 9969 buckets
  (`TenthsAreAccepted`); `SharesAreAllocations` says exactly when shares are exact.
- `ORDER BY allocation_percent` leaves the order of equal allocations open, so a user of a 50/50 experiment may get
  either variant on each call; `QueriedAssignmentsAreSticky` says exactly when assignments are sticky. Cache keys of
  experiments whose names continue each other after a colon meet (`KeysMeet`).
- The quota parsers drop signs, keep digits of keys, fractions and exponents as digits of values and do not decode
  escapes: `QuotasRoundTrip`. A comma inside a key starts it anew, and differently in each: `CommaInAKey`.
- `internal/tenantm/session/history.go:32-47` looks up the newest session on every call and applies the cursor to
  it. A session opened between two calls ends the walk with messages unseen (`NewSessionEndsTheWalk`);
  `HistoryShowsOneSession` says exactly when the walk shows the session it began with. As written, `History` panics
  whenever there is a session, since it formats the session's id in base 0.
- `ListMessages` does not use its device argument (`internal/tenantm/memory/memory.go:37-46`).

## Model

| member | source | states |
|---|---|---|
| Outbox.FirstIds | internal/platform/outbox/worker.go:125-132 | the query's order and limit: ascending ids, the smallest ones, as many as fit |
| Outbox.SelectDue | internal/platform/outbox/worker.go:124-151 | a scan returns due rows in ascending order, once each, with the retry count they have at that moment |
| Outbox.SelectDueExactly | internal/platform/outbox/worker.go:124-151 | a row is in the answer if and only if it is pending, waits for no later time, scans, and has fewer such rows before it than the limit |
| OutboxSafety.StepKeepsInv | internal/platform/outbox/worker.go:123-252 | every step of any worker keeps the protocol's invariant: who owns which row, what counts cover, what results are outstanding |
| OutboxSafety.AtMostOneClaimer | internal/platform/outbox/worker.go:157-180 | in every reachable state with any number of workers a claimed, unfinished row is `processing`, names its worker, and is held once |
| OutboxSafety.RetriesArePaidFor | internal/platform/outbox/worker.go:214-252 | a row's retry count never exceeds its failed handlings, so nothing is marked failed before eleven failures, whatever stale counts workers hold |
| OutboxSafety.SucceedsAtMostOnce | internal/platform/outbox/worker.go:183-212 | no message is handled successfully twice; one that was is done or stays claimed because the write failed |
| OutboxSafety.RestIsForever | internal/platform/outbox/worker.go:123-252 | a row that is not pending and held by nobody is never touched again, stranded `processing` rows included |
| OutboxSafety.FinishedStaysFinished | internal/platform/outbox/worker.go:202-236 | done and failed are never left and such a message is never handled again, although those writes do not check the status |
| OutboxSingle.CountsAreExact | internal/platform/outbox/worker.go:214-252 | with one consumer the count is the number of failed handlings unless a result is outstanding; at most eleven handlings |
| OutboxSingle.HandlingsAreSpaced | internal/platform/outbox/worker.go:239-252 | with one consumer each next handling starts after the back-off of the failure before it |
| OutboxSingle.GivingUpTakesFiveMinutes | internal/platform/outbox/worker.go:218-247 | with one consumer a message fails for good 303 seconds after its first failure at the earliest |
| OutboxSingle.BackoffIsCappedDoubling | internal/platform/outbox/writer.go:92-112 | the table of waits is doubling from one second capped at sixty, for every count |
| OutboxBound.HandlingsAreBounded | internal/platform/outbox/worker.go:123-252 | with n workers a message is handled at most (n + 10)! / (n! 10!) times in every interleaving |
| OutboxStale.MostHandlingsAreReached | internal/platform/outbox/worker.go:123-252 | that bound is exact: for every n >= 1 some run handles a message that often, and one time less while it stays pending |
| StaleCounts.ActingUses | internal/platform/outbox/worker.go:157-252 | acting on a copy of any age uses up at least one of what the counts leave, however far the row's count falls |
| OutboxBound.StepKeepsBound | internal/platform/outbox/worker.go:157-252 | each statement keeps handlings within what the row's count and the workers' possibly stale counts show to be used up |
| OutboxStale.RetryLimitNeedsOneConsumer | internal/platform/outbox/worker.go:157-180 | the limit of eleven handlings holds in every run if and only if there is at most one consumer |
| OutboxStale.BackoffNeedsOneConsumer | internal/platform/outbox/worker.go:157-180 | the wait between handlings holds in every run if and only if there is at most one consumer |
| OutboxWorker.MemoryOutboxWorker.ProcessBatch | internal/platform/outbox/worker.go:123-181 | under any interference a pass whose query succeeds tries to claim, in ascending order, exactly the pending rows that are due and scan among the first `batchSize` due ones the query meets; each claimed row gets a handler call and a result write; a pass whose query fails does nothing; it ends idle |
| OutboxWorker.MemoryOutboxWorker.ClaimAll | internal/platform/outbox/worker.go:157-175 | one compare-and-swap for each scanned row, in order |
| OutboxWorker.MemoryOutboxWorker.ClaimRow | internal/platform/outbox/worker.go:157-175 | a row claimed is `processing` and names the worker; one that is not claimed by a statement that ran was not pending |
| OutboxWorker.MemoryOutboxWorker.ProcessOne | internal/platform/outbox/worker.go:184-252 | one row: the handler's run, then the write of its result, in that order |
| QuotaTheorems.DeductDecides | internal/platform/redisx/redisx.go:68-108 | the script's reply decodes to unlimited, exceeded or granted exactly as the counters say; a grant never reads as -1 or -2 |
| QuotaTheorems.PlainCallsMoveCounters | internal/platform/redisx/redisx.go:68-130 | a plain deduction that fits a loaded limit adds its amount to its own counter, any other changes nothing; a refund takes its amount off, without a floor |
| QuotaTheorems.CreateDecides | internal/tenantm/session/lifecycle.go:35-52 | creation reserves or opens an unmetered session in exactly these cases and otherwise changes nothing |
| QuotaTheorems.OrderlyRunsConserve | internal/tenantm/session/lifecycle.go:39-160 | in every orderly run, with no call in progress, each counter is base deductions plus initials of open metered sessions plus min(initial, actual) of ended ones |
| QuotaTheorems.ConservationNeedsOrder | internal/platform/redisx/redisx.go:190-213 | that conservation holds in every run if and only if no session is metered at all, or settlements of a session do not overlap, their calls succeed and the clean-up's column exists |
| QuotaTheorems.UsedStaysWithinLimit | internal/platform/redisx/redisx.go:68-85 | in every run, overlapping or failing as it may, no counter passes the highest limit loaded, and it is base plus the sessions' charges |
| QuotaTheorems.AsWrittenCreatesNothing | internal/platform/redisx/redisx.go:138-188 | in the repository as it stands no session is ever created and no quota ever reserved |
| QuotaFloor.LowerBoundNeedsOrder | internal/tenantm/session/lifecycle.go:132-141 | sessions never push a counter below the plain deductions, in any run, if and only if no session is metered at all, or settlements of a session do not overlap, their calls succeed and reported usage is not negative |
| QuotaTheorems.RefundReport | internal/tenantm/session/lifecycle.go:200-250 | the refund report carries the amount in the settled dimension and nothing in any other |
| QuotaTheorems.UsageFields | internal/tenantm/session/lifecycle.go:200-250 | each dimension reads its own field of the report, nothing is read as 0, and the refund is written to its own field |
| QuotaLedger.StepKeepsAccount | internal/platform/redisx/redisx.go:68-213 | every step keeps counter equals base plus charges, and below the highest limit |
| QuotaSettlement.StepKeepsSound | internal/tenantm/session/lifecycle.go:39-160 | every step of an orderly run keeps each session's charge, snapshot and row in agreement with where its call stands |
| QuotaFloor.StepKeepsSolvent | internal/platform/redisx/redisx.go:190-213 | when settlements do not overlap or fail and reports are not negative, no step promises back more than is charged, closing columns or not |
| QuotaService.SessionService.Create | internal/tenantm/session/lifecycle.go:35-82 | the amount is the positive request or else the default; a session is rejected, and nothing changed, exactly when the build, the limit and the counter say so; a created session has its row and account with that amount; a failed insert leaves neither row nor charge in orderly runs, with other calls stepping in between |
| QuotaService.SessionService.End | internal/tenantm/session/lifecycle.go:117-196 | unknown and closed sessions are refused and change nothing; otherwise, field by field, the usage settled is that of the session's own dimension and the refund is the rest of the reserved amount in that field alone; status as the call says; in orderly runs the final charge is the smaller of reserved and used amount |
| QuotaService.SessionService.SnapshotRefund | internal/platform/redisx/redisx.go:190-213 | where the refund leaves the calling operation; a failed creation is charged nothing in orderly runs |
| QuotaService.SessionService.CleanupStaleSessions | internal/tenantm/session/cleanup.go:44-90 | the clean-up call of each stale session of the batch is over; in orderly runs each of them is ended and charged min(initial, used), and stays so while the others are cleaned and other calls step |
| TaskStream.MaxRetries | internal/tenantm/memory/worker.go:37-39 | the retry limit is never below one |
| TaskStreamLaws.EachTaskIsInOnePlace | internal/tenantm/memory/worker.go:164-254 | every published task has exactly one entry: queued, held, completed, dead, dropped without payload, or lost with a failed XADD |
| TaskStreamLaws.HandlerRunsAreBounded | internal/tenantm/memory/worker.go:198-216 | for any number of consumers the handler runs at most once more than there are retries |
| TaskStreamLaws.OutcomesDecide | internal/tenantm/memory/worker.go:198-216 | in every reachable state a completed task's last handler call succeeded and all before failed; a queued, dead, lost or dropped one has only failed calls |
| TaskStreamLaws.SuccessIsKept | internal/tenantm/memory/worker.go:198-203 | a task for which some call succeeded is completed, or held until that is acknowledged |
| TaskStreamLaws.DeadLettersAreExhausted | internal/tenantm/memory/worker.go:209-211 | a dead letter carries exactly the maximal count and its handler ran once more than that |
| TaskStreamLaws.DrainedMeansSettled | internal/tenantm/memory/worker.go:179-219 | with nothing queued or held every task is completed, dead, or had no payload |
| TaskStreamWorker.Worker.ConsumeStreamWithDLQ | internal/tenantm/memory/worker.go:164-220 | one turn under interference: it does nothing exactly when the read fails or finds the stream empty, else it takes the oldest entry; it completes that exactly when its handler call succeeded, and dead-letters, requeues or loses it exactly when that failed, with the count it must have |
| TaskStreamWorker.Worker.RequeueOrDeadLetter | internal/tenantm/memory/worker.go:209-254 | at the limit the message becomes a dead letter, below it an entry with the count increased, unless the XADD fails |
| Metering.Recorder.FlushBatch | internal/platform/metering/metering.go:345-386 | an inserted flush adds its rows and exactly one ledger entry per key whose sum in doubles reaches a cent and that can be consumed, for that sum floored; a failed one pushes its records to the dead-letter queue, those that can be, and charges nothing |
| Metering.Recorder.Aggregate | internal/platform/metering/metering.go:373-378 | the map holds for each key of a successful record the sum of those records' costs, in doubles and in the order of the batch |
| Metering.Recorder.ConsumeAll | internal/platform/metering/metering.go:379-384 | whatever order the map is walked in, the ledger gets one entry per such key and each tenant's spending grows by the sum over its keys |
| Metering.RowsOf | internal/platform/metering/metering.go:347-355 | one row per record in order, with consecutive ids |
| MeteringLaws.ChargeIsFloor | internal/platform/metering/metering.go:380-383 | skipping totals below one cent charges the floor of a total exactly when it is not negative |
| MeteringLaws.CostIsNotNegative | internal/platform/metering/metering.go:149-165 | non-negative prices and amounts give non-negative costs |
| MeteringLaws.TotalByKey | internal/platform/metering/metering.go:368-378 | a tenant's total over a batch is the total of its keys |
| MeteringLaws.CostIsClose | internal/platform/metering/metering.go:149-165 | a record's cost is amount / 1000 * price but for a relative error of three roundings' units |
| MeteringPrices.RecordIsPriced | internal/platform/metering/metering.go:149-165 | a record of tokens in costs amount / 1000 times its model's input price, one of tokens out the same with the output price, within three roundings; any other, or without prices, nothing |
| MeteringPrices.WholePriceIsExact | internal/platform/metering/metering.go:149-165 | whole thousands at whole cents cost exactly the product |
| MeteringPrices.RowCostIsFloor | internal/platform/metering/metering.go:144-165 | the cost column of a usage row is that cost floored, for costs that are not negative |
| MeteringPrices.KeysExactly | internal/platform/metering/metering.go:368-378 | a key is charged for exactly when some successful record of the batch has its tenant, business type and model |
| MeteringPrices.OneRecordIsCharged | internal/platform/metering/metering.go:345-386 | a flush of one successful record charges its tenant the floor of its cost, below a cent nothing, and no other tenant |
| MeteringPrices.WholePriceIsCharged | internal/platform/metering/metering.go:149-165 | for whole thousands of tokens at whole cents of the record's own dimension, row and charge are exactly their product |
| MeteringLaws.TotalIsClose | internal/platform/metering/metering.go:373-378 | a key's sum in doubles differs from the exact sum of its costs by at most its blur |
| MeteringLaws.BlurIsSmall | internal/platform/metering/metering.go:373-378 | the blur is at most one unit of the sum for each of the key's records |
| MeteringLaws.ChargesFollowCosts | internal/platform/metering/metering.go:345-386 | over any run a tenant spends at most the cost of its inserted records plus the blur of their sums; if consumptions succeed it loses less than a cent per key and batch and that blur, and spends at least its rows' whole cents (up to 2^53 cents for a key of a batch) |
| MeteringLaws.SumsInUnitsAreExact | internal/platform/metering/metering.go:373-383 | where a key's costs are whole numbers of some power of two cents, at most 2^53 in all, the sum in doubles is exact and the charge is the floor of the exact cost |
| MeteringLaws.TenTenthsAreNoCent | internal/platform/metering/metering.go:366-384 | ten successful records of a tenth of a cent under one key cost a cent and nothing is charged |
| MeteringLaws.RowsCarryCents | internal/platform/metering/metering.go:144-147 | the cost column of the rows of a run sums to the truncated costs of the inserted records |
| MeteringLaws.TurnsFlushWhenDue | internal/platform/metering/metering.go:224-316 | a turn flushes the whole buffer, the records just read included, exactly when it has reached the batch size, or the turn is a tick, the end of the channel or the stop signal and there is something to flush; the last two end the loop, a failed read changes nothing |
| MeteringLaws.DecodedExactly | internal/platform/metering/metering.go:224-282 | a read gives exactly the records of the messages that decode, in order |
| MeteringLaws.BatchesInOrder | internal/platform/metering/metering.go:224-316 | batches and buffer are the received records in order; a batch is smaller than the batch size plus a read; the end leaves no buffer |
| MeteringLaws.ChannelBatches | internal/platform/metering/metering.go:285-316 | batches from the channel have 1 to BatchSize records |
| MeteringLaws.StreamBatches | internal/platform/metering/metering.go:224-282 | batches from the stream have 1 to 2 BatchSize - 1 records |
| MeteringLaws.RecordsKeepTheirOrder | internal/platform/metering/metering.go:345-365 | usage rows hold the inserted batches' records, and dead letters those of the failed batches whose push succeeded, in the order received |
| MeteringLaws.EveryRecordEndsOnce | internal/platform/metering/metering.go:356-365 | every flushed record is in exactly one usage row or one dead letter, or its push failed; equal records may fare differently |
| MeteringLaws.NothingIsLostWhenPushesSucceed | internal/platform/metering/metering.go:356-365 | all received records are in buffer, rows or dead letters if and only if every failed insert has all its dead letters written |
| MeteringLaws.WithoutDeadLetters | internal/platform/metering/dlq.go:45-56 | if no dead letter can be written, that is if and only if no insert fails |
| MeteringWorker.Worker.ChannelWorker | internal/platform/metering/metering.go:284-316 | buffer, batches, books and spending after any events are those of the batching protocol |
| MeteringWorker.Worker.StreamWorker | internal/platform/metering/metering.go:223-282 | the same over the stream, messages that do not decode left out |
| MeteringClose.CloseLeavesTheQueue | internal/platform/metering/metering.go:389-393 | for any number of workers, once Close has returned, the records not flushed are those left in the channel, the last ones that were in it when `stopCh` was closed |
| MeteringClose.CloseDrainsExactly | internal/platform/metering/metering.go:285-316 | every schedule of the workers after Close begins flushes all records taken if and only if the channel is empty when `stopCh` is closed |
| MeteringClose.StopMayWin | internal/platform/metering/metering.go:298-302 | otherwise there is one in which all workers end and the channel is left as it is |
| DeadLetters.DLQWorker.Retry | internal/platform/metering/dlq.go:58-104 | a query that fails is reported and changes nothing; else a decodable row of the answer is gone if processing and write succeeded, there with its count one higher if processing failed and the write succeeded, and as it was otherwise; all other rows stay; alerts grow by exactly the rows whose processing failed at a count reaching the limit, in order |
| DeadLetters.DLQWorker.Push | internal/platform/metering/dlq.go:45-56 | a pushed record is a new row with the count 0; a push that fails changes nothing |
| DeadLetterPasses.RetryIsARun | internal/platform/metering/dlq.go:58-104 | what `Retry` does is the run of one pass of the interleaved model, statement by statement |
| DeadLetters.RetriesAreBounded | internal/platform/metering/dlq.go:58-104 | in any run of whole passes a row is tried at most maxRetry times and once more per failed write; without failed writes it alerts exactly once, when its count reaches the limit |
| DeadLetterPasses.TriesAreBounded | internal/platform/metering/dlq.go:58-104 | with n passes interleaved statement by statement a row is tried less than (n + maxRetry)! / (n! maxRetry!) times, and once more per failed write, deleted meanwhile or not |
| DeadLetterPasses.StepPays | internal/platform/metering/dlq.go:58-104 | each statement of each pass keeps tries within what counts, copies, failed writes and outstanding outcomes account for |
| DeadLetterMost.MostTriesAreReached | internal/platform/metering/dlq.go:58-104 | that bound is exact: some run without a failed write tries a row one time less than that |
| DeadLetterMost.RetryLimitNeedsOnePass | internal/platform/metering/dlq.go:58-104 | the limit of maxRetry tries holds in every run if and only if there is at most one pass at a time |
| DeadLetterMost.OneAlertNeedsOnePass | internal/platform/metering/dlq.go:76-94 | a row without failed writes alerts at most once in every run if and only if there is at most one pass at a time |
| DeadLetters.StepKeepsPaid | internal/platform/metering/dlq.go:73-102 | every push and pass keeps tries equal to count plus failed writes for rows present |
| Billing.Service.Recharge | internal/billing/billing.go:135-167 | a positive amount whose transaction goes through raises balance and total recharged by it and adds one entry for it with the new balance; else figures and entries stay; a refusal, a failure and a returned balance each say what happened |
| Billing.Service.Consume | internal/billing/billing.go:171-207 | a cost other than zero whose transaction goes through lowers the balance and raises the total consumed by it, with one entry, the account being made on first use; else nothing changes |
| Billing.Service.EnsureAccount | internal/billing/billing.go:265-268 | an account that exists is left as it is |
| Billing.EntriesAreBooked | internal/billing/billing.go:135-207 | recharging and consuming move the tenant's figures by the amount, no other tenant's, and append the one entry that says so |
| Billing.RunsSettle | internal/billing/billing.go:135-207 | in every run balance is opening plus recharged minus consumed, those are the sums of the entries, each entry carries the balance at its position, and entries are only appended |
| Chunker.Chunk | internal/rag/chunker.go:10-42 | the output is exactly the ordered list of trimmed windows of at least two runes; sizes that are not positive mean 800, overlaps outside 0 to size an eighth |
| Chunker.SplitParagraphs | internal/rag/chunker.go:44-57 | the trimmed non-blank lines, or the text |
| ChunkerLaws.ParagraphsExactly | internal/rag/chunker.go:44-57 | the paragraphs are the lines that are not blank, trimmed, in order, and none has a newline; a text of blank lines is its own paragraph |
| ChunkerLaws.LinesExactly | internal/rag/chunker.go:44-49 | the lines have no newline and, joined by newlines, are the text |
| Chunker.Slide | internal/rag/chunker.go:29-39 | the sliding loop ends and emits the windows in order |
| ChunkerLaws.WindowsCoverParagraph | internal/rag/chunker.go:29-39 | windows less their overlaps put together are the paragraph |
| ChunkerLaws.WindowsOverlap | internal/rag/chunker.go:29-39 | consecutive windows share exactly `overlap` runes and all but the last are full |
| ChunkerLaws.WindowsAreFewest | internal/rag/chunker.go:29-39 | a long paragraph has 1 + ceil((n - size) / (size - overlap)) windows, as bounds on both sides |
| ChunkerLaws.ChunkSizes | internal/rag/chunker.go:59-65 | every chunk has 2 to size runes and visible ends |
| ChunkerLaws.WindowsKeepText | internal/rag/chunker.go:10-57 | without overlap the windows hold exactly the visible runes of the text in order |
| ChunkerLaws.ChunksKeepWindows | internal/rag/chunker.go:29-65 | for any overlap the chunks hold the visible runes of the windows but for one of each window that has just one, so all of them if and only if there is no such window |
| ChunkerLaws.NothingVisibleIsLost | internal/rag/chunker.go:10-65 | without overlap the chunks hold all visible runes of the text if and only if no window holds just one |
| ToolLoop.RunToolLoop | internal/server/v1/tools.go:22-58 | at most five rounds, played while the first choice's finish reason is `tool_calls`; the reply is the first one that has no choice or another reason, or the sixth; events and requests sent are those of the conversation |
| ToolLoop.RequestAt | internal/server/v1/tools.go:27-53 | the i-th request carries the conversation after i rounds, the sixth without tools |
| ToolLoop.CallsAreAnswered | internal/server/v1/tools.go:41-48 | call i of a round is answered by the result of that very call, under its id, and reported as an event |
| ToolLoop.RoundAdds | internal/server/v1/tools.go:38-48 | a round adds the first choice's message and the answers to its calls to the conversation, and their results to the events |
| ToolLoop.ConversationsAreSegments | internal/server/v1/tools.go:38-48 | every request's messages are the client's followed by one segment per round |
| ToolLoop.SegmentsAreAnswered | internal/server/v1/tools.go:38-48 | a segment is an assistant message followed by one tool message per call with matching ids in order |
| ToolLoop.EventsMatchMessages | internal/server/v1/tools.go:41-48 | there are as many events as tool messages |
| ToolLoop.ConversationsExtend | internal/server/v1/tools.go:38-48 | the message list only grows |
| Synthesis.SynthesizeChunks | internal/server/v1/tools.go:68-96 | the chunks are greedy deltas of the content, then one stop and one usage chunk |
| Synthesis.CutIsUnique | internal/server/v1/tools.go:77-89 | the content determines the greedy deltas |
| Synthesis.MergeContent | pkg/openaiclient/client.go:306-315 | merging concatenates the deltas of all choices in order |
| Synthesis.MergeUndoesSynthesis | internal/server/v1/tools.go:68-96 | merging the chunks gives the content back; every delta but the last has 16 to 19 bytes, the last 1 to 19 |
| Synthesis.StreamAnswer | internal/server/v1/chat.go:179-202 | the response body, spelled out: an event frame for each tool event, a data frame for each chunk, the metering event, the terminator |
| Synthesis.AnswerArrives | internal/server/v1/chat.go:179-202 | the client that reads that body and merges what it received has exactly the answer's content |
| Sse.SSEWriter.WriteData | internal/platform/web/sse.go:52-56 | `data: `, the text and an empty line are appended unless the writer is closed |
| Sse.SSEWriter.WriteEvent | internal/platform/web/sse.go:58-62 | the event's name line, its data line and an empty line are appended unless the writer is closed |
| Sse.SSEWriter.WriteDone | internal/platform/web/sse.go:64-67 | `data: [DONE]` and an empty line are appended unless the writer is closed |
| Sse.Stream | pkg/openaiclient/client.go:255-288 | the line loop yields what the tokens of the body mean, up to the terminator or the first error |
| SseLaws.RoundTrip | pkg/openaiclient/client.go:258-285 | any transcript of good frames, events and heartbeats is read back as its payloads in order, stopping at Done (section 9.2.6 of the WHATWG HTML Standard) |
| SseLaws.ReadsOn | pkg/openaiclient/client.go:258-285 | after an undisturbed transcript the client has its payloads and reads what follows as if it stood alone |
| SseLaws.StopsAtDone | pkg/openaiclient/client.go:274-276 | nothing after the terminator is read |
| SseLaws.StopsAtBadPayload | pkg/openaiclient/client.go:277-281 | a payload that does not decode is reported, and nothing after it is read |
| SseLaws.StopsAtLongLine | pkg/openaiclient/client.go:255-287 | a line of four mebibytes is reported as a scanner error, and nothing after it is read |
| SseLaws.ReadsBareData | pkg/openaiclient/client.go:267-272 | no blank is needed after the colon |
| SseLaws.SurvivesExactlyWhenGood | pkg/openaiclient/client.go:268-284 | a decodable payload is read back as written if and only if it has one line, no outer blanks, is neither empty nor the terminator, and fits the scanner |
| AbTest.SelectVariant | internal/platform/abtest/hash.go:33-50 | the first variant whose cumulative percentage, added up in doubles, exceeds the bucket's, or the last; none for an empty list |
| AbCreate.ValidateAllocation | internal/platform/abtest/service.go:634-656 | sums in doubles outside 99.99 to 100.01 and lists without a control are rejected, in that order |
| AbCreate.ToleranceIs | internal/platform/abtest/service.go:640-642 | the tolerated sums are those from the double of 99.99 to the double of 100.01 |
| AbCreate.CreateExperiment | internal/platform/abtest/service.go:178-250 | no variants, an invalid list, a name twice and a number out of the column's range are refused; otherwise each variant is stored with its number rounded to hundredths |
| AbCreate.ColumnHolds | migrations/000021_ab_testing.up.sql:40 | the column takes a number if and only if it lies strictly between -999.995 and 999.995 |
| AbTest.SelectedBetween | internal/platform/abtest/hash.go:38-50 | a variant gets exactly the buckets whose double lies between two running maxima of the cumulative sums, the last one the rest |
| AbTest.ShareFormula | internal/platform/abtest/hash.go:33-50 | how many buckets each variant gets, for any allocations |
| AbShares.SharesShift | internal/platform/abtest/hash.go:33-50 | for all non-negative allocations, whatever their sum, a variant gets the buckets between two boundaries, each where the exact sums put it, or one bucket further where the sum of doubles comes out above, and none past the last |
| AbShares.SharesOfReached | internal/platform/abtest/hash.go:33-50 | as long as the last variant is reached every other one gets its allocation give or take one bucket, and the last one exactly what is left |
| AbShares.SharesAreAllocations | internal/platform/abtest/hash.go:33-50 | with allocations adding up to the whole every variant gets exactly its own if and only if none is negative and no sum before the last comes out above its own bucket's percentage |
| AbCreate.StoredSumIsClose | internal/platform/abtest/service.go:224-240 | an accepted list of n variants is stored with a sum off by at most 1 + n/2 hundredths, for up to 100,000 variants, and by that and the error of the additions for any number; negative allocations included |
| AbCreate.WithinOneNeedsOneVariant | internal/platform/abtest/service.go:224-240 | every accepted list of n variants is stored within one hundredth of the whole if and only if n is at most one |
| AbCreate.WholeHundredthsStay | internal/platform/abtest/service.go:634-642 | non-negative whole hundredths, however many, are accepted only if off by at most one hundredth, and always if they are the whole |
| AbCreate.SeventhsDrift | internal/platform/abtest/service.go:224-240 | seven times 14.286 is accepted, stored as 100.03, and the last variant gets at most 1426 buckets for its 14.29 per cent |
| AbCreate.SharesOfCreated | internal/platform/abtest/service.go:224-240 | an accepted list as stored and loaded in any order: every variant but the last gets its stored allocation give or take one bucket, the last one give or take 2 + n/2, as long as it is reached |
| AbCreate.TenthsAreAccepted | internal/platform/abtest/hash.go:38-46 | 0.10, 0.20 and 99.70 per cent are accepted and get 10, 21 and 9969 buckets |
| AbOrder.OrderIsFreeExactly | internal/platform/abtest/service.go:534-538 | for any allocations: every order the query may give the variants in selects the same variant for every bucket if and only if no variant that gets a bucket has an equal allocation beside it |
| AbOrder.OrderIsFreeWithoutTies | internal/platform/abtest/service.go:534-538 | for non-negative allocations whose last one is positive and reached, any sum: that is if and only if no two variants have the same positive allocation |
| AbAssign.ABTestService.AssignVariant | internal/platform/abtest/service.go:344-391 | an experiment that is not running is refused; else the first variant of the cached name if there is one, and nothing stored; else the one the digest of name, colon and user, modulo 10000, selects, its row stored unless there is one, its name cached, each if that write succeeds |
| AbAssign.PersistedRowIsThere | internal/platform/abtest/service.go:366-380 | after a miss whose row is written the row is there: the one before, or the variant replied |
| AbAssign.AssignmentsAreSticky | internal/platform/abtest/service.go:344-391 | for any allocations, names that do not clash, and each call loading its experiment's variants in one of a given set of orders: every reply of every run of calls, expiries and failed writes is what the hash selects, from whichever of the orders, if and only if the orders select the same variant for every bucket |
| AbAssign.OneOrderIsSticky | internal/platform/abtest/service.go:344-391 | with one order for each experiment assignments are sticky, whatever the allocations |
| AbAssign.QueriedAssignmentsAreSticky | internal/platform/abtest/service.go:534-538 | with every order the query allows, for any allocations: if and only if no variant that gets a bucket shares its allocation with another |
| AbAssign.UntiedAssignmentsAreSticky | internal/platform/abtest/service.go:534-538 | for non-negative allocations whose last one is positive and reached: if and only if no running experiment has two variants of the same positive allocation |
| AbAssign.ToleratedIsSpread | internal/platform/abtest/service.go:640-642 | non-negative stored sums from 99.99 to 100.01 are such |
| AbAssign.RunsAgree | internal/platform/abtest/service.go:344-391 | where the orders agree, stored rows and cached names are what the hash selects, for any allocations |
| AbAssign.RowsStay | internal/platform/abtest/service.go:366-380 | a stored row never changes, in any run |
| AbAssign.KeysMeet | internal/platform/abtest/service.go:352 | two experiments share a cache key for some users if and only if one name and a colon begin the other |
| AbAssign.ClashingNamesShareTheCache | internal/platform/abtest/service.go:352-364 | where names clash, the second experiment's reply agrees with its hash exactly when the hash selects the cached name |
| StringArrays.MarshalArr | internal/tenantm/apikey/apikey.go:312-324 | the printed form: quoted strings joined by commas in brackets |
| StringArrays.PrintedForm | internal/tenantm/apikey/apikey.go:312-324 | the printed list, spelled out from its first string on |
| StringArrays.ParseScope | internal/tenantm/apikey/apikey.go:288-310 | the strings between pairs of quotes that are not empty |
| StringArrays.ParseJSONArr | internal/platform/auth/apikey.go:321-338 | the non-empty pieces between commas, trimmed and unquoted |
| StringArrays.ScopeRoundTrip | internal/tenantm/apikey/apikey.go:288-324 | printing then parsing scopes is the identity on a list if and only if no string is empty or has a quote (arrays as in section 5 of RFC 8259) |
| StringArrays.ArrayRoundTrip | internal/platform/auth/apikey.go:321-338 | printing then parsing with the other parser is the identity if and only if no string is empty, has a comma, or begins or ends with a quote |
| StringArrays.ArrayReadsBlanks | internal/platform/auth/apikey.go:321-338 | blanks between quotes, commas and brackets do not change what the key parser reads |
| StringArrays.ScopeReadsBlanks | internal/tenantm/apikey/apikey.go:288-310 | nor, with anything else outside quotes, what the scope parser reads |
| StringArrays.ParsersAgree | internal/platform/auth/apikey.go:321-338 | on printed lists of clean strings both parsers give the list |
| QuotaJson.Number | internal/tenantm/device.go:167-174 | the wrapping 64-bit digit loop yields the number's value modulo 2^64, signed |
| QuotaJson.ParseQuotas | internal/tenantm/device.go:155-200 | the character loop computes the device dialect's map |
| QuotaJson.ParseQuotaJSON | internal/portal/portal.go:441-473 | the character loop computes the portal dialect's map |
| QuotaJsonLaws.ReadsLegibleKeys | internal/tenantm/device.go:155-200 | from a flat object whose key texts have none of the delimiters either parser reads each key without its digits, and as its value those digits followed by all digits of the number's text, fraction and exponent included, in 64 bits |
| QuotaJsonLaws.QuotasRoundTrip | internal/tenantm/device.go:155-200 | from any rendering, with any blanks, escapes, fractions and exponents (RFC 8259), the map is read back if and only if every key is non-empty, free of the parser's delimiters and digits and rendered without an escape, and every value is what the digits of its number's text make in 64 bits |
| QuotaJsonLaws.PlainValuesRead | internal/tenantm/device.go:167-174 | a value written as plain digits is read if and only if it is what 64 bits make of its magnitude |
| QuotaJsonLaws.HundredsMisread | internal/tenantm/device.go:167-174 | a hundred written 1e2 is read as 12, written 100.0 as 1000 |
| QuotaJsonLaws.KeysThatCanBeRead | internal/tenantm/device.go:155-200 | a clean key has a rendering without an escape if and only if it has no quote, backslash or control character (section 7 of RFC 8259) |
| QuotaJsonLaws.ReadableValues | internal/tenantm/device.go:167-174 | for 64-bit values that means non-negative, or the least one |
| QuotaJsonLaws.DialectsAgree | internal/portal/portal.go:441-473 | on key texts the portal reads, escapes and digits included, the two parsers agree if and only if none has an opening brace |
| QuotaJsonLaws.CommaInAKey | internal/tenantm/device.go:186-189 | a comma in a key starts the key anew for the portal; for the device it closes the quotes, so that the value is read under a colon |
| QuotaJsonLaws.NothingWithoutDigits | internal/tenantm/device.go:155-200 | a text without a digit gives no entry |
| Paging.ListMessages | internal/tenantm/memory/memory.go:36-54 | the rows under the cursor with the largest ids, newest first, as many as the limit if it is from 1 to 200 and else 50, and whether older ones remain |
| Paging.WalkSeesEveryRowOnce | internal/tenantm/memory/memory.go:36-54 | following cursors yields every row under the first cursor once, newest first, in full pages but the last, however many rows of larger ids are inserted meanwhile, in as few calls as that takes |
| Paging.WalkSeesTheFirstTable | internal/tenantm/memory/memory.go:36-54 | from no cursor that is every row that existed at the first call |
| SessionHistory.PrimaryExactly | internal/tenantm/session/session.go:59-68 | with distinct ids and times a call returns a session's messages if and only if it is the newest live session of the device at that call |
| SessionHistory.History | internal/tenantm/session/history.go:19-108 | an empty page without a live session, else of the newest one's messages for the tenant the newest under the cursor, as many as a limit from 1 to the maximum says and else the maximum, with the next cursor exactly when more remain; as written a panic |
| SessionHistory.ViewsGrow | internal/tenantm/session/history.go:59-72 | while messages are only added, so are those behind any one session |
| SessionHistory.HistoryShowsOneSession | internal/tenantm/session/history.go:19-108 | following the cursors shows the messages of the session met first, each once and newest first, if and only if every call made meets that session; then in full pages but the last and as few as that takes |
| SessionHistory.NewSessionEndsTheWalk | internal/tenantm/session/history.go:32-47 | a session opened between two calls ends the walk with a message unseen |

## Left out

- Key expiry, stream trimming, month rollover and process crashes in the middle of a call: the runs have none.
- The validation of a session request's device and dimension before anything else: dimensions are the four valid ones.
- HTTP handlers, GORM, Redis and SQL clients, logging, audit and tracing: only the state change of each call is kept.
- The exponent range of doubles: rounding is to 53 significant bits, ties to even, without overflow or subnormal numbers.
- DECIMAL columns other than a variant's allocation, which is rounded to hundredths, halves away from zero, from the
  number that was sent; prices are doubles.
- 64-bit overflow of counters, balances and token amounts; only the quota parsers' digit loop is modelled with wrap-around.
- JSON encoding and decoding, SHA-256, base64: opaque functions; `decode(encode(c)) == c` is a hypothesis of `AnswerArrives`.
- Invalid UTF-8: texts are sequences of Unicode scalar values.
- Cancelled contexts and timeouts of a handler: a handler call succeeds or fails.
- The outbox writer's insert next to the business transaction, and worker ids that collide: workers are numbered.
- Clock differences between database and workers, and rounding of `next_retry_at` to whole seconds: one clock in seconds.
- XACK failures: an acknowledgement always takes effect.
- The recorder's fallback worker, records sent after Close has begun, and the unconditional increment of the usage counter when a record is made.
- Two metering workers' rows and charges interleaved: `MeteringClose` has any number of workers, but each flush of
  different batches is on its own.
- `Guard.Refund` of the quota guard, whose comment says decrement and whose code increments: outside the ledger.
- Token usage of the tool loop's inner calls, which the handler does not record.
- Aliasing of the request's message slice in the tool loop: messages are values.
- Retrieval, personas, devices, SCIM, OAuth, vision and federated learning: not part of this model.
- Messages that are deleted, or inserted with an id below one already there, while a client follows cursors.
- The rows a dead-letter or stale-session query returns are arguments that satisfy the query's meaning.
- The reference id of a charge, which is the time of day.
