# BOSSA telemetry pipeline, verified

A Dafny model of the BOSSA edge telemetry pipeline and of the Cloudflare Worker it posts to, with
proofs about whole runs: conservation of samples, what reaches the Worker's log and table, exact
polling, backoff, draining, and what the ring buffer keeps. Every class of the edge is an
imperative Dafny class whose methods are proved equal to a step of a state machine over values
(`pipeline.dfy`); the theorems are lemmas about runs of that machine.

## How to read it

| file | holds |
|---|---|
| `samples.dfy` | units of time, samples, fixed-size text buffers and the truncating copy |
| `ring_buffer.dfy`, `ring_buffer_runs.dfy`, `priority.dfy` | the circular array; what any run of it keeps; which priorities survive |
| `scheduler.dfy`, `scheduler_runs.dfy` | deadlines and the catch-up loop; which dispatch polls which channel |
| `upload_policy.dfy`, `policy_history.dfy`, `policy_runs.dfy` | flush decisions; the same decisions read off the history; the runtime's flushes read off its trace |
| `local_store.dfy` | the table of pending rows and the round trip of a sample through it |
| `http_uploader.dfy` | wire format, responses, trace events, posting and persisting |
| `worker.dfy`, `worker_history.dfy` | the ingress Worker and its two tables; both read off everything it has handled |
| `pipeline.dfy` | the state machine: configure, poll, flush, retry, tick, next wake-up |
| `telemetry_runtime.dfy` | the runtime class that refines the state machine |
| `edge_runs.dfy` | runs of configurations and ticks; induction over a poll phase; structural invariants |
| `backoff.dfy`, `tick_guarantees.dfy`, `configured_runs.dfy` | backoff, buffers, wake-ups, draining, polling by the runtime |
| `batch_log.dfy`, `configured_posts.dfy` | what the ring holds and every POST carries, read off the trace and the configuration |
| `conservation.dfy`, `overrun.dfy`, `retry_queue.dfy` | where every sample is; what is lost and what is overrun; the order of the queue |
| `system.dfy` | edge, network and Worker as one system; the Worker's table |
| `delivery.dfy`, `one_reading.dfy`, `eventual.dfy` | what an accepted POST means at the Worker; when the table carries it; draining to the Worker |
| `witnesses.dfy`, `loss_witnesses.dfy` | concrete runs in which the code falls short |
| `bme280.dfy` | fixed-point temperature compensation against the exact polynomial |

The environment enters as data. A tick receives its clock readings, what each poll returns, what
becomes of each POST (the deliveries that reach the Worker and the answer the edge sees, so a lost
request and a lost response are different) and which SQL statements succeed. A run is any sequence
of configurations, successful or not, and ticks. In `system.dfy` any request may also arrive at
the Worker at any time, which covers late duplicates and other clients. Clocks are integers of
nanoseconds and sample values are reals.

The `trace` that the runtime carries is a ghost record of what it observably does: samples polled
and given up, POSTs with their batch, request and answer, rows inserted and deleted. Counts such as
the length of a failure streak, the accepted uploads or the fates of samples are defined on the
trace alone, and the theorems compare them with the state.

Findings about the code that the lemmas make precise:

- The Worker skips a sample without a unit or channel id but answers 202, so the edge forgets it: an accepted sample is in the Worker's log iff it is well-formed (`Deliveries.AcceptedMeansRecorded`, witness `LossWitnesses.UnitlessIsSkipped`).
- Two readings of one channel within a second, which any rate above 1 Hz gives, share a key and the table keeps only the first: it carries an accepted sample iff the sample is well-formed and the first entry of its key agrees with it (`Deliveries.AcceptedIsCarriedIff`, witness `LossWitnesses.SameSecondIsLost`).
- A retry that counts rows but reads none reports success: it clears the backoff in the middle of a streak of failures, after which delays start again at 5 s, and it counts an upload without a POST (`BackoffRuns.BackoffRespected`, `BackoffRuns.CounterCountsPosts`, witnesses `Witnesses.EmptyRetryClearsBackoff` and `Witnesses.EmptyRetryBreaksLadder`).
- In every reachable state a wake-up is in the future except for two causes: the row count query fails while a retry is due, or nothing is bound and an old deadline has passed (`TickGuarantees.WakesLater`, witnesses `Witnesses.MissedRetryWakesInPast` and `Witnesses.FailedReloadWakesInPast`).
- The second cause is a reload that fails before it binds a channel, because the store does not open or the first enabled channel's driver is bad: no tick does anything any more and the wake-up stays at the old deadline until the next reload, so the loop at src/daemon_main.cpp:56-75 does not sleep (`ConfiguredRuns.ReloadFreezesIff`).
- A POST answered 400 takes its batch off the edge iff it is a flush; a retry keeps its rows (`Conservation.RefusalDropsIffFlush`), contrary to the wording of section 9.2 of docs/specification.md.
- Configuring a channel that has something waiting leaves a cached flag with nothing behind it, unless something of the same kind waits on another channel (`PolicyHistory.ReconfigureKeepsFlagsIff`, for whole histories `PolicyHistory.CachedFlagsIff`). The runtime never gets there, because its configure clears the policy first, at src/runtime/telemetry_runtime.cpp:65 (`PolicyRuns.RuntimeFlagsConsistent`).
- A rate above 1 GHz gets a period of zero and the catch-up loop never ends (`Schedulers.CatchUpEndsIff`).
- A configuration discards what the ring holds, and a failed one keeps the old schedule but sends nothing, whether or not its deadlines are still served (`ConfiguredRuns.FailedConfigureIsSilent`).

## Model

| member | source | states |
|---|---|---|
| Samples.CopyTruncated | include/bossa/telemetry/stored_sample.hpp:53-64 | the in-place bounded copy turns the buffer into the prefix that fits, a NUL, and the old tail |
| Samples.CopySample | include/bossa/telemetry/stored_sample.hpp:39-50 | the stored sample built through two zeroed buffers is the specified one |
| Samples.StoredFields | include/bossa/telemetry/stored_sample.hpp:39-50 | a stored sample has the reading's value, time and quality, the given priority, and the longest prefixes of channel id and unit that fit 63 and 31 characters |
| Samples.CopyKeepsPrefix | include/bossa/telemetry/stored_sample.hpp:53-64 | a C-string reader of the buffer sees exactly the longest prefix of the source that fits |
| Samples.CopyOfText | src/storage/local_store.cpp:194-201 | printing what a terminated buffer shows into another buffer of the same size loses nothing |
| RingBuffers.DropOffsetIsLowest | src/telemetry/ring_buffer.cpp:42-53 | an offset is the one the search finds iff its resident is the oldest of those with the lowest priority |
| RingBuffers.RingBuffer.RemoveAtOffset | src/telemetry/ring_buffer.cpp:16-22 | the wraparound shift deletes exactly one resident and keeps the others in order |
| RingBuffers.RingBuffer.Enqueue | src/telemetry/ring_buffer.cpp:33-77 | on the circular array: append when there is room, else give up the newcomer or the first lowest resident, counting the drop |
| RingBuffers.RingBuffer.Dequeue | src/telemetry/ring_buffer.cpp:79-88 | takes the oldest resident out, or nothing from an empty buffer |
| Priorities.FullRingGivesUp | src/telemetry/ring_buffer.cpp:42-73 | a full ring gives up a Low sample if there is one among residents and newcomer, else a Normal one, else a Critical one: the oldest resident that has it, or the newcomer if none does |
| Priorities.UrgentSurvive | src/telemetry/ring_buffer.cpp:33-77 | after any run of enqueues from any state as many samples of at least a priority are resident as there were in all, up to the capacity, so no Critical one is given up while they fit |
| Priorities.FlushesCarryUrgent | src/runtime/telemetry_runtime.cpp:145-206 | in every run with a positive batch size each flush POST since the configuration carried as many samples of at least a priority as were polled since the one before, up to the batch size |
| RingBufferRuns.StreamingTopK | src/telemetry/ring_buffer.cpp:33-77 | after any run of enqueues from any state the residents are exactly the `capacity` best of residents and arrivals by priority, then youth, in arrival order |
| RingBufferRuns.FirstInFirstOut | src/telemetry/ring_buffer.cpp:33-88 | over any mix of operations, taken then resident samples are a subsequence of the arrivals, and arrivals = resident + taken + newly dropped |
| Schedulers.PeriodIsPositive | src/telemetry/scheduler.cpp:16-23 | a rate gets a period of at least one nanosecond iff it is at most 1 GHz |
| Schedulers.PeriodOfRate | src/telemetry/scheduler.cpp:16-23 | the period of a positive rate is the number of whole nanoseconds between samples, period * rate <= 10^9 < (period + 1) * rate, and of any other rate one second |
| Schedulers.Scheduler.Configure | src/telemetry/scheduler.cpp:25-36 | every entry gets its period and is due at once |
| Schedulers.Scheduler.DispatchDue | src/telemetry/scheduler.cpp:38-70 | polls exactly the due channels in order and moves each to its next slot |
| Schedulers.DueInOrder | src/telemetry/scheduler.cpp:38-70 | a dispatch polls the channels whose deadline has come, all of them and in schedule order |
| Schedulers.Scheduler.CatchUp | src/telemetry/scheduler.cpp:54-66 | the loop ends on the closed form and its degenerate branch is dead |
| Schedulers.NextSlotIsLeast | src/telemetry/scheduler.cpp:54-58 | the closed form is the least grid point strictly after the clock |
| Schedulers.CatchUpEndsIff | src/telemetry/scheduler.cpp:16-23 | for a due channel some number of catch-up steps passes the clock iff the rate is at most 1 GHz |
| Schedulers.Scheduler.NextDeadline | src/telemetry/scheduler.cpp:72-82 | the earliest deadline, none without channels |
| SchedulerRuns.DeadlineAfterRun | src/telemetry/scheduler.cpp:38-70 | after any run the deadline is the slot boundary that follows the last dispatch, so the phase is kept |
| SchedulerRuns.PolledOncePerSlot | src/telemetry/scheduler.cpp:25-70 | a channel is polled by precisely the first dispatch in each period slot that contains one |
| SchedulerRuns.PollsCountSlots | src/telemetry/scheduler.cpp:25-70 | its number of polls is the number of distinct slots visited |
| UploadPolicies.UploadPolicy.ConfigureChannel | src/sync/upload_policy.cpp:12-17 | registers or replaces a channel with cleared state, restarting its interval, and leaves the cached flags |
| UploadPolicies.UploadPolicy.OnSample | src/sync/upload_policy.cpp:25-55 | only remote channels react: realtime always raises its flag, on-change only on a change |
| UploadPolicies.UploadPolicy.QueryFlush | src/sync/upload_policy.cpp:57-81 | the loop over channels decides the flush condition |
| UploadPolicies.UploadPolicy.MarkFlushed | src/sync/upload_policy.cpp:83-91 | restarts every interval and clears every flag, keeping remembered values |
| PolicyHistory.FlushDecision | src/sync/upload_policy.cpp:12-91 | for every history, a flush is due iff samples are buffered and the batch is full, an unflushed realtime sample or change exists, or a remote batch interval has passed since its channel was configured or flushed |
| PolicyHistory.CachedFlagsIff | src/sync/upload_policy.cpp:12-91 | for every history the cached flags are the disjunctions of the channel flags iff, for either kind of event, something waiting for a flush means that something waits on a channel not configured since |
| PolicyHistory.ReconfigureKeepsFlagsIff | src/sync/upload_policy.cpp:12-17 | replacing a channel keeps them so iff no cached flag rests on that channel alone |
| PolicyHistory.ReconfigureBreaksFlags | src/sync/upload_policy.cpp:12-17 | a three-event history after which a cached flag has no channel flag behind it |
| PolicyHistory.OnChangeIsGreedy | src/sync/upload_policy.cpp:25-50 | over any events of other channels and any flushes, the changes of an on-change channel are the greedy subsequence of its values |
| PolicyHistory.GreedyGaps | src/sync/upload_policy.cpp:41-49 | between two marks, a later value is a change iff it rises above or falls below the last one by more than the threshold, and the first value always is |
| PolicyHistory.FarSampleIsChange | src/sync/upload_policy.cpp:41-49 | a sample of a remote on-change channel that remembers a value raises the flags and is remembered iff it rises above or falls below that value by more than the threshold |
| PolicyHistory.GreedyUnique | src/sync/upload_policy.cpp:41-49 | a value sequence has only one greedy subsequence |
| PolicyRuns.RuntimeFlushDecision | src/runtime/telemetry_runtime.cpp:183-220 | after a successful configuration with a URL and any ticks, the flush phase posts iff samples are buffered and the configured batch size is reached, or something polled is waiting, or the configured seconds of a remote batch channel have passed, counted from accepted and rejected flushes only |
| PolicyRuns.RuntimeFlagsConsistent | src/runtime/telemetry_runtime.cpp:55-131 | in every reachable state of the runtime the cached flags are those disjunctions |
| LocalStores.LocalStore.Open | src/storage/local_store.cpp:60-95 | opens a file's table or leaves the store closed |
| LocalStores.LocalStore.Enqueue | src/storage/local_store.cpp:128-163 | appends a row under the next key, or changes nothing if closed or the insert fails |
| LocalStores.LocalStore.PeekBatch | src/storage/local_store.cpp:165-209 | the oldest rows, at most `maxCount` and as many as the statement yields |
| LocalStores.LocalStore.Acknowledge | src/storage/local_store.cpp:211-231 | deletes by key, or changes nothing if closed or the delete fails |
| LocalStores.WithoutIdAt | src/storage/local_store.cpp:211-231 | in a keyed table, deleting by key removes exactly the row with that key |
| LocalStores.SecondsThroughMillis | src/storage/local_store.cpp:17-26 | nanoseconds to milliseconds to seconds truncates like nanoseconds to seconds, for negative times too |
| LocalStores.RowColumns | src/storage/local_store.cpp:128-163 | the columns of a pending row: text, value, whole milliseconds cut toward the epoch, quality by name, priority as 0, 1 or 2 |
| LocalStores.StoreRoundTrip | src/storage/local_store.cpp:128-209 | text, value, quality and priority come back unchanged, the timestamp cut toward the epoch to whole milliseconds, independently of the key and stably under a second trip |
| Protocol.InterpretResponse | src/sync/http_uploader.cpp:74-90 | accepted iff 200 or 202 without a transport error, rejected iff 400 without one, anything else transient |
| Protocol.WireFields | src/sync/http_uploader.cpp:17-47 | a sample in a payload: text, value, whole seconds cut toward the epoch, quality by name |
| Protocol.RequestFields | src/sync/http_uploader.cpp:56-72 | a request names the target's node, has one wire sample per sample in order, and the key as its bearer token iff there is one |
| Protocol.ReplayKeepsWire | src/sync/http_uploader.cpp:56-72 | a sample sent directly and sent again from the store are the same on the wire |
| HttpUploaders.HttpUploader.BuildRequest | src/sync/http_uploader.cpp:56-72 | the request carries the node, one wire sample per sample in order, and a bearer token iff there is a key |
| HttpUploaders.HttpUploader.PersistAll | src/sync/http_uploader.cpp:92-106 | inserts each sample of a batch in order, skipping failures |
| HttpUploaders.HttpUploader.Upload | src/sync/http_uploader.cpp:108-139 | posts a batch once; only a transient failure persists it |
| HttpUploaders.HttpUploader.RetryPending | src/sync/http_uploader.cpp:141-175 | posts the oldest rows and acknowledges them only if accepted |
| Workers.Worker.HandleTelemetry | workers/bossa-worker/src/index.ts:53-106 | status and both tables for every request and database behaviour |
| WorkerHistory.StatusCodes | workers/bossa-worker/src/index.ts:53-105 | 401 iff the header does not begin with Bearer, 400 iff it does and node or samples are missing, 500 iff an admitted request meets a failing upsert or a failing batch with a complete sample, 202 otherwise |
| WorkerHistory.NodesAreFirstAndLast | workers/bossa-worker/src/index.ts:71-77 | in every run of the system a node is in the table iff an admitted request for it was handled without a node failure, created when the first of these was received and last seen when the latest was |
| WorkerHistory.LogIsWhatWasHandled | workers/bossa-worker/src/index.ts:79-103 | in every run the log is, in order, the rows of the complete samples of everything admitted and committed, field by field |
| Workers.InsertAllKeepsFirst | workers/bossa-worker/src/index.ts:79-103 | inserting a batch keeps the table equal to the first occurrence per key of everything handled |
| Workers.StatementsCover | workers/bossa-worker/src/index.ts:79-99 | the statements of a batch are exactly those of its well-formed samples |
| Workers.StatementsInOrder | workers/bossa-worker/src/index.ts:79-99 | statements come in the order of the samples |
| TelemetryRuntimes.TelemetryRuntime.Configure | src/runtime/telemetry_runtime.cpp:55-143 | the whole new state, including what each kind of failure leaves behind |
| TelemetryRuntimes.TelemetryRuntime.PollChannel | src/runtime/telemetry_runtime.cpp:145-163 | buffers every sample whatever its destinations and shows each to the policy |
| TelemetryRuntimes.TelemetryRuntime.MaybeFlush | src/runtime/telemetry_runtime.cpp:183-220 | drains the ring into one batch, posts it and books the result |
| TelemetryRuntimes.TelemetryRuntime.MaybeRetry | src/runtime/telemetry_runtime.cpp:222-243 | retries the oldest rows once the backoff allows and books the result |
| TelemetryRuntimes.TelemetryRuntime.RunTick | src/runtime/telemetry_runtime.cpp:245-253 | the class performs exactly one step of the state machine |
| TelemetryRuntimes.TelemetryRuntime.QueryNextWake | src/runtime/telemetry_runtime.cpp:255-263 | the earlier of the next deadline and a pending retry |
| EdgeRuns.RunKeepsSound | src/runtime/telemetry_runtime.cpp:55-253 | every reachable state has a ring within capacity, a keyed table, an open store where it says so, and no backoff without an uploader |
| ConfiguredRuns.ConfigureEstablishes | src/runtime/telemetry_runtime.cpp:55-143 | after success every scheduled channel is due at once, the ring has the configured batch size or 500 as capacity, the uploader has the configured node and key iff there is a URL, the store is open iff there is a path, and counters and backoff are clear |
| ConfiguredRuns.SetUpRegisters | src/runtime/telemetry_runtime.cpp:94-131 | a successful loop binds, schedules and registers every enabled channel with its own priority, rate, mode, threshold, destination and remote interval in nanoseconds |
| ConfiguredRuns.RuntimePollsOncePerSlot | src/runtime/telemetry_runtime.cpp:245-253 | after a successful configuration with distinct ids, a tick polls a channel iff it is the first tick in its slot, and the slots are those of the period of the channel's configured rate |
| ConfiguredPosts.PollPhaseReadsInOrder | src/runtime/telemetry_runtime.cpp:145-163 | a poll phase reads the due channels that have a driver in schedule order, each reading in its own order |
| ConfiguredPosts.EventsAreAsConfigured | src/runtime/telemetry_runtime.cpp:94-243 | after a success and any ticks, every sample polled has the priority of the first enabled channel with its id, and there is a POST only with a URL, for the configured node, with the batch as its samples and the configured key as its token; without a key the Worker answers 401 |
| ConfiguredRuns.FailedConfigureIsSilent | src/runtime/telemetry_runtime.cpp:79-110 | failure keeps the old schedule, and no later tick sends anything or touches the queue |
| ConfiguredRuns.ReloadFreezesIff | src/runtime/telemetry_runtime.cpp:79-110 | a reload leaves deadlines without drivers iff there were deadlines and the store does not open or the first enabled channel's driver is bad, and then no tick does anything and the wake-up never moves |
| BatchLogs.PollPhaseKeepsBest | src/runtime/telemetry_runtime.cpp:145-163 | the poll phase leaves exactly the best of what the ring held and what was polled, as many as fit |
| BatchLogs.BatchLog | src/runtime/telemetry_runtime.cpp:183-206 | in every run with a positive batch size, the ring holds the best of what was polled since the last flush POST or configuration, each flush POST carried the best of what was polled since the one before, and every POST is of admissible size |
| TickGuarantees.RetrySendsOldest | src/sync/http_uploader.cpp:141-166 | a retry batch is the oldest pending rows in order, of admissible size |
| TickGuarantees.BufferAfterTick | src/runtime/telemetry_runtime.cpp:183-253 | a tick leaves less than a full batch, and leaves samples only if nothing asks for a flush |
| TickGuarantees.RealtimeLeavesNothing | src/runtime/telemetry_runtime.cpp:145-253 | a tick that polls a realtime remote sample leaves the ring empty |
| TickGuarantees.WakesLater | src/runtime/telemetry_runtime.cpp:222-263 | in every reachable state the wake-up after a tick is later than its dispatch iff, with drivers bound, no due retry was missed through a failed count query and, with none bound, no deadline of the old schedule has passed |
| TickGuarantees.WakesInTime | src/runtime/telemetry_runtime.cpp:255-263 | the wake-up is the first instant at which a channel is due or a held-back retry may go, whatever the count query answers, and there is none iff there is no such instant |
| TickGuarantees.HealthyTick | src/runtime/telemetry_runtime.cpp:183-243 | with accepted POSTs a tick removes exactly one batch of the oldest rows and ends the backoff |
| TickGuarantees.BacklogDrains | src/runtime/telemetry_runtime.cpp:183-243 | after n such ticks exactly min(P, n batches) of the oldest rows are gone |
| TickGuarantees.BacklogGoneIff | src/runtime/telemetry_runtime.cpp:183-243 | the backlog is empty after n such ticks iff n batches can hold it |
| BackoffRuns.BackoffRespected | src/runtime/telemetry_runtime.cpp:165-243 | in every run the attempt counter is at most the failures since the last accepted POST or configuration, equal to them iff no retry came up empty in between; until then every retry POST waits for the delay of the whole streak, and the next one is held back for it iff the counter is right or at the cap again |
| BackoffRuns.TickKeepsStreakIff | src/runtime/telemetry_runtime.cpp:222-243 | a tick keeps the counter equal to the streak iff its retry does not come due in the streak and read no row |
| BackoffRuns.CounterCountsPosts | src/runtime/telemetry_runtime.cpp:207-240 | the upload counter is the accepted POSTs since the last configuration iff every retry due since then read at least one row |
| BackoffRuns.DelaysGrow | src/runtime/telemetry_runtime.cpp:175-181 | the delays are 5, 10, 30 and 60 s, strictly growing, then 300 s exactly from the fifth failure on |
| Conservation.SamplesAreConserved | src/runtime/telemetry_runtime.cpp:55-253 | in every run, rows of the files opened plus samples read = ring + pending + left behind in other files + delivered + refused + overrun + lost + discarded, counted for any property the store preserves |
| Conservation.FilesAreConserved | src/storage/local_store.cpp:60-95 | if only the edge writes the database files, the rows of all files at the start plus samples read = the rows of all files now + ring + gone, however often the path changes |
| Conservation.IdentityIsStoreBlind | src/storage/local_store.cpp:128-209 | being one particular sample up to what the store keeps is such a property, so the counts agree as multisets |
| Conservation.FlushLoss | src/sync/http_uploader.cpp:92-139 | a flush loses samples only by failing transiently, and then exactly those not inserted because the store is closed or an insert fails |
| Conservation.NothingIsLostIff | src/sync/http_uploader.cpp:92-139 | over every run what is lost is exactly what transiently failing flushes could not insert, so nothing is lost iff each of them found an open store and every insert succeeded |
| Overruns.PollPhaseOverruns | src/telemetry/ring_buffer.cpp:33-77 | a poll phase gives up exactly max(0, residents + samples read - capacity), counts each as a drop and keeps the rest |
| Overruns.NothingIsOverrunIff | src/runtime/telemetry_runtime.cpp:145-253 | over every run what is overrun is the sum of what each tick exceeds the capacity by, so nothing is overrun iff no tick exceeds it |
| Overruns.DropCounterCounts | src/telemetry/ring_buffer.cpp:54-72 | in every run the drop counter is the number of samples given up since the last configuration |
| Conservation.RefusedFlush | src/runtime/telemetry_runtime.cpp:195-220 | a flush answered 400 forgets its batch, leaves the store and the backoff alone and restarts the intervals |
| Conservation.RefusedRetry | src/sync/http_uploader.cpp:160-166 | a retry answered 400 leaves ring, store and policy alone and counts one more failure |
| Conservation.RefusalDropsIffFlush | src/sync/http_uploader.cpp:108-175 | a POST answered 400 takes its batch off the edge iff it is a flush |
| RetryQueue.ResendKeepsFifo | src/sync/http_uploader.cpp:141-175 | a retry that is not accepted leaves the table as it was, and one that is accepted and whose deletions succeed keeps pending rows the insertion history without the deleted prefix |
| RetryQueue.QueueIsFifo | src/storage/local_store.cpp:128-231 | in every run whose deletions succeed, pending rows are the insertion history without a prefix, that prefix is in order what was deleted, and keys increase throughout |
| Systems.TableHoldsFirstOccurrences | workers/bossa-worker/src/index.ts:70-103 | with no assumption on the network, the table is always the first occurrence per key of everything handled, each row has its node, and no row or creation time ever changes |
| Deliveries.AcceptedMeansRecorded | workers/bossa-worker/src/index.ts:79-105 | over an honest network, a sample of an accepted POST has an entry of its own (key, value, unit, quality) in the Worker's log iff it is well-formed, and a row is deleted only after an accepted POST of it |
| Deliveries.AcceptedIsCarriedIff | workers/bossa-worker/src/index.ts:79-103 | over an honest network, the table carries a sample of an accepted POST as its own iff it is well-formed and the first entry of its channel and second agrees with it |
| OneReadings.OneReadingIsCarried | workers/bossa-worker/src/index.ts:79-103 | if nothing enters the edge twice for one channel and second with different contents and nobody else posts for the node, the table carries every accepted sample as its own iff it is well-formed |
| OneReadings.PostedHasEntered | src/runtime/telemetry_runtime.cpp:145-243 | in every run, whatever a POST carries was read from a driver or found in a file, with the same contents on the wire |
| EventualDelivery.BacklogIsDelivered | src/runtime/telemetry_runtime.cpp:222-243 | from any reachable state, after n healthy ticks over an honest network each of the oldest rows that n batches hold has left the queue and is in the Worker's log iff it is well-formed |
| EventualDelivery.BacklogIsCarried | src/runtime/telemetry_runtime.cpp:222-243 | if besides nothing enters the edge twice for one channel and second with different contents and nobody else posts for the node, the table carries each such row as its own iff it is well-formed |
| Deliveries.NothingRefused | workers/bossa-worker/src/index.ts:67-69 | over an honest network nothing is refused if every configuration names its node |
| Deliveries.NothingVanishes | src/runtime/telemetry_runtime.cpp:145-253 | over an honest network, a sample that came from files and drivers more often than it is held, left in another file, refused, overrun, lost or discarded was in an accepted POST, and is in the Worker's log iff it is well-formed |
| LossWitnesses.UnitlessIsSkipped | workers/bossa-worker/src/index.ts:80-105 | a run in which a sample without a unit is accepted with 202 and forgotten by the edge while log and table stay empty |
| LossWitnesses.SameSecondIsLost | workers/bossa-worker/src/index.ts:85-103 | a run in which two readings of one second are accepted and forgotten and the table carries only the first |
| Witnesses.EmptyRetryClearsBackoff | src/sync/http_uploader.cpp:146-149 | a run in which an empty retry clears the backoff and counts an upload while the one POST has failed and its sample is pending |
| Witnesses.EmptyRetryBreaksLadder | src/runtime/telemetry_runtime.cpp:165-243 | a run in which, after an empty retry, a retry POST goes out 5 s after the second failure of a streak |
| Witnesses.MissedRetryWakesInPast | src/runtime/telemetry_runtime.cpp:222-263 | a reachable state and a tick with a failed count query after which the wake-up lies in the past |
| Witnesses.FailedReloadWakesInPast | src/runtime/telemetry_runtime.cpp:79-84 | a run with a reload whose store does not open, after which ticks with a working count query change nothing and the wake-up lies in the past |
| Bme280.LinearTermError | drivers/bme280/bme280_driver.cpp:204-208 | the linear term differs from the exact one by less than 15 units for every calibration and reading |
| Bme280.QuadraticTermError | drivers/bme280/bme280_driver.cpp:209-216 | the quadratic term differs by less than 46 units whenever its square fits in 32 bits |
| Bme280.CompensationIsAccurate | drivers/bme280/bme280_driver.cpp:202-223 | without overflow the result is within 1.7 hundredths of a degree of the exact polynomial |
| Bme280.CompensationStepByStep | drivers/bme280/bme280_driver.cpp:202-223 | integers that bracket each shift in turn, rounding down, and the last to the nearest with halves up, end in the compensated temperature |
| Bme280.EnvelopeFits | drivers/bme280/bme280_driver.cpp:202-223 | an explicit envelope of calibrations and readings in which no intermediate overflows |

## Left out

- RingBuffers.RingBuffer.constructor: the exception on a capacity of zero is replaced by a positive type, because configure never passes zero; the mutex is not modelled, the runtime is single-threaded.
- Schedulers.PeriodIsPositive: the period is computed over reals, so rounding of the double reciprocal and overflow of the duration are not modelled; an infinite or NaN rate has no counterpart.
- Schedulers.Scheduler.DispatchDue: returns the due ids and the runtime polls them afterwards, instead of calling back from inside the loop; the dispatch reads its clock before the first callback, so the order of effects is the same.
- Bme280.CompensationIsAccurate: the final conversion to float and division by 100 are not modelled; the result is an integer of hundredths. Signed overflow is excluded by `NoOverflow` rather than given a value.
- Bme280.EnvelopeFits: sufficient for every linear coefficient, not the exact set of inputs without overflow.
- PolicyHistory.CachedFlagsConsistent: a sufficient condition on whole histories; the exact one is `CachedFlagsIff`.
- RetryQueue.QueueIsFifo: runs in which a deletion fails are excluded, since such a row stays pending behind younger deletions, and so are configurations that find another table than the run left; conservation and delivery do cover both.
- Workers.Worker.HandleTelemetry: a body that is JSON but not an object, routing by method and path, and non-string ids are not modelled.
- Deliveries.AcceptedMeansRecorded: assumes that the answers 200, 202 and 400 come from the Worker; nothing else about the network is assumed.
- OneReadings.OneReadingIsCarried: a sufficient condition on runs; the exact one, on the log, is `Deliveries.AcceptedIsCarriedIff`.
- BatchLogs.BatchLog: for a batch size that is not positive only the size of each POST is stated, because a flush then sends one sample of a ring of 500.
- Humidity compensation, the other drivers, the driver registry, I2C and GPIO: not part of this model; a driver is an arbitrary source of samples.
- YAML parsing, command line, daemonisation, signal handling and the dashboard and read-only routes: they would only add easy members.
- JSON serialisation and the ISO time format: a payload is a value and a timestamp is its whole second; a truncated id that is no longer valid UTF-8, NaN values and URL joining are not represented.
- Error texts (`last_error`), log messages, the `sent_at` and `created_at_ms` fields: nothing in the modelled code reads them.
- 64-bit limits of clocks, counters and row ids: integers are unbounded.
