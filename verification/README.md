# tracemalloc: a verified model of the tracer

tracemalloc records allocations through lock-free per-thread buffers that a worker drains into per-stack
statistics. The recording path is lossy, batched and reordered on purpose. This project models that machinery in
Dafny and proves that it still tells the truth, for every run and every interleaving: what a snapshot says, what
a shutdown guarantees, what a profile means.

Two kinds of model stand side by side. What one caller does at a time is a class or a method with the loops of
the source, proved against a function of its inputs and the old state. What several threads do at once is a state
machine whose steps are single atomic operations (an insertion in the index, a push, a pop, a lock taken, a swap
of a flag), with the events in hand, queued, in flight, ingested, rejected and lost kept as explicit state; a run
is any interleaving, and a property of runs is proved step by step. Atomics are sequentially consistent.

| file | what it holds |
|---|---|
| `Words.dfy`, `Sums.dfy`, `Events.dfy` | machine words and saturating arithmetic; weighted sums over sequences and maps; events |
| `RingBuffer.dfy` | the bounded thread buffer and its flush threshold |
| `Aggregator.dfy`, `Snapshots.dfy`, `Deltas.dfy` | per-stack statistics, snapshots, and differences of snapshots |
| `Sampler.dfy`, `ConcurrentSampler.dfy` | the byte sampler, alone and under interleaving |
| `Tracer.dfy`, `TracerInner.dfy` | the allocation index and the events drawn from it; enqueueing, draining, snapshot and reset by one caller |
| `Pipeline*.dfy` | the whole pipeline as a step system: structure, conservation, refinement of an eager tracer, what drains guarantee, ledger of the index, what calls leave in it and report missing |
| `Shutdown*.dfy`, `FlushRequests.dfy` | the worker's flags, mutex, condition variable and join, composed with the pipeline: wake-ups, what a shutdown guarantees, progress, when full queues are announced, and runs that show it |
| `StackTable.dfy`, `StackCapture.dfy` | interning of stacks, and the bounded per-thread cache before it |
| `Pprof.dfy` | the profile encoder and a decoder for its output (`profile.proto` of google/pprof) |
| `Shim.dfy` | the Python allocator shim and its map of block sizes |

## Findings

Where the obvious claim is false of the code, a lemma gives a concrete case, and another the exact condition under
which the claim holds.

- `current_bytes` saturates on the way, so its final value can depend on the order of events
  (`Aggregation.BytesDependOnOrder`). Every order gives the exact value if and only if the bytes allocated fit an
  `i64` and those freed are at most 2^63 (`Aggregation.BytesExactInEveryOrderIff`).
- The subtraction of `current_bytes` in a delta is unchecked and can wrap (`Deltas.DeltaCanWrap`). Between two
  exact snapshots it is right if and only if what the interval allocated minus what it freed fits an `i64`
  (`Deltas.DeltaBytesExactIff`). The model takes a release build; a debug build stops instead of wrapping.
- Interleaved calls of the byte sampler can take fewer samples than the same calls in turn
  (`ConcurrentSampling.InterleavingLosesASample`), never more (`InterleavingNeverGains`). With k samples in turn, the
  sizes lose none in any run if and only if at least k of their running totals have reached k intervals
  (`InterleavingLosesNothingIff`); a single run has lost none if and only if the order in which its calls settled
  still holds a climb of that length (`SequentialCountMetIff`).
- `notify_flush` does not take the worker's mutex, so its notification can fall between the worker's look at the
  flag and its wait; the worker then blocks although a buffer is full (`ShutdownRuns.FlushWakeUpCanBeMissed`).
  While it waits, with no notification on its way, a request is pending if and only if that has happened
  (`Shutdown.BlockedRequestIff`). The request itself is never discarded, and a shutdown's wake-up is never lost.
- Recording an allocation at an address that is in the index silently replaces the record
  (`PipelineIndex.AllocationReplacesRecord`); the ledger of live memory survives if and only if the address is
  not in the index (`PipelineIndex.InsertKeepsLedgerIff`).
- A deallocation reports the caller's size (`PipelineIndex.DeallocationOverridesSize`); the ledger survives it
  if and only if that is 0 or the recorded one (`PipelineIndex.RemoveKeepsLedgerIff`).
- A rejected `Dropped` event counts as one drop, whatever its count (`PipelineIndex.RejectedDropCountsOnce`).
  Every rejected event is accounted for at its own worth if and only if no `Dropped` event with a count above one
  was rejected (`PipelineRefinement.RejectionsFullyReportedIff`).
- Freeing or resizing a tracked block while the tracer is disabled breaks the shim's size map
  (`Shim.DisabledFreeMisreports`). Exactly which calls do is `Shim.StepAgreesIff`: these, and the same to a
  remembered block inside the shim's own guard, unless the block is resized in place to the size it has.
- A block allocated with size 0 and then grown is never tracked (`Shim.GrownFromNothingIsUntracked`); exactly which
  calls leave the heap fully tracked is `Shim.StepCompleteIff`.
- `insert_with_id` can change what an id stands for (`Stacks.InsertCanRename`), if and only if the id is in use for
  other frames (`Stacks.InsertKeepsFramesIff`).
- `insert_with_id` with the largest `u64` leaves no id for new frames: the next two new stacks share that id
  (`Stacks.LargestIdIsShared`). An insertion keeps the table sound if and only if its id is below that and no other
  frames are known under it (`Stacks.InsertSoundIff`).
- `insert_with_id` can make a thread's cache disagree with the table, at once (`StackCapture.StaleCache`) or when a
  capture that has already interned comes to remember its id (`StackCapture.LateStaleCache`). Caches and captures in
  flight keep agreeing with the table if and only if, at each insertion, none of them has the frames under another id
  (`StackCapture.InsertCoherentIff`, `StackCapture.RunCoherentIff`).

## Model

| member | source | states |
|---|---|---|
| `RingBuffer.ThreadBufferInner.constructor` | src/ring_buffer.rs:36-50 | a buffer is created empty, with as many slots as events of the given size fit into the byte budget and no fewer, or 1024 if none fits, and the threshold that belongs to them |
| `RingBuffer.ThreadBufferInner.Record` | src/ring_buffer.rs:90-104 | a push appends to the queue or, if it is full, counts one drop and keeps the queue; a flush is requested at the threshold and on every rejection |
| `RingBuffer.ThreadBufferInner.DrainInto` | src/ring_buffer.rs:68-74 | everything queued is handed over in order after what the output held, and the drop count is taken and cleared |
| `RingBuffer.SlotsFillBudget` | src/ring_buffer.rs:37-43 | the slots fit the byte budget, and one more would not; a budget below one event gives 1024 |
| `Words.WrapsAround` | src/ring_buffer.rs:100 | the drop counter adds exactly, and loses exactly 2^64 when it passes the largest u64 |
| `RingBuffer.ThresholdLeavesAQuarter` | src/ring_buffer.rs:37-49 | for every byte budget and event size the threshold leaves exactly a quarter of the slots, rounded down |
| `RingBuffer.BurstLaw` | src/ring_buffer.rs:90-104 | any pushes without a drain keep exactly the oldest events up to capacity, count each of the rest as one drop, and request a flush exactly from the threshold on |
| `RingBuffer.FirstFlushRequest` | src/ring_buffer.rs:36-50 | from an empty buffer the first request comes when a quarter of the slots is left, so no push is rejected before a flush was requested |
| `Aggregation.Aggregator.Ingest` | src/aggregator.rs:36-69 | the event loop's effect on counters and drop count, for any batch |
| `Aggregation.Aggregator.Snapshot` | src/aggregator.rs:88-106 | a snapshot has exactly one record for each stack with its current statistics, largest live bytes first, and the drop count |
| `Aggregation.Aggregator.Reset` | src/aggregator.rs:81-84 | a reset leaves nothing of what was ingested |
| `Aggregation.IngestConcat` | src/aggregator.rs:36-69 | how events are split into batches does not matter |
| `Aggregation.CountersAreCappedSums` | src/aggregator.rs:12-69 | each u64 counter and the drop count equal the exact sum over the events, cut off at 2^64-1; a stack appears exactly if a convertible event names it |
| `Aggregation.CountersIgnoreOrder` | src/aggregator.rs:36-69 | every permutation of the events gives the same counters, stacks and drop count |
| `Aggregation.BytesExact` | src/aggregator.rs:13-23 | with both totals in range live bytes are exactly allocated minus freed, also when frees come first |
| `Aggregation.BytesExactInEveryOrderIff` | src/aggregator.rs:13-23 | live bytes are exact in every order of the events if and only if the allocated bytes fit an i64 and the freed bytes are at most 2^63 |
| `Aggregation.BytesDependOnOrder` | src/aggregator.rs:13-23 | two orders of three events with different live bytes, one of them wrong by the byte that saturation swallowed |
| `Aggregation.SumsDetermineAggregate` | src/aggregator.rs:36-69 | two event sequences with equal exact sums give equal aggregates, given totals in range |
| `Aggregation.AggregateIgnoresOrder` | src/aggregator.rs:36-69 | with totals in range the whole aggregate is independent of order and batching |
| `Snapshots.FromSnapshots` | src/snapshot.rs:194-233 | the two nested searches yield one difference for each newer record, against the first baseline record of its stack |
| `Snapshots.FindIsFirst` | src/snapshot.rs:198-201 | the baseline is the first record of the stack |
| `Snapshots.SortDescending` | src/aggregator.rs:103 | sorting keeps the records as a multiset and orders them by live bytes |
| `Deltas.DeltaBytesExactIff` | src/snapshot.rs:206 | between two exact snapshots, of any events, a stack's delta is exact if and only if what the interval allocated minus what it freed fits an i64 |
| `Deltas.DeltaCanWrap` | src/snapshot.rs:206 | two snapshots of one run whose delta reports minus two bytes where twice 2^63 - 1 were allocated |
| `Deltas.DeltaRecordIsInterval` | src/snapshot.rs:194-233 | each delta record equals aggregating only the events ingested between the snapshots, hence is zero for an idle stack |
| `Deltas.DeltaIsIntervalAggregate` | src/snapshot.rs:194-233 | looked up by stack, a delta is the aggregate of the interval, also for stacks new in it |
| `Deltas.DeltaAfterReset` | src/snapshot.rs:204-216 | across a reset each counter of a delta is by how much the new aggregate exceeds the old one, and 0 if it does not, while live bytes can go down |
| `Deltas.DeltasAddUp` | src/snapshot.rs:194-233 | deltas over adjacent intervals add up, field by field, to the delta over the whole |
| `Deltas.DeltaDropsAreInterval` | src/snapshot.rs:223-230 | the drop difference is the number of drops ingested in between, as long as the drop counter has not saturated and the difference fits an i64 |
| `Deltas.DeltaDropsSigned` | src/snapshot.rs:223-230 | the drop difference is exact in both directions as long as it fits an i64, and the nearest i64 otherwise |
| `Sampling.SamplingBytes.ShouldSample` | src/state.rs:106-134 | the compare-exchange loop, run alone, ends with the total advanced by the size and the threshold by one interval exactly if the total had reached it |
| `Sampling.SamplerIsGreedy` | src/state.rs:106-134 | for calls of any sizes, without overflow, the threshold is the interval times one more than the samples, and the verdicts follow the greedy rule on the running totals of the calls with a positive size |
| `Sampling.SamplerForAllSizes` | src/state.rs:106-134 | without any bound on the sizes: the bytes observed are the total modulo 2^64, the threshold is the interval times one more than the samples until it saturates, and a call is sampled exactly if what it observes, cut off at 2^64-1, has reached it |
| `Sampling.SampledIsLowerEnvelope` | src/state.rs:106-134 | after n positive sizes the samples number exactly the minimum over j of floor(T_j / I) + n - j |
| `Sampling.OneSamplePerInterval` | src/state.rs:106-134 | for calls of any sizes up to the interval, zero included, exactly floor(T_n / I) samples |
| `Sampling.TakenClimbs` | src/state.rs:113-133 | the greedy rule's count is achieved by a series of offers whose m-th member has reached m intervals, whatever order the totals come in |
| `Sampling.TakenIsLongestClimb` | src/state.rs:113-133 | and no longer such series exists |
| `ConcurrentSampling.CallIsItsSteps` | src/state.rs:106-134 | the atomic steps of one call, uninterrupted, do what the call does alone |
| `ConcurrentSampling.SamplesBounded` | src/state.rs:113-133 | under every interleaving the threshold is I times (samples + 1) and I times samples is at most the bytes observed |
| `ConcurrentSampling.VerdictsAreGreedy` | src/state.rs:116-133 | linearizability: the verdicts are those of calls run one at a time in the order of their deciding operation |
| `ConcurrentSampling.FailedExchangeShrinksGap` | src/state.rs:126-132 | each failed exchange means the call's total minus the threshold has shrunk by at least one interval |
| `ConcurrentSampling.FailuresBounded` | src/state.rs:116-133 | no call fails more often than its total has intervals, whatever the other threads do |
| `ConcurrentSampling.QuietCount` | src/state.rs:106-134 | at rest all calls have settled, and the samples number the longest climb in the order of settling |
| `ConcurrentSampling.QuietSamplesSomething` | src/state.rs:106-134 | once a whole interval has been observed and no call is in progress, something was sampled |
| `ConcurrentSampling.InterleavingNeverGains` | src/state.rs:106-134 | at rest, interleaved calls never sampled more than the same sizes in turn |
| `ConcurrentSampling.EveryOrderMeetsCountIff` | src/state.rs:106-134 | the totals of some sizes, settled in any order, give as many samples as the calls in turn if and only if as many of them as that have reached that many intervals |
| `ConcurrentSampling.EveryOrderHappens` | src/state.rs:113-133 | every order of the totals is the order in which the calls of some run settle |
| `ConcurrentSampling.InterleavingLosesNothingIff` | src/state.rs:106-134 | every run of calls of given sizes that comes to rest has sampled as often as the calls in turn if and only if the sizes meet that condition |
| `ConcurrentSampling.SequentialCountMetIff` | src/state.rs:106-134 | at rest, the calls of one run sampled as often as the same sizes in turn if and only if the order of settling holds a climb of that length |
| `ConcurrentSampling.SettlingInOrderMeetsCount` | src/state.rs:106-134 | calls that settle in the order of their additions sample as often as in turn |
| `ConcurrentSampling.InterleavingLosesASample` | src/state.rs:106-134 | a run in which two calls take one sample where in turn they take two |
| `Tracing.TracerIndex.PrepareHotEvent` | src/state.rs:303-351 | sampled allocations enter the index, deallocations leave it with the recorded stack and, for size 0, the recorded size; unknown addresses are skipped or reported missing |
| `Tracing.TracerIndex.PrepareReallocation` | src/state.rs:353-404 | a reallocation is a removal and, if the new size is positive and sampled, an insertion, with the events of both |
| `Tracing.ReallocationIsFreeThenAllocation` | src/state.rs:353-404 | a reallocation of a tracked block leaves the index and enqueues the events of its deallocation followed by the allocation of the new one, left out if it has no bytes or is not sampled; one of an unknown block is skipped or reported as two drops |
| `TracerState.TracerInner.RegisterThreadBuffer` | src/state.rs:406-415 | a new configured buffer is registered and held, the others stay |
| `TracerState.TracerInner.Release` | src/state.rs:3-11 | a thread's exit lets go of its buffer, which stays registered until the next drain and counts as dead from then on |
| `TracerState.TracerInner.NotifyFlush` | src/state.rs:297-301 | only the first request since the flag was cleared notifies |
| `TracerState.TracerInner.EnqueueEvent` | src/state.rs:536-542 | the event is recorded, and the flag goes up and is announced exactly on a flush request that finds it down |
| `TracerState.TracerInner.RetainOne` | src/state.rs:247-259 | a registered buffer that is held is emptied into the batch, followed by its drop report, and kept; any other contributes nothing, stays as it is and goes |
| `TracerState.TracerInner.Collect` | src/state.rs:244-260 | under the buffers lock every held buffer is emptied into one batch, in registry order with a drop report for each, and the others are left as they are |
| `TracerState.TracerInner.DrainBuffers` | src/state.rs:241-267 | all held buffers are emptied in order into one ingested batch with a drop report for each; references to buffers no longer held go, and those buffers stay untouched |
| `TracerState.TracerInner.Snapshot` | src/state.rs:745-749 | a snapshot shows the aggregate with everything drained into it |
| `TracerState.TracerInner.Reset` | src/state.rs:729-737 | alone, a reset leaves an empty aggregate, an empty index and nothing to drain |
| `TracerState.BurstThenDrain` | src/state.rs:241-267 | after a burst and a drain the statistics are those of the oldest events that fitted, and every other event counts as exactly one drop |
| `PipelineStructure.RunStructured` | src/state.rs:241-267 | in every run: the buffers lock is exclusive, two threads never share a buffer, a live buffer is registered, queues are bounded and first-in first-out, the aggregate is that of the ingested events |
| `PipelineLedgers.RunBalanced` | src/state.rs:536-542 | for every weighing of events, what was offered, accepted, popped and logged balances at every moment |
| `PipelineRefinement.EventsConserved` | src/ring_buffer.rs:68-104 | at every moment each event is in exactly one of a hand, the rejected, a queue, a drainer's batch, the ingested and those lost with a dead buffer |
| `PipelineRefinement.DropUnitsConserved` | src/ring_buffer.rs:68-104 | drop units ingested, in flight, queued, pending or lost equal the rejected pushes plus the units of accepted events |
| `PipelineRefinement.AcceptedByBuffers` | src/ring_buffer.rs:90-98 | at every moment the accepted events are, with multiplicity, those of the buffers |
| `PipelineRefinement.RejectionsFullyReportedIff` | src/ring_buffer.rs:99-102 | every rejected event is accounted for at its own worth if and only if no rejected event stands for more than one drop |
| `PipelineIndex.RejectedDropCountsOnce` | src/state.rs:686 | a run in which two missing operations, reported as one event that a full buffer turns away, count as one drop |
| `PipelineRefinement.PipelineRefinesEager` | src/state.rs:241-267 | at every moment, adding the outstanding events to the aggregate gives what an eager tracer reports; a snapshot is behind by exactly the queues, other drainers' batches, pending drops and what died with a buffer |
| `PipelineRefinement.SettledAggregateIsEager` | src/state.rs:241-267 | once everything is drained, for any drain schedule, the aggregate is the eager one |
| `PipelineDrain.DrainIsItsSteps` | src/state.rs:241-267 | a drain's atomic steps, uninterrupted, are always possible and do what the loop over buffers does: one batch of every live buffer's queue and drop report in registry order, those buffers empty, dead entries gone, nothing else changed |
| `PipelineDrain.SnapshotIsBehindByBatches` | src/state.rs:745-749 | a snapshot, whatever drains others have in progress, is behind the eager tracer by exactly the batches these hold, rejections not yet counted and what died with a buffer, so with none of them it is the eager one |
| `PipelineDrain.RunKeepsRegistry` | src/state.rs:406-415 | no buffer is ever registered twice |
| `PipelineCalls.IndexIsLastCall` | src/state.rs:303-404 | over all interleavings an address is in the index with the size and stack of the last insertion under it, or not at all if a removal came last |
| `PipelineCalls.ReallocationPends` | src/state.rs:361-390 | after a reallocation has removed its old block, the new one is still to be inserted exactly if the old one was tracked and the new one has any bytes and is sampled |
| `PipelineCalls.DropsReportMissing` | src/state.rs:331-338 | over all interleavings, without sampling the drops emitted are exactly one for each deallocation and two for each reallocation of an address not in the index, and with sampling there are none |
| `PipelineIndex.InsertKeepsLedgerIff` | src/state.rs:320-322 | recording an allocation keeps every stack's ledger if and only if its address is not in the index |
| `PipelineIndex.RemoveKeepsLedgerIff` | src/state.rs:340 | recording a deallocation keeps every stack's ledger if and only if the size is 0 or the recorded one |
| `PipelineIndex.AllocationReplacesRecord` | src/state.rs:320-322 | a run of two allocations at one address that reports 30 live bytes where the index has 20 |
| `PipelineIndex.DeallocationOverridesSize` | src/state.rs:340 | a run in which 6 bytes stay reported for a stack with nothing live |
| `PipelineIndex.LedgerHolds` | src/state.rs:303-404 | over all interleavings, per stack, the signed bytes and counts of all events anywhere equal the total size and number of the index's entries |
| `PipelineIndex.SnapshotReportsLiveMemory` | src/state.rs:745-749 | end to end: at rest without losses, live bytes and allocations minus frees are those of the index |
| `PipelineIndex.AddressesAlternate` | src/state.rs:310-404 | each address's events alternate between allocation and deallocation with the same stack, through reallocations and any sampling |
| `PipelineIndex.InsertAlternatesIff` | src/state.rs:320-322 | an insertion keeps the alternation if and only if the address is not in the index |
| `PipelineIndex.ReallocationIsTwoSteps` | src/state.rs:353-404 | the two atomic steps of a reallocation, uninterrupted, are the one call |
| `Shutdown.LoopAlone` | src/state.rs:447-469 | uninterrupted, after its drain the worker goes to the final drain if stopped, begins again with the flag cleared if a flush is pending, and waits otherwise |
| `Shutdown.StopSeenUnderMutex` | src/state.rs:454-457 | a stop that comes while the worker takes the mutex is seen under it |
| `Shutdown.NotifyFlushAlone` | src/state.rs:297-301 | uninterrupted, a flush request leaves the flag up, and wakes a waiting worker exactly if it was down |
| `Shutdown.RequestShutdownAlone` | src/state.rs:417-436 | uninterrupted, the first caller raises the stop flag, wakes the worker and goes on to join it with the mutex free; any other returns at once |
| `Shutdown.RunProtocol` | src/state.rs:417-473 | the invariant of flags, mutex, program counters and flush accounting over every run |
| `Shutdown.NoLostWakeUp` | src/state.rs:417-436 | after the first caller's notify_all the worker is not blocked in its wait, nor on its way there |
| `Shutdown.OneStopper` | src/state.rs:418 | at most one caller ever gets past the swap of the stop flag |
| `Shutdown.FlushRequestsKept` | src/state.rs:439-473 | whenever the worker waits or has finished, the beginning of a drain followed every request it cleared, and an unserved one is still flagged |
| `ShutdownDrain.FlushesAreServed` | src/state.rs:439-473 | whenever the worker waits or has finished, a complete drain begun since it last cleared the flag has taken everything accepted before: popped in order from live buffers, and ingested, in another drainer's batch, or lost with a dead buffer |
| `PipelineCoverage.EveryDrainIsComplete` | src/state.rs:241-267 | whoever drains and whatever interleaves with it: when the drain is over, everything any buffer had accepted when it began is ingested, in another drainer's batch or lost with a dead buffer, and of live buffers popped in order |
| `ShutdownDrain.DrainsAreComplete` | src/state.rs:439-473 | whenever the worker is not draining, everything any buffer had accepted when its last drain began is in those places |
| `Shutdown.BlockedRequestIff` | src/state.rs:297-301 | a waiting worker with no notification on its way has a request pending if and only if the notification fell between its look at the flag and its wait |
| `ShutdownProgress.StopMakesProgress` | src/state.rs:439-473 | after the stop flag every step of the worker's own brings it nearer to the end, and no step of anyone sets it back |
| `ShutdownProgress.DrainNeverStuck` | src/state.rs:241-267 | in every run an agent in a drain has a step of its drain open |
| `PipelineDrain.DrainEndsUnlessFed` | src/state.rs:241-267 | the steps of one drain number at most what the registered buffers and their queues called for at its beginning, plus the pushes made meanwhile |
| `ShutdownProgress.WorkerNeverStuck` | src/state.rs:439-473 | at every moment of every run the worker has finished, or has a step open, in or outside a drain, or waits for a lock whose holder has one |
| `FlushRequests.EnqueueIsItsSteps` | src/state.rs:536-542 | the atomic steps of enqueueing an event, uninterrupted, do to the buffer what one record does and ask for a flush exactly if it says so |
| `FlushRequests.LongQueuesAreAnnounced` | src/state.rs:536-542 | whenever a live queue is at its threshold or above, the flag is up, or its thread is about to look or to raise it, or the worker is about to drain and has not passed it |
| `FlushRequests.SleepsOnlyIfMissed` | src/state.rs:459-466 | the worker waits beside such a queue, with nobody about to ask or notify, only if a notification fell between its look at the flag and its wait |
| `ShutdownRuns.FlushWakeUpCanBeMissed` | src/state.rs:297-301 | a run in which a thread fills its buffer and notifies, and the worker goes to sleep with the buffer full and the request pending |
| `ShutdownDrain.RunProjects` | src/state.rs:439-473 | the composed system runs the pipeline, so the pipeline's theorems hold in it |
| `ShutdownDrain.JoinMeansDrained` | src/state.rs:417-473 | when join returns, every live buffer has had everything popped, in order, that it had accepted when the stop flag went up |
| `ShutdownDrain.JoinMeansIngested` | src/state.rs:417-473 | and everything any buffer had accepted when the flag went up is, with multiplicity, ingested, in another drainer's batch or lost with a dead buffer; nothing of a live buffer is lost |
| `ShutdownRuns.ShutdownCompletes` | src/state.rs:417-473 | a run in which a thread pushes an event, a caller shuts down, and join returns with the event ingested |
| `Stacks.StackTable.InsertWithId` | src/stack.rs:131-150 | both maps take the entry and the next id moves past it |
| `Stacks.StackTable.Intern` | src/stack.rs:153-178 | known frames keep their id, new ones get the next |
| `Stacks.StackTable.Resolve` | src/stack.rs:194-197 | the metadata of the id, if there is any |
| `Stacks.RunKeepsIds` | src/stack.rs:131-178 | over every regular run ids stay below the next id and whatever an id resolved to it resolves to for ever |
| `Stacks.ReturnedIdsKeepTheirFrames` | src/stack.rs:153-197 | an id handed out resolves, at the end of any regular run, to exactly the frames it was handed out for |
| `Stacks.ResolvesIffHandedOut` | src/stack.rs:194-197 | after any regular run an id resolves to something if and only if some operation handed it out |
| `Stacks.RunNumbersIds` | src/stack.rs:146-178 | over every regular run the next id is the first above those in use, or 1 |
| `Stacks.InternGivesFirstAbove` | src/stack.rs:153-178 | new frames get that id and nothing else changes; known frames keep theirs and nothing changes at all |
| `Stacks.DistinctFramesDistinctIds` | src/stack.rs:153-178 | different frames never share an id |
| `Stacks.InternSoundIff` | src/stack.rs:165-175 | interning new frames keeps the table sound if and only if the id space is not exhausted |
| `Stacks.InsertCanRename` | src/stack.rs:144-145 | an interned id that resolves to other frames after an explicit insertion |
| `Stacks.InsertKeepsFramesIff` | src/stack.rs:144-145 | an explicit insertion leaves all earlier ids with their frames if and only if the id is unused or already has these |
| `Stacks.InsertSoundIff` | src/stack.rs:144-149 | an explicit insertion keeps the table sound if and only if the id is not the largest u64 and no other frames are known under it |
| `Stacks.LargestIdIsShared` | src/stack.rs:146-175 | after an insertion under the largest u64 two new stacks get that same id |
| `StackCapture.CaptureFrames` | src/stack_capture.rs:54-73 | the frame loops yield the first max_depth of the remaining Python and then native frames, or the one placeholder |
| `StackCapture.VisibleFrames` | src/stack_capture.rs:54-73 | frame by frame, what is visible is the Python frames after those to skip, then the native ones after those to skip if native capture is on, as many as there are up to max_depth, or one unknown frame if that is none |
| `StackCapture.CaptureNativeFrames` | src/stack_capture.rs:90-107 | the callback skips, then fills up to the depth |
| `StackCapture.StackIdCaches.EntryOf` | src/stack_capture.rs:124-151 | the thread's first entry of the collector is found or added, and no collector's cache changes |
| `StackCapture.StackIdCaches.Lookup` | src/stack_capture.rs:31-33 | a lookup sees the collector's own cache and changes none |
| `StackCapture.StackIdCaches.Insert` | src/stack_capture.rs:23-29 | a full cache is emptied before the entry goes in, and other collectors' caches stay |
| `StackCapture.CacheHoldsRecent` | src/stack_capture.rs:23-29 | a cache holds exactly what was put in since it was last full, each stack under its last id |
| `StackCapture.NothingForgotten` | src/stack_capture.rs:23-33 | up to 1024 results, a thread finds each stack again under the last id it had |
| `StackCapture.StackCollector.CaptureAndIntern` | src/stack_capture.rs:50-88 | a capture returns the cached id or interns and remembers, for the visible frames |
| `StackCapture.CaptureIsItsSteps` | src/stack_capture.rs:75-87 | the atomic steps of a capture, uninterrupted, are the one call |
| `StackCapture.CapturesAgreeWithInterning` | src/stack_capture.rs:50-88 | over every run of any threads and cache clearing, each id a capture returned is what interning directly returns, then and ever after |
| `StackCapture.CapturedIdsResolve` | src/stack_capture.rs:50-88 | every id a capture returned resolves to exactly the captured frames for ever, whatever insertions rename |
| `StackCapture.CachesStayBounded` | src/stack_capture.rs:23-29 | no cache ever exceeds 1024 entries |
| `StackCapture.StaleCache` | src/stack_capture.rs:75-79 | a run in which a thread goes on getting the old id of a stack that was inserted under a new one |
| `StackCapture.LateStaleCache` | src/stack_capture.rs:83-85 | a run in which the insertion comes between the interning and the remembering of a capture, when no cache holds the stack, with the same result |
| `StackCapture.InsertCoherentIff` | src/stack.rs:131-150 | an explicit insertion leaves caches and captures in flight in agreement with the table if and only if none of them has the frames under another id; a cache that has goes on giving the old id |
| `StackCapture.StepsKeepCoherent` | src/stack_capture.rs:75-87 | no step of a capture and no interning disturbs that agreement |
| `StackCapture.RunCoherentIff` | src/stack_capture.rs:50-88 | over a whole run caches and captures agree with the table at every moment if and only if each insertion met that condition |
| `Pprof.StringTable.Intern` | src/export.rs:195-206 | a string keeps its index, a new one is appended |
| `Pprof.InternLocationForFrame` | src/export.rs:241-301 | the three tables after one frame |
| `Pprof.InternedFrameStep` | src/export.rs:241-301 | interning a frame keeps the tables sound, only extends them, and returns an id that reads back as the frame |
| `Pprof.BuildPprofProfile` | src/export.rs:310-386 | the nested loops build a profile that, decoded, means the snapshot |
| `Pprof.ProfilePreservesMeaning` | src/export.rs:310-386 | record by record and in order, sample ids decode to the original frames (or the one unknown frame) with the right values, the sample types decode, tables are well formed, and no location is unused |
| `Pprof.SamplesReadBack` | src/export.rs:320-371 | a reader finds under (space, bytes) the live bytes and under (allocations, count) the allocations cut off at the largest i64, with the frames of the record or the one unknown frame |
| `Pprof.SharingIsExact` | src/export.rs:254-300 | in well-formed tables two ids read back as the same frame if and only if they are the same id |
| `Pprof.EqualFramesShareLocation` | src/export.rs:241-301 | two frames anywhere in a snapshot get the same location id if and only if they are equal |
| `Pprof.LocationsNumberDistinctFrames` | src/export.rs:310-386 | functions and locations both list exactly the distinct frames of the snapshot, each once |
| `Shim.ShimState.RecordAllocation` | py/src/lib.rs:663-687 | nothing for size 0, inside the shim or while disabled; otherwise index and size map both take the block |
| `Shim.ShimState.RecordDeallocation` | py/src/lib.rs:689-703 | the remembered size leaves the map and goes to the tracer, if enabled |
| `Shim.ShimState.RecordReallocation` | py/src/lib.rs:705-749 | the remembered old size goes to the tracer, if enabled, and the map moves on in any case |
| `Shim.ShimState.ClearAllocations` | py/src/lib.rs:657-661 | the size map is emptied |
| `Shim.ClearInstalls` | py/src/lib.rs:657-661 | after a clear everything is as if just installed, and as enabled as before |
| `Shim.ReallocationIsFreeThenAllocation` | py/src/lib.rs:705-749 | while enabled, a reallocation of a tracked block is a deallocation and an allocation; otherwise the block moves on in the size map alone, with two drops for an unknown one if nothing is sampled |
| `Shim.StepAgreesIff` | py/src/lib.rs:663-749 | a call keeps index, size map and heap in agreement if and only if it does not free or resize a remembered block unseen, or a tracked one while disabled |
| `Shim.ShimAgrees` | py/src/lib.rs:663-749 | over every calm run with any sampling: the index is a sub-map of the size map and of the heap with equal sizes, every deallocation carries its allocation's exact size and stack, and the events add up to the index |
| `Shim.ReportedBytesAreHeapBytes` | py/src/lib.rs:663-749 | what is reported for a stack is what its tracked blocks occupy in the heap |
| `Shim.AggregateShowsHeapBytes` | py/src/lib.rs:663-749 | ingested with totals in range, these events give an aggregate that shows the bytes and the number of the tracked blocks |
| `Shim.BlockIsTrackedAsMade` | py/src/lib.rs:663-749 | over every calm run a block made by a call that was seen and enabled is tracked with the size and the stack of that call if it was sampled and had any bytes, and not at all otherwise, until it is touched again |
| `Shim.StepRemembersIff` | py/src/lib.rs:663-749 | a call leaves every block with any bytes in the size map if and only if an allocation is seen while enabled, and a reallocation seen |
| `Shim.ShimCallsAreTame` | py/src/lib.rs:663-749 | the shim meets the conditions under which the pipeline's ledger holds: fresh addresses and recorded sizes |
| `Shim.StepCompleteIff` | py/src/lib.rs:705-749 | a call leaves the whole heap tracked if and only if it is seen, enabled and sampled and, when resizing, its block was tracked: an unknown block that is resized stays untracked |
| `Shim.CompleteIndexHoldsTheHeap` | py/src/lib.rs:663-749 | with the whole heap tracked the index holds all of its bytes |
| `Shim.GrownFromNothingIsUntracked` | py/src/lib.rs:705-749 | an undisturbed run in which a block of no bytes is grown, remembered by the shim and unknown to the tracer |
| `Shim.DisabledFreeMisreports` | py/src/lib.rs:689-703 | a run in which a free while disabled leads to a deallocation with a wrong size and stack |

## Left out

- InterleavingNeverGains: compares with the calls in the order of their additions, assuming the byte counter stays one interval below 2^64; near overflow `fetch_add` wraps, which `SamplerForAllSizes` describes for calls in turn.
- ProfilePreservesMeaning: assumes the tables have fewer than 2^63 entries, as memory does; beyond that `unwrap_or(i64::MAX)` would repeat indices.
- RunStructured: the drop counter of a buffer is assumed not to reach 2^64; the sequential `Record` models its wrap-around.
- JoinMeansIngested: an event lost with the buffer of a thread that exited counts as accounted for; the source drops it without a trace, and the model keeps it as lost.
- StopMakesProgress: counts the worker's steps outside a drain. Inside one, `DrainEndsUnlessFed` bounds the steps and `DrainNeverStuck` has one open; a producer that never stops can keep `drain_into` popping, in the source too.
- LongQueuesAreAnnounced: `Joined` and the other stages of `request_shutdown` belong to threads of their own, so a thread may push while it shuts the tracer down, which the source does not.
- Reset: models `Tracer::reset` with no other call in progress; it is not atomic, and a batch in flight can land after it.
- InternLocationForFrame: takes and returns the function and location tables as values, where the source updates them through mutable references; the string table is updated in place.
- DrainBuffers: whether a weak reference can be upgraded is a set of held buffers, not a reference count.
- Threads' identities: tracer and collector ids are raw addresses, taken never to be reused; `Tracer::thread_buffer`'s search for the thread's own buffer is a parameter.
- Weak memory orderings, lock poisoning, wall-clock time: atomics are sequentially consistent, and a wait may end at any moment.
- `Tracer::drop`'s count of handles, which can miss the last handle when two are dropped together.
- `enable` and `disable` in the pipeline: a disabled call is one that takes no step. The shim models both.
- The order of a snapshot's records with equal live bytes, which the source's hash map leaves open too.
- Probability sampling with floats: a verdict is an arbitrary boolean in the tracer, the pipeline and the shim.
- Event timestamps, which no computation uses; the size in bytes of an event, a parameter of the buffer.
- Native backtraces, symbol resolution and the walk over Python frames: the frames are inputs.
- The string interners of `src/stack.rs`, which only share storage; filenames and function names are strings.
- The Python bindings beyond the size map: allocator installation, argument parsing and conversion.
- The allocator's own race: another thread may reuse an old address before a `realloc` is recorded. Addresses are assumed fresh, or the exact condition is stated.
- JSON export, memory-mapped streams, protobuf byte encoding, configuration builders and error types.
- Profile fields that the encoder always leaves zero or empty (mappings, times, comments, labels).
