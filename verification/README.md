# A model of the wgo produce path

`wgo` is a client that writes Kafka records to a cluster of stateless agents. This project
models its produce path in Dafny and proves what the path keeps over every run: no record is
reported as written that no agent acknowledged, no call fails while one of its sides succeeded
or without a reason, nothing is lost or completed twice on the way through the batching
buffers, and the routing and health figures behind each decision agree with the facts they
summarise.

| part | files |
|---|---|
| the race between a primary attempt and the hedge cascade, and the result accumulator | `Hedger.dfy`, `HedgeWaves.dfy`, `HedgerBudget.dfy`, `HedgerOutcome.dfy`, `HedgerLimits.dfy`, `ProduceResults.dfy`, `LegFolds.dfy`, `Accumulator.dfy` |
| the two-level batching buffer | `AgentBuffer.dfy`, `AgentBufferRuns.dfy`, `ClusterBuffer.dfy`, `RoutedBatches.dfy`, `RecordFlow.dfy`, `FlushResults.dfy`, `ClusterRuns.dfy` |
| the race on top of the buffers, from a caller's records to an agent's answer | `HedgeFlushes.dfy`, `EndToEnd.dfy` |
| sliding-window statistics and their cache | `StatsRing.dfy`, `ClusterStats.dfy`, `StatsCache.dfy` |
| demotion of faulty agents | `Demoter.dfy` |
| from metadata to routing | `AgentPool.dfy`, `PartitionAssignment.dfy` |
| record batches: sizes and codec | `Wire.dfy`, `RecordBatches.dfy` |
| shared definitions | `Basics.dfy` |

Concurrent parts are machines: a state, the steps the participants can take (`Enabled`,
`Next` or `Step`), and runs as step sequences of any length and order. A broker's answer, a
clock reading, a context's cancellation and the iteration order of a map are arguments of the
steps, so a theorem over all runs covers all of them. Code that updates fields or loops is a
class or a method whose contract ties it to a function of the old state, and the properties
are proved of that function.

Two promises of the code have exact limits.

* The race relies on each hedge leg's group riding in a single flush, because a leg takes the
  first flush result it is given. `NoFalseAcknowledgement` names that assumption, and
  `LegIsHonestExactlyInOneFlush` shows that it is necessary and sufficient for a leg.
  `LegIsWholeExactlyWhenItFits` gives the exact size condition, checkable before the call, under
  which the buffer keeps a leg whole; with it the assumption is discharged
  (`FittingLegsAreNeverFalselyAcknowledged`). Without it, `OverflowFalselyAcknowledges` is a run
  of the buffer and the race that reports a lost partition as written.
* The ring of statistics agrees with the full log if and only if no slot of the window was given
  to an older epoch (`SnapshotEqualsLogExactly`), which a request six epochs late can do.

The merged response of the accumulator and the answers of maps are listed in an arbitrary
order, as in wgo. Fractions and thresholds are reals, the partition hash is an
arbitrary number, the checksum an arbitrary function, and Snappy a pair of functions of which
only decode(encode(x)) = x is used. The batch layout is that of Message Format: Record Batch
and Record, section 5.3 of the Apache Kafka documentation.

Where a comment and the code differ, the model follows the code: the comment on the quorum of the
cluster view (pkg/wgo/agent_stats_tracker.go:294-297) asks for more than half of the observed
agents, the code for at least half.

## Model

| member | source | states |
|---|---|---|
| `Hedger.NoFalseAcknowledgement` | pkg/wgo/hedger.go:188-302 | Over every run and every race order: when the returned result gives a partition no error, some attempt that carried that partition (the primary or a hedge leg) was answered with code 0 for it; a returned response lists every partition, and a result without a response carries an error. Assumes each leg's group rode in the flush that reported for it. |
| `Hedger.RunIsSound` | pkg/wgo/hedger.go:416-463 | The soundness invariant of the race (primary slot, cascade, caller) holds at the end of every run from a sound state. |
| `Hedger.StepIsSound` | pkg/wgo/hedger.go:495-644 | Every single step of the race, of whichever participant, keeps the soundness invariant. |
| `HedgerOutcome.CallOutcome` | pkg/wgo/hedger.go:188-302 | Over every run of a call that was served: it returns the primary's checked reply if that succeeded, the cascade's result if that did, and otherwise the selection between the two. So it fails only when the primary's reply failed and the cascade ended in failure; a success of either side is never thrown away. |
| `HedgerOutcome.FailureHasAReason` | pkg/wgo/hedger.go:416-463 | Over every run: a served call on distinct partitions fails only if, besides the primary's failure, its context ended, no agent was left for some partition, or a leg met an error that allows no other agent. |
| `HedgerOutcome.CascadeOutcome` | pkg/wgo/hedger.go:495-546 | Over every run, when the cascade has ended: the legs it heard are the first of those that reported; each partition reads the verdict of those legs off the response; the result succeeds exactly when they wrote every partition, unless the context ended; and a failure has one of the three reasons. |
| `HedgerOutcome.NoLegIsDropped` | pkg/wgo/hedger.go:629-644 | A wave is over only when every leg that was started has reported and been collected. |
| `HedgerOutcome.UnservedOutcome` | pkg/wgo/hedger.go:188-207 | A call with nothing to write succeeds, and a misrouted one fails, before anything is sent; every other call is served. |
| `HedgerOutcome.StepStory` | pkg/wgo/hedger.go:416-644 | Every step keeps the account of the run: what was replied, reported, collected and started, and that the accumulator is the fold of the collected legs. |
| `Hedger.PrimaryIsHonest` | pkg/wgo/hedger.go:396-407 | After the coverage check, a primary response without an error lists every requested partition, and each partition it reports as written was acknowledged by that primary attempt. |
| `Hedger.CollectIsBacked` | pkg/wgo/hedger.go:629-644 | Folding in a leg's scoped result only ever resolves partitions that the leg's own flush acknowledged. |
| `Hedger.SelectIsHonest` | pkg/wgo/produce_result.go:437-462 | Choosing between an honest primary result and an honest cascade result gives an honest result, in all branches, including both failed. |
| `ProduceResults.SelectSucceedsExactly` | pkg/wgo/produce_result.go:437-462 | The selected result succeeds exactly when the primary or the fallback did; it is the primary when that succeeded, the fallback when that has no error, and carries both errors when both have one; the fallback's response wins whenever the primary failed and the fallback has one. |
| `HedgerBudget.CascadeStaysWithinBudget` | pkg/wgo/hedger.go:495-644 | At every point of every run: attempts at most MaxHedgeAgents, every tried list starts with the primary and repeats no agent, all pending partitions have tried equally many agents, and so every exhausted pending partition gives one and the same stop reason, whatever the map order. |
| `HedgerBudget.EveryRunEnds` | pkg/wgo/hedger.go:495-644 | Every run has at most MaxHedgeAgents * (2 * partitions + 2) + 8 steps. |
| `HedgerBudget.StepLowersMeasure` | pkg/wgo/hedger.go:416-463 | Every enabled step lowers a non-negative measure of the race. |
| `HedgerBudget.FewLegs` | pkg/wgo/hedger.go:556-602 | A wave starts no more legs than there are input partitions. |
| `HedgerLimits.RaceNeverDeadlocks` | pkg/wgo/hedger.go:188-302 | In every reachable state in which the call has not returned, some step of the race itself is enabled, without waiting for the context to end. |
| `HedgerLimits.StuckRaceHasReturned` | pkg/wgo/hedger.go:188-302 | A race that can do nothing but wait for its context to end has returned. |
| `HedgerLimits.MergedExists` | pkg/wgo/produce_result.go:384-434 | For every accumulator state there is a response that lists each key once, with the code chosen for it. |
| `HedgerLimits.LegIsHonestExactlyInOneFlush` | pkg/wgo/produce_result.go:42-80 | For all broker answers, a leg resolves only partitions its reporting flush carried if and only if its whole group rode in that flush. |
| `HedgerLimits.SplitGroupFalselyAcknowledges` | pkg/wgo/hedger.go:611-627 | A run in which the flush that reports first for a leg carried only part of its group, and a partition that no attempt wrote is reported as written. |
| `HedgeFlushes.OverflowSplitsTheLeg` | pkg/wgo/agent_record_buffer.go:161-174 | The concrete buffer run behind it, for batches of any size: another caller waits with Q, the leg of P and Q arrives, the overflow falls between its two items, and the flush of the other Q and the leg's P calls the leg's completion with an answer naming both. |
| `HedgeFlushes.OverflowFalselyAcknowledges` | pkg/wgo/hedger.go:611-627 | That delivery as the only leg report of a race: Q is returned without an error although no attempt that carried Q was answered with code 0 for it. |
| `HedgeFlushes.LegRidesInOneFlush` | pkg/wgo/agent_record_buffer.go:111-174 | A leg that fits the open hedge buffer is whole wherever any of it is: over every earlier and later interleaving, a flush holding one of the leg's own items holds them all, so it carries each of the leg's partitions for the leg itself. |
| `HedgeFlushes.LegIsWholeExactlyWhenItFits` | pkg/wgo/agent_record_buffer.go:111-174 | For every reachable open hedge buffer and every leg: whatever happens afterwards, the flush that holds any of the leg carries its whole group for it, if and only if the leg fits the cap when it is submitted. |
| `HedgeFlushes.ThroughBufferIsOneFlush` | pkg/wgo/hedger.go:611-627 | A leg report that comes from such a flush meets the one-flush assumption of the race. |
| `HedgeFlushes.FittingLegsAreNeverFalselyAcknowledged` | pkg/wgo/hedger.go:188-302 | The race on top of the hedge buffer: in every run whose legs fit the buffer when they are submitted, a partition reported without an error was acknowledged by an attempt that carried it. |
| `EndToEnd.AcknowledgedRecordsWereWritten` | pkg/wgo/client.go:345-365 | From record to acknowledgement, over every run of the cluster buffer, the races behind its flushes and the journeys of their legs: when a caller is told that its partition had no error, every chunk of its records rode in a flush of which some attempt carried that partition and was answered with code 0 for it. |
| `HedgeWaves.NextAgent` | pkg/wgo/hedger.go:580-590 | The next agent is the first candidate that was not tried; there is none only when every candidate was tried. |
| `HedgeWaves.PickWave` | pkg/wgo/hedger.go:562-602 | Visiting the pending partitions in any order either extends every tried list by its next agent and groups exactly the pending partitions by that agent, or stops at the first exhausted partition with its reason. |
| `HedgeWaves.WaveSendsEachPendingOnce` | pkg/wgo/hedger.go:562-602 | A wave sends every pending partition once, in the group of its own next agent and no other, sends nothing else, and records that agent as tried. |
| `HedgeWaves.ExhaustedExactly` | pkg/wgo/hedger.go:571-598 | A partition is exhausted exactly when its budget is used up or every candidate was tried, and the budget is the reason exactly in the former case. |
| `ProduceResults.FirstCodeIsALine` | pkg/wgo/produce.go:239-258 | The code read for a partition is that of a line of the response; no code is read exactly when no line names the partition. |
| `ProduceResults.NoErrorMeansAllZero` | pkg/wgo/produce_result.go:83-102 | A response has no first error exactly when every line has code 0. |
| `ProduceResults.NothingMissing` | pkg/wgo/produce_result.go:464-480 | No partition is reported missing exactly when the response has a line for every requested one. |
| `ProduceResults.CoverageExactly` | pkg/wgo/hedger.go:396-407 | The coverage check leaves a failed result and the response as they are, and adds an error exactly when a requested partition has no line. |
| `ProduceResults.SucceededExactly` | pkg/wgo/produce_result.go:83-102 | A result succeeds exactly when it has a response, no error, and only zero codes. |
| `ProduceResults.RecordErrExactly` | pkg/wgo/client.go:675-693 | With a response a caller is told its own partition's code and nothing else, as a record timeout exactly when the code is retriable; without one, the call's error. |
| `ProduceResults.ScopeToPartitions` | pkg/wgo/produce_result.go:42-67 | The one-pass scan computes the scoped view: the result's error or else the first failing line the leg owns, and whether the leg owns every line. |
| `ProduceResults.ScopeExactly` | pkg/wgo/produce_result.go:42-67 | A leg has failed exactly when its flush did, came back empty, or has a non-zero code for a partition the leg sent; and then its error is that one. |
| `ProduceResults.OwnershipShortcut` | pkg/wgo/produce_result.go:74-80 | For lines of the response, the all-owned shortcut answers exactly whether the leg sent the partition. |
| `ProduceResults.OwnedAllZero` | pkg/wgo/produce_result.go:42-67 | The scoped view has no error from a response exactly when every owned line has code 0. |
| `ProduceResults.AccumulateKeepsInv` | pkg/wgo/produce_result.go:266-335 | For every scoped leg result: pending and resolved stay disjoint and together equal the input, failed stays within pending, every resolved code is 0, and the partitions that become resolved are exactly the owned lines of an error-free leg. |
| `LegFolds.FoldReflects` | pkg/wgo/produce_result.go:266-335 | For every list of legs folded from the start: a partition is resolved exactly when some leg wrote it; the cascade is aborted exactly when some leg's error is not retriable; the last error is that of the last leg that failed; and the code on record against a pending partition is the latest that a failing leg which sent it reported. |
| `LegFolds.MergedVerdicts` | pkg/wgo/produce_result.go:356-434 | Every partition of the call reads its own verdict off the merged response: zero when a leg wrote it, else the latest code reported against it, else the code of the last error, else a timeout; and the result has an error exactly when some partition was not written, the last leg error within a record timeout. |
| `LegFolds.AllWrittenSucceeds` | pkg/wgo/produce_result.go:356-380 | The merged result is a full success exactly when the legs wrote every partition. |
| `ProduceResults.MergedLookup` | pkg/wgo/produce_result.go:384-434 | In the merged response every input partition is found, with code 0 exactly when it was resolved, and no other partition is. |
| `Accumulators.Accumulator.constructor` | pkg/wgo/produce_result.go:234-250 | Everything starts pending. |
| `Accumulators.NewAccumulator` | pkg/wgo/produce_result.go:234-250 | An accumulator is made exactly when the input names no partition twice. |
| `Accumulators.Accumulator.Remaining` | pkg/wgo/produce_result.go:254-262 | Lists each pending partition once. |
| `Accumulators.Accumulator.Accumulate` | pkg/wgo/produce_result.go:266-335 | The in-place update of pending, resolved, failed, last error and aborted refines the value-level fold. |
| `Accumulators.Accumulator.Merge` | pkg/wgo/produce_result.go:384-434 | The loops over the three maps, with the topic index, build a response that lists every key exactly once, one block per topic. |
| `Accumulators.Accumulator.Result` | pkg/wgo/produce_result.go:356-380 | The result carries the merged response, and an error exactly when something is still pending. |
| `Accumulators.Place` | pkg/wgo/produce_result.go:384-434 | Adding a line through the topic index adds exactly that line and keeps the index right. |
| `AgentBufferRuns.ExactlyOnce` | pkg/wgo/agent_record_buffer.go:82-236 | Over every interleaving of submissions, timers, flush outcomes, reports and closes: a caller's completion has fired exactly once if none of its chunks is outstanding and not at all otherwise, with the fan-in of all its chunks' outcomes; flushed then pending chunks are the submitted ones in arrival order, each once; the counters equal the sums over pending items, which stay within the cap when each of them fits it alone; and a timer runs exactly while items are pending. |
| `AgentBufferRuns.NothingOutstandingAfterClose` | pkg/wgo/agent_record_buffer.go:178-190 | Once the buffer is closed and its flush goroutines are done, nothing is pending and every accepted item has completed exactly once. |
| `AgentBufferRuns.StepKeepsInv` | pkg/wgo/agent_record_buffer.go:82-236 | Every event keeps the buffer's invariant. |
| `AgentBufferRuns.FittingGroupSharesOneFlush` | pkg/wgo/agent_record_buffer.go:111-174 | A submitted group that fits stays together in one batch through every later interleaving. |
| `FlushResults.CompletedMeansEveryChunk` | pkg/wgo/routed_batch.go:58-94 | In every reachable state: when a caller was completed without an error for its partition, every one of its chunks rode in a flush whose answer has no error for that partition. |
| `FlushResults.StepKeepsSourced` | pkg/wgo/agent_record_buffer.go:202-236 | Every event keeps: each result a caller received is the answer of a flush that held one of its chunks (or the rejection), every reported entry's caller has received its flush's answer, and callers are told apart. |
| `FlushResults.AnswersAreProduced` | pkg/wgo/agent_record_buffer.go:202-236 | In every run the answer a flush has is the one that was produced for that flush. |
| `AgentBuffers.RidesTogetherExactlyWhenItFits` | pkg/wgo/agent_record_buffer.go:161-174 | A group is not cut by an overflow flush if and only if it, with what stays pending before it, fits the cap: the exact condition under which the one-flush assumption of the race holds. |
| `AgentBuffers.PendingStaysWithinCap` | pkg/wgo/agent_record_buffer.go:161-174 | When every item fits the cap by itself, so does the pending batch. |
| `AgentBuffers.AddOneKeeps` | pkg/wgo/agent_record_buffer.go:161-174 | Adding an item keeps the counters equal to the sums over pending items and a batch of two or more within the cap. |
| `AgentBuffers.AgentBuffer.constructor` | pkg/wgo/agent_record_buffer.go:67-78 | A new buffer is open and empty, without a timer. |
| `AgentBuffers.AgentBuffer.StartFlushLocked` | pkg/wgo/agent_record_buffer.go:202-236 | Hands everything pending to one new flush, in order, and clears the counters and the timer; does nothing without records. |
| `AgentBuffers.AgentBuffer.AddToNextProduceLocked` | pkg/wgo/agent_record_buffer.go:161-174 | Refines the value-level step: flush first on overflow, then append and count. |
| `AgentBuffers.AgentBuffer.MaybeStartTimerLocked` | pkg/wgo/agent_record_buffer.go:150-154 | A timer runs whenever records are pending. |
| `AgentBuffers.AgentBuffer.MultiAdd` | pkg/wgo/agent_record_buffer.go:111-146 | Refines submission: drops a call without records, hands all chunks back when closed, otherwise adds every chunk in order and arms the timer. |
| `AgentBuffers.AgentBuffer.Add` | pkg/wgo/agent_record_buffer.go:82-108 | The single-item fast path does what MultiAdd does on a one-item list. |
| `AgentBuffers.AgentBuffer.TimerFlush` | pkg/wgo/agent_record_buffer.go:193-197 | The timer flushes what is pending. |
| `AgentBuffers.AgentBuffer.BeginClose` | pkg/wgo/agent_record_buffer.go:178-190 | The locked part of closing: closes and flushes what is pending; a second close changes nothing. |
| `RecordFlow.EveryRecordReachesOneFlush` | pkg/wgo/agent_record_buffer.go:111-236 | Over every run, for each partition: the records in flushes followed by the pending ones are exactly the accepted records, in order, each once, splitting included. |
| `RecordFlow.GatedRecordsNeverOverflow` | pkg/wgo/agent_record_buffer.go:111-174 | When every accepted record fits the cap as a batch of its own, pending wire bytes equal the sum over pending items and never exceed the cap, and every flushed chunk fits it. |
| `RecordFlow.WireHoldsRecords` | pkg/wgo/routed_batch.go:106-124 | Merging a flush by partition puts on the wire exactly that flush's records of each partition, in order. |
| `RecordFlow.FittingItemsDoNotSplit` | pkg/wgo/agent_record_buffer.go:82-108 | An item within the cap is never split, in record or encoded form, which is what the single-item fast path relies on. |
| `ClusterBuffers.CountersAndCompletions` | pkg/wgo/cluster_record_buffer.go:119-170 | Over every interleaving of the atomic operations of any number of items: both counters equal the sums over items not yet reported, a caller completes at most once, and exactly once by the time its item is finished. |
| `ClusterBuffers.CancellationOnlyDetaches` | pkg/wgo/cluster_record_buffer.go:139-168 | A cancelled context completes a caller that was not complete, with the context's error, and changes neither the counters nor the flush side. |
| `ClusterBuffers.CallersAreTold` | pkg/wgo/cluster_record_buffer.go:119-170 | Over every interleaving, a caller is told the result its own completion was called with, or the error its own context ended with, the latter only if the context's callback ran; a finished item whose callback never ran was told exactly its completion's result. |
| `ClusterBuffers.FirstTellerWins` | pkg/wgo/cluster_record_buffer.go:139-168 | What a caller was told first is all it is ever told. |
| `ClusterBuffers.StepKeepsInv` | pkg/wgo/cluster_record_buffer.go:119-170 | Every atomic operation keeps the accounting and the once-gates. |
| `ClusterRuns.ClosedClusterIsEmpty` | pkg/wgo/cluster_record_buffer.go:174-261 | The cluster buffer on top of its agents' buffers, over every interleaving: when the first Close has returned and no call is under way, both counters are zero and every caller there ever was has been completed exactly once. |
| `ClusterRuns.CallersHearTheirFlush` | pkg/wgo/cluster_record_buffer.go:119-204 | In every run, a handed item's caller is told what its agent's buffer completed it with, or the error its context ended with, the latter only if the callback ran; once the item is finished and no callback ran, it was told exactly the buffer's result. |
| `ClusterRuns.RefusedCallersHearErrors` | pkg/wgo/cluster_record_buffer.go:174-224 | A refused item's caller is told an error and never a response. |
| `ClusterRuns.ActKeepsInv` | pkg/wgo/cluster_record_buffer.go:119-261 | Every step of either level keeps the accounting, the once-gates, the agents' invariants and the origin of every outcome. |
| `ClusterBuffers.AgentMap.constructor` | pkg/wgo/cluster_record_buffer.go:71-90 | An open map without buffers. |
| `ClusterBuffers.AgentMap.Lookup` | pkg/wgo/cluster_record_buffer.go:265-276 | The fast path finds the agent's buffer unless the map is closed. |
| `ClusterBuffers.AgentMap.GetOrCreate` | pkg/wgo/cluster_record_buffer.go:265-290 | One buffer per agent for the life of the map: an existing one is returned, a new one is fresh, empty and shared with no other agent, and none is made once closed. |
| `ClusterBuffers.AgentMap.Close` | pkg/wgo/cluster_record_buffer.go:238-261 | The first call takes the map and closes every buffer that was ever created, flushing what it holds; a second call changes nothing. |
| `RoutedBatches.SplitCorrect` | pkg/wgo/routed_topic_partition.go:67-106 | The chunks concatenate to the records, none is empty, each could not have taken the next chunk's first record, and when every record fits alone every chunk fits. |
| `RoutedBatches.SplitLoop` | pkg/wgo/routed_topic_partition.go:67-106 | The loop's running size always equals the full re-computation, and it computes the greedy split. |
| `RoutedBatches.SplitByMaxBytes` | pkg/wgo/routed_topic_partition.go:67-106 | An item within the cap is returned whole; otherwise its greedy chunks, with the routing copied. |
| `RoutedBatches.ChunksKeepRouting` | pkg/wgo/routed_topic_partition.go:67-106 | A chunk differs from the item it was split off only in its records. |
| `RoutedBatches.MergeByPartition` | pkg/wgo/routed_batch.go:106-124 | One wire batch per distinct partition, in order of first appearance, each the merge of that partition's items in arrival order. |
| `RoutedBatches.MergeWith` | pkg/wgo/routed_topic_partition.go:111-137 | Records concatenate in order, and the newest routing state wins. |
| `RoutedBatches.MergedGroupHolds` | pkg/wgo/routed_topic_partition.go:111-137 | Record by record: a merged group holds the k-th record of its i-th item right after all records of the items before it, and nothing else; partition and agent are the shared ones, the state the newest. |
| `RoutedBatches.FirstSeenCorrect` | pkg/wgo/routed_batch.go:106-124 | The wire order names every partition of the flush once and no other. |
| `RoutedBatches.ChooseReportsAnyFailure` | pkg/wgo/routed_batch.go:58-94 | The chosen outcome of a split group is one of its chunks' outcomes, and a failure exactly when some chunk failed. |
| `RoutedBatches.ChooseIsTheFirstFailure` | pkg/wgo/routed_batch.go:74-94 | It is the first failure to arrive, or the first outcome when none failed. |
| `RoutedBatches.FanIn.constructor` | pkg/wgo/routed_batch.go:58-73 | The completion waits for all chunks. |
| `RoutedBatches.FanIn.Done` | pkg/wgo/routed_batch.go:74-94 | Called per chunk in any order; the group's completion is called on the last one only, with a failure if there was any. |
| `RecordBatches.BatchRoundTrip` | pkg/wgo/produce.go:264-370 | Decoding an encoded batch returns the same keys, values, headers and timestamps for every non-empty record list within int32 sizes, compressed or not. |
| `RecordBatches.EncodeBatch` | pkg/wgo/produce.go:264-323 | Produces the batch layout around the shorter of raw and compressed payload, with the checksum over the tail, and reports both sizes. |
| `RecordBatches.MaxTimestamp` | pkg/wgo/produce.go:265-271 | The largest of the records' timestamps. |
| `RecordBatches.PatchChecksum` | pkg/wgo/produce.go:311-316 | Overwriting the four checksum bytes gives the batch with its checksum. |
| `RecordBatches.DecodeRecordsLoop` | pkg/wgo/produce.go:331-370 | The decoding loop computes the recursive decoder, failing where it fails. |
| `RecordBatches.RecordRoundTrip` | pkg/wgo/produce.go:389-406 | An encoded record reads back with its offset delta, and the reader advances by exactly its length. |
| `RecordBatches.RecordsRoundTrip` | pkg/wgo/produce.go:381-386 | The records of a payload read back in order. |
| `RecordBatches.WireBatchRoundTrip` | vendor/github.com/twmb/franz-go/pkg/kmsg/generated.go:511-642 | Every field of a batch header reads back, the fixed ones included, and so does the payload. |
| `RecordBatches.HeaderDescribesRecords` | pkg/wgo/produce.go:264-323 | The header of every encoded batch within int32 sizes reads back the number of records, the offset delta of the last one, the first and the largest timestamp, the length, the codec of the payload, and the fixed values of magic, epoch, producer and sequence. |
| `RecordBatches.OffsetsCountUp` | pkg/wgo/produce.go:381-406 | The i-th record of a payload reads back offset delta i. |
| `RecordBatches.ChecksumCoversTheRest` | pkg/wgo/produce.go:311-316 | The checksum field holds the checksum of all bytes after it. |
| `RecordBatches.EstimateIsExact` | pkg/wgo/produce.go:109-119 | The size estimate equals the header plus the encoder's real uncompressed payload, for every record list. |
| `RecordBatches.RecordEstimateIsExact` | pkg/wgo/produce.go:81-93 | The estimate of one record equals the bytes the encoder writes for it, length prefix included, and the length prefix equals the body. |
| `RecordBatches.EstimateBatch` | pkg/wgo/produce.go:109-119 | The sizing loop computes the batch estimate. |
| `RecordBatches.BatchEstimateSnoc` | pkg/wgo/produce.go:101-119 | A one-record batch has the single-record size, and a record adds its own estimate to a batch. |
| `RecordBatches.FormsAgreeOnSize` | pkg/wgo/encoded_topic_partition.go:67-72 | The record form and the encoded form of a partition report the same wire size. |
| `RecordBatches.DecodeAll` | pkg/wgo/encoded_topic_partition.go:101-104 | Decoding batches in turn gives the concatenation of their records. |
| `RecordBatches.MergeEncoded` | pkg/wgo/encoded_topic_partition.go:87-114 | Merging encoded batches gives a batch that decodes to the concatenation of their records in arrival order, with the right sizes; a lone batch is passed through. |
| `Wire.VarintRoundTrip` | vendor/github.com/twmb/franz-go/pkg/kbin/primitives.go:104-157 | Every 32-bit zig-zag varint reads back, and the rest is left. |
| `Wire.VarlongRoundTrip` | vendor/github.com/twmb/franz-go/pkg/kbin/primitives.go:162-368 | The same for 64 bits. |
| `Wire.UvarintRoundTrip` | vendor/github.com/twmb/franz-go/pkg/kbin/primitives.go:112-247 | Every unsigned value within the reader's width and last-byte limit reads back. |
| `Wire.UvarintLenIsExact` | vendor/github.com/twmb/franz-go/pkg/kbin/primitives.go:81-99 | The computed varint length is the number of bytes written. |
| `Wire.IntRoundTrip` | vendor/github.com/twmb/franz-go/pkg/kbin/primitives.go:32-74 | Big-endian two's-complement integers of any width read back. |
| `Wire.WrappedDeltaRestores` | pkg/wgo/produce.go:389-406 | Adding back a timestamp delta that wrapped around 64 bits restores the timestamp. |
| `StatsRings.SnapshotEqualsLogExactly` | pkg/wgo/agent_stats_tracker.go:395-412 | For every log, in whatever order it was recorded, and every reading not before its newest epoch: the six-slot snapshot equals the counts, latency sum and number of distinct non-empty buckets of the full log over the last six epochs if and only if no slot was given to an older epoch after a request of the window. |
| `StatsRings.SnapshotEqualsLog` | pkg/wgo/agent_stats_tracker.go:395-412 | In particular it agrees for every log recorded less than six epochs out of order. |
| `StatsRings.MonotonicClockIsNotTooLate` | pkg/wgo/agent_stats_tracker.go:169-197 | A clock that never goes back meets that bound. |
| `StatsRings.ReplayHoldsNewest` | pkg/wgo/agent_stats_tracker.go:169-197 | After any such log, every slot holds the newest epoch that maps to it, complete. |
| `StatsRings.SlotExactly` | pkg/wgo/agent_stats_tracker.go:182-196 | For every log, a slot has all requests of an epoch if that epoch was not broken into by another one of the slot, and otherwise fewer. |
| `StatsRings.SixEpochsLateErases` | pkg/wgo/agent_stats_tracker.go:184-190 | The failing case, concretely: a request six epochs late wipes a newer bucket of the window. |
| `StatsRings.BucketIndex` | pkg/wgo/agent_stats_tracker.go:462-468 | The index is in range and is the epoch modulo six, also for negative clocks. |
| `StatsRings.AgentRing.constructor` | pkg/wgo/agent_stats_tracker.go:364-380 | A new agent has an empty ring. |
| `StatsRings.AgentRing.TrackRequest` | pkg/wgo/agent_stats_tracker.go:169-197 | Records the request in the array in place as the value-level step does; a cancelled request changes nothing. |
| `StatsRings.AgentRing.TakeSnapshot` | pkg/wgo/agent_stats_tracker.go:395-412 | The loop over the slots sums the buckets that are non-empty and in the window. |
| `ClusterStatistics.ClusterStats` | pkg/wgo/agent_stats_tracker.go:231-361 | The collecting walk and the two counting loops compute the cluster view, including the no-quorum exit. |
| `ClusterStatistics.ViewIgnoresOrder` | pkg/wgo/agent_stats_tracker.go:231-361 | The whole view is the same for every order in which the agents are visited. |
| `ClusterStatistics.ViewNeedsAQuorum` | pkg/wgo/agent_stats_tracker.go:290-300 | There is a view exactly when some agent qualifies and at least half of the observed ones do. |
| `ClusterStatistics.ViewErrorFigures` | pkg/wgo/agent_stats_tracker.go:312-361 | The faulty fraction is the number of faulty agents out of the observed ones, by the floor for their average number of requests; the baseline error rate is that of all requests of the qualified agents. |
| `ClusterStatistics.ViewLatencyFigures` | pkg/wgo/agent_stats_tracker.go:302-361 | The baseline is the average over the measured agents rounded down, the threshold the whole part of its multiple, and the slow fraction the number of agents above it out of the measured ones. |
| `ClusterStatistics.AgentFigures` | pkg/wgo/agent_stats_tracker.go:210-222 | An agent has figures from two filled buckets on: its request count, the share of faulty ones, and the average latency of the successful ones rounded down. |
| `ClusterStatistics.SlowAgentBound` | pkg/wgo/agent_stats_tracker.go:302-345 | (slow count) * (slow threshold + 1) is less than (contributors) * (baseline + 1); so with a multiplier of at least 1 not every agent is slow. |
| `ClusterStatistics.VerdictsAgreeWithCount` | pkg/wgo/agent_stats_tracker.go:321-330 | On one snapshot, an agent is judged faulty exactly when the view counts it as faulty, agent by agent, and so as many are judged as are counted. |
| `ClusterStatistics.FaultyAgentsAreBounded` | pkg/wgo/hedger.go:676-690 | Faulty agents are acted upon if and only if they are at most the configured fraction of the contributors or a single agent, so one faulty agent never triggers suppression. |
| `ClusterStatistics.ErrorRateMinRequests` | pkg/wgo/agent_stats_tracker.go:473-498 | The request floor is at least one for every positive threshold. |
| `ClusterStatistics.FloorExactly` | pkg/wgo/agent_stats_tracker.go:473-498 | The floor is the fewest requests at which a single error is within the threshold, or two when the cluster sees fewer than that, and never more than the former. |
| `StatsCaches.CacheNeverResurrects` | pkg/wgo/cached_agent_stats_tracker.go:68-124 | Over every interleaving of lookups, fills and purges: every cached entry was computed from tracker state at or after the last completed purge; every hit repeats the view of an earlier computation of its key that is younger than the time limit by the two callers' own clocks; and only one caller fills at a time. |
| `StatsCaches.CachedViewsFollowThePurge` | pkg/wgo/cached_agent_stats_tracker.go:68-107 | By the steps of the run: after a purge has completed, whatever is in the cache was computed by a step after that purge reached the tracker. |
| `StatsCaches.AnswersAreComputed` | pkg/wgo/cached_agent_stats_tracker.go:76-110 | A computed answer is the view its own caller computed, for the key and clock it asked with. |
| `StatsCaches.WaitersShareTheFill` | pkg/wgo/cached_agent_stats_tracker.go:76-110 | A caller that waited while another filled its key is answered from that fill without computing again. |
| `StatsCaches.StaleFillIsDropped` | pkg/wgo/cached_agent_stats_tracker.go:95-107 | A fill computed before a completed purge is not stored. |
| `StatsCaches.StepKeepsInv` | pkg/wgo/cached_agent_stats_tracker.go:68-124 | Every step keeps the cache invariant. |
| `Demoters.Demoter.CandidatesWithRoute` | pkg/wgo/demoter.go:154-252 | The doubling lookup returns the one-shot walk over the longest (maxCandidates + 64) list, judged by the state before the call, with the strategy's classification; the new state is the judged prefix settled plus the one probe stamp; suppressed or empty requests change nothing. |
| `Demoters.Demoter.Lookup` | pkg/wgo/demoter.go:178-209 | The retry loop stops on a prefix that decides the same answer as the longest list, having judged exactly that prefix. |
| `Demoters.Demoter.BuildPass` | pkg/wgo/demoter.go:217-235 | The build loop, whose judgements update the state as it goes, computes the walk fixed by the starting state, with at most one probe stamp. |
| `Demoters.Demoter.Examine` | pkg/wgo/demoter.go:193-199 | Judging every agent of a list settles them and counts the healthy ones. |
| `Demoters.Demoter.IsDemoted` | pkg/wgo/demoter.go:258-318 | Verdict with hysteresis, and the demotion and recovery edges. |
| `Demoters.Demoter.ShouldProbe` | pkg/wgo/demoter.go:377-385 | Grants the slot exactly when it is due and then stamps it. |
| `Demoters.Demoter.Refresh` | pkg/wgo/demoter.go:344-358 | Keeps exactly the entries of agents in the pool. |
| `Demoters.Demoter.constructor` | pkg/wgo/demoter.go:114-139 | Nobody starts demoted. |
| `Demoters.PrefixDecides` | pkg/wgo/demoter.go:201-209 | A prefix with enough healthy agents gives the same answer as any longer list. |
| `Demoters.OneShotShape` | pkg/wgo/demoter.go:217-251 | The list is the first due agent ahead of every healthy one, then healthy agents in order up to the limit; or the forced probe of the natural primary when that leaves nothing. |
| `Demoters.LookupPromises` | pkg/wgo/demoter.go:141-252 | For every routing snapshot, hash and verdicts: non-empty exactly when the strategy's list is, at most maxCandidates entries, in the strategy's order, marked demoted exactly when judged so, and that only in the first slot. |
| `Demoters.HysteresisIsStableExactly` | pkg/wgo/demoter.go:258-318 | For arbitrary figures: judging an agent again on unchanged figures agrees and changes nothing, in every state, if and only if the floor is at least one, the agent has a request, or its error rate is within the threshold. |
| `Demoters.TrackerFiguresAreSteady` | pkg/wgo/demoter.go:258-318 | For the figures the tracker gives, whatever was recorded and whatever the threshold, judging again always agrees and changes nothing. |
| `Demoters.PromisesUnderAnyVerdicts` | pkg/wgo/demoter.go:184-251 | Even when every judgement of a call reads different figures: the answer is non-empty exactly when the strategy's list is, at most maxCandidates long, in the strategy's order, and has a demoted agent only in the first slot. |
| `Demoters.SettleOne` | pkg/wgo/demoter.go:276-306 | Whatever was judged before in a pass, one more judgement gives the verdict of the starting state. |
| `Demoters.DemotedAreBounded` | pkg/wgo/demoter.go:320-337 | From no prior demotions and on one reading of the tracker, whatever agents are examined, the demoted ones are at most the configured fraction of the contributors, or a single one. |
| `Demoters.DemotionActsExactly` | pkg/wgo/demoter.go:325-337 | Demotion acts exactly when there is a view and the agents judged faulty on it are within the configured fraction of the observed ones, or a single one. |
| `Demoters.DemoterJudgesTheCounted` | pkg/wgo/demoter.go:267-290 | An agent not demoted yet is judged faulty by the Demoter exactly when it is one of those the view counted as faulty. |
| `Demoters.ProbesAreSpaced` | pkg/wgo/demoter.go:374-385 | Over every interleaving of judgements, probe requests, forced probes and refreshes with a non-decreasing clock: two slots granted to an agent within one demotion episode are at least the probe interval apart. |
| `Demoters.SlotIsGrantedOnceDue` | pkg/wgo/demoter.go:374-385 | A slot is not withheld: once the interval has passed since every probe of the agent that was granted or forced, the next request gets it. |
| `Demoters.AnswerTakesTheSlot` | pkg/wgo/demoter.go:229-249 | A call that answers with a demoted agent, granted or forced, takes its slot: the agent is due again exactly when the interval has passed, and no other agent's probe time changes. |
| `Demoters.FreshDemotionIsDue` | pkg/wgo/demoter.go:292-297 | A freshly demoted agent is due for a probe at once. |
| `AgentPools.BuildLeadersAndTopicIDs` | pkg/wgo/agentpool.go:151-215 | The nested loops compute the value-level extraction: leaders, topic ids, counts, leaderless partitions, and drops. |
| `AgentPools.DropCountIsExact` | pkg/wgo/agentpool.go:151-215 | The drop count equals the number of partitions of error-free named topics that name an absent node. |
| `AgentPools.DropSampleIsTheFirst` | pkg/wgo/agentpool.go:151-215 | The drop that is reported as a sample is the first one of the metadata. |
| `AgentPools.TopicIDsExactly` | pkg/wgo/agentpool.go:151-215 | With distinct names, a listed topic has the id it is listed with; while it is in error it keeps the id known before, if any. |
| `AgentPools.LeadersAreLive` | pkg/wgo/agentpool.go:151-215 | Every leader in the snapshot is a listed broker. |
| `AgentPools.TopicDecidesItself` | pkg/wgo/agentpool.go:151-215 | With distinct names, what the snapshot says about a topic comes from that topic's metadata alone. |
| `AgentPools.DiffRemovedAgents` | pkg/wgo/agentpool.go:218-226 | The removed agents are exactly the old ones not in the new set. |
| `AgentPools.DiffAgentMembership` | pkg/wgo/agentpool.go:230-248 | The merge walk over two ascending lists counts the set differences both ways. |
| `PartitionAssignment.RoutableExactlyWhenLed` | pkg/wgo/partition_assignment.go:165-285 | From metadata with distinct names and ids: a listed partition of an error-free topic is routable if and only if it names a leader and there is a broker; every candidate is a listed broker; a live leader comes first. |
| `PartitionAssignment.ListedIsClassified` | pkg/wgo/partition_assignment.go:211-242 | From the metadata, a listed partition resolves to its live leader; to the agent at its hash position when its leader is not a broker; and to a miss when it names none or there is no broker. |
| `PartitionAssignment.BeyondListedIsOutOfRange` | pkg/wgo/partition_assignment.go:211-242 | A negative partition, or one beyond all that an error-free topic lists, is out of range. |
| `PartitionAssignment.UnlistedTopicIsUnknown` | pkg/wgo/partition_assignment.go:211-242 | A topic the metadata does not list is unknown. |
| `PartitionAssignment.ListedPartition` | pkg/wgo/agentpool.go:151-215 | Where a listed partition ends up in the snapshot: leaderless, led by a live node, or in a topic known without a live leader. |
| `PartitionAssignment.FullListIsPermutation` | pkg/wgo/partition_assignment.go:211-285 | Asking for the whole pool gives a permutation of the live agents with the leader or stand-in first, for every hash. |
| `PartitionAssignment.AlternatesRotate` | pkg/wgo/partition_assignment.go:250-268 | The alternates are the other agents rotated to start at the hash position. |
| `PartitionAssignment.ShorterIsPrefix` | pkg/wgo/partition_assignment.go:211-269 | A shorter request is a prefix of a longer one, with the same classification, for every snapshot and hash. |
| `PartitionAssignment.CandidatesAreDistinctAndLive` | pkg/wgo/partition_assignment.go:211-285 | Candidates are distinct live agents, whatever the requested length. |
| `PartitionAssignment.CandidatesWithRoute` | pkg/wgo/partition_assignment.go:211-269 | The branches and the walk compute the candidate list and its classification. |
| `PartitionAssignment.WalkAlternates` | pkg/wgo/partition_assignment.go:250-268 | The wrapping walk from the hash position yields the alternates in rotation order, up to the limit. |
| `PartitionAssignment.NthNonLeader` | pkg/wgo/partition_assignment.go:273-285 | The scan finds the idx-th agent other than the leader, or 0. |

## Left out

- Direct and tracking producers, connection set-up, TLS, SASL and metadata requests: an attempt is an arbitrary result.
- Error chains: an error is classified by an arbitrary function to a retriable flag and a code; the chain inspection behind it is not modelled.
- Metrics, logs, hooks, the produce-stop classification and the suppression reasons that only feed them.
- Configuration checks: the one range that is used appears as a precondition (at least one hedge agent).
- The hedge delay and the decision to start the race: the race may start at any moment, or not at all, which covers every decision; only the shared faulty verdict and its fraction gate are modelled.
- Client-side bookkeeping of Produce and ProduceSync, and the grouping of records by partition in routeRecords: it would only add easier members beside the grouping proved for flushes.
- The memo of candidate lists within one call: each partition has one fixed candidate list per race.
- Wall-clock timers, the background refresh loop and its backoff: a timer is a step that may happen whenever it is armed.
- Topic ids, version and throttle fields of produce responses, and other payload of a response line besides its code.
- CRC32C, Snappy, xxhash and buffer pools, beyond the assumptions named above.
- A bound on the size of a batch merged from several items of one partition: merging can lengthen varints, and the code calls the sum an estimate.
- Heap aliasing in the concurrent parts: the race, the interleavings of the buffers and the stats cache are steps on values. The accumulator, the agent buffer, the fan-in, the agent map, the ring and the demoter are also given as classes.
- Overflow of 64-bit counters and of the purge generation.
- Hedger.NoFalseAcknowledgement: assumes each leg's group rides in one flush, because the property is false without it (see OverflowFalselyAcknowledges).
- EndToEnd.AcknowledgedRecordsWereWritten: assumes that hedge legs fit the hedge buffer, for the same reason.
- AgentBufferRuns.ExactlyOnce: assumes every chunk of a non-empty call holds at least one record, because the code drops empty items without completing them.
- AgentBuffers.AgentBuffer.BeginClose: the wait for flush goroutines at the end of Close is the hypothesis of NothingOutstandingAfterClose; a second Close returns without that wait.
- RecordBatches.BatchRoundTrip: assumes the batch fits 32-bit sizes; larger ones wrap in the length fields.
- RoutedBatches.MergeByPartition: assumes all items of a flush name one agent, which is how the buffers are keyed.
- Demoters.Demoter.CandidatesWithRoute: is exact for one set of agent figures per call; for figures that change between the judgements of a call, PromisesUnderAnyVerdicts states what still holds of the list.
