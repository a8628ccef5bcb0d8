# Lance bindings and tooling: a Dafny model

This project models self-contained algorithms of the Lance repository and proves
what they promise. `dafny verify dfyconfig.toml` checks all of it. Nothing here runs
the original program.

| component | modules | what is proved |
|---|---|---|
| Tracking allocator | `Memory`, `Placement`, `TrackedHeap`, `AllocatorRuns`, `AllocatorTotals`, `ReallocChains`, `TrackingAllocator` | headers hidden before user pointers survive every run of calls; libc gets back exactly its own pointers; the byte ledger is exact precisely when libc grants the requests; realloc keeps what the program wrote over whole runs, or provably cannot |
| Allocation counters | `AllocationStats`, `StatsInterleaving` | under every interleaving of atomic steps the peak is the high-water mark and bytes balance, and a call that nothing interrupts does what the object does |
| Histogram | `Histogram`, `HistogramRuns`, `HistogramProgress`, `BucketedHistogram` | what a snapshot taken among racing recorders can report, and that no sample is lost or counted twice |
| Executor and fork | `ForkInit`, `ForkProgress` | one executor per process and never an ancestor's, over all interleavings and forks; every caller can be driven to return, except in exactly the children of certain forks |
| Exact top-k oracles | `TopK`, `Metrics`, `ExactOracle` | the streaming oracle returns the k smallest whatever the batches and partitions, and agrees with the full sort |
| Effort calibration | `RoutingRecall`, `EffortCalibration`, `AnchorSelection`, `Calibrate` | the binary search finds the threshold; the anchor loop ends, never looks outside its anchors, and leaves every target met |
| Dot budgets | `DotBudget` | two formulas for one budget agree, and a coverage table reports the recall it claims |
| Voting deadline | `VotingDeadline` | the loop finds the first instant by which the weekday time has passed |
| Proto comments | `ProtoComments`, `ProtoRewrite`, `ProtoRuns`, `Splices` | rewriting leaves no violation, is idempotent on whole texts, and moves everything else by a known amount |
| Index progress | `ProgressEvents`, `ProgressRuns`, `IndexProgress` | start and complete events arrive once and in order although the queue drops progress; exactly when pump and build block each other, in terms of what the build reports |
| Bitmaps | `SharedBitmaps`, `BitmapRuns`, `BitmapMeaning`, `BitmapHeap` | copy-on-write with reference counts and exclusive borrows refines plain sets over every run, except for exactly one kind of operation |

`Numbers`, `Sequences`, `Sums`, `Minimum` and `Words` hold shared helpers.

Concurrent code is a state machine whose steps are single atomic operations, and the
theorems are about every run. Code that updates objects or arrays is a class or a
method with loops, proved against functions on values. Arithmetic on floats is
arithmetic on reals; where rounding would matter the operation is a parameter.

Some promises of the source do not hold as they stand. Each of these has an exact
condition:

- `realloc` always re-wraps its result as unaligned. It keeps the user's bytes exactly
  when the user pointer is one header past libc's block, which for aligned blocks
  means an alignment of at most 32 (`ReallocKeepsBytes`, `ReallocLosesBytes`,
  `ReallocKeepsBytesByAlignment`). Blocks of the other kind occur
  (`FarBlockIsReachable`).
- Statistics are recorded before libc answers, so a refused request leaves the ledger
  wrong (`CallKeepsLedger`, `RefusedCallBreaksLedger`).
- realloc of null records a deallocation although nothing was given back, so when
  libc grants every request the number of allocations less that of deallocations is the
  number of live blocks exactly if no such call was made (`RunCounts`).
- A child forked between winning the flag and registering the fork handler can never
  return an executor; every other child can (`ForkedChildReturnsIff`,
  `StickingForkIsReachable`).
- The comment rewriter's documentation says that content keeps its column. That is so
  exactly for `//` comments and not for `///` (`ColumnsKeptIff`, `ColumnsLostExample`).
- The block that the rewriter makes of a run can end before its last line. It does so
  exactly when some content of the run holds the closing mark, or a content behind the
  first starts with a slash, as that of a `////` line does (`BlockClosesEarlyIff`,
  `FoundRunClosesEarlyIff`). The lines `// a` and `//// b` are such a run
  (`ClosesEarlyExample`).
- The documentation of the progress channel says that a blocking send does not stall in
  practice. A build that runs on the pumping thread blocks for good exactly when it
  reports a start or complete behind 1024 or more other reports of the same wait
  (`RunSticksIff`; `BlockedIff` says the same of states, and `SticksWhenFull` reaches
  one). On other threads every send that waits gets through (`OtherThreadsNeverStick`).
- An in-place bitmap operator does what the set operation does unless its operand is the
  receiver itself. The receiver is borrowed exclusively when its operand is coerced, so
  reading it fails, as a bitmap and as an iterable, and nothing happens
  (`RefinesIffNotOwnOperand`, `OwnOperandExample`).

## Model

| member | source | states |
|---|---|---|
| `Memory.WordRoundTrip` | memtest/src/allocator.rs:119-132 | every 64-bit header field decodes from memory to the value stored |
| `Memory.AndNotBounds` | memtest/src/allocator.rs:180-181 | masking never raises an address and lowers it by at most the mask, for any mask |
| `Memory.AndNotRoundsDown` | memtest/src/allocator.rs:180-181 | masking with a power of two less one rounds down to a multiple |
| `Memory.AndNotBits` | memtest/src/allocator.rs:180-181 | a bit of the address stays if and only if the mask has none there |
| `Placement.StoredHeaderReadsBack` | memtest/src/allocator.rs:146-162 | a stored header reads back field by field |
| `Placement.HeaderFrame` | memtest/src/allocator.rs:146-162 | a header survives as long as its own 32 bytes do |
| `Placement.PlacedInsideBlock` | memtest/src/allocator.rs:166-192 | for every alignment, power of two or not, nothing saturates and header and user bytes lie inside the requested block |
| `Placement.PlacedAtLeastAligned` | memtest/src/allocator.rs:177-181 | for a power of two the user address is the least aligned one leaving room for the header |
| `Placement.OffsetIsHeaderSize` | memtest/src/allocator.rs:177-192 | the user pointer is exactly one header past an aligned base if and only if the alignment is at most 32 |
| `TrackedHeap.LiveBlocksExtract` | memtest/src/allocator.rs:136-162 | in every valid state each live block is recognised and extracts to its own size, alignment and libc pointer |
| `TrackedHeap.IsOursIff` | memtest/src/allocator.rs:136-144 | a pointer is taken for ours if and only if it is not null and the eight bytes of the magic number lie 32 before it |
| `TrackedHeap.ApartIff` | memtest/src/allocator.rs:166-204 | the blocks that the invariant keeps apart are those without a common address |
| `TrackedHeap.PlacedIsValid` | memtest/src/allocator.rs:166-204 | writing the header of a new block keeps the invariant and leaves every byte from the user pointer on alone |
| `TrackedHeap.PlacedKeepsOthers` | memtest/src/allocator.rs:166-204 | a new block changes no byte of another tracked block |
| `TrackedHeap.DroppedIsValid` | memtest/src/allocator.rs:264-278 | freeing a block keeps the invariant and the bytes of all others |
| `TrackedHeap.ReallocatedIsValid` | memtest/src/allocator.rs:292-311 | realloc keeps the invariant, all other blocks and the live byte sum up to the size change |
| `TrackedHeap.ReallocKeepsBytes` | memtest/src/allocator.rs:292-311 | if the user pointer is one header past the base, realloc keeps the bytes up to the smaller size |
| `TrackedHeap.ReallocLosesBytes` | memtest/src/allocator.rs:292-311 | otherwise the program can write a first byte that every successful realloc replaces by another value |
| `TrackedHeap.ReallocKeepsBytesByAlignment` | memtest/src/allocator.rs:292-311 | in every valid state, for blocks of the aligned entry points the two cases are alignments up to 32 and above |
| `AllocatorRuns.CallKeepsInvariant` | memtest/src/allocator.rs:220-311 | every call, also on a foreign pointer, keeps the invariant and every tracked block it was not asked about |
| `AllocatorRuns.CallKeepsLedger` | memtest/src/allocator.rs:220-311 | an exact ledger stays exact if and only if libc granted the request or the recorded bytes cancel, and the subtraction never saturates |
| `AllocatorRuns.RefusedCallBreaksLedger` | memtest/src/allocator.rs:220-223 | a refused malloc of five bytes from the empty heap leaves the ledger inexact |
| `AllocatorRuns.CallocStartsZero` | memtest/src/allocator.rs:227-237 | every user byte of a calloc starts as zero although the header shares the block |
| `AllocatorRuns.EveryRun` | memtest/src/allocator.rs:136-384 | after every run each live block extracts to its own size, alignment and pointer; if libc granted every request, current bytes are the sizes of live blocks and bytes allocated less bytes deallocated |
| `AllocatorRuns.FarBlockIsReachable` | memtest/src/allocator.rs:341-348 | a run from the empty heap leaves a live block whose user pointer is more than one header past the base |
| `AllocatorTotals.GrantedRequest` | memtest/src/allocator.rs:220-348 | a granted malloc, calloc, memalign or realloc of null makes one live block at the returned pointer with exactly the size and alignment asked for, in a libc block of the size plus 32 or plus alignment plus 40, and the totals grow by exactly that size |
| `AllocatorTotals.RefusedRequest` | memtest/src/allocator.rs:220-348 | a refused request is counted and changes nothing else; a calloc whose product overflows changes nothing at all |
| `AllocatorTotals.ReturnedBlock` | memtest/src/allocator.rs:264-311 | free takes exactly the block away and gives libc its own back, a granted realloc trades it for one of the new size, and nothing is recorded for a block of libc's own |
| `AllocatorTotals.RunTotals` | memtest/src/allocator.rs:220-365 | over every run the byte totals grow by the sum of what the program asked for and of what it gave back, and the peak is the largest value current bytes had |
| `AllocatorTotals.RunCounts` | memtest/src/allocator.rs:264-311 | when libc grants every request the allocations less the deallocations are the number of live blocks, less one for each realloc of null |
| `AllocatorTotals.LifeIsReachable` | memtest/src/allocator.rs:220-311 | from the empty heap there is a run that makes a block of any size that fits, brings it to any other and frees it |
| `ReallocChains.ChainKeepsBytes` | memtest/src/allocator.rs:292-311 | over every run in which it is not freed, with any writes, granted and refused reallocs and other calls, a block one header past libc's holds what the program last wrote there, up to the smallest size it has had since |
| `ReallocChains.UnwrittenBytesSurvive` | memtest/src/allocator.rs:292-311 | in particular the bytes that the program does not write over survive up to the smallest size the block has had |
| `ReallocChains.ReallocMovesBytes` | memtest/src/allocator.rs:292-311 | one realloc of a block one header past libc's carries its leading bytes to the new user pointer |
| `TrackingAllocator.StoreHeader` | memtest/src/allocator.rs:171-203 | the header lands just before the user address with size, alignment and, for aligned blocks, libc's pointer |
| `TrackingAllocator.Allocator.ToVirtual` | memtest/src/allocator.rs:166-204 | null stays null; otherwise the wrapped block is placed and its user address returned |
| `TrackingAllocator.Allocator.Malloc` | memtest/src/allocator.rs:220-223 | libc is asked for the size and a header; the returned pointer is that of the one new block, which has the size asked for; the new state |
| `TrackingAllocator.Allocator.Calloc` | memtest/src/allocator.rs:227-237 | the same for a product, with null and no effect on overflow |
| `TrackingAllocator.Allocator.Realloc` | memtest/src/allocator.rs:292-311 | libc is handed exactly the pointer it gave out, with room for a header only where one is kept; the returned pointer is that of the block with the new size, which takes the place of the old; a foreign pointer and libc's answer to it pass through |
| `TrackingAllocator.Allocator.Memalign` | memtest/src/allocator.rs:341-348 | libc is asked for the padded size; the returned pointer is that of the one new block with the size and alignment asked for |
| `TrackingAllocator.Allocator.PosixMemalign` | memtest/src/allocator.rs:352-365 | as memalign, with ENOMEM and an untouched pointer when libc fails |
| `TrackingAllocator.Allocator.Free` | memtest/src/allocator.rs:264-278 | libc is handed exactly the pointer it gave out and the block is gone, or the foreign pointer itself |
| `AllocationStats.Stats.RecordAllocation` | memtest/src/stats.rs:25-33 | all six counters after an allocation |
| `AllocationStats.Stats.RecordDeallocation` | memtest/src/stats.rs:35-46 | all six counters after a deallocation, saturating at zero |
| `AllocationStats.Stats.Reset` | memtest/src/stats.rs:48-55 | all counters are zero |
| `StatsInterleaving.StepKeepsPeak` | memtest/src/stats.rs:25-55 | one atomic step keeps the peak, with the peaks still to be raised, equal to the high-water mark |
| `StatsInterleaving.StepConserves` | memtest/src/stats.rs:25-55 | one atomic step conserves bytes up to those in flight and those swallowed by saturation |
| `StatsInterleaving.EveryInterleaving` | memtest/src/stats.rs:25-55 | both hold after every interleaving |
| `StatsInterleaving.QuiescentTotals` | memtest/src/stats.rs:25-55 | with no call in flight the peak is exactly the largest value current bytes have held since the last reset |
| `StatsInterleaving.QuiescentCounts` | memtest/src/stats.rs:25-55 | with no call in flight the numbers of calls and the byte totals are exactly those of the calls made since the last reset |
| `StatsInterleaving.NothingSwallowed` | memtest/src/stats.rs:35-46 | in every interleaving in which each deallocation is of bytes added before and not yet claimed, the saturating subtraction never saturates |
| `StatsInterleaving.BackedTotals` | memtest/src/stats.rs:25-55 | with no call in flight the byte totals then balance exactly |
| `StatsInterleaving.UninterruptedCall` | memtest/src/stats.rs:25-46 | the atomic steps of a call that nothing interrupts add up to what the object records |
| `Histogram.BucketMeaning` | python/src/otel.rs:169-171 | a sample lands at or before bucket i if and only if it is at or below bound i |
| `Histogram.CumulativeMeaning` | python/src/otel.rs:152-159 | adding up buckets to i counts the samples at or below bound i, the last one all of them |
| `HistogramRuns.EveryInterleaving` | python/src/otel.rs:132-174 | every interleaving keeps counters, samples in transit and the walking snapshot consistent |
| `HistogramRuns.SnapshotIsBracketed` | python/src/otel.rs:151-165 | for every run before and every run since its start, each bucket and the count of a snapshot lie between the samples that had got there when it started and those that have by now, buckets never decrease, and the sum is the fold of the samples added up to some moment since its start |
| `HistogramRuns.EveryStateBalances` | python/src/otel.rs:132-174 | the buckets sum to the count plus recorders between the two increments, the sum folds each exchanged sample once, and every sample given to a recorder is exchanged or still carried |
| `HistogramRuns.FinishedTotals` | python/src/otel.rs:132-174 | when all recorders have finished, buckets, count and sum are those of the samples that the recorders were given |
| `HistogramRuns.RecordedAreSamples` | python/src/otel.rs:169-174 | what is logged as recorded in a run are the samples given to the recorders, in the order of the calls |
| `HistogramRuns.CarriesGiven` | python/src/otel.rs:169-174 | a recorder under way carries the sample it was last given, through every step |
| `HistogramProgress.RecorderFinishes` | python/src/otel.rs:132-174 | from every state a recorder under way ends within four steps of its own, with its sample added to the sum once and every other recorder and the snapshot where they were |
| `HistogramProgress.ReaderFinishes` | python/src/otel.rs:151-165 | from every state a snapshot ends by its own steps, which change nothing else |
| `HistogramProgress.QuietSnapshot` | python/src/otel.rs:151-165 | a snapshot that nothing interrupts reports exactly the samples at or below each bound, the count and the sum |
| `BucketedHistogram.PartitionPoint` | python/src/otel.rs:170 | the halving search finds the sample's bucket |
| `BucketedHistogram.Recorder.constructor` | python/src/otel.rs:119-130 | one zero counter for each bound and one for the rest |
| `BucketedHistogram.Recorder.AddToSum` | python/src/otel.rs:132-148 | the sample is added once however often the exchange fails spuriously |
| `BucketedHistogram.Recorder.Record` | python/src/otel.rs:169-174 | bucket, count and sum come to include the sample |
| `BucketedHistogram.Recorder.Snapshot` | python/src/otel.rs:151-165 | each bucket is the number of samples at or below its bound, the last equals the count |
| `ForkInit.EveryRunKeepsSystem` | python/src/lib.rs:144-183 | the protocol's invariant holds in every process after every run of threads and forks |
| `ForkInit.OneExecutorPerProcess` | python/src/lib.rs:151-178 | a process creates at most one executor and every return in it is that one, never an ancestor's |
| `ForkInit.NullFlagMeansStoring` | python/src/lib.rs:151-171 | with a set flag and a null pointer a thread of that process is between winning and storing, or in the fork handler, if and only if the process is not stuck |
| `ForkInit.RegistersOnce` | python/src/lib.rs:159-167 | in every reachable state the handler is unregistered when a thread is about to register it, the flag that says so goes with it, and an executor exists only with it |
| `ForkInit.ForkInherits` | python/src/lib.rs:173-183 | a child has its parent's three atomics, and of the threads at most the forking one, which runs the handler if and only if it is registered |
| `ForkInit.ForkSticksIff` | python/src/lib.rs:159-183 | a fork leaves the child with a set flag and nobody to store if and only if the parent has set the flag and not registered the handler |
| `ForkInit.StuckForever` | python/src/lib.rs:151-171 | a stuck process never creates or returns an executor |
| `ForkInit.StickingForkIsReachable` | python/src/lib.rs:159-166 | such a fork does occur in a run from the start |
| `ForkProgress.InsideReturns` | python/src/lib.rs:151-171 | in every state the invariant allows, any thread inside can be driven to return from there, unless its process is stuck |
| `ForkProgress.ReturnsIffNotStuck` | python/src/lib.rs:151-178 | in every reachable state some continuation has a thread of the process return in it if and only if the process is not stuck |
| `ForkProgress.ForkedChildReturnsIff` | python/src/lib.rs:159-183 | some continuation has a thread of a forked child return in it if and only if the parent had not set the flag or had registered the handler |
| `TopK.MergeKeepsSmallest` | benchmarks/auto-ivf-effort/prepare_large.py:116-123 | merging a batch into kept slots keeps the smallest of everything seen, for every legal choice at ties |
| `TopK.NoSentinelRemains` | benchmarks/auto-ivf-effort/prepare_large.py:109-110 | with at least k rows no unfilled slot is left |
| `TopK.SmallestHaveSortedScores` | benchmarks/auto-ivf-effort/prepare_large.py:159-163 | the ordered scores of any k smallest are the first k of a full sort |
| `Metrics.FormulasAgree` | benchmarks/auto-ivf-effort/prepare_large.py:133-142 | streamed and direct formulas give the same score, for L2, dot and cosine |
| `Metrics.ScoreMeaning` | benchmarks/auto-ivf-effort/prepare_large.py:133-142 | a score is the squared distance less a constant of the query, the product negated, or the cosine negated |
| `Metrics.NearerScoresLower` | benchmarks/auto-ivf-effort/prepare_large.py:133-142 | one row scores no higher than another if and only if it is no farther, has no smaller product, or no smaller cosine |
| `ExactOracle.PartitionKeepsSmallest` | benchmarks/auto-ivf-effort/prepare_large.py:121-123 | the first k of any legal partition are k smallest |
| `ExactOracle.ArgPartition` | benchmarks/auto-ivf-effort/prepare_large.py:121 | returns any legal partition at k - 1 |
| `ExactOracle.Merge` | benchmarks/auto-ivf-effort/prepare_large.py:116-123 | one query's slots hold the k smallest of slots and batch, all other queries' slots are untouched |
| `ExactOracle.MergeBatch` | benchmarks/auto-ivf-effort/prepare_large.py:139-154 | every query's slots account for the batch |
| `ExactOracle.Scan` | benchmarks/auto-ivf-effort/prepare_large.py:114-156 | after all batches the slots account for all rows, unless a cosine norm is zero |
| `ExactOracle.OrderRows` | benchmarks/auto-ivf-effort/prepare_large.py:157-163 | the ordered slots are the exact top k |
| `ExactOracle.ExactTruth` | benchmarks/auto-ivf-effort/prepare_large.py:99-164 | succeeds exactly for k in range and nonzero cosine norms, and then returns the exact top k of every query for any cut into batches |
| `ExactOracle.TruthIsDistinctRows` | benchmarks/auto-ivf-effort/prepare_large.py:157-163 | the ids are distinct rows and the stored scores their true scores |
| `ExactOracle.TruthIsInOrder` | benchmarks/auto-ivf-effort/prepare_large.py:157-163 | returned rows come by score, equal ones by row |
| `ExactOracle.NothingSmallerLeftOut` | benchmarks/auto-ivf-effort/prepare_large.py:99-164 | no row left out scores below a returned one |
| `ExactOracle.FillScores` | benchmarks/auto-ivf-effort/prepare_large.py:193-207 | batch by batch every row gets its direct score |
| `ExactOracle.DirectTruth` | benchmarks/auto-ivf-effort/prepare_large.py:187-212 | the first k of a stable sort of all direct scores, or an error exactly for k out of range or a score that is not finite |
| `ExactOracle.OraclesAgree` | benchmarks/auto-ivf-effort/prepare_large.py:187-212 | both oracles return the same score list |
| `RoutingRecall.BudgetMonotone` | benchmarks/auto-ivf-effort/calibrate.py:55 | a larger scale never lowers a budget |
| `RoutingRecall.BudgetIsLeast` | benchmarks/auto-ivf-effort/calibrate.py:55 | a budget is the least whole number, and at least one, that is not below the scaled Auto budget |
| `RoutingRecall.RecallIsMean` | benchmarks/auto-ivf-effort/calibrate.py:54-65 | recall is the mean, over queries, of the number of neighbours ranked within the budget divided by k |
| `RoutingRecall.MeanBudgetIsMean` | benchmarks/auto-ivf-effort/calibrate.py:54-65 | the mean number of partitions is the sum of the budgets over the queries divided by their number |
| `RoutingRecall.RecallMonotone` | benchmarks/auto-ivf-effort/calibrate.py:54-65 | mean recall and mean budget are monotone in the scale |
| `RoutingRecall.FindThreshold` | benchmarks/auto-ivf-effort/calibrate.py:116-131 | fails exactly when Auto misses the target; otherwise the groups meet it on the 1/1000 grid from the returned step on and nowhere below |
| `RoutingRecall.ThresholdMonotone` | benchmarks/auto-ivf-effort/calibrate.py:115-131 | a stricter target never has a smaller threshold |
| `RoutingRecall.ThresholdExistsIff` | benchmarks/auto-ivf-effort/calibrate.py:118-121 | there is a threshold if and only if Auto meets the target, and only one |
| `EffortCalibration.ScaleAtAnchor` | benchmarks/auto-ivf-effort/calibrate.py:68-74 | an anchor gets its own scale, and the lookup fails exactly for a k outside all anchors |
| `EffortCalibration.ScaleAtBetween` | benchmarks/auto-ivf-effort/calibrate.py:75-79 | any other k gets a scale made from the nearest anchors on either side |
| `EffortCalibration.TiersOrdered` | benchmarks/auto-ivf-effort/calibrate.py:68-79 | with an interpolation that, between two anchors, is monotone in positive scales the looser tier's scale is never larger, at any k |
| `EffortCalibration.FitTiersOrdered` | benchmarks/auto-ivf-effort/calibrate.py:115-131 | the 0.8 tier's fitted step is at least one and never exceeds the 0.9 tier's |
| `EffortCalibration.FitPoint` | benchmarks/auto-ivf-effort/calibrate.py:107-141 | one metric and k is fitted in both tiers exactly when it has data and Auto meets both targets, with the error telling which |
| `EffortCalibration.FitMetric` | benchmarks/auto-ivf-effort/calibrate.py:106-141 | all ks of a metric are fitted, or none if one cannot be, with the problem of the least such k |
| `EffortCalibration.FitEvery` | benchmarks/auto-ivf-effort/calibrate.py:103-141 | the same for all metrics in alphabetical order |
| `AnchorSelection.CheckTiers` | benchmarks/auto-ivf-effort/calibrate.py:157-167 | tells whether in both tiers the target is met with at most 5% more probes than the fit needs, and fails exactly where the lookup does |
| `AnchorSelection.OverheadIff` | benchmarks/auto-ivf-effort/calibrate.py:162-166 | the overhead is above 1.05 if and only if a hundred times the probes of the scale exceed 105 times those of the optimum |
| `AnchorSelection.MissedMeaning` | benchmarks/auto-ivf-effort/calibrate.py:152-167 | a k is added exactly if it is no anchor and one of its groups is not served |
| `AnchorSelection.CheckGroups` | benchmarks/auto-ivf-effort/calibrate.py:152-167 | one round finds exactly the missed ks |
| `AnchorSelection.GrowAnchors` | benchmarks/auto-ivf-effort/calibrate.py:146-182 | each round adds exactly the ks it missed, until none is; within the number of non-mandatory ks plus one rounds |
| `AnchorSelection.AddedWasMissed` | benchmarks/auto-ivf-effort/calibrate.py:146-182 | every anchor that was added was missed by the anchors of an earlier round |
| `Calibrate.EndsSpan` | benchmarks/auto-ivf-effort/calibrate.py:86-89 | anchors hold both ends of the ks exactly when they lie on both sides of each |
| `Calibrate.CheckAnchors` | benchmarks/auto-ivf-effort/calibrate.py:86-89 | the test of the given anchors holds exactly when they are ks that lie on both sides of each k |
| `Calibrate.Select` | benchmarks/auto-ivf-effort/calibrate.py:146-182 | from fits and good anchors the lookup never fails and every group ends at an anchor or served |
| `Calibrate.Calibrate` | benchmarks/auto-ivf-effort/calibrate.py:82-182 | the exact error conditions, with the problem of the first metric and k that cannot be fitted; otherwise every group and tier meets its target within 5% of the probes of the fit, the profiles hold exactly the fits at the anchors for exactly the metrics that occur, every added anchor was needed, and under an order-respecting interpolation the tiers are in order at every k |
| `Calibrate.FitMeaning` | benchmarks/auto-ivf-effort/calibrate.py:114-131 | a fit is the least of 1000 steps of Auto at which every group with its metric and k reaches 0.81 or 0.91 |
| `Calibrate.TargetMeaning` | benchmarks/auto-ivf-effort/calibrate.py:158-167 | what is promised of a group in plain numbers: recall of 0.81 or 0.91, a hundred times the mean budget at most 105 times that of the fit, and at an anchor the fit itself |
| `Calibrate.AddedWasNeeded` | benchmarks/auto-ivf-effort/calibrate.py:152-182 | an added anchor has a group that, interpolated from fewer anchors including the mandatory ones, misses its target or exceeds 105% of the fit |
| `DotBudget.Gaps` | benchmarks/auto-ivf-dot/calibrate.py:59-67 | every gap, infinite for a zero scale and zero for ties with the first score |
| `DotBudget.GapMeaning` | benchmarks/auto-ivf-dot/calibrate.py:59-67 | a gap is within the margin if and only if the score is, also for a zero scale |
| `DotBudget.GapsAscend` | benchmarks/auto-ivf-dot/calibrate.py:126-133 | gaps of a descending row ascend, so the sorted search applies |
| `DotBudget.SearchRight` | benchmarks/auto-ivf-dot/calibrate.py:129-132 | exactly the gaps before the returned cut are within the margin |
| `DotBudget.CalibratedBudget` | benchmarks/auto-ivf-dot/calibrate.py:126-143 | the calibrated budget (sorted search, floor, cap, partition count) equals the one predicted by counting scores within the margin |
| `DotBudget.PredictMeaning` | benchmarks/auto-ivf-dot/measure.py:20-30 | the predicted budget is the number of scores within the margin, raised to the floor, then lowered to the cap and the partition count |
| `DotBudget.SpreadAround` | benchmarks/auto-ivf-dot/calibrate.py:54-58 | mean and variance are those that split the squares around any point into spread and squared distance from the mean |
| `DotBudget.BudgetHomogeneous` | benchmarks/auto-ivf-dot/calibrate.py:54-58 | scaling a query's scores scales the denominator and leaves the budget as it was, in both modes |
| `DotBudget.FlatRowCountsAll` | benchmarks/auto-ivf-dot/measure.py:22-29 | a row without deviation counts every partition |
| `DotBudget.Coverage` | benchmarks/auto-ivf-dot/calibrate.py:68-72 | entry b is the number of the first k true neighbours ranked within the first b partitions |
| `DotBudget.CoveredByBudget` | benchmarks/auto-ivf-dot/calibrate.py:144-149 | the table at the calibrated budget is the number of neighbours ranked within the predicted one |
| `VotingDeadline.WorkTimeCounts` | ci/format_vote_gate.py:130-137 | weekday time grows by one for each microsecond of the first five days of a week and by none on the others |
| `VotingDeadline.SkippedIsFirst` | ci/format_vote_gate.py:119-122 | skipping goes to the first instant from there on that is on a weekday |
| `VotingDeadline.SkipWeekend` | ci/format_vote_gate.py:119-122 | a weekend instant goes to Monday 00:00, any other stays |
| `VotingDeadline.WeekendAhead` | ci/format_vote_gate.py:126-127 | from a weekday instant the next weekend is Saturday 00:00 and all time until then counts |
| `VotingDeadline.WeekdayDeadline` | ci/format_vote_gate.py:130-145 | ends at the least instant by which exactly the duration has passed in weekday time |
| `VotingDeadline.DeadlineIsUnique` | ci/format_vote_gate.py:130-145 | there is one such instant |
| `VotingDeadline.DeadlineMonotone` | ci/format_vote_gate.py:130-145 | a later start never has an earlier deadline |
| `VotingDeadline.DeadlinesCompose` | ci/format_vote_gate.py:130-145 | waiting a and then b ends when waiting a + b does |
| `VotingDeadline.DeadlineBound` | ci/format_vote_gate.py:130-145 | at least the duration and at most 48 hours more for each started 120 hours of it |
| `VotingDeadline.DeadlineInWorkWeek` | ci/format_vote_gate.py:130-145 | a deadline lies after Monday 00:00 and at or before Saturday 00:00 |
| `ProtoComments.ViolationsIffAdjacent` | ci/check_proto_comments.py:25-46 | there is a violation if and only if two adjacent lines are comments at one indent |
| `ProtoRuns.CommentIff` | ci/check_proto_comments.py:21 | a line is a comment if and only if it is whitespace, two slashes and anything |
| `ProtoRuns.CommentParts` | ci/check_proto_comments.py:21 | a comment line is its indent, two slashes or as many as three if there are, and its content |
| `ProtoRuns.SpdxIff` | ci/check_proto_comments.py:22 | a license line is two slashes, whitespace and text that starts with SPDX- |
| `ProtoRuns.RunIsMaximal` | ci/check_proto_comments.py:33-46 | a run found cannot be continued on either side |
| `ProtoRuns.AdjacentInRun` | ci/check_proto_comments.py:33-46 | any two adjacent comment lines at one indent lie in one run |
| `ProtoComments.SkipSpdx` | ci/check_proto_comments.py:27-29 | stops at the first line that is no license line |
| `ProtoComments.ScanRun` | ci/check_proto_comments.py:35-43 | the whole run at one indent and its contents |
| `ProtoComments.FindViolations` | ci/check_proto_comments.py:25-46 | all runs of two or more lines behind the license header |
| `ProtoComments.RewriteLines` | ci/check_proto_comments.py:49-60 | the copy loop produces every line with each run replaced by its block |
| `ProtoRewrite.BlockLinesAreNoComments` | ci/check_proto_comments.py:55-57 | no line of a block is a line comment or a license line |
| `ProtoRewrite.RewrittenIsClean` | ci/check_proto_comments.py:49-60 | no two adjacent comment lines at one indent remain |
| `ProtoRewrite.HeaderKept` | ci/check_proto_comments.py:27-29 | the license header is unchanged and still the header |
| `ProtoRewrite.RewriteIsIdempotent` | ci/check_proto_comments.py:49-60 | the result has no violation and rewriting it again changes nothing |
| `ProtoRewrite.OneLinePerRun` | ci/check_proto_comments.py:53-58 | exactly one line is added for each rewritten run |
| `ProtoRewrite.OutsideLineKept` | ci/check_proto_comments.py:53-59 | a line outside every run is kept, moved down by one for each run above it |
| `ProtoRewrite.InsideOrBetween` | ci/check_proto_comments.py:25-46 | every line behind the header is in some run or between two of them, so the two lemmas on kept and rewritten lines cover all |
| `ProtoRewrite.RunLineRewritten` | ci/check_proto_comments.py:53-58 | each line of a run keeps its place, one further down for each run above, with its own indent and content behind the block's mark |
| `ProtoRuns.BlockIsClosed` | ci/check_proto_comments.py:57 | for every run of every text the line just behind its last line is the run's own indent and the closing mark |
| `ProtoRuns.FileBlockIsClosed` | ci/check_proto_comments.py:49-60 | the same for the whole file with its header |
| `ProtoRewrite.SplitJoin` | ci/check_proto_comments.py:50-60 | joined lines split back into the same lines |
| `ProtoRuns.JoinSplit` | ci/check_proto_comments.py:50-60 | a text is its lines joined again |
| `ProtoRuns.CleanTextKept` | ci/check_proto_comments.py:49-60 | a text without violations is left exactly as it is |
| `ProtoRewrite.Rewrite` | ci/check_proto_comments.py:49-60 | the whole tool on a text |
| `ProtoRewrite.TextIsIdempotent` | ci/check_proto_comments.py:49-60 | a rewritten text splits into its lines and is left as it is by the next run |
| `ProtoRewrite.MiddleLineClosesIff` | ci/check_proto_comments.py:56 | a middle line holds the closing mark if and only if its content does or starts with a slash |
| `ProtoRewrite.BlockClosesEarlyIff` | ci/check_proto_comments.py:55-57 | a block has a closing mark before its last line, behind its opening mark, if and only if a content holds one or a content behind the first starts with a slash |
| `ProtoRewrite.FoundRunClosesEarlyIff` | ci/check_proto_comments.py:49-60 | the same for every run found in a text, told from its lines |
| `ProtoRewrite.ClosesEarlyExample` | ci/check_proto_comments.py:49-60 | a two-line text whose rewritten block ends in its second line |
| `ProtoRewrite.ColumnsKeptIff` | ci/check_proto_comments.py:4-8 | behind its mark the new line reads as the old one, trailing whitespace aside, if and only if that had two slashes |
| `ProtoRewrite.ColumnsLostExample` | ci/check_proto_comments.py:4-8 | a `///` line that does not keep its column |
| `ProgressEvents.ReportReflects` | python/src/dataset.rs:4052-4109 | each report's event carries the total and unit of its stage's start, and a complete the last count reported |
| `ProgressEvents.LifecycleKept` | python/src/dataset.rs:4034-4048 | if only progress is left out, every start and complete is kept once and in order |
| `ProgressRuns.StepKeepsValid` | python/src/dataset.rs:4020-4152 | every step of build or pump keeps the queue's accounts |
| `ProgressRuns.EveryRun` | python/src/dataset.rs:4020-4152 | so does every run |
| `ProgressRuns.InOrderAtAnyTime` | python/src/dataset.rs:4034-4109 | delivered events, then queued ones, are what was kept, with every start and complete once and in order |
| `ProgressRuns.NothingLeftBehind` | python/src/executor.rs:206-264 | after a return without callback failure nothing is queued, all kept events were delivered, and each complete carried the last reported count even if that progress was dropped |
| `ProgressRuns.EventsTellReports` | python/src/dataset.rs:4052-4109 | in every run there is one event for each report, in order, with its kind and stage, a start with its total and unit, a progress with its count |
| `ProgressRuns.RaisesIff` | python/src/executor.rs:206-264 | a run raises if and only if the callback failed on a start or progress event, before the last pump or, if its errors count, in it |
| `ProgressRuns.DropsIffFull` | python/src/dataset.rs:4040-4048 | a step loses an event if and only if it offers progress to a full queue of 1024 |
| `ProgressRuns.LeftBehindOnlyAfterError` | python/src/executor.rs:242-262 | a return leaves events behind exactly when the last pump stopped at an ignored callback error with events behind it |
| `ProgressRuns.BlockedIff` | python/src/dataset.rs:4028-4038 | short of the end no step is possible if and only if the pumping thread waits to send a start or complete into a full queue |
| `ProgressRuns.SticksWhenFull` | python/src/dataset.rs:4028-4038 | a build on the pumping thread can reach that state |
| `ProgressRuns.RunSticksIff` | python/src/dataset.rs:4028-4038 | a build on the pumping thread ends up blocked for good if and only if in some wait it reports a start or complete behind 1024 or more other reports |
| `ProgressRuns.OtherThreadsNeverStick` | python/src/dataset.rs:4028-4038 | in every run of a build on other threads an event that waits to be sent is offered in some continuation, and a start or complete then enters the queue |
| `IndexProgress.Reporter.Send` | python/src/dataset.rs:4034-4048 | a start or complete waits for room, progress is dropped without it |
| `IndexProgress.Reporter.Report` | python/src/dataset.rs:4052-4109 | the stage under way and the event of each kind of report |
| `IndexProgress.Reporter.Dispatch` | python/src/dataset.rs:4135-4137 | the callback gets the first queued event, and its error counts unless the event is a complete |
| `IndexProgress.Reporter.Drain` | python/src/dataset.rs:4134-4152 | the callback gets the queued events in order up to the first error that counts |
| `IndexProgress.Reporter.DrainWhileBuilding` | python/src/dataset.rs:4134-4152 | draining ends with an empty queue or a callback error although other threads report meanwhile |
| `IndexProgress.Reporter.BlockOnPumping` | python/src/executor.rs:206-264 | how pump, wait and final pump end, with reports from other threads during waits and pumps; no report is skipped or repeated, and all are made if the call finishes; blocked exactly for a build on the pumping thread that finds no room; and what was delivered when they finish |
| `SharedBitmaps.MadeUniqueMeaning` | python/src/bitmap.rs:340-350 | making a buffer unique leaves no other handle or running operation on it and changes no contents |
| `SharedBitmaps.WrittenMeaning` | python/src/bitmap.rs:340-350 | writing to a unique buffer changes its own handle only |
| `SharedBitmaps.RetainedMeaning` | python/src/bitmap.rs:145-159 | lending a buffer to an operation counts one more reference |
| `SharedBitmaps.DroppedMeaning` | python/src/bitmap.rs:145-159 | giving it back frees the buffer only when no handle is left |
| `SharedBitmaps.CollectMeaning` | python/src/bitmap.rs:85-90 | an iterable is collected exactly if all its items are 32-bit values; else the error is that of the first that is not |
| `BitmapRuns.SharedMeaning` | python/src/bitmap.rs:336-338 | a copy shares the buffer and has equal contents |
| `BitmapRuns.CombinedMeaning` | python/src/bitmap.rs:378-404 | an operator applied to a lent buffer is the set operation, also when the receiver shares that buffer |
| `BitmapRuns.InPlaceRefines` | python/src/bitmap.rs:378-404 | borrowing the receiver, coercing the operand and applying the operator is the set operation, or nothing and a borrow error exactly when the operand is the receiver |
| `BitmapMeaning.CombineMembership` | python/src/bitmap.rs:378-404 | value by value: after an operator replies, its receiver holds what is in either, in both, in the receiver alone, or in exactly one of receiver and operand; it replies so if and only if the operand is usable and not the receiver |
| `BitmapMeaning.EagerCombine` | python/src/bitmap.rs:378-404 | the same on plain sets, and no other bitmap or iterator changes |
| `BitmapMeaning.EagerCreate` | python/src/bitmap.rs:180-200 | a new bitmap holds exactly the values of what it was made from, or none is made |
| `BitmapMeaning.CopySharesBuffer` | python/src/bitmap.rs:180-200 | a copy, or a bitmap made from a bitmap, shares the buffer and none is made |
| `BitmapMeaning.CopiedIffShared` | python/src/bitmap.rs:340-350 | before a write a buffer is copied if and only if something else refers to it |
| `BitmapMeaning.EagerPop` | python/src/bitmap.rs:362-369 | pop yields the least value and takes just that one, or fails on an empty bitmap and changes nothing |
| `BitmapMeaning.EagerEdit` | python/src/bitmap.rs:340-374 | add, discard, remove and clear, value by value, and no other bitmap changes |
| `BitmapRuns.StepRefines` | python/src/bitmap.rs:336-404 | every operation replies and leaves all contents as with eagerly copied sets, except that an operator refuses its own receiver |
| `BitmapRuns.RefinesIffNotOwnOperand` | python/src/bitmap.rs:384-404 | an operation behaves as on plain sets if and only if it is no operator with its own receiver as operand |
| `BitmapRuns.OwnOperandExample` | python/src/bitmap.rs:384-404 | a program of two operations whose second is refused where plain sets would do it |
| `BitmapRuns.EveryRunRefines` | python/src/bitmap.rs:180-404 | so does every run, operation by operation |
| `BitmapRuns.Untouched` | python/src/bitmap.rs:334-338 | a run that never targets a bitmap leaves it as it was, whatever it shares |
| `BitmapRuns.IteratorUntouched` | python/src/bitmap.rs:212-218 | a started iterator yields what it would have, whatever is mutated meanwhile |
| `BitmapHeap.Heap.MakeMut` | python/src/bitmap.rs:342-344 | the buffer is copied if anything else refers to it |
| `BitmapHeap.Heap.Add` | python/src/bitmap.rs:342-344 | the new buffers, counts and handles |
| `BitmapHeap.Heap.Discard` | python/src/bitmap.rs:348-350 | likewise, without the value |
| `BitmapHeap.Heap.Remove` | python/src/bitmap.rs:353-359 | likewise, with a key error exactly for a missing value |
| `BitmapHeap.Heap.Pop` | python/src/bitmap.rs:362-369 | yields and removes the least value, or a key error if empty |
| `BitmapHeap.Heap.Clear` | python/src/bitmap.rs:372-374 | likewise, with no values |
| `BitmapHeap.Heap.Combine` | python/src/bitmap.rs:384-404 | the receiver is borrowed, the operand coerced and the operator applied, so that value by value the receiver holds the union, intersection, difference or symmetric difference; a refused operand is an error without effect |
| `BitmapHeap.Heap.CombineWith` | python/src/bitmap.rs:378-404 | the operand's reference is held during the operation and given back |
| `BitmapHeap.Heap.RequiredOperand` | python/src/bitmap.rs:154-159 | a bitmap lends its buffer unless it is borrowed; anything else, and a borrowed bitmap, is iterated |
| `BitmapHeap.Heap.CollectItems` | python/src/bitmap.rs:85-90 | takes the items in order up to the first that is no value |
| `BitmapHeap.Heap.Create` | python/src/bitmap.rs:180-200 | a new handle on the same buffer for a bitmap, on a new buffer for values, or an error and no handle |
| `BitmapHeap.Heap.Copy` | python/src/bitmap.rs:184-186 | a new handle on the same buffer with one more reference |
| `BitmapHeap.Heap.Iterate` | python/src/bitmap.rs:212-218 | the iterator owns a copy of the values |
| `BitmapHeap.Heap.Advance` | python/src/bitmap.rs:29-31 | yields and consumes the least value left, or stops |

## Left out

- The macOS half of the allocator and its interpose table: thin wrappers that carry no header logic.
- `aligned_alloc` and `valloc` have memalign's body and `reallocarray` is a checked product and realloc; they are covered by `Memalign` and `Realloc`. `malloc_usable_size` only reads a header.
- A foreign pointer whose preceding 32 bytes happen to hold the magic number.
- realloc to zero bytes under a libc that frees and returns null: the model's libc leaves the old block alone when it returns null.
- Weak memory: each atomic operation is one step of an interleaving. `fetch_update` with its retries is one step, and reset is one step taken while no call is in flight.
- Wrap-around of the 64-bit counters.
- Floats: rounding, NaN and infinite inputs, equality of bit patterns in the compare-exchange. Square roots are any value with the right square, and the logarithmic interpolation is a parameter.
- The Windows build, where no fork handler is registered.
- A fork taken by a thread that is itself inside the executor's initialisation.
- The oracle's thread pool, query blocks and previous-truth scores: queries are merged one after another.
- Groups with k = 0, whose recall would be the mean of nothing; the report records, digests and file handling of the calibration; the evaluation command; the grid search over floors, caps and margins.
- The range of Python's datetime, time zone conversion, and fractions of a microsecond.
- File collection and the command line of the comment checker.
- Several producers on one progress channel, a receiver that was dropped, Tokio scheduling, the interpreter lock and signals.
- Construction of bitmaps from Arrow arrays; iterables that raise, or that use the receiver while they are iterated; comparison and binary operators, which only read; serialisation; the compressed representation of a bitmap.
