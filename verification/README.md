# eth-mon-svr: verified model

This project models the core of the Ethereum monitoring server and proves, for every input and every run, what its
parts promise each other. `dafny verify dfyconfig.toml` checks all of it.

* **Pending pool** (`PoolSpec.dfy`, `Mempool.dfy`). One set of transactions in three indexes: sender and nonce, hash,
  and expiry block with a back-pointer for swap-removal. Every operation keeps the indexes in agreement and refines a
  plain map from (sender, nonce) to transaction.
* **Wait statistics** (`WaitStats.dfy`, `FeeUpload.dfy`, `BlockStore.dfy`). From receipts to uploaded fee buckets,
  every counted transaction is accounted for exactly once.
* **Gas analysis** (`Percentiles.dfy`, `Outliers.dfy`, `Prediction.dfy`, `BaseFee.dfy`, `Analyzer.dfy`). Weighted
  percentiles against a definition that does not mention order, outlier clipping that changes no percentile, fee
  levels in order end to end, and the base-fee rule of EIP-1559.
* **Goroutines** (`ReadyProtocol.dfy`, `Goroutines.dfy`). The pool, the store and the analyzer as the block goroutine,
  the pending workers, the failed-block loop and the analysis share them, with one method for each critical section.
  Every run of these sections is a run of the ready protocol, a small state machine whose invariants hold in all
  interleavings.
* **Block pipeline** (`Chain.dfy`, `Processor.dfy`, `Gaps.dfy`, `PipelineLog.dfy`, `Pipeline.dfy`). A reordering buffer
  with retry, reorganisation, backfill, wake-up and resync over an unreliable node, with the other goroutines running
  between any two critical sections.
* **Upload queue** (`UploadQueue.dfy`). The drop-oldest channel as a state machine over all interleavings.

## How it is modelled

* An object that the program updates in place is a class, and its methods are proved against specification functions
  on values. The properties over whole runs are lemmas about those functions. Each account's nonce map is a map value
  inside the sender index, since no two accounts share one.
* Integers are unbounded unless the width matters. It matters, and is written out, for the doubling of the 95th
  percentile, the maximum fee, the fee bucket number and the conversion of base fees to 64 bits.
* `float64` values are exact reals. The gas weight (a square root) is an arbitrary non-negative function, positive when
  gas was used of a positive limit; the decay table is an arbitrary table of positive numbers.
* The node answers arbitrarily and may fail at any call. It keeps a ghost record of who asked what and of its answers,
  apart for the block loop, for a start or resync, and for the failed-block loop, and what the program does is stated
  in those answers. Every step of the model is one critical section, one channel operation or one call to the node.
  Between any two sections of the block goroutine, also inside `ProcessBlock`, `Initialize` and `Resync`, the other
  goroutines take any number of steps (`Shared.Interfere`): a worker reads the current block, and pushes with that
  stamp in a later step; the failed-block loop takes, checks, fetches and cleans up; the analysis locks, checks, reads
  the pool, stores, blends, sends and unlocks. A failed attempt and a failed resync have no section of their own, so
  nothing falls between their calls to the node. Reading the store needs no step, since only the block goroutine
  writes it.
* The state of the ready protocol is a ghost field of the shared state. `Shared.Valid` says that it is the end of a run
  of the protocol and agrees with the fields it stands for, and the contract of each section says which step it takes.
  The unset phases are those from the start, or from a reset, until the first block is published; the building phases
  go on until the analyzer is ready.

Assumptions, all of them visible in types or preconditions:

* A transaction hash determines the transaction's sender, nonce and caps (`meaning`).
* A header asked for by number has that number, carries a base fee, and has a gas limit of at least two; a receipt
  is not nil and used some gas.
* For termination of the processing loop: the node reports only finitely many changes of hash for numbers it already
  reported (`Node.changesLeft`). Safety does not depend on the bound.
* The store keeps at least one block. The server configures ten.

## What turned out false

* *A gap event is never dropped by the call that enqueues its prediction, given a capacity of two or more.* False: the
  consumer can work off the rest of the channel between the producer's full test and its drop, which then hits the
  gap (`UploadQueue.GapDropped`). It holds for all interleavings exactly when the channel has room for two messages
  before the call (`UploadQueue.GapSurvivesExactly`), and with capacity two if the consumer is idle meanwhile
  (`UploadQueue.GapSurvivesIdle`). A run from the empty channel shows the loss (`UploadQueue.GapDroppedRun`).
* *A pooled transaction was first seen at a block of the current run.* False: a worker that reads the current block
  between the reset of a resync and the publication of its block gets block 0, and if it pushes after the pool was
  cleared, that stamp is pooled (`ReadyProtocol.StaleStamp`); so is one read before
  the server has initialised. Once mined, such a transaction is recorded as having waited for the whole chain
  (`PoolSpec.StaleWait`), which enters the uploaded averages. While block numbers rise, a stamp is a block of the run
  exactly when it was read after the run's first block was published (`ReadyProtocol.StampExact`); and the recorded
  waits stay within the run exactly when the stamps of the settled transactions do (`Goroutines.Shared.WaitsReach`).
* *The analyzer is ready at any moment of a run.* Exactly outside initialisation and the part of a resync from the reset
  on (`Goroutines.Shared.ReadyExactly`).
* *A next block that is pending always has a wake-up.* Not if the node answers for the next number and not for a later
  missing one below a pending one; exactly then a backfill leaves the next block pending and sends no wake-up
  (`Gaps.StrandedExactly`, `Pipeline.BlockPipeline.OnWakeup`). An example is `Gaps.StrandedRun`.
* *Ordered priority fees give ordered maximum fees.* Only while the 64-bit sums wrap for all levels or for none
  (`Prediction.MaxFeeOrder`; a triple that breaks it is `Prediction.MaxFeeDisorder`).
* *A tip lies in the published range of its fee bucket.* Only below 2^32 buckets of half a gwei (`FeeUpload.RangeExact`;
  the lowest tip outside is `FeeUpload.RangeMissed`).
* *The branch for missing levels is dead.* Only if the store keeps at least one block
  (`ReadyProtocol.DeadBranchExactly`, `ReadyProtocol.WithoutStore`).

Where `docs/CODE_REVIEW.md` and the code disagree the model follows the code: the upload queue drops its oldest message
and not the newest, a missing header is an error and not a nil header, and the decay table is as long as the block
store.

## Model

| member | source | states |
|---|---|---|
| Mempool.PendingMemPool.Perform | internal/mempool/pool.go:38-280 | any run of push, receipts, expiry and clear keeps the three indexes in agreement (same transactions, no empty account, no empty bucket, exact back-pointers) and equals the same run on the plain map |
| Mempool.PendingMemPool.HashIndexIsPool | internal/mempool/pool.go:14-21 | a hash is in the hash index exactly when the plain map holds its transaction, and both hold the same data |
| Mempool.PendingMemPool.PushBatch | internal/mempool/pool.go:102-129 | a batch does to the three indexes what offering its stamped transactions one by one does to the map |
| Mempool.PendingMemPool.PushOne | internal/mempool/pool.go:105-128 | one transaction is inserted, replaces its slot's holder, or is refused, as the map's rule says |
| Mempool.PendingMemPool.Evict | internal/mempool/pool.go:114-122 | a replaced transaction leaves the bucket and the hash index, with the other two indexes still consistent around its slot |
| Mempool.PendingMemPool.Insert | internal/mempool/pool.go:124-127 | entering a transaction restores agreement of all three indexes |
| Mempool.PendingMemPool.AddExpireBucket | internal/mempool/pool.go:131-135 | exactly this transaction joins the bucket index, and every back-pointer stays exact |
| Mempool.PendingMemPool.RemoveExpireBucket | internal/mempool/pool.go:137-166 | exactly this transaction leaves the bucket index, the moved one's back-pointer is fixed, no empty bucket stays, and the three early returns never happen |
| Mempool.PendingMemPool.RemoveByHash | internal/mempool/pool.go:232-244 | the transaction leaves all three indexes and nothing else does |
| Mempool.PendingMemPool.RemoveByReceipts | internal/mempool/pool.go:170-230 | the pool becomes the settled map, the returned buckets enumerate the statistics of the wait records (`PoolSpec.SettleRecords`) once each with histograms that add up, and the count is the number of records |
| Mempool.PendingMemPool.SettleReceipt | internal/mempool/pool.go:179-221 | one receipt removes its transaction and records its wait unless it was seen late |
| Mempool.PendingMemPool.RemoveExpired | internal/mempool/pool.go:246-280 | exactly the transactions with expiry at or before the block go, and the result is the exact drop in size |
| Mempool.PendingMemPool.DropBucket | internal/mempool/pool.go:252-277 | one bucket and exactly its transactions go |
| Mempool.PendingMemPool.DropOne | internal/mempool/pool.go:256-274 | one expired transaction leaves the sender and hash indexes; the two skip branches never happen |
| Mempool.PendingMemPool.Snapshot | internal/mempool/pool.go:283-321 | every pooled transaction exactly once, flagged exactly when a nonce between a pooled one of its sender and its own is missing |
| Mempool.SnapAccount | internal/mempool/pool.go:289-318 | the running flag over sorted nonces equals the gap definition for each of them |
| Mempool.GapStep | internal/mempool/pool.go:303-317 | between consecutive sorted nonces a gap opens exactly when they are not adjacent |
| PoolSpec.OfferExact | internal/mempool/pool.go:105-128 | an offered transaction takes its slot exactly if it is empty or both caps are strictly higher, and no other slot changes |
| PoolSpec.PushedAs | internal/mempool/pool.go:83-96 | what a push brings into the pool carries its block and time, and expires a time-to-live of blocks later |
| PoolSpec.OfferAllRises | internal/mempool/pool.go:114-128 | a batch empties no slot and changes a holder only to one with both caps strictly higher |
| PoolSpec.OfferAllBest | internal/mempool/pool.go:105-128 | after a batch no offered transaction outbids the holder of its slot |
| PoolSpec.OfferAllOrigin | internal/mempool/pool.go:105-128 | every holder after a batch was there before or was offered |
| PoolSpec.LifetimeRises | internal/mempool/pool.go:105-128 | over any run during which a slot stays occupied, its holder is the same or has both caps strictly higher |
| PoolSpec.LivesForTtl | internal/mempool/pool.go:93-93 | left alone, a transaction stays pooled until exactly its time-to-live in blocks after it was first seen |
| PoolSpec.ReplacedStaysGone | internal/mempool/pool.go:114-126 | a replaced transaction is not pooled again by any operation while its slot stays occupied |
| PoolSpec.SettleRemoves | internal/mempool/pool.go:179-220 | exactly the transactions named by a receipt leave, in whatever order and however often they are named |
| PoolSpec.SettleCounts | internal/mempool/pool.go:185-220 | for any property of waits, as many records have it as mined and not late transactions do; what each record says is `PoolSpec.SettleRecords` |
| PoolSpec.SettleCountsAll | internal/mempool/pool.go:178-221 | the number of wait records is the number of mined, not late, pooled transactions |
| PoolSpec.SettleRecords | internal/mempool/pool.go:179-216 | the records are entry by entry those of the pooled transactions named by a receipt and seen no later than the block, each once: blocks and seconds from when it was seen to the block, and the half gwei of its tip |
| PoolSpec.WaitsExact | internal/mempool/pool.go:185-197 | no recorded wait reaches back before a block exactly when no settled transaction is stamped before it |
| PoolSpec.StaleWait | internal/mempool/pool.go:185-197 | a transaction stamped with block 0 is recorded as having waited for the whole chain |
| PoolSpec.RunAfterWipe | internal/mempool/pool.go:38-45 | what is pooled comes from the operations after the last clear |
| WaitStats.StatForBalanced | internal/mempool/pool.go:198-216 | the histogram adds up to the transaction count and uses slots 0 to 10 only |
| WaitStats.StatForCounts | internal/mempool/pool.go:198-216 | the count is the number of transactions of the bucket, slots 0 to 9 those that waited so many blocks, slot 10 those that waited ten or more |
| WaitStats.StatForTotals | internal/mempool/pool.go:207-209 | total blocks and seconds are the sums over the transactions of the bucket, each once |
| WaitStats.HistogramVersusTotal | internal/mempool/pool.go:207-216 | the total wait equals what the histogram shows exactly when no counted wait exceeded ten blocks, and is more otherwise |
| WaitStats.CountsConserved | internal/mempool/pool.go:223-229 | however the buckets are listed, their counts add up to the number of counted transactions |
| WaitStats.EnumeratedBalanced | internal/mempool/pool.go:198-227 | however the buckets are listed, each histogram adds up to its count |
| WaitStats.ListStats | internal/mempool/pool.go:223-227 | the values of the table once each, whatever the iteration order |
| WaitStats.MergeIsConcat | internal/processor/processor_block.go:271-277 | adding two statistics field by field is the statistic of the joined lists |
| FeeUpload.AggregateFeeBucket | internal/processor/processor_block.go:253-282 | per bucket the field-wise sum over all blocks, for exactly the buckets that occur |
| FeeUpload.WindowStatistics | internal/processor/processor_block.go:253-282 | aggregating a window gives the statistics of all transactions counted in its blocks |
| FeeUpload.CountSlots | internal/processor/processor_block.go:304-315 | the non-empty histogram slots in order, with nothing lost |
| FeeUpload.ConvertFeeBuckets | internal/processor/processor_block.go:284-321 | messages for exactly the non-empty buckets, in strictly rising bucket order |
| FeeUpload.ToMessage | internal/processor/processor_block.go:292-315 | range, totals, exact averages and non-empty slots of one bucket |
| FeeUpload.UploadConserves | internal/processor/processor_block.go:294-315 | an uploaded message covers half a gwei from half its bucket number on; its transaction count and each of its wait counts are the numbers of counted transactions they stand for, and the wait counts add up to the count |
| FeeUpload.UploadAverages | internal/processor/processor_block.go:300-301 | the uploaded averages are those of the waits of the transactions of the bucket, each once |
| FeeUpload.UploadEmpty | internal/processor/processor_block.go:227-238 | there is something to upload exactly when a transaction was counted |
| FeeUpload.UploadTotal | internal/processor/processor_block.go:220-251 | over a whole upload the counts add up to the number of transactions counted in the window |
| FeeUpload.RangeExact | internal/processor/processor_block.go:323-330 | a tip in gwei lies in the published half-gwei range of its bucket exactly when it is below 2^32 half gwei |
| FeeUpload.RangeMissed | internal/processor/processor_block.go:323-330 | the lowest tip outside the published range of its bucket |
| BlockStore.WindowHolds | internal/blockstore/store.go:27-35 | for rising block numbers the window is strictly decreasing and holds a number exactly when fewer than `max` blocks came after it |
| BlockStore.Store.AddBlock | internal/blockstore/store.go:27-35 | the window shows the newest `max` of everything added since the last clear |
| Percentiles.CalculateWeightedPercentiles | internal/gasanalyzer/util.go:30-62 | each of the thirteen results is the tip at the first position whose running weight reaches its share; no result only for zero weight; nothing is left for the fill-up loop |
| Percentiles.LeastIndexIsPercentile | internal/gasanalyzer/util.go:42-47 | on a sorted pool that position's tip is the least value at or below which the share of the weight lies |
| Percentiles.MedianOfTwo | internal/gasanalyzer/util.go:42-47 | of two tips of equal weight the lower one is the median and the higher one every percentile above |
| Percentiles.ScanIsPercentiles | internal/gasanalyzer/util.go:30-62 | on a sorted pool the one-pass scan returns the thirteen percentiles of the order-free definition |
| Percentiles.PercentilesOrdered | internal/gasanalyzer/type.go:29-43 | the percentiles are non-decreasing |
| Percentiles.PercentilesOfArrangement | internal/gasanalyzer/analyzer.go:195-198 | percentiles do not depend on how the unstable sort arranges ties |
| Percentiles.TotalWeight | internal/gasanalyzer/util.go:5-12 | the sum of the weights |
| Outliers.CalculateOuterBound | internal/gasanalyzer/util.go:85-133 | the bound is twice the 95th percentile or 2^64-1 if that is less, the count is the number of tips above it and they are the last ones; no clip for zero weight or a zero percentile |
| Outliers.FindP95 | internal/gasanalyzer/util.go:101-111 | the tip at the first position reaching 95 percent of the weight; the search never runs out |
| Outliers.SearchAbove | internal/gasanalyzer/util.go:125-127 | the first position above the bound |
| Outliers.WrapTestExact | internal/gasanalyzer/util.go:120-123 | the test for a wrapped doubling is exact |
| Outliers.CapKeepsPercentile | internal/gasanalyzer/analyzer.go:203-209 | capping at a bound keeps every percentile at or below the bound |
| Outliers.ClipKeepsPercentiles | internal/gasanalyzer/analyzer.go:200-211 | all thirteen percentiles of the clipped pool are those of the pool |
| Prediction.Clip | internal/gasanalyzer/analyzer.go:203-209 | in place, every tip becomes the smaller of itself and the bound |
| Prediction.CalculateWeightedValue | internal/gasanalyzer/util.go:64-83 | the weighted average of the named values cut to an integer, zero if none is named |
| Prediction.AverageBetween | internal/gasanalyzer/util.go:64-83 | a truncated average lies between any bounds of the values averaged |
| Prediction.BuildPrediction | internal/gasanalyzer/util.go:14-28 | exactly market, fast and urgent, each the truncated average of its group |
| Prediction.LevelsOrdered | internal/gasanalyzer/type.go:73-97 | ordered percentiles give market <= fast <= urgent, each within its own group of percentiles |
| Prediction.PendingPercentiles | internal/gasanalyzer/analyzer.go:187-214 | sorted and clipped in place, the levels are still those of the pool passed in, and in order; defaults for an empty pool, zeros for zero weight |
| Prediction.BlockPercentiles | internal/gasanalyzer/analyzer.go:216-232 | the levels and the 20th percentile of the pool passed in, in order; 0.75, 1 and 1.5 gwei and a cutoff of one million for an empty pool |
| Prediction.AnalysisOrdered | internal/gasanalyzer/analyzer.go:187-232 | whatever the pool, an analysis has its three levels in order |
| Prediction.AnalysisMeans | internal/gasanalyzer/type.go:30-97 | market, fast and urgent are the averages, cut to integers, of the percentiles at 40 to 60, 65 to 85 and 85 to 95 percent of the weight with the weights 1 1 4 1 1, 1 5 10 5 1 and 1 3 1; zeros without weight; fixed levels for an empty pool |
| Prediction.Blend | internal/gasanalyzer/analyzer.go:255-259 | one part block and four parts pending, cut to an integer, which lies between its two inputs |
| Prediction.BlendMonotone | internal/gasanalyzer/analyzer.go:255-259 | higher inputs never blend to a lower fee |
| Prediction.MaxFeeOrder | internal/gasanalyzer/analyzer.go:261-264 | ordered fees give ordered maximum fees exactly when the sums wrap for all levels or for none |
| Prediction.MaxFeeDisorder | internal/gasanalyzer/analyzer.go:261-264 | ordered fees on one base fee whose maximum fees are not ordered |
| BaseFee.NextIsChange | internal/gasanalyzer/fee.go:45-88 | the fee moves by the share of it, cut to an integer, that the distance from the target is of eight targets: down below the target, up by at least one above it; the clamp plays no part |
| BaseFee.NextWithin | internal/gasanalyzer/fee.go:45-88 | at least the fee minus an eighth; at most plus an eighth, or one, up to twice the target; above the fee exactly for more gas than the target |
| BaseFee.ClampUnreachable | internal/gasanalyzer/fee.go:83-85 | the value before the clamp is never negative |
| BaseFee.MonotoneInGasUsed | internal/gasanalyzer/fee.go:62-81 | more gas used never lowers the next fee |
| BaseFee.MonotoneInFee | internal/gasanalyzer/fee.go:62-81 | a higher fee never leads to a lower next fee |
| BaseFee.FloorOfSeven | internal/gasanalyzer/fee.go:45-88 | over any run of blocks a fee of seven or more stays at least seven and a lower one never falls |
| Analyzer.EffectiveTip | internal/gasanalyzer/fee.go:9-23 | absent exactly when the fee cap does not exceed the base fee; otherwise within both caps and meeting one of them |
| Analyzer.EffectiveTipFromReceipt | internal/gasanalyzer/fee.go:25-43 | present exactly for a positive tip that fits 64 bits, and then price is base fee plus tip |
| Analyzer.TipRoundTrip | internal/gasanalyzer/fee.go:9-43 | the receipt of a mined transaction gives back the tip computed from its caps, unless it is zero |
| Analyzer.CollectedExact | internal/gasanalyzer/analyzer.go:140-185 | the tips collected are entry by entry those of the affordable transactions, each once and in order: within both caps and meeting one, with half the weight after a nonce gap |
| Analyzer.Analyzer.CollectPendingTx | internal/gasanalyzer/analyzer.go:140-185 | the collected tips of a snapshot, in order |
| Analyzer.BlendOrdered | internal/gasanalyzer/analyzer.go:252-270 | two ordered results blend to an ordered prediction, whose maximum fees are ordered exactly when the sums wrap alike |
| Analyzer.BlendExact | internal/gasanalyzer/analyzer.go:252-264 | what a blend says of each predicted level, in numbers |
| Analyzer.Analyzer.UpdateResult | internal/gasanalyzer/analyzer.go:234-276 | each level of the block result gets one part block fee and four parts pending fee, cut to an integer, with no pending fee counting as zero, and the 64-bit sum with the base fee as maximum; a level without a block fee keeps its earlier prediction; order as in `Analyzer.BlendOrdered` |
| Processor.TxsOfExact | internal/processor/processor_block.go:126-154 | the transactions recorded are entry by entry those of the receipts with a usable tip, each once and in order, and each paid exactly base fee plus recorded tip |
| Processor.BlockRecords | internal/processor/processor_block.go:126-154 | the record of a block carries number, base fee and gas limit of the header and exactly the usable receipts |
| Processor.WindowTipsExact | internal/processor/processor_block.go:184-199 | the analysed tips are entry by entry those of all stored transactions within the decay table, each once, with the weight decayed by the age of its block |
| Processor.Process.CalculateBlockTxTip | internal/processor/processor_block.go:126-154 | the block record of the receipts that show a usable tip |
| Processor.Process.UpdateBlockInfoForAnalysis | internal/processor/processor_block.go:173-208 | with the other goroutines between its two sections, the analyzer ends up describing the block and the decayed tips of the stored window, with levels in order; the store is never empty here |
| Processor.Process.AnalysedMeans | internal/processor/processor_block.go:173-207 | the published block data are the numbers of the header, with base fees cut to 64 bits and the next base fee of `BaseFee.NextIsChange` |
| Processor.Process.SendFeeBucketsToGrpc | internal/processor/processor_block.go:220-251 | one upload if a transaction of the stored window was counted, describing exactly the counted ones, and none otherwise |
| Processor.Process.ProcessBlock | internal/processor/processor.go:117-173 | an attempt asks the node for the receipts and succeeds exactly if it answers; a failed one changes nothing in store, pool and analyzer; a successful one, with the other goroutines between any two sections, settles and expires the pool once each, stores a non-empty block with exactly its usable receipts and with the waits of what was pooled when they were settled, and publishes its analysis |
| Processor.Process.Initialize | internal/processor/processor.go:175-196 | asks for the newest block and its receipts; exactly if both are known and there are receipts, that block is stored with its usable receipts and analysed and the analyzer is ready, with the other goroutines between the sections; otherwise nothing changes |
| Processor.Process.StoreFirst | internal/processor/processor_initialize.go:38-58 | the block is stored with exactly its usable receipts and without wait statistics |
| Processor.Process.Resync | internal/processor/processor.go:255-296 | asks for the newest block and its receipts; exactly if both are known and there are receipts, only that block is stored, with its usable receipts, and analysed, what is pooled was pushed after the pool was cleared, and the analyzer is ready, with the other goroutines between the sections; otherwise nothing changes |
| Processor.Process.SettleAndStore | internal/processor/processor.go:155-161 | the block is stored with exactly its usable receipts and with the waits of exactly what was pooled when its receipts were settled, whatever the other goroutines did in between |
| Processor.Process.Finish | internal/processor/processor.go:163-167 | the pool is expired once and the block published, all other pool operations being those of the other goroutines |
| Processor.Process.Rebuild | internal/processor/processor.go:271-288 | reset, refill and reopening with the other goroutines in between leave one stored block and a pool of what was pushed since it was cleared |
| Goroutines.Shared.Interfere | internal/processor/processor.go:109-113 | any steps of workers, failed-block loop and analysis keep the shared invariant; they never change readiness, block data, block levels, store or the progress of the block goroutine, and add only pushes and settlements to the pool |
| Goroutines.Shared.ReadyExactly | internal/processor/processor.go:271-288 | at every moment the analyzer is ready exactly outside the building phases, and then holds a complete and ordered block result |
| Goroutines.Shared.AnalysisFollows | internal/processor/processor.go:163-167 | at every moment outside the unset phases, also inside an attempt, while block numbers rise the analyzer describes a block between the base of the run and the block in work, and the latter exactly once it was published |
| Goroutines.Shared.PooledInRun | internal/processor/processor.go:109-113 | if every stamp pushed since the pool was cleared was read in the run, no pooled transaction is stamped before the run's base |
| Goroutines.Shared.StampsOfRun | internal/processor/processor.go:109-113 | while block numbers rise, a pushed stamp is a block of the run exactly when it was read in the run |
| Goroutines.Shared.SettledExact | internal/processor/processor_block.go:156-171 | settling a block records, entry by entry, the waits of the pooled transactions its receipts name, from the block and time they were seen to its own |
| Goroutines.Shared.WaitsReach | internal/processor/processor.go:155-158 | the waits a block would record stay within a bound exactly when the stamps of the settled transactions do |
| Goroutines.Shared.WaitsInRun | internal/processor/processor.go:155-158 | stamps read in the run give no wait from before the run |
| Goroutines.Shared.ReadBlock | internal/processor/processor.go:111-111 | a worker notes the published block and time; a worker step of the protocol |
| Goroutines.Shared.PushBatch | internal/processor/processor.go:112-112 | a worker offers its transactions with the stamp it read earlier; a worker step of the protocol |
| Goroutines.Shared.OfferFailed | internal/coordinator/blockPipeline.go:292-301 | a block given up on joins the channel exactly if it has room |
| Goroutines.Shared.TakeFailed | internal/coordinator/blockPipeline.go:303-316 | the oldest block given up on leaves the channel |
| Goroutines.Shared.CheckFailed | internal/coordinator/blockPipeline.go:323-343 | the node is asked once: without an answer the block is forgotten, with the same hash it is kept, with another hash the answered block takes its place |
| Goroutines.Shared.FetchFailed | internal/processor/processor.go:228-241 | the node is asked once: the block goes on with the receipts answered, or is forgotten if there are none |
| Goroutines.Shared.CleanUp | internal/processor/processor.go:243-252 | its mined transactions leave the pool; nothing else changes |
| Goroutines.Shared.AnalysisStep | internal/gasanalyzer/analyzer.go:97-138 | each section of an analysis takes one analysis step of the protocol, and what was sent before stays sent |
| Goroutines.Shared.EverySend | internal/gasanalyzer/analyzer.go:97-138 | whatever ran in between, every prediction ever sent blends each level one to four from a complete block result and the analysis of one state of the pool on one reading of the block data; market <= fast <= urgent, maximum fees in order exactly when they wrap alike, and the block after the one read |
| Goroutines.Shared.CheckReady | internal/gasanalyzer/analyzer.go:101-116 | the analysis goes on exactly if ready, with the block data read there |
| Goroutines.Shared.SnapPool | internal/gasanalyzer/analyzer.go:118-122 | the levels are those of the affordable transactions of one state of the pool, on the base fee read at the check |
| Goroutines.Shared.StorePending | internal/gasanalyzer/analyzer.go:124-125 | the pending levels are stored, priced on the base fee published by then |
| Goroutines.Shared.BlendResults | internal/gasanalyzer/analyzer.go:127-127 | the blend uses a block result that is complete although a block may have been published since the check |
| Goroutines.Shared.SendResult | internal/gasanalyzer/analyzer.go:129-132 | what is sent blends a complete block result with the analysis of one state of the pool on one reading of the block data, with ordered levels, and ordered maximum fees exactly when they wrap alike |
| Goroutines.Shared.LockReset | internal/gasanalyzer/analyzer.go:79-82 | a reset waits until no analysis is in progress, while all other goroutines go on, and then holds the mutex |
| Goroutines.Shared.WipeAnalyzer | internal/gasanalyzer/analyzer.go:86-88 | readiness, results and block data are wiped while no analysis is in progress; a block step of the protocol |
| Goroutines.Shared.Publish | internal/processor/processor_block.go:203-207 | block data and block levels are published in two sections; two block steps of the protocol, with the other goroutines in between |
| Goroutines.Shared.Settle | internal/processor/processor_block.go:156-171 | the statistics returned are those of the waits of what was pooled at that moment, which `Goroutines.Shared.SettledExact` spells out |
| Chain.Node.HeaderByNumber | internal/processor/processor.go:198-221 | an error or a header of that number, noted as the answer to this question; a changed hash uses up one of finitely many changes |
| PipelineLog.SettledExactlyOnce | internal/coordinator/blockPipeline.go:140-208 | every number from the start up to the one in work was settled once, by one success or one offer to the failed queue and never both; no other number was |
| PipelineLog.NothingAfterSettled | internal/coordinator/blockPipeline.go:140-186 | work goes on in number order, and never again on a settled number |
| PipelineLog.OfferedAfterFailure | internal/coordinator/blockPipeline.go:155-178 | a number is given up on only right after three failed attempts in a row, or one when the server is shutting down |
| PipelineLog.GivenUpSince | internal/coordinator/blockPipeline.go:173-184 | every number between the last success and the one in work was given up on |
| PipelineLog.OutcomesExact | internal/coordinator/blockPipeline.go:188-194 | an attempt counts as a success or a failure exactly as the node answered |
| Gaps.FillExact | internal/coordinator/blockPipeline.go:243-277 | the backfill stops at the least number neither pending nor answered, and below it adds exactly the headers it was answered |
| Gaps.AskedExact | internal/coordinator/blockPipeline.go:243-277 | the node is asked in ascending order, once each, for exactly the numbers not pending up to where the loop ends, the one it stops at included |
| Gaps.AnswersExact | internal/coordinator/blockPipeline.go:254-275 | a header counts as answered exactly if the node answered its number with it |
| Gaps.StrandedExactly | internal/coordinator/blockPipeline.go:243-279 | it stops with the next number pending exactly when the node answers for that number and not for a later missing one below a pending one |
| Gaps.StrandedRun | internal/coordinator/blockPipeline.go:243-279 | next block 5, block 7 pending, the node has 5 and not 6: block 5 stays pending without a wake-up |
| Pipeline.BlockPipeline.AnalysisFollows | internal/processor/processor.go:163-167 | at every step of the block loop, outside an attempt and a resync, the analyzer is ready, describes the last block processed with success, and predicts no further than the number in work |
| Pipeline.BlockPipeline.PooledInRun | internal/processor/processor.go:109-113 | at every step of the block loop, if all stamps pushed since the last clear were read in the run, every pooled transaction was first seen at its starting block or later |
| Pipeline.BlockPipeline.SettledSoFar | internal/coordinator/blockPipeline.go:140-208 | at every step of the block loop: the exactly-once property, and a number that was given up on is not in the store |
| Pipeline.BlockPipeline.AnsweredSoFar | internal/coordinator/blockPipeline.go:188-208 | at every step of the block loop a number was processed with success exactly if the node answered an attempt at it with receipts, and failed exactly if it answered with an error |
| Pipeline.BlockPipeline.GivenUpRightly | internal/coordinator/blockPipeline.go:155-178 | at every step of the block loop a number was given up on only right after three failed attempts in a row, or one when the server is shutting down |
| Pipeline.BlockPipeline.StoredWindow | internal/coordinator/blockPipeline.go:140-208 | at every step of the block loop the stored numbers are strictly decreasing, at most `max`, and below the number in work |
| Pipeline.BlockPipeline.BlockProcLoop | internal/coordinator/blockPipeline.go:94-114 | the invariant holds after every schedule of headers and wake-ups, with the other goroutines between any two critical sections: log, store, pending buffer, lag bound, wake-up token, protocol state |
| Pipeline.BlockPipeline.Start | internal/coordinator/blockPipeline.go:71-92 | after a successful initialisation the invariant holds and the next number follows the stored one |
| Pipeline.BlockPipeline.HandleHeader | internal/coordinator/blockPipeline.go:116-138 | nil, settled and pending headers change nothing; any other is processed up to the first number not pending, followed by the look for missing ones, which strands the next number exactly for the answers named by `Gaps.Stranded` |
| Pipeline.BlockPipeline.ProcAvailable | internal/coordinator/blockPipeline.go:140-186 | it processes up to the least number that was not pending and then looks for missing ones as `CheckBlockGap` does; the log only grows without a resync |
| Pipeline.BlockPipeline.Drain | internal/coordinator/blockPipeline.go:140-186 | the loop terminates, at exactly the least number not pending, whichever blocks succeed, fail or are reorganised |
| Pipeline.BlockPipeline.Step | internal/coordinator/blockPipeline.go:141-185 | one pass settles the number in work, or replaces its header and moves the node closer to settling |
| Pipeline.BlockPipeline.Attempt | internal/coordinator/blockPipeline.go:188-194 | one attempt asks the node once and succeeds exactly if it answers with receipts; a failed one changes no part of the processor |
| Pipeline.BlockPipeline.ProcWithRetry | internal/coordinator/blockPipeline.go:188-208 | three attempts, or fewer only if one succeeds or the server shuts down, each of them one question to the node and all failed but possibly the last |
| Pipeline.BlockPipeline.Recover | internal/coordinator/blockPipeline.go:156-179 | the node is asked once: a header with another hash replaces the one in work, in any other case the number is offered to the failed queue |
| Pipeline.BlockPipeline.FailedBlock | internal/coordinator/blockPipeline.go:292-301 | the header joins the failed queue if it holds fewer than ten; either way its number is settled |
| Pipeline.BlockPipeline.CheckStale | internal/coordinator/blockPipeline.go:362-380 | the node is asked once, and the block is stale exactly when it answers with a different hash |
| Pipeline.BlockPipeline.CheckBlockGap | internal/coordinator/blockPipeline.go:210-280 | nothing is asked if nothing is pending; a resync is tried exactly if the highest pending number is too far ahead; otherwise the gaps below it are filled from the answers of the node; the next number is left pending without a token exactly if the node answers for it and not for a later missing one |
| Pipeline.BlockPipeline.Backfill | internal/coordinator/blockPipeline.go:243-290 | the pending headers, the outcome and the questions to the node are those of the filling function on what the node answered |
| Pipeline.BlockPipeline.Highest | internal/coordinator/blockPipeline.go:214-220 | the highest pending number, or zero |
| Pipeline.BlockPipeline.Resync | internal/coordinator/blockPipeline.go:382-407 | the node is asked for its newest block; a new run starts after it with nothing pending exactly if it and some receipts of it are known, otherwise nothing changes |
| Pipeline.BlockPipeline.OnWakeup | internal/coordinator/blockPipeline.go:100-101 | with nothing missing one wake-up settles everything pending; afterwards the next number waits without a token exactly when the node answered for it and not for a later missing one |
| Pipeline.BlockPipeline.Interfere | internal/coordinator/blockPipeline.go:83-91 | the other goroutines keep the invariant and never touch the block loop's fields or the store |
| ReadyProtocol.EveryRun | internal/gasanalyzer/analyzer.go:79-138 | in every interleaving: ready exactly outside the building phases and then with all three block levels, no reset between a check and its send, the empty branch not taken, and no stamp of the run below its base |
| ReadyProtocol.BlocksKeep | internal/processor/processor_initialize.go:38-58 | each step of initialisation and block processing keeps the invariant |
| ReadyProtocol.ResyncKeeps | internal/processor/processor.go:271-288 | each step of a resync keeps the invariant |
| ReadyProtocol.WithoutStore | internal/processor/processor_block.go:179-183 | with a store that keeps nothing the first analysis takes the empty branch |
| ReadyProtocol.DeadBranchExactly | internal/gasanalyzer/analyzer.go:253-270 | the empty branch is dead in every run exactly when the store keeps at least one block |
| ReadyProtocol.StaleStamp | internal/processor/processor.go:109-113 | a schedule of one resync and one worker after which a stamp of block 0 is pooled in a run that began at block 200 |
| ReadyProtocol.StampExact | internal/processor/processor.go:109-113 | while block numbers rise, every held and pushed stamp is a block of the run exactly when it was read in the run |
| ReadyProtocol.LatestExact | internal/gasanalyzer/analyzer.go:307-321 | while block numbers rise, outside the unset phases the published block lies between the base of the run and the block in work, and is the latter exactly once that one was published |
| ReadyProtocol.WorkerKeeps | internal/processor/processor.go:111-112 | each step of a worker keeps the invariant |
| ReadyProtocol.AnalysisKeeps | internal/gasanalyzer/analyzer.go:97-138 | each step of an analysis keeps the invariant |
| UploadQueue.EnqueueKeeps | internal/network/grpcClient/client.go:259-282 | for every interleaving: within capacity, a contiguous suffix of everything enqueued, the new message last, nothing turned away, at most one message dropped |
| UploadQueue.SendKeeps | internal/network/grpcClient/client.go:234-257 | of the messages put in, the gaps cover exactly the numbers between the last acknowledged block and the new one, none without an acknowledged block, and the prediction is the newest message |
| UploadQueue.AcknowledgedOnly | internal/network/grpcClient/client.go:204-228 | the acknowledged block changes only on an acknowledgement, and only to that of a prediction that was waiting or in flight |
| UploadQueue.AcknowledgedNoted | internal/network/grpcClient/client.go:204-228 | the oldest message is taken, and its block is noted exactly if it is a prediction and was acknowledged |
| UploadQueue.EveryRun | internal/network/grpcClient/client.go:190-282 | the invariant holds in every run of sends and consumer steps; every older message was received or dropped, not both |
| UploadQueue.GapDropped | internal/network/grpcClient/client.go:264-274 | without room for two, an interleaving drops the gap within its own call |
| UploadQueue.GapDroppedRun | internal/network/grpcClient/client.go:234-282 | a run from the empty channel of capacity three in which a gap is dropped by its own call |
| UploadQueue.GapSurvivesExactly | internal/network/grpcClient/client.go:244-281 | the gap survives its own call in every interleaving exactly when there was room for two |
| UploadQueue.GapSurvivesIdle | internal/network/grpcClient/client.go:244-281 | with capacity two and an idle consumer the gap survives its own call |
| UploadQueue.GasPredictionClient.Consumer | internal/network/grpcClient/client.go:190-232 | the stream worker does what the consumer steps say, which take the oldest message and note the block of an acknowledged prediction only |
| UploadQueue.GasPredictionClient.Put | internal/network/grpcClient/client.go:259-282 | the three selects do what the queue steps say, and the last one always finds room |
| UploadQueue.GasPredictionClient.GasPredictResultSend | internal/network/grpcClient/client.go:234-257 | after the call a number lies in a newly announced gap exactly if it is above the acknowledged block and below the new one, and the prediction is the newest message |

## Left out

- Mempool.PendingMemPool.PushBatch: starts from the validated list; raw transactions, legacy prices and signature recovery (internal/mempool/pool.go:54-96) are not modelled, and block number plus time-to-live does not overflow.
- Prediction.CalculateWeightedValue: groups with a negative weight, which the tables never contain, are not covered.
- WaitStats.Record: the 32-bit and 64-bit counters of the statistics do not wrap around.
- Percentiles.CalculateWeightedPercentiles: exact reals; the rounding of float64 sums is not modelled.
- Pipeline.BlockPipeline.HandleHeader: a header without a number counts as no header; block numbers do not overflow.
- Pipeline.BlockPipeline.ProcWithRetry: the delay between attempts has no length, only that the server may be told to shut down during it.
- UploadQueue.GasPredictionClient.Consumer: nil messages, the closed channel and the reconnecting stream are not modelled; a failed send is a finished message without acknowledgement.
- Prediction.SortByTip: stands for the library sort; only that its result is a sorted arrangement of the entries is used.
- The channel of headers and its dropping when full: the block loop is proved for every sequence of headers.
- The two receipt requests of a block are one answer of the node, and nil entries in a list of receipts do not occur.
- The fee-statistics channel and its retries, token handling, TLS and the other network plumbing.
- Subscriptions, provider rotation and rate limiting, and the batching of transaction requests.
- The histogram and oracle analyzers, which the server does not use.
- The comparison with the fee history, logging, counters and configuration.
- The square root behind the gas weight and the exponential behind the decay table.
