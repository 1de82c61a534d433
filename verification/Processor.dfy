/** Block processing (internal/processor): what one block does to the store, the pool and the analyzer. */
module Processor {
  import opened Common
  import opened BlockStore
  import opened WaitStats
  import opened FeeUpload
  import opened Percentiles
  import opened Prediction
  import opened Chain
  import opened Goroutines
  import PoolSpec
  import Analyzer
  import BaseFee
  import Ready = ReadyProtocol

  // ---------- the tips of the stored window ----------

  /** A stored transaction's tip, its gas weight decayed by the age of its block. */
  function Aged(tx: TxInfo, decay: real): WeightedTip {
    WeightedTip(tx.tip, tx.gasWeight * decay)
  }

  function BlockTips(b: BlockData, decay: real): seq<WeightedTip> {
    seq(|b.txs|, k requires 0 <= k < |b.txs| => Aged(b.txs[k], decay))
  }

  /**
   Every stored transaction's tip, weighted by gas and by the age of its block; blocks past the table do not count.
   */
  function WindowTips(blocks: seq<BlockData>, decay: seq<real>): seq<WeightedTip> {
    if blocks == [] then []
    else
      var n := |blocks| - 1;
      WindowTips(blocks[..n], decay) + (if n < |decay| then BlockTips(blocks[n], decay[n]) else [])
  }

  predicate PositiveWeights(b: BlockData) {
    forall k | 0 <= k < |b.txs| :: b.txs[k].gasWeight > 0.0
  }

  predicate AllPositive(s: seq<WeightedTip>) {
    forall i | 0 <= i < |s| :: s[i].weight > 0.0
  }

  lemma {:induction false} WindowPositive(blocks: seq<BlockData>, decay: seq<real>)
    requires forall i | 0 <= i < |blocks| :: PositiveWeights(blocks[i])
    requires forall i | 0 <= i < |decay| :: decay[i] > 0.0
    ensures AllPositive(WindowTips(blocks, decay))
  {
    if blocks != [] {
      WindowPositive(blocks[..|blocks| - 1], decay);
    }
  }

  /** The transaction at place (i, k): the k-th of the i-th newest block, which the decay table covers. */
  predicate Place(blocks: seq<BlockData>, ages: nat, p: (nat, nat)) {
    p.0 < |blocks| && p.0 < ages && p.1 < |blocks[p.0].txs|
  }

  predicate Before(p: (nat, nat), q: (nat, nat)) {
    p.0 < q.0 || (p.0 == q.0 && p.1 < q.1)
  }

  /** The tips are, entry by entry, those of the transactions at these places. */
  ghost predicate TipsAt(tips: seq<WeightedTip>, blocks: seq<BlockData>, decay: seq<real>, at: seq<(nat, nat)>) {
    && |at| == |tips|
    && forall k | 0 <= k < |at| ::
         && Place(blocks, |decay|, at[k])
         && tips[k].tip == blocks[at[k].0].txs[at[k].1].tip
         && tips[k].weight == blocks[at[k].0].txs[at[k].1].gasWeight * decay[at[k].0]
  }

  /** Every place of the window once and in order. */
  ghost predicate AllPlaces(blocks: seq<BlockData>, ages: nat, at: seq<(nat, nat)>) {
    && (forall i, j | 0 <= i < j < |at| :: Before(at[i], at[j]))
    && (forall p: (nat, nat) | Place(blocks, ages, p) :: p in at)
  }

  function Places(i: nat, count: nat): seq<(nat, nat)> {
    seq(count, k requires 0 <= k < count => (i, k))
  }

  /** The analysed tips are those of all stored transactions of the blocks the decay table covers, each once. */
  lemma {:induction false} WindowTipsExact(blocks: seq<BlockData>, decay: seq<real>) returns (at: seq<(nat, nat)>)
    ensures TipsAt(WindowTips(blocks, decay), blocks, decay, at)
    ensures AllPlaces(blocks, |decay|, at)
  {
    hide TipsAt, AllPlaces, Places;
    if blocks == [] {
      at := [];
      NoTips(decay);
    } else {
      var n := |blocks| - 1;
      var front := WindowTipsExact(blocks[..n], decay);
      if n < |decay| {
        at := front + Places(n, |blocks[n].txs|);
        TipsJoin(blocks, decay, front);
        PlacesJoin(blocks, |decay|, front);
      } else {
        at := front;
        TipsStay(WindowTips(blocks[..n], decay), blocks, decay, front);
        assert WindowTips(blocks, decay) == WindowTips(blocks[..n], decay);
        PlacesStay(blocks, |decay|, front);
      }
    }
  }

  lemma NoTips(decay: seq<real>)
    ensures TipsAt([], [], decay, []) && AllPlaces([], |decay|, [])
  {
  }

  lemma TipsJoin(blocks: seq<BlockData>, decay: seq<real>, front: seq<(nat, nat)>)
    requires blocks != [] && |blocks| <= |decay|
    requires TipsAt(WindowTips(blocks[..|blocks| - 1], decay), blocks[..|blocks| - 1], decay, front)
    ensures TipsAt(WindowTips(blocks, decay), blocks, decay, front + Places(|blocks| - 1, |blocks[|blocks| - 1].txs|))
    ensures forall k | 0 <= k < |front| :: front[k].0 < |blocks| - 1
  {
    var n := |blocks| - 1;
    var tips, front' := WindowTips(blocks, decay), WindowTips(blocks[..n], decay);
    var at := front + Places(n, |blocks[n].txs|);
    forall k | 0 <= k < |at|
      ensures Place(blocks, |decay|, at[k])
      ensures tips[k].tip == blocks[at[k].0].txs[at[k].1].tip
      ensures tips[k].weight == blocks[at[k].0].txs[at[k].1].gasWeight * decay[at[k].0]
    {
      if k < |front| {
        assert tips[k] == front'[k] && Place(blocks[..n], |decay|, front[k]);
      } else {
        assert tips[k] == Aged(blocks[n].txs[k - |front|], decay[n]);
      }
    }
  }

  lemma PlacesJoin(blocks: seq<BlockData>, ages: nat, front: seq<(nat, nat)>)
    requires blocks != [] && |blocks| <= ages && AllPlaces(blocks[..|blocks| - 1], ages, front)
    requires forall k | 0 <= k < |front| :: front[k].0 < |blocks| - 1
    ensures AllPlaces(blocks, ages, front + Places(|blocks| - 1, |blocks[|blocks| - 1].txs|))
  {
    var n := |blocks| - 1;
    var last := Places(n, |blocks[n].txs|);
    forall p: (nat, nat) | Place(blocks, ages, p) ensures p in front + last {
      if p.0 == n {
        assert last[p.1] == p;
      } else {
        assert Place(blocks[..n], ages, p);
      }
    }
  }

  lemma TipsStay(tips: seq<WeightedTip>, blocks: seq<BlockData>, decay: seq<real>, at: seq<(nat, nat)>)
    requires blocks != [] && TipsAt(tips, blocks[..|blocks| - 1], decay, at)
    ensures TipsAt(tips, blocks, decay, at)
  {
    forall k | 0 <= k < |at|
      ensures Place(blocks, |decay|, at[k])
      ensures tips[k].tip == blocks[at[k].0].txs[at[k].1].tip
      ensures tips[k].weight == blocks[at[k].0].txs[at[k].1].gasWeight * decay[at[k].0]
    {
      assert Place(blocks[..|blocks| - 1], |decay|, at[k]);
    }
  }

  lemma PlacesStay(blocks: seq<BlockData>, ages: nat, front: seq<(nat, nat)>)
    requires blocks != [] && |blocks| > ages && AllPlaces(blocks[..|blocks| - 1], ages, front)
    ensures AllPlaces(blocks, ages, front)
  {
    forall p: (nat, nat) | Place(blocks, ages, p) ensures p in front {
      assert Place(blocks[..|blocks| - 1], ages, p);
    }
  }

  lemma PositiveTotal(s: seq<WeightedTip>)
    requires AllPositive(s)
    ensures Weighted(s) && (s != [] ==> Total(s) > 0.0)
  {
    if s != [] {
      TotalNonNegative(s[..|s| - 1]);
    }
  }

  /** The cutoff is the 20th percentile, or its default when there are no tips. */
  ghost predicate CutoffOf(tips: seq<WeightedTip>, cutoff: uint64) {
    if tips == [] then cutoff == 1_000_000 else IsPercentile(tips, 0.20, cutoff)
  }

  // ---------- the record of one block ----------

  function TxOf(weigh: (nat, nat) -> real, header: Header, r: Receipt): Option<TxInfo> {
    match Analyzer.EffectiveTipFromReceipt(r.effectiveGasPrice, header.baseFee)
    case None => None
    case Some(tip) => Some(TxInfo(r.txHash, tip, r.gasUsed, weigh(r.gasUsed, header.gasLimit)))
  }

  /** The transactions of a block whose receipts show a usable tip, in receipt order. */
  function TxsOf(weigh: (nat, nat) -> real, header: Header, receipts: seq<Receipt>): seq<TxInfo> {
    if receipts == [] then []
    else
      var n := |receipts| - 1;
      match TxOf(weigh, header, receipts[n])
      case None => TxsOf(weigh, header, receipts[..n])
      case Some(tx) => TxsOf(weigh, header, receipts[..n]) + [tx]
  }

  function BlockOf(weigh: (nat, nat) -> real, header: Header, receipts: seq<Receipt>,
                   stats: seq<FeeBucketStat>): BlockData {
    BlockData(header.number, header.baseFee, header.gasLimit, TxsOf(weigh, header, receipts), stats)
  }

  /** The receipts with a positive tip that fits 64 bits. */
  ghost function Usable(header: Header, receipts: seq<Receipt>): set<nat> {
    set i | 0 <= i < |receipts| && receipts[i].effectiveGasPrice.Some?
            && 0 < receipts[i].effectiveGasPrice.value - header.baseFee < TWO_64
  }

  /** The record of a receipt: its transaction paid exactly base fee plus the recorded tip. */
  ghost predicate Records(weigh: (nat, nat) -> real, header: Header, r: Receipt, tx: TxInfo) {
    && tx.hash == r.txHash && tx.tip > 0 && r.effectiveGasPrice == Some(header.baseFee + tx.tip)
    && tx.gasUsed == r.gasUsed && tx.gasWeight == weigh(r.gasUsed, header.gasLimit)
  }

  ghost predicate AllRecorded(weigh: (nat, nat) -> real, header: Header, receipts: seq<Receipt>, txs: seq<TxInfo>,
                              at: seq<nat>) {
    && |at| == |txs|
    && forall k | 0 <= k < |at| :: at[k] < |receipts| && Records(weigh, header, receipts[at[k]], txs[k])
  }

  /** The transactions recorded are, entry by entry, those of the usable receipts, each of them once and in order. */
  lemma {:induction false} TxsOfExact(weigh: (nat, nat) -> real, header: Header, receipts: seq<Receipt>)
    returns (at: seq<nat>)
    ensures Visits(at, Usable(header, receipts))
    ensures AllRecorded(weigh, header, receipts, TxsOf(weigh, header, receipts), at)
  {
    if receipts == [] {
      at := [];
    } else {
      var n := |receipts| - 1;
      at := TxsOfExact(weigh, header, receipts[..n]);
      if TxOf(weigh, header, receipts[n]).Some? {
        at := at + [n];
      }
    }
  }

  /** The block carries the numbers of the header and, entry by entry, exactly the usable receipts. */
  ghost predicate RecordOf(b: BlockData, weigh: (nat, nat) -> real, header: Header, receipts: seq<Receipt>) {
    && b.number == header.number && b.baseFee == header.baseFee && b.gasLimit == header.gasLimit
    && exists at: seq<nat> :: Visits(at, Usable(header, receipts)) && AllRecorded(weigh, header, receipts, b.txs, at)
  }

  lemma BlockRecords(weigh: (nat, nat) -> real, header: Header, receipts: seq<Receipt>, stats: seq<FeeBucketStat>)
    ensures RecordOf(BlockOf(weigh, header, receipts, stats), weigh, header, receipts)
  {
    var at := TxsOfExact(weigh, header, receipts);
  }

  lemma BlockPositive(weigh: (nat, nat) -> real, header: Header, receipts: seq<Receipt>, stats: seq<FeeBucketStat>)
    requires Analyzer.GasWeight(weigh)
    ensures PositiveWeights(BlockOf(weigh, header, receipts, stats))
  {
    var at := TxsOfExact(weigh, header, receipts);
    forall k | 0 <= k < |TxsOf(weigh, header, receipts)| ensures TxsOf(weigh, header, receipts)[k].gasWeight > 0.0 {
      assert Records(weigh, header, receipts[at[k]], TxsOf(weigh, header, receipts)[k]);
    }
  }

  /** The waits of the newest n blocks, newest first. */
  ghost function Newest(waits: seq<seq<Wait>>, n: nat): seq<seq<Wait>>
    requires n <= |waits|
  {
    seq(n, i requires 0 <= i < n => waits[|waits| - 1 - i])
  }

  /** This block data and these levels describe the block `header` and the tips of the window. */
  ghost predicate Describes(data: Analyzer.BlockAnalysisData, levels: map<Level, Analyzer.GasLevel>, header: Header,
                            window: seq<BlockData>, decay: seq<real>) {
    && data == Analyzer.BlockAnalysisData(
         header.number, header.time, header.baseFee % TWO_64,
         BaseFee.NextBaseFee(Some(header.baseFee), header.gasUsed, header.gasLimit) % TWO_64,
         header.gasUsed, header.gasLimit, data.cutoff)
    && CutoffOf(WindowTips(window, decay), data.cutoff)
    && Ordered(Analyzer.Fees(levels)) && Analysis(WindowTips(window, decay), Analyzer.Fees(levels))
  }

  /** The block goroutine settled the block's receipts and expired the pool; all else came from the others. */
  ghost predicate Worked(before: seq<PoolSpec.Op>, after: seq<PoolSpec.Op>, header: Header, receipts: seq<Receipt>,
                         settled: nat, expired: nat) {
    && settled < expired < |after|
    && Foreign(before, after[..settled])
    && after[settled] == PoolSpec.Receipts(Hashes(receipts), header.number, header.time)
    && Foreign(after[..settled + 1], after[..expired])
    && after[expired] == PoolSpec.Expiry(header.number)
    && Foreign(after[..expired + 1], after)
  }

  /** One operation of the block goroutine; all else came from the others. */
  ghost predicate Amid(before: seq<PoolSpec.Op>, after: seq<PoolSpec.Op>, op: PoolSpec.Op, at: nat) {
    at < |after| && Foreign(before, after[..at]) && after[at] == op && Foreign(after[..at + 1], after)
  }

  lemma AmidOf(before: seq<PoolSpec.Op>, mid: seq<PoolSpec.Op>, op: PoolSpec.Op, after: seq<PoolSpec.Op>)
    requires Foreign(before, mid) && Foreign(mid + [op], after)
    ensures Amid(before, after, op, |mid|)
  {
    assert after[..|mid|] == mid;
    assert after[..|mid| + 1] == mid + [op];
  }

  lemma WorkedOf(before: seq<PoolSpec.Op>, mid: seq<PoolSpec.Op>, late: seq<PoolSpec.Op>, after: seq<PoolSpec.Op>,
                 header: Header, receipts: seq<Receipt>)
    requires Foreign(before, mid)
    requires Foreign(mid + [PoolSpec.Receipts(Hashes(receipts), header.number, header.time)], late)
    requires Foreign(late + [PoolSpec.Expiry(header.number)], after)
    ensures Worked(before, after, header, receipts, |mid|, |late|) && after[..|mid|] == mid
  {
    var r := PoolSpec.Receipts(Hashes(receipts), header.number, header.time);
    assert after[..|late|] == late;
    assert after[..|late| + 1] == late + [PoolSpec.Expiry(header.number)];
    assert late[..|mid| + 1] == mid + [r];
    assert after[..|mid| + 1] == mid + [r];
    assert after[..|mid|] == mid;
  }

  lemma PrefixOf(before: seq<PoolSpec.Op>, mid: seq<PoolSpec.Op>, after: seq<PoolSpec.Op>)
    requires before <= mid && Foreign(mid, after)
    ensures |before| <= |after| && after[..|before|] == before
  {
  }

  /** Settling, then expiring, then only the others. */
  lemma WorkedThrough(before: seq<PoolSpec.Op>, stored: seq<PoolSpec.Op>, finished: seq<PoolSpec.Op>,
                      after: seq<PoolSpec.Op>, header: Header, receipts: seq<Receipt>, settled: nat, expired: nat)
    requires Amid(before, stored, PoolSpec.Receipts(Hashes(receipts), header.number, header.time), settled)
    requires Amid(stored, finished, PoolSpec.Expiry(header.number), expired) && Foreign(finished, after)
    ensures Worked(before, after, header, receipts, settled, expired) && after[..settled] == stored[..settled]
  {
    hide Hashes;
    var mid, late := stored[..settled], finished[..expired];
    assert stored[..settled + 1] == mid + [stored[settled]];
    ForeignChain(mid + [stored[settled]], stored, late);
    assert finished[..expired + 1] == late + [finished[expired]];
    ForeignChain(late + [finished[expired]], finished, after);
    WorkedOf(before, mid, late, after, header, receipts);
  }

  lemma AmidAfter(before: seq<PoolSpec.Op>, mid: seq<PoolSpec.Op>, after: seq<PoolSpec.Op>, op: PoolSpec.Op, at: nat)
    requires Foreign(before, mid) && Amid(mid, after, op, at)
    ensures Amid(before, after, op, at)
  {
  }

  class Process {
    const shared: Shared

    /** The fee statistics handed to the uploader so far. */
    var uploads: seq<seq<FeeBucketMsg>>

    /** For each block of the store's history, the waits of the transactions counted in it. */
    ghost var waits: seq<seq<Wait>>

    /** Stored blocks carry positive weights and the statistics of the transactions counted in them. */
    ghost predicate HistoryOk()
      reads this`waits, shared.store`history
    {
      && |waits| == |shared.store.history|
      && (forall i | 0 <= i < |waits| ::
            Enumerates(shared.store.history[i].feeBuckets, waits[i]) && PositiveWeights(shared.store.history[i]))
    }

    ghost predicate Valid()
      reads this`waits, shared, shared.pool, shared.pool.owned, shared.store, shared.analyzer
    {
      shared.Valid() && HistoryOk()
    }

    constructor (shared: Shared)
      requires shared.Valid() && shared.store.history == []
      ensures Valid() && this.shared == shared && uploads == [] && waits == []
    {
      this.shared := shared;
      uploads := [];
      waits := [];
    }

    /** The block record of a header and its receipts; receipts without a usable tip are left out. */
    method CalculateBlockTxTip(header: Header, receipts: seq<Receipt>) returns (b: BlockData)
      ensures b == BlockOf(shared.analyzer.weigh, header, receipts, [])
    {
      var weigh := shared.analyzer.weigh;
      var txs: seq<TxInfo> := [];
      for i := 0 to |receipts|
        invariant txs == TxsOf(weigh, header, receipts[..i])
      {
        assert receipts[..i + 1][..i] == receipts[..i];
        var receipt := receipts[i];
        var tip := Analyzer.EffectiveTipFromReceipt(receipt.effectiveGasPrice, header.baseFee);
        if tip.None? {
          continue;
        }
        var weight := weigh(receipt.gasUsed, header.gasLimit);
        txs := txs + [TxInfo(receipt.txHash, tip.value, receipt.gasUsed, weight)];
      }
      assert receipts[..|receipts|] == receipts;
      b := BlockData(header.number, header.baseFee, header.gasLimit, txs, []);
    }

    method CollectWindow(blocks: seq<BlockData>) returns (tips: seq<WeightedTip>)
      ensures tips == WindowTips(blocks, shared.analyzer.decayTable)
    {
      var decay := shared.analyzer.decayTable;
      tips := [];
      for i := 0 to |blocks|
        invariant tips == WindowTips(blocks[..i], decay)
      {
        assert blocks[..i + 1][..i] == blocks[..i];
        if i < |decay| {
          tips := tips + BlockTips(blocks[i], decay[i]);
        }
      }
      assert blocks[..|blocks|] == blocks;
    }

    /** The analyzer describes the block `header` and the tips of the stored window. */
    ghost predicate Analysed(header: Header)
      reads shared.store`blocks, shared.analyzer`latestBlockData, shared.analyzer`latestResult
    {
      Describes(shared.analyzer.latestBlockData, shared.analyzer.latestResult.analyzerBlock, header,
                shared.store.blocks, shared.analyzer.decayTable)
    }

    /**
     What the analyzer then says, in numbers: the header's own, and a next base fee that moves by the share of the base
     fee that the distance from the target is of eight targets.
     */
    lemma AnalysedMeans(header: Header) returns (next: nat, change: nat)
      requires Analysed(header)
      ensures var data := shared.analyzer.latestBlockData;
              && data.blockNumber == header.number && data.blockTime == header.time
              && data.baseFee == header.baseFee % 0x1_0000_0000_0000_0000
              && data.nextBaseFee == next % 0x1_0000_0000_0000_0000
              && data.gasUsed == header.gasUsed && data.gasLimit == header.gasLimit
      ensures var target := header.gasLimit / 2;
              var gap := if header.gasUsed > target then header.gasUsed - target else target - header.gasUsed;
              && 8 * target * change <= header.baseFee * gap < 8 * target * change + 8 * target
              && next == if header.gasUsed == target then header.baseFee
                         else if header.gasUsed < target then header.baseFee - change
                         else header.baseFee + (if change == 0 then 1 else change)
    {
      hide BaseFee.NextBaseFee, CutoffOf, Ordered, Analysis;
      change := BaseFee.NextIsChange(header.baseFee, header.gasUsed, header.gasLimit);
      BaseFee.NextWithin(header.baseFee, header.gasUsed, header.gasLimit);
      next := BaseFee.NextBaseFee(Some(header.baseFee), header.gasUsed, header.gasLimit);
    }

    /** The levels and the cutoff of the stored window. */
    method AnalyseWindow() returns (result: map<Level, uint64>, cutoff: uint64)
      requires shared.store.Valid() && shared.analyzer.Valid() && HistoryOk() && shared.store.blocks != []
      ensures Ordered(result) && Analysis(WindowTips(shared.store.blocks, shared.analyzer.decayTable), result)
      ensures CutoffOf(WindowTips(shared.store.blocks, shared.analyzer.decayTable), cutoff)
    {
      hide Analysis, Ordered, Enumerates, IsPercentile;
      var blocks := shared.store.GetBlockData();
      var tips := CollectWindow(blocks);
      WindowPositive(blocks, shared.analyzer.decayTable);
      PositiveTotal(tips);
      var poolData := new WeightedTip[|tips|](i requires 0 <= i < |tips| => tips[i]);
      assert poolData[..] == tips;
      result, cutoff := BlockPercentiles(poolData);
    }

    /** The block and its analysis are published, in two sections with the other goroutines in between. */
    method UpdateBlockInfoForAnalysis(header: Header)
      requires Valid() && shared.view.working == header.number && Publishing(shared.view.processing)
      modifies shared, shared.pool, shared.pool.owned, shared.node, shared.analyzer
      ensures Valid() && fresh(shared.pool.owned - old(shared.pool.owned))
      ensures Analysed(header) && Undisturbed(Published(old(shared.view)), shared.view)
      ensures Foreign(old(shared.ops), shared.ops)
      ensures shared.node.Quiet()
    {
      hide Analysis, Ordered, HistoryOk, CutoffOf, Shared.Valid, Foreign, Analyzer.Fees, Analyzer.Analyzer.Valid;
      var nextBaseFee := BaseFee.NextBaseFee(Some(header.baseFee), header.gasUsed, header.gasLimit);
      NotEmpty();
      if |shared.store.blocks| == 0 {
        assert false;
      }
      var result, cutoff := AnalyseWindow();
      shared.Publish(header, nextBaseFee % TWO_64, cutoff, result);
    }

    /** When a block is published the store is not empty. */
    lemma NotEmpty()
      requires Valid() && Publishing(shared.view.processing)
      ensures shared.store.blocks != [] && shared.view.stored > 0
      ensures shared.store.Valid() && shared.analyzer.Valid()
    {
      shared.ReadyExactly();
    }

    /** The window's statistics go to the uploader, if there are any. */
    method SendFeeBucketsToGrpc()
      requires Valid()
      modifies this`uploads
      ensures Valid() && Uploaded(old(uploads))
    {
      hide UploadOf, Enumerates, Shared.Matches, Shared.Logged, Shared.AnalysisOk, Shared.SentOk, PositiveWeights;
      var blocks := shared.store.GetBlockData();
      ghost var wss := Newest(waits, |blocks|);
      if |blocks| == 0 {
        return;
      }
      var msgs := FeeStatistics(blocks, wss);
      UploadEmpty(msgs, Concat(wss));
      if |msgs| == 0 {
        return;
      }
      uploads := uploads + [msgs];
    }

    /**
     If a transaction of the stored window was counted, one message list was added, and it describes exactly the
     counted ones; otherwise nothing was.
     */
    ghost predicate Uploaded(before: seq<seq<FeeBucketMsg>>)
      reads this, shared.store`blocks
    {
      && |shared.store.blocks| <= |waits|
      && var counted := Concat(Newest(waits, |shared.store.blocks|));
         if counted == [] then uploads == before
         else |uploads| == |before| + 1 && before == uploads[..|before|] && UploadOf(uploads[|before|], counted)
    }

    /** Append a block and the waits counted in it. */
    method Keep(b: BlockData, ghost ws: seq<Wait>)
      requires Valid() && Enumerates(b.feeBuckets, ws) && PositiveWeights(b)
      requires shared.view.processing == Ready.InitAdd || shared.view.processing == Ready.BlockAdd
               || shared.view.processing == Ready.ResyncAdd
      modifies shared`view, shared`schedule, shared.store, this`waits
      ensures Valid() && MovedTo(old(shared.view), shared.view, AfterAdd(old(shared.view).processing))
      ensures shared.store.history == old(shared.store.history) + [b] && waits == old(waits) + [ws]
    {
      hide Enumerates, PositiveWeights, Shared.Valid;
      hide Ready.StepBlocks;
      shared.AddBlock(b);
      waits := waits + [ws];
    }

    /** The store's history grew by the record of this block. */
    ghost predicate Appended(before: seq<BlockData>, header: Header, receipts: seq<Receipt>)
      reads shared.store`history
    {
      && |shared.store.history| == |before| + 1 && shared.store.history[..|before|] == before
      && RecordOf(shared.store.history[|before|], shared.analyzer.weigh, header, receipts)
    }

    /**
     One attempt at a block, with the other goroutines between any two of its sections. A failed attempt changes
     nothing. A successful one settles and expires the pool and publishes the block; unless it was empty, it is
     stored with the waits of the transactions that were pooled when its receipts were settled.
     */
    method ProcessBlock(header: Header)
      returns (ok: bool, ghost receipts: seq<Receipt>, ghost settled: nat, ghost expired: nat)
      requires Valid() && shared.view.processing == Ready.AtRest
      modifies this, shared, shared.pool, shared.pool.owned, shared.store, shared.analyzer, shared.node
      ensures Valid() && fresh(shared.pool.owned - old(shared.pool.owned))
      ensures shared.view.processing == Ready.AtRest
      ensures !ok ==> unchanged(this) && unchanged(shared) && unchanged(shared.store) && unchanged(shared.analyzer)
                      && unchanged(shared.pool) && unchanged(shared.pool.owned)
      ensures ok ==> Analysed(header) && shared.view.base == Min(old(shared.view.base), header.number)
      ensures ok && receipts == [] ==>
                && Amid(old(shared.ops), shared.ops, PoolSpec.Expiry(header.number), expired)
                && shared.store.history == old(shared.store.history) && waits == old(waits) && uploads == old(uploads)
      ensures ok && receipts != [] ==>
                && Worked(old(shared.ops), shared.ops, header, receipts, settled, expired)
                && Appended(old(shared.store.history), header, receipts)
                && waits == old(waits) + [shared.SettledWaits(shared.ops[..settled], header, receipts)]
                && Uploaded(old(uploads))
      ensures shared.node.replies
              == old(shared.node.replies) + [ReceiptsReply(header, if ok then Some(receipts) else None)]
      ensures shared.node.restartReplies == old(shared.node.restartReplies)
      ensures shared.node.SettledFrom(old(shared.node.changesLeft), old(shared.node.reported))
    {
      hide Valid, Analysed, Appended, Uploaded, Worked, Amid, Shared.SettledWaits;
      receipts, settled, expired := [], 0, 0;
      var fetched := shared.node.BlockReceipts(header, BlockLoop);
      if fetched.None? {
        return false, [], 0, 0;
      }
      receipts := fetched.value;
      if |fetched.value| == 0 {
        expired := ProcessEmpty(header);
      } else {
        settled, expired := ProcessReceipts(header, fetched.value);
      }
      ok := true;
    }

    /** The other goroutines run between two sections. */
    method Yield()
      requires Valid()
      modifies shared, shared.pool, shared.pool.owned, shared.node, shared.analyzer`latestResult
      ensures Valid() && fresh(shared.pool.owned - old(shared.pool.owned))
      ensures shared.Meanwhile()
    {
      hide Shared.Valid, HistoryOk;
      shared.Interfere();
    }

    /** Drop what is past its time-to-live, then publish the block. */
    method Finish(header: Header) returns (ghost expired: nat)
      requires Valid() && shared.view.processing == Ready.BlockLatest && shared.view.working == header.number
      modifies shared, shared.pool, shared.pool.owned, shared.analyzer, shared.node
      ensures Valid() && fresh(shared.pool.owned - old(shared.pool.owned))
      ensures shared.view.processing == Ready.AtRest && Analysed(header)
      ensures shared.view.base == Min(old(shared.view.base), header.number)
      ensures Amid(old(shared.ops), shared.ops, PoolSpec.Expiry(header.number), expired)
      ensures shared.node.Quiet()
    {
      hide HistoryOk, Shared.Valid, Foreign, Amid, Describes;
      hide Ready.StepBlocks;
      Yield();
      ghost var before := shared.ops;
      expired := |before|;
      shared.Expire(header.number);
      ghost var dropped := shared.ops;
      Yield();
      ghost var later := shared.ops;
      UpdateBlockInfoForAnalysis(header);
      ForeignChain(dropped, later, shared.ops);
      AmidOf(old(shared.ops), before, PoolSpec.Expiry(header.number), shared.ops);
    }

    method ProcessEmpty(header: Header) returns (ghost expired: nat)
      requires Valid() && shared.view.processing == Ready.AtRest
      modifies shared, shared.pool, shared.pool.owned, shared.analyzer, shared.node
      ensures Valid() && fresh(shared.pool.owned - old(shared.pool.owned))
      ensures shared.view.processing == Ready.AtRest && Analysed(header)
      ensures shared.view.base == Min(old(shared.view.base), header.number)
      ensures Amid(old(shared.ops), shared.ops, PoolSpec.Expiry(header.number), expired)
      ensures shared.node.Quiet()
    {
      hide HistoryOk, Shared.Valid, Foreign, Amid, Describes;
      hide Ready.StepBlocks;
      shared.Begin(Ready.EmptyBlockOf(header.number));
      expired := Finish(header);
    }

    /** Begin with a block and settle its receipts; `before` is what had been done to the pool by then. */
    method BeginBlock(header: Header, receipts: seq<Receipt>)
      returns (feeBuckets: seq<FeeBucketStat>, ghost before: seq<PoolSpec.Op>)
      requires Valid() && shared.view.processing == Ready.AtRest
      modifies shared, shared.pool, shared.pool.owned, shared.node, shared.analyzer`latestResult
      ensures Valid() && fresh(shared.pool.owned - old(shared.pool.owned))
      ensures shared.view.processing == Ready.BlockAdd && shared.view.working == header.number
      ensures shared.view.base == old(shared.view.base)
      ensures Foreign(old(shared.ops), before)
      ensures shared.ops == before + [PoolSpec.Receipts(Hashes(receipts), header.number, header.time)]
      ensures Enumerates(feeBuckets, shared.SettledWaits(before, header, receipts))
      ensures shared.node.Quiet()
    {
      hide HistoryOk, Shared.Valid, Foreign, Enumerates, Shared.SettledWaits, Ready.StepBlocks;
      shared.Begin(Ready.BlockOf(header.number));
      Yield();
      before := shared.ops;
      feeBuckets := shared.Settle(header, receipts);
    }

    /** Settle the receipts and store the block with the waits they recorded. */
    method SettleAndStore(header: Header, receipts: seq<Receipt>) returns (ghost settled: nat)
      requires Valid() && shared.view.processing == Ready.AtRest
      modifies this`waits, shared, shared.pool, shared.pool.owned, shared.store, shared.node
      modifies shared.analyzer`latestResult
      ensures Valid() && fresh(shared.pool.owned - old(shared.pool.owned))
      ensures shared.view.processing == Ready.BlockLatest && shared.view.working == header.number
      ensures shared.view.base == old(shared.view.base)
      ensures Amid(old(shared.ops), shared.ops, PoolSpec.Receipts(Hashes(receipts), header.number, header.time),
                   settled)
      ensures Appended(old(shared.store.history), header, receipts)
      ensures waits == old(waits) + [shared.SettledWaits(shared.ops[..settled], header, receipts)]
      ensures shared.node.Quiet()
    {
      hide Valid, Foreign, Amid, Enumerates, PositiveWeights, Shared.SettledWaits, Analyzer.GasWeight, Ready.StepBlocks;
      hide RecordOf;
      ValidWeights();
      var blockData := CalculateBlockTxTip(header, receipts);
      var feeBuckets;
      ghost var before;
      feeBuckets, before := BeginBlock(header, receipts);
      settled := |before|;
      ghost var gone := shared.ops;
      blockData := blockData.(feeBuckets := feeBuckets);
      BlockPositive(shared.analyzer.weigh, header, receipts, feeBuckets);
      BlockRecords(shared.analyzer.weigh, header, receipts, feeBuckets);
      Yield();
      Keep(blockData, shared.SettledWaits(before, header, receipts));
      AmidOf(old(shared.ops), before, PoolSpec.Receipts(Hashes(receipts), header.number, header.time), shared.ops);
      PrefixOf(before, gone, shared.ops);
    }

    /** At rest the analyzer is ready. */
    lemma ReadyNow()
      requires Valid() && shared.view.processing == Ready.AtRest
      ensures shared.analyzer.ready
    {
      hide Shared.Valid;
      shared.ReadyExactly();
    }

    lemma ValidWeights()
      requires Valid()
      ensures Analyzer.GasWeight(shared.analyzer.weigh)
    {
    }

    method ProcessReceipts(header: Header, receipts: seq<Receipt>) returns (ghost settled: nat, ghost expired: nat)
      requires Valid() && receipts != [] && shared.view.processing == Ready.AtRest
      modifies this, shared, shared.pool, shared.pool.owned, shared.store, shared.analyzer, shared.node
      ensures Valid() && fresh(shared.pool.owned - old(shared.pool.owned))
      ensures shared.view.processing == Ready.AtRest && Analysed(header)
      ensures shared.view.base == Min(old(shared.view.base), header.number)
      ensures Worked(old(shared.ops), shared.ops, header, receipts, settled, expired)
      ensures Appended(old(shared.store.history), header, receipts)
      ensures waits == old(waits) + [shared.SettledWaits(shared.ops[..settled], header, receipts)]
      ensures Uploaded(old(uploads))
      ensures shared.node.Quiet()
    {
      hide Valid, Foreign, Amid, Worked, Uploaded, Describes, Appended, Shared.SettledWaits, HistoryOk;
      settled := SettleAndStore(header, receipts);
      ghost var stored := shared.ops;
      expired := Finish(header);
      ghost var finished := shared.ops;
      Yield();
      SendFeeBucketsToGrpc();
      WorkedThrough(old(shared.ops), stored, finished, shared.ops, header, receipts, settled, expired);
    }

    /** Start the store from the newest block of the chain, which must not be empty. Nothing changes on failure. */
    method Initialize() returns (r: Option<Header>, ghost latest: Option<Header>, ghost fetched: Option<seq<Receipt>>)
      requires Valid() && shared.view.processing == Ready.NotStarted
      modifies this, shared, shared.pool, shared.pool.owned, shared.store, shared.analyzer, shared.node
      ensures Valid() && fresh(shared.pool.owned - old(shared.pool.owned))
      ensures shared.node.replies == old(shared.node.replies)
      ensures shared.node.restartReplies == old(shared.node.restartReplies)
              + [LatestReply(latest)] + (if latest.Some? then [ReceiptsReply(latest.value, fetched)] else [])
      ensures r == if latest.Some? && fetched.Some? && fetched.value != [] then latest else None
      ensures r.None? ==> unchanged(this) && unchanged(shared) && unchanged(shared.store) && unchanged(shared.analyzer)
                          && unchanged(shared.pool) && unchanged(shared.pool.owned)
      ensures r.Some? ==>
                && shared.view.processing == Ready.AtRest && shared.view.base == r.value.number && shared.analyzer.ready
                && fetched.Some? && Appended(old(shared.store.history), r.value, fetched.value)
                && waits == old(waits) + [[]] && Analysed(r.value) && uploads == old(uploads)
    {
      hide Valid, Analysed, Appended;
      r, fetched := None, None;
      var header := shared.node.Latest();
      latest := header;
      if header.None? {
        return;
      }
      var receipts := shared.node.BlockReceipts(header.value, Restart);
      fetched := receipts;
      if receipts.None? || |receipts.value| == 0 {
        return;
      }
      InitialFromHeader(header.value, receipts.value);
      r := header;
    }

    method InitialFromHeader(header: Header, receipts: seq<Receipt>)
      requires Valid() && shared.view.processing == Ready.NotStarted
      modifies this`waits, shared, shared.pool, shared.pool.owned, shared.store, shared.analyzer, shared.node
      ensures Valid() && fresh(shared.pool.owned - old(shared.pool.owned))
      ensures shared.view.processing == Ready.AtRest && shared.view.base == header.number && shared.analyzer.ready
      ensures Appended(old(shared.store.history), header, receipts) && waits == old(waits) + [[]] && Analysed(header)
      ensures shared.node.Quiet()
    {
      hide HistoryOk, Shared.Valid, Foreign, Describes, Appended;
      hide Ready.StepBlocks;
      shared.Begin(Ready.BlockOf(header.number));
      Yield();
      StoreFirst(header, receipts);
      Yield();
      UpdateBlockInfoForAnalysis(header);
      Open(header);
    }

    /** Let the analyzer run. */
    method Open(header: Header)
      requires Valid() && (shared.view.processing == Ready.InitReady || shared.view.processing == Ready.ResyncReady)
      requires Analysed(header)
      modifies shared, shared.pool, shared.pool.owned, shared.analyzer, shared.node
      ensures Valid() && fresh(shared.pool.owned - old(shared.pool.owned)) && Analysed(header)
      ensures MovedTo(old(shared.view), shared.view, Ready.AtRest) && shared.analyzer.ready
      ensures Foreign(old(shared.ops), shared.ops)
      ensures shared.node.Quiet()
    {
      hide HistoryOk, Shared.Valid, Foreign, Describes, Ready.StepBlocks;
      Yield();
      shared.MakeReady();
    }

    /** Record a block that carries no wait statistics. */
    method StoreFirst(header: Header, receipts: seq<Receipt>)
      requires Valid()
      requires shared.view.processing == Ready.InitAdd || shared.view.processing == Ready.ResyncAdd
      modifies shared`view, shared`schedule, shared.store, this`waits
      ensures Valid() && MovedTo(old(shared.view), shared.view, AfterAdd(old(shared.view).processing))
      ensures Appended(old(shared.store.history), header, receipts) && waits == old(waits) + [[]]
    {
      hide Valid, PositiveWeights, Analyzer.GasWeight, RecordOf;
      ValidWeights();
      var blockData := CalculateBlockTxTip(header, receipts);
      BlockPositive(shared.analyzer.weigh, header, receipts, []);
      BlockRecords(shared.analyzer.weigh, header, receipts, []);
      Keep(blockData, []);
    }

    /**
     Forget everything and start again from the newest block, with the other goroutines between any two sections.
     Nothing changes on failure; on success what is pooled was pushed after the pool was cleared.
     */
    method Resync()
      returns (r: Option<Header>, ghost wiped: nat, ghost latest: Option<Header>, ghost fetched: Option<seq<Receipt>>)
      requires Valid() && shared.view.processing == Ready.AtRest
      modifies this, shared, shared.pool, shared.pool.owned, shared.store, shared.analyzer, shared.node
      ensures Valid() && fresh(shared.pool.owned - old(shared.pool.owned))
      ensures shared.view.processing == Ready.AtRest
      ensures shared.node.replies == old(shared.node.replies)
      ensures shared.node.restartReplies == old(shared.node.restartReplies)
              + [LatestReply(latest)] + (if latest.Some? then [ReceiptsReply(latest.value, fetched)] else [])
      ensures r == if latest.Some? && fetched.Some? && fetched.value != [] then latest else None
      ensures r.None? ==> unchanged(this) && unchanged(shared) && unchanged(shared.store) && unchanged(shared.analyzer)
                          && unchanged(shared.pool) && unchanged(shared.pool.owned)
      ensures r.Some? ==>
                && fetched.Some? && Rebuilt(old(shared.ops), r.value, fetched.value, wiped)
                && uploads == old(uploads)
      ensures shared.node.SettledFrom(old(shared.node.changesLeft), old(shared.node.reported))
    {
      hide Valid, Rebuilt;
      r, wiped, fetched := None, 0, None;
      var header := shared.node.Latest();
      latest := header;
      if header.None? {
        return;
      }
      var receipts := shared.node.BlockReceipts(header.value, Restart);
      fetched := receipts;
      if receipts.None? || |receipts.value| == 0 {
        return;
      }
      wiped := Rebuild(header.value, receipts.value);
      r := header;
    }

    /** Only this block is stored and analysed, and the pool holds what was pushed since it was cleared. */
    ghost predicate Rebuilt(before: seq<PoolSpec.Op>, header: Header, receipts: seq<Receipt>, wiped: nat)
      reads this`waits, shared, shared.pool, shared.store, shared.analyzer
    {
      && shared.view.base == header.number && shared.analyzer.ready
      && Appended([], header, receipts) && waits == [[]]
      && Analysed(header) && Amid(before, shared.ops, PoolSpec.Wipe, wiped)
      && shared.pool.slots
         == PoolSpec.Run(map[], shared.pool.meaning, shared.pool.ttlBlock, shared.ops[wiped + 1..])
    }

    method Rebuild(latest: Header, receipts: seq<Receipt>) returns (ghost wiped: nat)
      requires Valid() && shared.view.processing == Ready.AtRest
      modifies this`waits, shared, shared.pool, shared.pool.owned, shared.store, shared.analyzer, shared.node
      ensures Valid() && fresh(shared.pool.owned - old(shared.pool.owned))
      ensures shared.view.processing == Ready.AtRest && Rebuilt(old(shared.ops), latest, receipts, wiped)
      ensures shared.node.Quiet()
    {
      hide Valid, Foreign, Describes, Appended, Amid, PoolSpec.Run;
      Wipe(latest.number);
      ghost var cleared := shared.ops;
      Refill(latest, receipts);
      ForeignChain(old(shared.ops), cleared, shared.ops);
      cleared := shared.ops;
      wiped := Reopen(latest);
      AmidAfter(old(shared.ops), cleared, shared.ops, PoolSpec.Wipe, wiped);
    }

    /** Reset the analyzer under its mutex, then clear the store. */
    method Wipe(number: nat)
      requires Valid() && shared.view.processing == Ready.AtRest
      modifies this`waits, shared, shared.pool, shared.pool.owned, shared.store, shared.analyzer, shared.node
      ensures Valid() && fresh(shared.pool.owned - old(shared.pool.owned))
      ensures shared.view.processing == Ready.ResyncAdd && shared.view.working == number
      ensures shared.store.history == [] && waits == []
      ensures Foreign(old(shared.ops), shared.ops)
      ensures shared.node.Quiet()
    {
      hide Shared.Valid, Foreign, Enumerates, PositiveWeights, Ready.StepBlocks;
      Reset(number);
      ghost var wiped := shared.ops;
      Yield();
      ForeignChain(old(shared.ops), wiped, shared.ops);
      shared.ClearStore();
      waits := [];
    }

    method Reset(number: nat)
      requires Valid() && shared.view.processing == Ready.AtRest
      modifies shared, shared.pool, shared.pool.owned, shared.analyzer, shared.node
      ensures Valid() && fresh(shared.pool.owned - old(shared.pool.owned))
      ensures shared.view.processing == Ready.ResyncClear && shared.view.working == number
      ensures Foreign(old(shared.ops), shared.ops)
      ensures shared.node.Quiet()
    {
      hide Shared.Valid, Foreign, HistoryOk, Ready.StepBlocks;
      shared.Begin(Ready.ResyncAt(number));
      shared.LockReset();
      shared.WipeAnalyzer();
    }

    /** Store and publish the newest block. */
    method Refill(latest: Header, receipts: seq<Receipt>)
      requires Valid() && shared.view.processing == Ready.ResyncAdd && shared.view.working == latest.number
      requires shared.store.history == []
      modifies this`waits, shared, shared.pool, shared.pool.owned, shared.store, shared.analyzer, shared.node
      ensures Valid() && fresh(shared.pool.owned - old(shared.pool.owned))
      ensures shared.view.processing == Ready.ResyncPool && shared.view.base == latest.number
      ensures Appended([], latest, receipts) && waits == old(waits) + [[]] && Analysed(latest)
      ensures Foreign(old(shared.ops), shared.ops)
      ensures shared.node.Quiet()
    {
      hide HistoryOk, Shared.Valid, Foreign, Describes, Appended;
      hide Ready.StepBlocks;
      Yield();
      ghost var first := shared.ops;
      StoreFirst(latest, receipts);
      Yield();
      ghost var second := shared.ops;
      ForeignChain(old(shared.ops), first, second);
      UpdateBlockInfoForAnalysis(latest);
      ForeignChain(old(shared.ops), second, shared.ops);
    }

    /** Clear the pool and let the analyzer run again. */
    method Reopen(latest: Header) returns (ghost wiped: nat)
      requires Valid() && shared.view.processing == Ready.ResyncPool && Analysed(latest)
      modifies shared, shared.pool, shared.pool.owned, shared.analyzer, shared.node
      ensures Valid() && fresh(shared.pool.owned - old(shared.pool.owned))
      ensures shared.view.processing == Ready.AtRest && shared.view.base == old(shared.view.base)
              && shared.analyzer.ready
      ensures Analysed(latest) && Amid(old(shared.ops), shared.ops, PoolSpec.Wipe, wiped)
      ensures shared.pool.slots
              == PoolSpec.Run(map[], shared.pool.meaning, shared.pool.ttlBlock, shared.ops[wiped + 1..])
      ensures shared.node.Quiet()
    {
      hide HistoryOk, Shared.Valid, Foreign, Describes, PoolSpec.Run;
      hide Ready.StepBlocks;
      Yield();
      ghost var before := shared.ops;
      wiped := |before|;
      shared.ClearPool();
      Open(latest);
      AmidOf(old(shared.ops), before, PoolSpec.Wipe, shared.ops);
      SincePoolCleared(wiped);
    }

    lemma SincePoolCleared(wiped: nat)
      requires Valid() && wiped < |shared.ops| && shared.ops[wiped] == PoolSpec.Wipe
      ensures shared.pool.slots
              == PoolSpec.Run(map[], shared.pool.meaning, shared.pool.ttlBlock, shared.ops[wiped + 1..])
    {
      PoolSpec.RunAfterWipe(map[], shared.pool.meaning, shared.pool.ttlBlock, shared.ops, wiped);
    }
  }
}
