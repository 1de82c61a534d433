/**
 The gas analyzer's state (internal/gasanalyzer/analyzer.go): block-based and pending-based levels and their blend.
 */
module Analyzer {
  import opened Common
  import opened Percentiles
  import opened Outliers
  import opened Prediction
  import PoolSpec
  import Mempool
  import Chain

  datatype GasLevel = GasLevel(priorityFee: uint64, maxFee: uint64)

  datatype GasPrediction = GasPrediction(
    nextBlockNumber: nat,
    nextBaseFee: uint64,
    predictResult: map<Level, GasLevel>,
    analyzerBlock: map<Level, GasLevel>,
    analyzerPending: map<Level, GasLevel>)

  datatype BlockAnalysisData = BlockAnalysisData(
    blockNumber: nat,
    blockTime: nat,
    baseFee: uint64,
    nextBaseFee: uint64,
    gasUsed: nat,
    gasLimit: nat,
    cutoff: uint64)

  const NO_RESULT := GasPrediction(0, 0, map[], map[], map[])
  const NO_BLOCK := BlockAnalysisData(0, 0, 0, 0, 0, 0, 0)

  function Fees(levels: map<Level, GasLevel>): map<Level, uint64> {
    map level | level in levels :: levels[level].priorityFee
  }

  /** Every level with its priority fee and, on top of the base fee, its maximum fee. */
  function Priced(result: map<Level, uint64>, baseFee: uint64): map<Level, GasLevel> {
    map level | level in result :: GasLevel(result[level], MaxFee(baseFee, result[level]))
  }

  lemma PricedFees(result: map<Level, uint64>, baseFee: uint64)
    ensures Fees(Priced(result, baseFee)) == result
  {
  }

  // ---------- blending ----------

  /** A level missing from the pending result counts as zero. */
  function PendingFee(p: GasPrediction, level: Level): uint64 {
    if level in p.analyzerPending then p.analyzerPending[level].priorityFee else 0
  }

  /** The prediction of one level, from the two results it blends. */
  function Blended(p: GasPrediction, level: Level): GasLevel
    requires level in p.analyzerBlock
  {
    var fee := Blend(p.analyzerBlock[level].priorityFee, PendingFee(p, level));
    GasLevel(fee, MaxFee(p.nextBaseFee, fee))
  }

  predicate SameLevel(m: map<Level, GasLevel>, m': map<Level, GasLevel>, level: Level) {
    (level in m <==> level in m') && (level in m ==> m[level] == m'[level])
  }

  /**
   One part block-based fee and four parts pending-based fee, cut to an integer; the maximum fee is its 64-bit sum with
   the base fee.
   */
  predicate Weighs(level: GasLevel, block: uint64, pending: uint64, baseFee: uint64) {
    && 5 * level.priorityFee <= block + 4 * pending < 5 * (level.priorityFee + 1)
    && level.maxFee == (baseFee + level.priorityFee) % TWO_64
  }

  lemma BlendedWeighs(p: GasPrediction, level: Level)
    requires level in p.analyzerBlock
    ensures Weighs(Blended(p, level), p.analyzerBlock[level].priorityFee, PendingFee(p, level), p.nextBaseFee)
  {
  }

  /** One level holds its blend, or what it held before if there is no block-based fee for it. */
  predicate LevelBlended(p: GasPrediction, before: map<Level, GasLevel>, level: Level) {
    if level in p.analyzerBlock then
      var pending := if level in p.analyzerPending then p.analyzerPending[level].priorityFee else 0;
      && level in p.predictResult
      && Weighs(p.predictResult[level], p.analyzerBlock[level].priorityFee, pending, p.nextBaseFee)
    else SameLevel(p.predictResult, before, level)
  }

  predicate IsBlended(p: GasPrediction, before: map<Level, GasLevel>) {
    LevelBlended(p, before, Market) && LevelBlended(p, before, Fast) && LevelBlended(p, before, Urgent)
  }

  /** What a blend says of each predicted level for which there is a block-based fee. */
  lemma BlendExact(p: GasPrediction, before: map<Level, GasLevel>)
    requires IsBlended(p, before)
    ensures forall level | level in p.analyzerBlock && level != Low ::
              && level in p.predictResult
              && var block, fee := p.analyzerBlock[level].priorityFee, p.predictResult[level].priorityFee;
                 var pending := if level in p.analyzerPending then p.analyzerPending[level].priorityFee else 0;
                 && 5 * fee <= block + 4 * pending < 5 * (fee + 1)
                 && p.predictResult[level].maxFee == (p.nextBaseFee + fee) % TWO_64
  {
    forall level: Level | level != Low ensures LevelBlended(p, before, level) {
      match level
      case Market =>
      case Fast =>
      case Urgent =>
    }
  }

  predicate Complete(levels: map<Level, GasLevel>) {
    Market in levels && Fast in levels && Urgent in levels
  }

  predicate MaxFeesOrdered(levels: map<Level, GasLevel>)
    requires Complete(levels)
  {
    levels[Market].maxFee <= levels[Fast].maxFee <= levels[Urgent].maxFee
  }

  /** On this base fee the lowest and the highest of the levels' sums wrap around 64 bits both, or neither does. */
  predicate WrapsAlike(levels: map<Level, GasLevel>, baseFee: uint64)
    requires Complete(levels)
  {
    baseFee + levels[Market].priorityFee >= TWO_64 <==> baseFee + levels[Urgent].priorityFee >= TWO_64
  }

  /** The blend of two ordered results is ordered; its maximum fees are, exactly when their sums wrap alike. */
  lemma BlendOrdered(p: GasPrediction, before: map<Level, GasLevel>)
    requires IsBlended(p, before)
    requires p.analyzerPending == map[] || Ordered(Fees(p.analyzerPending))
    ensures Ordered(Fees(p.analyzerBlock)) ==>
              && Ordered(Fees(p.predictResult)) && Complete(p.predictResult)
              && (MaxFeesOrdered(p.predictResult) <==> WrapsAlike(p.predictResult, p.nextBaseFee))
  {
    if Ordered(Fees(p.analyzerBlock)) {
      var blend := p.predictResult;
      MaxFeeOrder(p.nextBaseFee, blend[Market].priorityFee, blend[Fast].priorityFee, blend[Urgent].priorityFee);
    }
  }

  // ---------- effective tips ----------

  /** What a transaction pays the block builder above the base fee, if its fee cap exceeds it. */
  function EffectiveTip(feeCap: uint64, tipCap: uint64, baseFee: uint64): (r: Option<uint64>)
    ensures r.None? <==> feeCap <= baseFee
    ensures r.Some? ==> r.value <= tipCap && baseFee + r.value <= feeCap
    ensures r.Some? ==> r.value == tipCap || baseFee + r.value == feeCap
  {
    if feeCap <= baseFee then None
    else
      var diff := feeCap - baseFee;
      Some(if diff > tipCap then tipCap else diff)
  }

  /** The tip recovered from a receipt; absent, non-positive and oversized ones are dropped. */
  function EffectiveTipFromReceipt(price: Option<nat>, baseFee: nat): (r: Option<uint64>)
    ensures r.Some? <==> price.Some? && 0 < price.value - baseFee < TWO_64
    ensures r.Some? ==> price == Some(baseFee + r.value)
  {
    if price.None? || price.value <= baseFee || price.value - baseFee >= TWO_64 then None
    else Some(price.value - baseFee)
  }

  /** For a transaction the block could include, the receipt gives back the tip computed from its caps. */
  lemma TipRoundTrip(feeCap: uint64, tipCap: uint64, baseFee: uint64)
    ensures var tip := EffectiveTip(feeCap, tipCap, baseFee);
            EffectiveTipFromReceipt(if tip.Some? then Some(baseFee + tip.value) else None, baseFee)
            == if tip == Some(0) then None else tip
  {
  }

  /** The gas weight of a transaction: some non-negative function, positive where gas was used of a positive limit. */
  ghost predicate GasWeight(weigh: (nat, nat) -> real) {
    && (forall used, limit :: weigh(used, limit) >= 0.0)
    && (forall used, limit | used > 0 && limit > 0 :: weigh(used, limit) > 0.0)
  }

  function TipOf(weigh: (nat, nat) -> real, snap: Mempool.Snap, nextBaseFee: uint64,
                 gasLimit: nat): Option<WeightedTip> {
    var body := snap.tx.body;
    if body.feeCap < nextBaseFee then None
    else
      match EffectiveTip(body.feeCap, body.tipCap, nextBaseFee)
      case None => None
      case Some(tip) =>
        var weight := weigh(body.gasLimit, gasLimit);
        Some(WeightedTip(tip, if snap.nonceGap then weight * 0.5 else weight))
  }

  /** The tips of a snapshot that could pay the next base fee, in order. */
  function Collected(weigh: (nat, nat) -> real, snaps: seq<Mempool.Snap>, nextBaseFee: uint64,
                     gasLimit: nat): seq<WeightedTip> {
    if snaps == [] then []
    else
      var front := Collected(weigh, snaps[..|snaps| - 1], nextBaseFee, gasLimit);
      match TipOf(weigh, snaps[|snaps| - 1], nextBaseFee, gasLimit)
      case None => front
      case Some(t) => front + [t]
  }

  lemma {:induction false} CollectedWeighted(weigh: (nat, nat) -> real, snaps: seq<Mempool.Snap>, nextBaseFee: uint64,
                                             gasLimit: nat)
    requires GasWeight(weigh)
    ensures Weighted(Collected(weigh, snaps, nextBaseFee, gasLimit))
  {
    if snaps != [] {
      CollectedWeighted(weigh, snaps[..|snaps| - 1], nextBaseFee, gasLimit);
    }
  }

  /** The levels are those of the tips of every pooled transaction that could pay the next base fee. */
  ghost predicate PendingAnalysed(weigh: (nat, nat) -> real, slots: PoolSpec.Pool, nextBaseFee: uint64, gasLimit: nat,
                                  levels: map<Level, uint64>) {
    exists snaps :: Mempool.SnapshotOf(snaps, slots) && Analysis(Collected(weigh, snaps, nextBaseFee, gasLimit), levels)
  }

  /** The affordable transactions of a snapshot. */
  ghost function Affordable(snaps: seq<Mempool.Snap>, nextBaseFee: uint64): set<nat> {
    set i | 0 <= i < |snaps| && snaps[i].tx.body.feeCap > nextBaseFee
  }

  /** A tip within both caps of the transaction and meeting one, with half its gas weight after a nonce gap. */
  ghost predicate Pays(weigh: (nat, nat) -> real, t: WeightedTip, snap: Mempool.Snap, nextBaseFee: uint64,
                       gasLimit: nat) {
    var body := snap.tx.body;
    && body.feeCap > nextBaseFee && t.tip <= body.tipCap && nextBaseFee + t.tip <= body.feeCap
    && (t.tip == body.tipCap || nextBaseFee + t.tip == body.feeCap)
    && t.weight == weigh(body.gasLimit, gasLimit) * (if snap.nonceGap then 0.5 else 1.0)
  }

  ghost predicate Matches(weigh: (nat, nat) -> real, tips: seq<WeightedTip>, snaps: seq<Mempool.Snap>, at: seq<nat>,
                          nextBaseFee: uint64, gasLimit: nat) {
    && |at| == |tips|
    && forall k | 0 <= k < |at| :: at[k] < |snaps| && Pays(weigh, tips[k], snaps[at[k]], nextBaseFee, gasLimit)
  }

  /** The tips collected are, entry by entry, those of the affordable transactions, each of them once and in order. */
  lemma {:induction false} CollectedExact(weigh: (nat, nat) -> real, snaps: seq<Mempool.Snap>, nextBaseFee: uint64,
                                          gasLimit: nat) returns (at: seq<nat>)
    ensures Visits(at, Affordable(snaps, nextBaseFee))
    ensures Matches(weigh, Collected(weigh, snaps, nextBaseFee, gasLimit), snaps, at, nextBaseFee, gasLimit)
  {
    if snaps == [] {
      at := [];
    } else {
      var n := |snaps| - 1;
      at := CollectedExact(weigh, snaps[..n], nextBaseFee, gasLimit);
      if snaps[n].tx.body.feeCap > nextBaseFee {
        at := at + [n];
      }
    }
  }

  class Analyzer {
    const decayTable: seq<real>
    const weigh: (nat, nat) -> real

    var ready: bool
    var latestResult: GasPrediction
    var latestBlockData: BlockAnalysisData

    /** Both stored results are empty or complete and in order. */
    ghost predicate Valid()
      reads this
    {
      && GasWeight(weigh)
      && (forall i | 0 <= i < |decayTable| :: decayTable[i] > 0.0)
      && (latestResult.analyzerBlock == map[] || Ordered(Fees(latestResult.analyzerBlock)))
      && (latestResult.analyzerPending == map[] || Ordered(Fees(latestResult.analyzerPending)))
    }

    constructor (decayTable: seq<real>, weigh: (nat, nat) -> real)
      requires GasWeight(weigh) && forall i | 0 <= i < |decayTable| :: decayTable[i] > 0.0
      ensures Valid() && !ready && latestResult == NO_RESULT
      ensures this.decayTable == decayTable && this.weigh == weigh
    {
      this.decayTable := decayTable;
      this.weigh := weigh;
      ready := false;
      latestResult := NO_RESULT;
      latestBlockData := NO_BLOCK;
    }

    method Reset()
      requires Valid()
      modifies this
      ensures Valid() && !ready && latestResult == NO_RESULT && latestBlockData == NO_BLOCK
    {
      ready := false;
      latestResult := NO_RESULT;
      latestBlockData := NO_BLOCK;
    }

    method SetReady()
      modifies this`ready
      ensures ready
    {
      ready := true;
    }

    method UpdateLatestBlockData(header: Chain.Header, nextBaseFee: uint64, cutoff: uint64)
      modifies this`latestBlockData
      ensures latestBlockData == BlockAnalysisData(header.number, header.time, header.baseFee % TWO_64, nextBaseFee,
                                                   header.gasUsed, header.gasLimit, cutoff)
    {
      latestBlockData := BlockAnalysisData(header.number, header.time, header.baseFee % TWO_64, nextBaseFee,
                                           header.gasUsed, header.gasLimit, cutoff);
    }

    method UpdateBlockResult(result: map<Level, uint64>)
      requires Valid()
      modifies this`latestResult
      ensures Ordered(result) ==> Valid()
      ensures latestResult == old(latestResult).(analyzerBlock := Priced(result, latestBlockData.nextBaseFee))
      ensures Fees(latestResult.analyzerBlock) == result && latestResult.analyzerBlock.Keys == result.Keys
      ensures forall level | level in result ::
                latestResult.analyzerBlock[level].maxFee == (latestBlockData.nextBaseFee + result[level]) % TWO_64
    {
      PricedFees(result, latestBlockData.nextBaseFee);
      latestResult := latestResult.(analyzerBlock := Priced(result, latestBlockData.nextBaseFee));
    }

    method UpdatePendingResult(result: map<Level, uint64>)
      requires Valid()
      modifies this`latestResult
      ensures Ordered(result) ==> Valid()
      ensures latestResult == old(latestResult).(analyzerPending := Priced(result, latestBlockData.nextBaseFee))
      ensures Fees(latestResult.analyzerPending) == result && latestResult.analyzerPending.Keys == result.Keys
      ensures forall level | level in result ::
                latestResult.analyzerPending[level].maxFee == (latestBlockData.nextBaseFee + result[level]) % TWO_64
    {
      PricedFees(result, latestBlockData.nextBaseFee);
      latestResult := latestResult.(analyzerPending := Priced(result, latestBlockData.nextBaseFee));
    }

    /** Blend the two results level by level; a level the block result lacks keeps its earlier prediction. */
    method UpdateResult(nextBlockNum: nat, nextBaseFee: uint64) returns (result: GasPrediction)
      requires Valid()
      modifies this`latestResult
      ensures Valid() && result == latestResult
      ensures result == old(latestResult).(nextBlockNumber := nextBlockNum, nextBaseFee := nextBaseFee,
                                           predictResult := result.predictResult)
      ensures IsBlended(result, old(latestResult).predictResult)
      ensures forall level | level in result.analyzerBlock && level != Low ::
                && level in result.predictResult
                && var block, fee := result.analyzerBlock[level].priorityFee, result.predictResult[level].priorityFee;
                   var pending :=
                     if level in result.analyzerPending then result.analyzerPending[level].priorityFee else 0;
                   && 5 * fee <= block + 4 * pending < 5 * (fee + 1)
                   && result.predictResult[level].maxFee == (nextBaseFee + fee) % TWO_64
      ensures Ordered(Fees(result.analyzerBlock)) ==>
                && Ordered(Fees(result.predictResult)) && Complete(result.predictResult)
                && (MaxFeesOrdered(result.predictResult) <==> WrapsAlike(result.predictResult, nextBaseFee))
    {
      hide Fees, Ordered, Weighs, Blended, MaxFeesOrdered, WrapsAlike;
      ghost var before := latestResult.predictResult;
      latestResult := latestResult.(nextBlockNumber := nextBlockNum, nextBaseFee := nextBaseFee);
      for i := 0 to |PREDICTED|
        invariant latestResult == old(latestResult).(nextBlockNumber := nextBlockNum, nextBaseFee := nextBaseFee,
                                                     predictResult := latestResult.predictResult)
        invariant forall k | 0 <= k < i :: LevelBlended(latestResult, before, PREDICTED[k])
        invariant forall k | i <= k < |PREDICTED| :: SameLevel(latestResult.predictResult, before, PREDICTED[k])
      {
        var level := PREDICTED[i];
        if level in latestResult.analyzerBlock {
          BlendedWeighs(latestResult, level);
          var predicted := latestResult.predictResult[level := Blended(latestResult, level)];
          latestResult := latestResult.(predictResult := predicted);
        }
      }
      result := latestResult;
      assert LevelBlended(result, before, PREDICTED[0]);
      assert LevelBlended(result, before, PREDICTED[1]);
      assert LevelBlended(result, before, PREDICTED[2]);
      BlendOrdered(result, before);
      BlendExact(result, before);
    }

    method CollectPendingTx(snaps: seq<Mempool.Snap>, nextBaseFee: uint64, gasLimit: nat)
      returns (pool: seq<WeightedTip>)
      ensures pool == Collected(weigh, snaps, nextBaseFee, gasLimit)
    {
      pool := [];
      for i := 0 to |snaps|
        invariant pool == Collected(weigh, snaps[..i], nextBaseFee, gasLimit)
      {
        assert snaps[..i + 1][..i] == snaps[..i];
        var body := snaps[i].tx.body;
        if body.feeCap < nextBaseFee {
          continue;
        }
        var tip := EffectiveTip(body.feeCap, body.tipCap, nextBaseFee);
        if tip.None? {
          continue;
        }
        var weight := weigh(body.gasLimit, gasLimit);
        if snaps[i].nonceGap {
          weight := weight * 0.5;
        }
        pool := pool + [WeightedTip(tip.value, weight)];
      }
      assert snaps[..|snaps|] == snaps;
    }

    /** The levels of the tips of all pooled transactions that could pay the next base fee. */
    method AnalyzePending(pool: Mempool.PendingMemPool, nextBaseFee: uint64, gasLimit: nat)
      returns (r: map<Level, uint64>)
      requires Valid() && pool.Valid()
      ensures Ordered(r) && PendingAnalysed(weigh, pool.slots, nextBaseFee, gasLimit, r)
    {
      hide Analysis, Fees, Ordered, Mempool.SnapshotOf, Mempool.Linked, Collected;
      var snaps := pool.Snapshot();
      var pendingData := CollectPendingTx(snaps, nextBaseFee, gasLimit);
      CollectedWeighted(weigh, snaps, nextBaseFee, gasLimit);
      var poolData := new WeightedTip[|pendingData|](i requires 0 <= i < |pendingData| => pendingData[i]);
      assert poolData[..] == pendingData;
      r := PendingPercentiles(poolData);
    }
  }
}
