/**
 What the goroutines of the server share, with one method for each critical section, channel operation or node call: of
 the pending workers (internal/processor/processor.go), the failed-block loop (internal/coordinator/blockPipeline.go)
 and the analyzer (internal/gasanalyzer/analyzer.go), and of the block goroutine, which Processor and Pipeline drive.
 Every run of these sections is a run of the ready protocol.
 */
module Goroutines {
  import opened Common
  import opened BlockStore
  import opened Chain
  import opened Prediction
  import PoolSpec
  import Mempool
  import Analyzer
  import Ready = ReadyProtocol
  import WaitStats

  const FAILED_BUFFER: nat := 10

  /** The transactions of the receipts, in order. */
  function Hashes(receipts: seq<Receipt>): (hashes: seq<Hash>)
    ensures |hashes| == |receipts| && forall i | 0 <= i < |hashes| :: hashes[i] == receipts[i].txHash
  {
    seq(|receipts|, i requires 0 <= i < |receipts| => receipts[i].txHash)
  }

  /** Where the failed-block loop stands with the block it took. */
  datatype Cleaning =
    | Waiting
    | Took(header: Header)
    | Confirmed(header: Header)
    | Fetched(header: Header, receipts: seq<Receipt>)

  /** Where the analysis stands, and what it carries from one section to the next. */
  datatype Analysing =
    | Idle
    | Locked
    | Checked(reading: Analyzer.BlockAnalysisData)
    | Snapped(reading: Analyzer.BlockAnalysisData, levels: map<Level, uint64>)
    | PendingDone(reading: Analyzer.BlockAnalysisData)
    | Blended(reading: Analyzer.BlockAnalysisData, result: Analyzer.GasPrediction)
    | Sent

  /** The block and time a worker read before it pushes. */
  datatype ReadStamp = ReadStamp(block: nat, time: nat)

  /** The block data and the pool a prediction was made from. */
  datatype Origin = Origin(reading: Analyzer.BlockAnalysisData, pool: PoolSpec.Pool)

  predicate SameStage(v: Ready.Analysing, a: Analysing) {
    && (v.Idle? <==> a.Idle?) && (v.Locked? <==> a.Locked?) && (v.Checked? <==> a.Checked?)
    && (v.Snapped? <==> a.Snapped?) && (v.PendingDone? <==> a.PendingDone?) && (v.Blended? <==> a.Blended?)
  }

  predicate SameStamps(v: map<nat, Ready.Stamp>, stamps: map<nat, ReadStamp>) {
    v.Keys == stamps.Keys && forall id | id in stamps :: v[id].block == stamps[id].block
  }

  /** The levels are those of the affordable transactions of this pool, on the base fee that was read. */
  ghost predicate PendingOf(weigh: (nat, nat) -> real, o: Origin, levels: map<Level, uint64>) {
    Analyzer.PendingAnalysed(weigh, o.pool, o.reading.nextBaseFee, o.reading.gasLimit, levels)
  }

  /**
   What a prediction says: the blend of a complete block result and of the analysis of one state of the pool, on one
   reading of the block data, with its levels in order and its maximum fees in order exactly when they wrap alike.
   */
  ghost predicate PredictionOf(weigh: (nat, nat) -> real, p: Analyzer.GasPrediction, o: Origin) {
    && p.nextBlockNumber == o.reading.blockNumber + 1 && p.nextBaseFee == o.reading.nextBaseFee
    && PendingOf(weigh, o, Analyzer.Fees(p.analyzerPending))
    && Ordered(Analyzer.Fees(p.analyzerBlock)) && Analyzer.IsBlended(p, p.predictResult)
    && Ordered(Analyzer.Fees(p.predictResult)) && Analyzer.Complete(p.predictResult)
    && (Analyzer.MaxFeesOrdered(p.predictResult) <==> Analyzer.WrapsAlike(p.predictResult, p.nextBaseFee))
  }

  lemma CompleteBlend(p: Analyzer.GasPrediction, before: map<Level, Analyzer.GasLevel>)
    requires Analyzer.IsBlended(p, before) && Ordered(Analyzer.Fees(p.analyzerBlock))
    ensures Analyzer.IsBlended(p, p.predictResult)
  {
    forall k | 0 <= k < |PREDICTED| ensures Analyzer.LevelBlended(p, p.predictResult, PREDICTED[k]) {
      assert Analyzer.LevelBlended(p, before, PREDICTED[k]);
    }
  }

  // ---------- the pool and its stamps ----------

  ghost predicate StampedIn(block: nat, pushed: seq<Ready.Stamp>) {
    exists i | 0 <= i < |pushed| :: pushed[i].block == block
  }

  /** Every pooled transaction carries a stamp pushed since the pool was last cleared. */
  ghost predicate AllStamped(m: PoolSpec.Pool, pushed: seq<Ready.Stamp>) {
    forall s | s in m :: StampedIn(m[s].seenBlock, pushed)
  }

  lemma OfferedStamped(m: PoolSpec.Pool, txs: seq<PoolSpec.Signed>, block: nat, time: nat, ttl: nat,
                       pushed: seq<Ready.Stamp>, stamp: Ready.Stamp)
    requires AllStamped(m, pushed) && stamp.block == block
    ensures AllStamped(PoolSpec.OfferAll(m, PoolSpec.Stamped(txs, block, time, ttl)), pushed + [stamp])
  {
    var xs := PoolSpec.Stamped(txs, block, time, ttl);
    var m' := PoolSpec.OfferAll(m, xs);
    forall s | s in m' ensures StampedIn(m'[s].seenBlock, pushed + [stamp]) {
      PoolSpec.OfferAllOrigin(m, xs, s);
      if s in m && m'[s] == m[s] {
        var i :| 0 <= i < |pushed| && pushed[i].block == m[s].seenBlock;
        assert (pushed + [stamp])[i].block == m[s].seenBlock;
      } else {
        assert (pushed + [stamp])[|pushed|].block == block;
      }
    }
  }

  lemma OutdatedStamped(m: PoolSpec.Pool, pushed: seq<Ready.Stamp>)
    requires AllStamped(m, pushed)
    ensures AllStamped(m, Ready.AllOutdated(pushed))
  {
    forall s | s in m ensures StampedIn(m[s].seenBlock, Ready.AllOutdated(pushed)) {
      var i :| 0 <= i < |pushed| && pushed[i].block == m[s].seenBlock;
      assert Ready.AllOutdated(pushed)[i].block == m[s].seenBlock;
    }
  }

  /** Only workers and the failed-block loop worked on the pool meanwhile. */
  ghost predicate Foreign(before: seq<PoolSpec.Op>, after: seq<PoolSpec.Op>) {
    && before <= after
    && forall i | |before| <= i < |after| :: after[i].Push? || after[i].Receipts?
  }

  /** What the other goroutines never change: how far the block goroutine is, and what it has published. */
  ghost predicate Undisturbed(s: Ready.State, t: Ready.State) {
    && t.processing == s.processing && t.working == s.working && t.base == s.base && t.latest == s.latest
    && t.ready == s.ready && t.levels == s.levels && t.stored == s.stored && t.resets == s.resets
  }

  lemma ForeignChain(a: seq<PoolSpec.Op>, b: seq<PoolSpec.Op>, c: seq<PoolSpec.Op>)
    requires Foreign(a, b) && Foreign(b, c)
    ensures Foreign(a, c)
  {
  }

  predicate Publishing(p: Ready.Processing) {
    p.InitLatest? || p.BlockLatest? || p.ResyncLatest?
  }

  /** The protocol's state once the block in work and its levels are published. */
  ghost function Published(s: Ready.State): Ready.State
    requires Publishing(s.processing)
  {
    match s.processing
    case InitLatest => s.(processing := Ready.InitReady, latest := s.working, base := s.working, levels := true)
    case BlockLatest => s.(processing := Ready.AtRest, latest := s.working, base := Min(s.base, s.working),
                           levels := true)
    case ResyncLatest => s.(processing := Ready.ResyncPool, latest := s.working, base := s.working, levels := true)
  }

  lemma PublishedTwice(s: Ready.State, t: Ready.State, max: nat)
    requires Publishing(s.processing) && s.stored > 0
    requires Undisturbed(Ready.StepBlocks(s, Ready.BlockOf(s.working), max), t)
    ensures t.processing.InitLevels? || t.processing.BlockLevels? || t.processing.ResyncLevels?
    ensures Undisturbed(Published(s), Ready.StepBlocks(t, Ready.BlockOf(t.working), max))
  {
    match s.processing
    case InitLatest =>
      assert t.processing == Ready.InitLevels;
    case BlockLatest =>
      assert t.processing == Ready.BlockLevels;
    case ResyncLatest =>
      assert t.processing == Ready.ResyncLevels;
  }

  function FirstPhase(s: Ready.State, begin: Ready.Begin): Ready.Processing {
    if s.processing.NotStarted? then Ready.InitAdd
    else
      match begin
      case BlockOf(_) => Ready.BlockAdd
      case EmptyBlockOf(_) => Ready.BlockLatest
      case ResyncAt(_) => Ready.ResyncLock
  }

  function AfterAdd(p: Ready.Processing): Ready.Processing {
    if p.InitAdd? then Ready.InitLatest else if p.BlockAdd? then Ready.BlockLatest else Ready.ResyncLatest
  }

  /** The block goroutine went on to phase p of the same work. */
  predicate MovedTo(s: Ready.State, t: Ready.State, p: Ready.Processing) {
    t.processing == p && t.working == s.working && t.base == s.base
  }

  class Shared {
    const pool: Mempool.PendingMemPool
    const store: Store
    const analyzer: Analyzer.Analyzer
    const node: Node

    var runMu: Ready.Holder
    var stamps: map<nat, ReadStamp>
    var failedQueue: seq<Header>
    var cleaning: Cleaning
    var analysing: Analysing
    var sent: seq<Analyzer.GasPrediction>

    /** The run so far: as a run of the ready protocol, and as operations on the pool. */
    ghost var schedule: seq<Ready.Choice>
    ghost var view: Ready.State
    ghost var ops: seq<PoolSpec.Op>

    /** The pool as the analysis saw it, and what each sent prediction was made from. */
    ghost var snapped: PoolSpec.Pool
    ghost var origins: seq<Origin>

    ghost predicate Parts()
      reads this`failedQueue, pool, pool.owned, store, analyzer
    {
      pool.Valid() && store.Valid() && analyzer.Valid() && store.max >= 1 && |failedQueue| <= FAILED_BUFFER
    }

    /** The shared state is the one the ready protocol is in. */
    ghost predicate Matches()
      reads this`view, this`runMu, this`stamps, this`analysing, store`blocks
      reads analyzer`ready, analyzer`latestResult, analyzer`latestBlockData
    {
      && view.ready == analyzer.ready && view.latest == analyzer.latestBlockData.blockNumber
      && (view.levels <==> analyzer.latestResult.analyzerBlock != map[])
      && view.stored == |store.blocks| && view.runMu == runMu
      && SameStage(view.analysing, analysing) && SameStamps(view.stamps, stamps)
    }

    ghost predicate Follows()
      reads this`view, this`schedule
    {
      view == Ready.Run(schedule, store.max)
    }

    /** The pool is what the operations made of it. */
    ghost predicate Logged()
      reads this`view, this`ops, pool`slots
    {
      && pool.slots == PoolSpec.Run(map[], pool.meaning, pool.ttlBlock, ops)
      && AllStamped(pool.slots, view.pushed)
    }

    ghost predicate AnalysisOk()
      reads this`analysing, this`snapped, analyzer`latestResult
    {
      match analysing
      case Snapped(reading, levels) => Ordered(levels) && PendingOf(analyzer.weigh, Origin(reading, snapped), levels)
      case PendingDone(reading) =>
        PendingOf(analyzer.weigh, Origin(reading, snapped), Analyzer.Fees(analyzer.latestResult.analyzerPending))
      case Blended(reading, result) => PredictionOf(analyzer.weigh, result, Origin(reading, snapped))
      case _ => true
    }

    ghost predicate SentOk()
      reads this`sent, this`origins
    {
      && |origins| == |sent|
      && forall i | 0 <= i < |sent| :: PredictionOf(analyzer.weigh, sent[i], origins[i])
    }

    ghost predicate Valid()
      reads this`failedQueue, this`view, this`schedule, this`runMu, this`stamps, this`analysing
      reads this`ops, this`snapped, this`sent, this`origins, pool, pool.owned, store, analyzer
    {
      Parts() && Matches() && Follows() && Logged() && AnalysisOk() && SentOk()
    }

    constructor (pool: Mempool.PendingMemPool, store: Store, analyzer: Analyzer.Analyzer, node: Node)
      requires pool.Valid() && store.Valid() && analyzer.Valid() && store.max >= 1
      requires pool.slots == map[] && store.history == [] && !analyzer.ready
      requires analyzer.latestResult == Analyzer.NO_RESULT && analyzer.latestBlockData == Analyzer.NO_BLOCK
      ensures Valid() && view == Ready.INITIAL && ops == [] && sent == [] && failedQueue == []
      ensures this.pool == pool && this.store == store && this.analyzer == analyzer && this.node == node
    {
      this.pool := pool;
      this.store := store;
      this.analyzer := analyzer;
      this.node := node;
      runMu := Ready.Nobody;
      stamps := map[];
      failedQueue := [];
      cleaning := Waiting;
      analysing := Idle;
      sent := [];
      schedule := [];
      view := Ready.INITIAL;
      ops := [];
      snapped := map[];
      origins := [];
    }

    /**
     At every moment: ready exactly outside the building phases, and then the block result is complete and in order.
     */
    lemma ReadyExactly()
      requires Valid()
      ensures Ready.Inv(view)
      ensures analyzer.ready <==> !Ready.Building(view.processing)
      ensures analyzer.ready ==> Ordered(Analyzer.Fees(analyzer.latestResult.analyzerBlock))
    {
      Ready.EveryRun(schedule, store.max);
    }

    /** If every stamp pushed since the pool was cleared was read in the run, no pooled one is below the run's base. */
    lemma PooledInRun()
      requires Valid()
      requires forall i | 0 <= i < |view.pushed| :: view.pushed[i].inRun
      ensures forall s | s in pool.slots :: pool.slots[s].seenBlock >= view.base
    {
      Ready.EveryRun(schedule, store.max);
      forall s | s in pool.slots ensures pool.slots[s].seenBlock >= view.base {
        assert StampedIn(pool.slots[s].seenBlock, view.pushed);
        var i :| 0 <= i < |view.pushed| && view.pushed[i].block == pool.slots[s].seenBlock;
        assert Ready.StampOk(view, view.pushed[i]);
      }
    }

    /**
     At every moment outside the unset phases, while block numbers rise: the analyzer describes a block between the base
     of the run and the block in work, and that one exactly once it was published.
     */
    lemma AnalysisFollows()
      requires Valid() && Ready.Rising(schedule, store.max) && !Ready.Unset(view.processing)
      ensures view.base <= analyzer.latestBlockData.blockNumber <= view.working
      ensures analyzer.latestBlockData.blockNumber == view.working <==> !Ready.Ahead(view.processing)
    {
      hide Ready.Rising;
      Ready.LatestExact(schedule, store.max);
    }

    /** While block numbers rise, those are exactly the stamps that are blocks of the run. */
    lemma StampsOfRun(i: nat)
      requires Valid() && Ready.Rising(schedule, store.max) && !Ready.Unset(view.processing) && i < |view.pushed|
      ensures view.pushed[i].inRun <==> view.pushed[i].block >= view.base
    {
      hide Ready.Rising;
      Ready.StampExact(schedule, store.max);
    }

    lemma PoolSound()
      requires Valid()
      ensures PoolSpec.Sound(pool.slots, pool.meaning)
      ensures pool.slots == PoolSpec.Run(map[], pool.meaning, pool.ttlBlock, ops)
    {
      hide Matches, Follows, AnalysisOk, SentOk, PoolSpec.Run, PoolSpec.Sound;
      pool.HashIndexIsPool();
    }

    /**
     Settled now, the records are entry by entry those of the pooled transactions that the receipts name and that were
     seen no later than the block: each waited from the block and time it was seen to those of the block.
     */
    lemma SettledExact(header: Header, receipts: seq<Receipt>) returns (at: seq<PoolSpec.Slot>)
      requires Valid()
      ensures forall i, j | 0 <= i < j < |at| :: at[i] != at[j]
      ensures forall s ::
                s in at
                <==> (&& s in pool.slots && pool.slots[s].hash in Hashes(receipts)
                      && pool.slots[s].seenBlock <= header.number && pool.slots[s].seenTime <= header.time)
      ensures |at| == |SettledWaits(ops, header, receipts)|
      ensures forall i | 0 <= i < |at| ::
                var w, x := SettledWaits(ops, header, receipts)[i], pool.slots[at[i]];
                && w.blocks + x.seenBlock == header.number && w.seconds + x.seenTime == header.time
                && w.bucket == x.body.tipCap / 500_000_000 % 0x1_0000_0000
    {
      hide Valid, PoolSpec.Settle, PoolSpec.Run, PoolSpec.Sound, Hashes;
      PoolSound();
      at := PoolSpec.SettleRecords(pool.slots, pool.meaning, Hashes(receipts), header.number, header.time);
      forall s ensures s in at <==> PoolSpec.Recorded(pool.slots, Hashes(receipts), header.number, header.time, s) {
      }
      forall i | 0 <= i < |at|
        ensures PoolSpec.RecordOf(SettledWaits(ops, header, receipts)[i], pool.slots[at[i]], header.number, header.time)
      {
      }
    }

    /** Settled now, no receipt records a wait from before block `lo` exactly when no mined one is stamped before it. */
    lemma WaitsReach(header: Header, receipts: seq<Receipt>, lo: nat)
      requires Valid() && lo <= header.number
      ensures PoolSpec.WaitsWithin(SettledWaits(ops, header, receipts), header.number - lo)
              <==> PoolSpec.MinedSince(pool.slots, Hashes(receipts), header.number, header.time, lo)
    {
      hide Valid, PoolSpec.Settle, PoolSpec.Run, PoolSpec.Sound, PoolSpec.MinedSince;
      PoolSound();
      PoolSpec.WaitsExact(pool.slots, pool.meaning, Hashes(receipts), header.number, header.time, lo);
    }

    /** If every pushed stamp was read in the run, no recorded wait reaches back before the run's base. */
    lemma WaitsInRun(header: Header, receipts: seq<Receipt>)
      requires Valid() && view.base <= header.number
      requires forall i | 0 <= i < |view.pushed| :: view.pushed[i].inRun
      ensures PoolSpec.WaitsWithin(SettledWaits(ops, header, receipts), header.number - view.base)
    {
      hide Valid, SettledWaits;
      PooledInRun();
      WaitsReach(header, receipts, view.base);
    }

    ghost method Move(c: Ready.Choice)
      requires Follows()
      modifies this`view, this`schedule
      ensures Follows() && view == Ready.Step(old(view), c, store.max)
    {
      Ready.RunStep(schedule, c, store.max);
      view := Ready.Step(view, c, store.max);
      schedule := schedule + [c];
    }

    // ---------- the pending workers ----------

    /** A worker reads the block and time the analyzer publishes. */
    method ReadBlock(id: nat)
      requires Valid() && id !in stamps
      modifies this`stamps, this`view, this`schedule
      ensures Valid() && view == Ready.StepWorker(old(view), id)
      ensures stamps
              == old(stamps)[id := ReadStamp(analyzer.latestBlockData.blockNumber, analyzer.latestBlockData.blockTime)]
    {
      hide Parts, AnalysisOk, SentOk, Follows, AllStamped, PoolSpec.Run;
      stamps := stamps[id := ReadStamp(analyzer.latestBlockData.blockNumber, analyzer.latestBlockData.blockTime)];
      Move(Ready.MoveWorker(id));
    }

    /** A worker pushes the transactions it fetched, with the block and time it read earlier. */
    method PushBatch(id: nat, txs: seq<PoolSpec.Signed>)
      requires Valid() && id in stamps
      requires forall i | 0 <= i < |txs| :: txs[i].body == pool.meaning(txs[i].hash)
      modifies this`stamps, this`view, this`schedule, this`ops, pool, pool.owned
      ensures Valid() && view == Ready.StepWorker(old(view), id) && fresh(pool.owned - old(pool.owned))
      ensures stamps == old(stamps) - {id}
      ensures ops == old(ops) + [PoolSpec.Push(txs, old(stamps)[id].block, old(stamps)[id].time)]
    {
      hide AnalysisOk, SentOk, Follows, AllStamped, PoolSpec.Run, PoolSpec.OfferAll, Mempool.PendingMemPool.Valid;
      hide Analyzer.Analyzer.Valid, Store.Valid, SameStage;
      var stamp := stamps[id];
      OfferedStamped(pool.slots, txs, stamp.block, stamp.time, pool.ttlBlock, view.pushed, view.stamps[id]);
      PoolSpec.RunStep(map[], pool.meaning, pool.ttlBlock, ops, PoolSpec.Push(txs, stamp.block, stamp.time));
      pool.PushBatch(txs, stamp.block, stamp.time);
      stamps := stamps - {id};
      ops := ops + [PoolSpec.Push(txs, stamp.block, stamp.time)];
      Move(Ready.MoveWorker(id));
    }

    // ---------- the failed-block loop ----------

    /** A block given up on is offered to the channel, which takes it if it has room. */
    method OfferFailed(header: Header)
      requires Valid()
      modifies this`failedQueue
      ensures Valid()
      ensures failedQueue == if |old(failedQueue)| < 10 then old(failedQueue) + [header] else old(failedQueue)
    {
      hide Matches, AnalysisOk, SentOk, Follows, Logged, Mempool.PendingMemPool.Valid, Analyzer.Analyzer.Valid;
      if |failedQueue| < FAILED_BUFFER {
        failedQueue := failedQueue + [header];
      }
    }

    /** One step of the failed-block loop: take a block, check it for a reorganisation, fetch its receipts, clean up. */
    method FailedBlockStep()
      requires Valid()
      modifies this`failedQueue, this`cleaning, this`ops, pool, pool.owned, node
      ensures Valid() && pool.owned == old(pool.owned)
      ensures Foreign(old(ops), ops)
      ensures node.Quiet()
    {
      hide Valid;
      match cleaning
      case Waiting => TakeFailed();
      case Took(header) => ghost var _ := CheckFailed(header);
      case Confirmed(header) => ghost var _ := FetchFailed(header);
      case Fetched(header, receipts) => CleanUp(header, receipts);
    }

    method TakeFailed()
      requires Valid() && cleaning.Waiting?
      modifies this`failedQueue, this`cleaning
      ensures Valid()
      ensures old(failedQueue) == [] ==> failedQueue == [] && cleaning == Waiting
      ensures old(failedQueue) != [] ==> failedQueue == old(failedQueue)[1..] && cleaning == Took(old(failedQueue)[0])
    {
      hide Matches, AnalysisOk, SentOk, Follows, Logged, Mempool.PendingMemPool.Valid, Analyzer.Analyzer.Valid;
      if |failedQueue| == 0 {
        return;
      }
      cleaning := Took(failedQueue[0]);
      failedQueue := failedQueue[1..];
    }

    /**
     The block is kept if the node still has its hash, replaced by the one the node has now, or forgotten if the node
     does not answer.
     */
    method CheckFailed(header: Header) returns (ghost reply: Option<Header>)
      requires Valid() && cleaning == Took(header)
      modifies this`cleaning, node
      ensures Valid() && node.Quiet() && node.Asked(FailedLoop, HeaderReply(header.number, reply))
      ensures reply.None? ==> cleaning == Waiting
      ensures reply.Some? && reply.value.hash == header.hash ==> cleaning == Confirmed(header)
      ensures reply.Some? && reply.value.hash != header.hash ==> cleaning == Confirmed(reply.value)
    {
      hide Valid;
      var latest := node.HeaderByNumber(header.number, FailedLoop);
      reply := latest;
      if latest.None? {
        cleaning := Waiting;
      } else if latest.value.hash != header.hash {
        cleaning := Confirmed(latest.value);
      } else {
        cleaning := Confirmed(header);
      }
    }

    /** Without receipts the block is forgotten. */
    method FetchFailed(header: Header) returns (ghost reply: Option<seq<Receipt>>)
      requires Valid() && cleaning == Confirmed(header)
      modifies this`cleaning, node
      ensures Valid() && node.Quiet() && node.Asked(FailedLoop, ReceiptsReply(header, reply))
      ensures reply.None? || reply.value == [] ==> cleaning == Waiting
      ensures reply.Some? && reply.value != [] ==> cleaning == Fetched(header, reply.value)
    {
      hide Valid;
      var receipts := node.BlockReceipts(header, FailedLoop);
      reply := receipts;
      cleaning := if receipts.None? || |receipts.value| == 0 then Waiting else Fetched(header, receipts.value);
    }

    /** The mined transactions of a block given up on leave the pool. */
    method CleanUp(header: Header, receipts: seq<Receipt>)
      requires Valid() && cleaning == Fetched(header, receipts)
      modifies this`cleaning, this`ops, pool, pool.owned
      ensures Valid() && pool.owned == old(pool.owned) && cleaning == Waiting
      ensures ops == old(ops) + [PoolSpec.Receipts(Hashes(receipts), header.number, header.time)]
    {
      hide *;
      cleaning := Waiting;
      var _ := Settle(header, receipts);
    }

    /** The transactions a block's receipts name leave the pool, and their waits are counted. */
    method Settle(header: Header, receipts: seq<Receipt>) returns (feeBuckets: seq<FeeBucketStat>)
      requires Valid()
      modifies this`ops, pool, pool.owned
      ensures Valid() && pool.owned == old(pool.owned)
      ensures ops == old(ops) + [PoolSpec.Receipts(Hashes(receipts), header.number, header.time)]
      ensures WaitStats.Enumerates(feeBuckets, SettledWaits(old(ops), header, receipts))
    {
      hide AnalysisOk, SentOk, Follows, Matches, PoolSpec.Run, PoolSpec.Settle, Analyzer.Analyzer.Valid, Store.Valid;
      hide Mempool.PendingMemPool.Agree, WaitStats.Enumerates, WaitStats.Balanced;
      var hashes := Hashes(receipts);
      SettledStamped(pool.slots, hashes, header.number, header.time);
      PoolSpec.RunStep(map[], pool.meaning, pool.ttlBlock, ops, PoolSpec.Receipts(hashes, header.number, header.time));
      var stats, removed := pool.RemoveByReceipts(header.number, header.time, hashes);
      ops := ops + [PoolSpec.Receipts(hashes, header.number, header.time)];
      feeBuckets := stats;
    }

    /** The waits a block's receipts record when they settle what these operations had pooled. */
    ghost function SettledWaits(before: seq<PoolSpec.Op>, header: Header, receipts: seq<Receipt>): seq<WaitStats.Wait> {
      var m := PoolSpec.Run(map[], pool.meaning, pool.ttlBlock, before);
      PoolSpec.Settle(m, pool.meaning, Hashes(receipts), header.number, header.time).waits
    }

    lemma SettledStamped(m: PoolSpec.Pool, hashes: seq<Hash>, block: nat, time: nat)
      requires pool.Valid() && m == pool.slots && AllStamped(m, view.pushed)
      ensures AllStamped(PoolSpec.Settle(m, pool.meaning, hashes, block, time).pool, view.pushed)
    {
      hide PoolSpec.Settle;
      pool.HashIndexIsPool();
      PoolSpec.SettleRemoves(m, pool.meaning, hashes, block, time);
    }

    /** Transactions past their time-to-live leave the pool. */
    method Expire(number: nat)
      requires Valid()
      modifies this`ops, pool
      ensures Valid() && pool.owned == old(pool.owned)
      ensures ops == old(ops) + [PoolSpec.Expiry(number)]
    {
      hide AnalysisOk, SentOk, Follows, Matches, PoolSpec.Run, Analyzer.Analyzer.Valid, Store.Valid;
      hide Mempool.PendingMemPool.Agree;
      PoolSpec.RunStep(map[], pool.meaning, pool.ttlBlock, ops, PoolSpec.Expiry(number));
      var removed := pool.RemoveExpired(number);
      ops := ops + [PoolSpec.Expiry(number)];
    }

    // ---------- the analyzer ----------

    /** One section of the analyzer's loop. */
    method AnalysisStep()
      requires Valid()
      modifies this`analysing, this`runMu, this`sent, this`snapped, this`origins, this`view, this`schedule
      modifies analyzer`latestResult
      ensures Valid() && view == Ready.StepAnalysis(old(view)) && old(sent) <= sent
      ensures analyzer.latestResult.analyzerBlock == old(analyzer.latestResult.analyzerBlock)
    {
      hide *;
      match analysing
      case Idle => LockRun();
      case Locked => CheckReady();
      case Checked(reading) => SnapPool(reading);
      case Snapped(reading, levels) => StorePending(reading, levels);
      case PendingDone(reading) => BlendResults(reading);
      case Blended(reading, result) => SendResult(reading, result);
      case Sent => UnlockRun();
    }

    method LockRun()
      requires Valid() && analysing.Idle?
      modifies this`analysing, this`runMu, this`view, this`schedule
      ensures Valid() && view == Ready.StepAnalysis(old(view))
    {
      hide Parts, Follows, SentOk, AllStamped, PoolSpec.Run;
      if runMu == Ready.Nobody {
        runMu := Ready.Analysis;
        analysing := Locked;
      }
      Move(Ready.MoveAnalysis);
    }

    /** The block data is read; without readiness the analysis ends here. */
    method CheckReady()
      requires Valid() && analysing.Locked?
      modifies this`analysing, this`runMu, this`view, this`schedule
      ensures Valid() && view == Ready.StepAnalysis(old(view))
      ensures analysing == if analyzer.ready then Checked(analyzer.latestBlockData) else Idle
    {
      hide Parts, Follows, SentOk, AllStamped, PoolSpec.Run;
      if analyzer.ready {
        analysing := Checked(analyzer.latestBlockData);
      } else {
        analysing, runMu := Idle, Ready.Nobody;
      }
      Move(Ready.MoveAnalysis);
    }

    /** The pool is read once, and its affordable tips are analysed on the base fee read earlier. */
    method SnapPool(reading: Analyzer.BlockAnalysisData)
      requires Valid() && analysing == Checked(reading)
      modifies this`analysing, this`snapped, this`view, this`schedule
      ensures Valid() && view == Ready.StepAnalysis(old(view))
      ensures analysing.Snapped? && analysing.reading == reading && snapped == pool.slots
      ensures Analyzer.PendingAnalysed(analyzer.weigh, pool.slots, reading.nextBaseFee, reading.gasLimit,
                                       analysing.levels)
    {
      hide Follows, SentOk, AllStamped, PoolSpec.Run, Ordered, Analyzer.PendingAnalysed, Mempool.PendingMemPool.Valid;
      hide Analyzer.Analyzer.Valid, Store.Valid;
      var levels := analyzer.AnalyzePending(pool, reading.nextBaseFee, reading.gasLimit);
      snapped := pool.slots;
      analysing := Snapped(reading, levels);
      Move(Ready.MoveAnalysis);
    }

    method StorePending(reading: Analyzer.BlockAnalysisData, levels: map<Level, uint64>)
      requires Valid() && analysing == Snapped(reading, levels)
      modifies this`analysing, this`view, this`schedule, analyzer`latestResult
      ensures Valid() && view == Ready.StepAnalysis(old(view)) && analysing == PendingDone(reading)
      ensures analyzer.latestResult == old(analyzer.latestResult).(
                analyzerPending := Analyzer.Priced(levels, analyzer.latestBlockData.nextBaseFee))
    {
      hide Follows, SentOk, AllStamped, PoolSpec.Run, Ordered, Analyzer.PendingAnalysed, Mempool.PendingMemPool.Valid;
      hide Analyzer.Analyzer.Valid, Store.Valid, Analyzer.Fees, Analyzer.Priced;
      analyzer.UpdatePendingResult(levels);
      analysing := PendingDone(reading);
      Move(Ready.MoveAnalysis);
    }

    /** The two results are blended; since the check the block result has been complete. */
    method BlendResults(reading: Analyzer.BlockAnalysisData)
      requires Valid() && analysing == PendingDone(reading)
      modifies this`analysing, this`view, this`schedule, analyzer`latestResult
      ensures Valid() && view == Ready.StepAnalysis(old(view))
      ensures analysing == Blended(reading, analyzer.latestResult)
      ensures analyzer.latestResult.analyzerBlock == old(analyzer.latestResult.analyzerBlock)
    {
      hide Follows, SentOk, AllStamped, PoolSpec.Run, Ordered, Analyzer.PendingAnalysed, Mempool.PendingMemPool.Valid;
      hide Analyzer.Analyzer.Valid, Store.Valid, Analyzer.Fees, Analyzer.IsBlended, Ready.Inv;
      CheckHolds();
      var result := analyzer.UpdateResult(reading.blockNumber + 1, reading.nextBaseFee);
      CompleteBlend(result, old(analyzer.latestResult).predictResult);
      analysing := Blended(reading, result);
      Move(Ready.MoveAnalysis);
    }

    /** Past the check, the analyzer is still ready. */
    lemma CheckHolds()
      requires Valid() && analysing.PendingDone?
      ensures Ordered(Analyzer.Fees(analyzer.latestResult.analyzerBlock))
    {
      ReadyExactly();
    }

    method SendResult(reading: Analyzer.BlockAnalysisData, result: Analyzer.GasPrediction)
      requires Valid() && analysing == Blended(reading, result)
      modifies this`analysing, this`sent, this`origins, this`view, this`schedule
      ensures Valid() && view == Ready.StepAnalysis(old(view)) && analysing == Sent
      ensures sent == old(sent) + [result] && origins == old(origins) + [Origin(reading, snapped)]
    {
      hide Parts, Follows, AllStamped, PoolSpec.Run, PredictionOf;
      sent := sent + [result];
      origins := origins + [Origin(reading, snapped)];
      analysing := Sent;
      Move(Ready.MoveAnalysis);
    }

    /** Whatever ran in between, every prediction ever sent has its levels in order. */
    lemma EverySend(i: nat)
      requires Valid() && i < |sent|
      ensures i < |origins|
      ensures var reading := origins[i].reading;
              && sent[i].nextBlockNumber == reading.blockNumber + 1 && sent[i].nextBaseFee == reading.nextBaseFee
              && Analyzer.PendingAnalysed(analyzer.weigh, origins[i].pool, reading.nextBaseFee, reading.gasLimit,
                                          Analyzer.Fees(sent[i].analyzerPending))
      ensures Ordered(Analyzer.Fees(sent[i].predictResult)) && Analyzer.Complete(sent[i].predictResult)
      ensures Analyzer.MaxFeesOrdered(sent[i].predictResult)
              <==> Analyzer.WrapsAlike(sent[i].predictResult, sent[i].nextBaseFee)
      ensures forall level | level in sent[i].analyzerBlock && level != Low ::
                && level in sent[i].predictResult
                && var p, fee := sent[i], sent[i].predictResult[level].priorityFee;
                   var pending := if level in p.analyzerPending then p.analyzerPending[level].priorityFee else 0;
                   && 5 * fee <= p.analyzerBlock[level].priorityFee + 4 * pending < 5 * (fee + 1)
                   && p.predictResult[level].maxFee == (p.nextBaseFee + fee) % TWO_64
    {
      hide Analyzer.PendingAnalysed, Ordered, Analyzer.IsBlended;
      assert PredictionOf(analyzer.weigh, sent[i], origins[i]);
      Analyzer.BlendExact(sent[i], sent[i].predictResult);
    }

    method UnlockRun()
      requires Valid() && analysing.Sent?
      modifies this`analysing, this`runMu, this`view, this`schedule
      ensures Valid() && view == Ready.StepAnalysis(old(view))
    {
      hide Parts, Follows, SentOk, AllStamped, PoolSpec.Run;
      analysing, runMu := Idle, Ready.Nobody;
      Move(Ready.MoveAnalysis);
    }

    // ---------- any steps of the other goroutines ----------

    /** What holds whatever the other goroutines did meanwhile. */
    twostate predicate Meanwhile()
      reads this`view, this`ops, this`sent, analyzer`latestResult, node
    {
      && Undisturbed(old(view), view) && Foreign(old(ops), ops) && old(sent) <= sent
      && analyzer.latestResult.analyzerBlock == old(analyzer.latestResult.analyzerBlock)
      && node.Quiet()
    }

    /** One step of a pending worker: it reads the block, or pushes what it fetched. */
    method WorkerStep(id: nat)
      requires Valid()
      modifies this`stamps, this`view, this`schedule, this`ops, pool, pool.owned
      ensures Valid() && fresh(pool.owned - old(pool.owned))
      ensures view == old(view) || view == Ready.StepWorker(old(view), id)
      ensures Foreign(old(ops), ops)
    {
      hide Valid, Ready.StepWorker;
      if id !in stamps {
        ReadBlock(id);
      } else {
        var txs: seq<PoolSpec.Signed> :| true;
        if forall i | 0 <= i < |txs| :: txs[i].body == pool.meaning(txs[i].hash) {
          PushBatch(id, txs);
        }
      }
    }

    /** Any number of steps of the workers and the failed-block loop. */
    method PoolSteps()
      requires Valid()
      modifies this`stamps, this`failedQueue, this`cleaning, this`view, this`schedule, this`ops, pool, pool.owned, node
      ensures Valid() && fresh(pool.owned - old(pool.owned))
      ensures Meanwhile() && view.analysing == old(view).analysing && view.runMu == old(view).runMu
    {
      hide Valid;
      var steps: nat :| true;
      for i := 0 to steps
        invariant Valid() && fresh(pool.owned - old(pool.owned))
        invariant Meanwhile() && view.analysing == old(view).analysing && view.runMu == old(view).runMu
      {
        var failed: bool := *;
        if failed {
          FailedBlockStep();
        } else {
          var id: nat :| true;
          WorkerStep(id);
        }
      }
    }

    /** Any number of steps of all the other goroutines, between two sections of the block goroutine. */
    method Interfere()
      requires Valid()
      modifies this, pool, pool.owned, node, analyzer`latestResult
      ensures Valid() && fresh(pool.owned - old(pool.owned))
      ensures Meanwhile()
    {
      hide Valid;
      var steps: nat :| true;
      for i := 0 to steps
        invariant Valid() && fresh(pool.owned - old(pool.owned))
        invariant Meanwhile()
      {
        PoolSteps();
        AnalysisStep();
      }
      PoolSteps();
    }

    // ---------- the sections of the block goroutine ----------

    /** The block goroutine begins with a block, of which the others see nothing yet. */
    ghost method Begin(begin: Ready.Begin)
      requires Valid() && (view.processing == Ready.NotStarted || view.processing == Ready.AtRest)
      modifies this`view, this`schedule
      ensures Valid() && view == Ready.StepBlocks(old(view), begin, store.max)
      ensures view.working == begin.number && view.base == old(view).base
              && view.processing == FirstPhase(old(view), begin)
    {
      hide Parts, Follows, AnalysisOk, SentOk, AllStamped, PoolSpec.Run, SameStage, SameStamps;
      Move(Ready.MoveBlocks(begin));
    }

    ghost function Next(): Ready.State
      reads this`view
    {
      Ready.StepBlocks(view, Ready.BlockOf(view.working), store.max)
    }

    method AddBlock(b: BlockData)
      requires Valid()
      requires view.processing == Ready.InitAdd || view.processing == Ready.BlockAdd
               || view.processing == Ready.ResyncAdd
      modifies this`view, this`schedule, store
      ensures Valid() && view == old(Next()) && MovedTo(old(view), view, AfterAdd(old(view).processing))
      ensures store.history == old(store.history) + [b]
    {
      hide Follows, AnalysisOk, SentOk, AllStamped, PoolSpec.Run, SameStage, SameStamps, Mempool.PendingMemPool.Valid;
      hide Analyzer.Analyzer.Valid;
      store.AddBlock(b);
      Move(Ready.MoveBlocks(Ready.BlockOf(view.working)));
    }

    method PublishBlock(header: Header, nextBaseFee: uint64, cutoff: uint64)
      requires Valid() && view.working == header.number
      requires view.processing == Ready.InitLatest || view.processing == Ready.BlockLatest
               || view.processing == Ready.ResyncLatest
      modifies this`view, this`schedule, analyzer`latestBlockData
      ensures Valid() && view == old(Next())
      ensures analyzer.latestBlockData == Analyzer.BlockAnalysisData(
                header.number, header.time, header.baseFee % TWO_64, nextBaseFee, header.gasUsed, header.gasLimit,
                cutoff)
    {
      hide Follows, AnalysisOk, SentOk, AllStamped, PoolSpec.Run, SameStage, SameStamps, Mempool.PendingMemPool.Valid;
      ReadyExactly();
      analyzer.UpdateLatestBlockData(header, nextBaseFee, cutoff);
      Move(Ready.MoveBlocks(Ready.BlockOf(view.working)));
    }

    method PublishLevels(result: map<Level, uint64>)
      requires Valid() && Ordered(result)
      requires view.processing == Ready.InitLevels || view.processing == Ready.BlockLevels
               || view.processing == Ready.ResyncLevels
      modifies this`view, this`schedule, analyzer`latestResult
      ensures Valid() && view == old(Next())
      ensures analyzer.latestResult == old(analyzer.latestResult).(
                analyzerBlock := Analyzer.Priced(result, analyzer.latestBlockData.nextBaseFee))
      ensures Analyzer.Fees(analyzer.latestResult.analyzerBlock) == result
    {
      hide Follows, SentOk, AllStamped, PoolSpec.Run, SameStage, SameStamps, Mempool.PendingMemPool.Valid, PendingOf;
      ReadyExactly();
      analyzer.UpdateBlockResult(result);
      Move(Ready.MoveBlocks(Ready.BlockOf(view.working)));
    }

    /** Both sections, with the other goroutines in between. */
    method Publish(header: Header, nextBaseFee: uint64, cutoff: uint64, result: map<Level, uint64>)
      requires Valid() && Ordered(result) && view.working == header.number && view.stored > 0
      requires Publishing(view.processing)
      modifies this, pool, pool.owned, node, analyzer
      ensures Valid() && fresh(pool.owned - old(pool.owned))
      ensures Undisturbed(Published(old(view)), view)
      ensures Foreign(old(ops), ops) && node.Quiet()
      ensures analyzer.latestBlockData == Analyzer.BlockAnalysisData(
                header.number, header.time, header.baseFee % TWO_64, nextBaseFee, header.gasUsed, header.gasLimit,
                cutoff)
      ensures Analyzer.Fees(analyzer.latestResult.analyzerBlock) == result
    {
      hide Valid, Foreign, Analyzer.Fees, Ordered, Ready.StepBlocks, Undisturbed, Published;
      PublishBlock(header, nextBaseFee, cutoff);
      Interfere();
      PublishedTwice(old(view), view, store.max);
      PublishLevels(result);
    }

    method MakeReady()
      requires Valid() && (view.processing == Ready.InitReady || view.processing == Ready.ResyncReady)
      modifies this`view, this`schedule, analyzer`ready
      ensures Valid() && view == old(Next()) && MovedTo(old(view), view, Ready.AtRest) && analyzer.ready
    {
      hide Follows, SentOk, AllStamped, PoolSpec.Run, SameStage, SameStamps, Mempool.PendingMemPool.Valid, AnalysisOk;
      analyzer.SetReady();
      Move(Ready.MoveBlocks(Ready.BlockOf(view.working)));
    }

    /** Reset waits for the mutex: the analysis in progress goes on to its end, and so may all the others. */
    method LockReset()
      requires Valid() && view.processing == Ready.ResyncLock
      modifies this, pool, pool.owned, node, analyzer`latestResult
      ensures Valid() && fresh(pool.owned - old(pool.owned)) && view.processing == Ready.ResyncWipe
      ensures runMu == Ready.Blocks && analysing == Idle
      ensures Undisturbed(old(view).(processing := Ready.ResyncWipe), view)
      ensures Foreign(old(ops), ops) && old(sent) <= sent
      ensures node.Quiet()
    {
      hide Valid;
      Interfere();
      Await();
      TakeRun();
    }

    method Await()
      requires Valid()
      modifies this, pool, pool.owned, node, analyzer`latestResult
      ensures Valid() && fresh(pool.owned - old(pool.owned))
      ensures Meanwhile() && analysing == Idle
    {
      hide Valid;
      while analysing != Idle
        invariant Valid() && fresh(pool.owned - old(pool.owned))
        invariant Meanwhile()
        decreases Ready.Left(view.analysing)
      {
        SameIdle();
        PoolSteps();
        AnalysisStep();
      }
    }

    lemma SameIdle()
      requires Valid()
      ensures view.analysing.Idle? <==> analysing.Idle?
    {
    }

    method TakeRun()
      requires Valid() && view.processing == Ready.ResyncLock && analysing == Idle
      modifies this`view, this`schedule, this`runMu
      ensures Valid() && view == old(Next()) && view.processing == Ready.ResyncWipe && runMu == Ready.Blocks
    {
      hide Parts, Follows, AnalysisOk, SentOk, AllStamped, PoolSpec.Run, SameStamps;
      ReadyExactly();
      runMu := Ready.Blocks;
      Move(Ready.MoveBlocks(Ready.BlockOf(view.working)));
    }

    /** Reset wipes the analyzer and lets go of the mutex. */
    method WipeAnalyzer()
      requires Valid() && view.processing == Ready.ResyncWipe
      modifies this`view, this`schedule, this`runMu, analyzer
      ensures Valid() && view == old(Next()) && MovedTo(old(view), view, Ready.ResyncClear)
      ensures !analyzer.ready && analyzer.latestResult == Analyzer.NO_RESULT
      ensures analyzer.latestBlockData == Analyzer.NO_BLOCK
      ensures runMu == Ready.Nobody && analysing == old(analysing) == Idle
    {
      hide Follows, SentOk, AllStamped, PoolSpec.Run, Mempool.PendingMemPool.Valid, Store.Valid;
      ReadyExactly();
      OutdatedStamped(pool.slots, view.pushed);
      analyzer.Reset();
      runMu := Ready.Nobody;
      Move(Ready.MoveBlocks(Ready.BlockOf(view.working)));
    }

    method ClearStore()
      requires Valid() && view.processing == Ready.ResyncClear
      modifies this`view, this`schedule, store
      ensures Valid() && view == old(Next()) && MovedTo(old(view), view, Ready.ResyncAdd) && store.history == []
    {
      hide Follows, AnalysisOk, SentOk, AllStamped, PoolSpec.Run, SameStage, SameStamps, Mempool.PendingMemPool.Valid;
      hide Analyzer.Analyzer.Valid;
      store.Clear();
      Move(Ready.MoveBlocks(Ready.BlockOf(view.working)));
    }

    method ClearPool()
      requires Valid() && view.processing == Ready.ResyncPool
      modifies this`view, this`schedule, this`ops, pool
      ensures Valid() && view == old(Next()) && MovedTo(old(view), view, Ready.ResyncReady) && pool.owned == {}
      ensures ops == old(ops) + [PoolSpec.Wipe]
    {
      hide Follows, AnalysisOk, SentOk, PoolSpec.Run, SameStage, SameStamps, Mempool.PendingMemPool.Valid;
      hide Analyzer.Analyzer.Valid;
      PoolSpec.RunStep(map[], pool.meaning, pool.ttlBlock, ops, PoolSpec.Wipe);
      pool.Clear();
      ops := ops + [PoolSpec.Wipe];
      Move(Ready.MoveBlocks(Ready.BlockOf(view.working)));
    }
  }
}
