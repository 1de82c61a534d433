/** Fee-bucket statistics over the stored window, as they are uploaded (internal/processor/processor_block.go). */
module FeeUpload {
  import opened Common
  import opened BlockStore
  import opened WaitStats

  datatype WaitBlockCount = WaitBlockCount(waitBlock: nat, txCount: nat)

  datatype FeeBucketMsg = FeeBucketMsg(
    bucket: nat,
    minPriority: real,
    maxPriority: real,
    totalTxCount: nat,
    avrWaitBlocks: real,
    avrWaitSeconds: real,
    waitBlockCount: seq<WaitBlockCount>)

  const WEI_PER_GWEI: real := 1_000_000_000.0

  /** The fee range, in gwei, that a bucket number stands for. */
  function BucketMin(bucket: nat): real {
    FEE_BUCKET_SIZE as real / WEI_PER_GWEI * bucket as real
  }

  function BucketMax(bucket: nat): real {
    BucketMin(bucket) + FEE_BUCKET_SIZE as real / WEI_PER_GWEI
  }

  /** A tip lies in the published range of its bucket exactly when the bucket number did not overflow 32 bits. */
  lemma RangeExact(tip: uint64)
    ensures var gwei := tip as real / 1_000_000_000.0;
            BucketMin(FeeBucket(tip)) <= gwei < BucketMax(FeeBucket(tip)) <==> tip < 0x1_0000_0000 * 500_000_000
    ensures BucketMax(FeeBucket(tip)) == BucketMin(FeeBucket(tip)) + 0.5
  {
    var q := tip / FEE_BUCKET_SIZE;
    var b := FeeBucket(tip);
    assert tip == q * FEE_BUCKET_SIZE + tip % FEE_BUCKET_SIZE;
    assert BucketMin(b) * WEI_PER_GWEI == (b * FEE_BUCKET_SIZE) as real;
    assert BucketMax(b) * WEI_PER_GWEI == (b * FEE_BUCKET_SIZE + FEE_BUCKET_SIZE) as real;
    if tip < TWO_32 * FEE_BUCKET_SIZE {
      assert b == q;
    } else {
      assert b < TWO_32 <= q;
    }
  }

  /** The lowest tip outside its published range: bucket zero, whose range ends at half a gwei, stands for it. */
  lemma RangeMissed()
    ensures var tip := 0x1_0000_0000 * 500_000_000;
            tip < TWO_64 && FeeBucket(tip) == 0 && BucketMin(0) == 0.0 && BucketMax(0) == 0.5
  {
    var tip := TWO_32 * FEE_BUCKET_SIZE;
    assert tip / FEE_BUCKET_SIZE == TWO_32;
    assert BucketMax(0) * WEI_PER_GWEI == FEE_BUCKET_SIZE as real;
  }

  // ---------- aggregation ----------

  ghost function Flatten(blocks: seq<BlockData>): seq<FeeBucketStat> {
    if blocks == [] then [] else Flatten(blocks[..|blocks| - 1]) + blocks[|blocks| - 1].feeBuckets
  }

  predicate AllShaped(stats: seq<FeeBucketStat>) {
    forall i | 0 <= i < |stats| :: Shaped(stats[i])
  }

  /** The entries of one bucket added up. */
  ghost function Merged(bucket: nat, stats: seq<FeeBucketStat>): (r: FeeBucketStat)
    requires AllShaped(stats)
    ensures Shaped(r) && r.bucket == bucket
  {
    if stats == [] then EmptyStat(bucket)
    else
      var n := |stats| - 1;
      if stats[n].bucket == bucket then Merge(Merged(bucket, stats[..n]), stats[n]) else Merged(bucket, stats[..n])
  }

  ghost predicate Table(stats: map<nat, FeeBucketStat>, done: seq<FeeBucketStat>)
    requires AllShaped(done)
  {
    && (forall b | b in stats :: stats[b] == Merged(b, done) && Covers(done, b))
    && (forall i | 0 <= i < |done| :: done[i].bucket in stats)
  }

  lemma TableStep(stats: map<nat, FeeBucketStat>, done: seq<FeeBucketStat>, x: FeeBucketStat)
    requires AllShaped(done) && Shaped(x) && Table(stats, done)
    ensures AllShaped(done + [x])
    ensures var prior := if x.bucket in stats then stats[x.bucket] else EmptyStat(x.bucket);
            Shaped(prior) && Table(stats[x.bucket := Merge(prior, x)], done + [x])
  {
    assert (done + [x])[..|done|] == done;
    assert (done + [x])[|done|] == x;
    var prior := if x.bucket in stats then stats[x.bucket] else EmptyStat(x.bucket);
    if x.bucket !in stats {
      NoneMerged(x.bucket, done);
    }
    var stats' := stats[x.bucket := Merge(prior, x)];
    forall b | b in stats' ensures stats'[b] == Merged(b, done + [x]) && Covers(done + [x], b) {
      if b != x.bucket {
        var j :| 0 <= j < |done| && done[j].bucket == b;
        assert (done + [x])[j].bucket == b;
      }
    }
  }

  lemma {:induction false} NoneMerged(bucket: nat, stats: seq<FeeBucketStat>)
    requires AllShaped(stats) && forall i | 0 <= i < |stats| :: stats[i].bucket != bucket
    ensures Merged(bucket, stats) == EmptyStat(bucket)
  {
    if stats != [] {
      NoneMerged(bucket, stats[..|stats| - 1]);
    }
  }

  method AggregateFeeBucket(blocks: seq<BlockData>) returns (stats: map<nat, FeeBucketStat>)
    requires forall i | 0 <= i < |blocks| :: AllShaped(blocks[i].feeBuckets)
    ensures AllShaped(Flatten(blocks)) && Table(stats, Flatten(blocks))
  {
    hide Merged, Merge, Covers;
    stats := map[];
    ghost var done: seq<FeeBucketStat> := [];
    for i := 0 to |blocks|
      invariant done == Flatten(blocks[..i]) && AllShaped(done) && Table(stats, done)
    {
      assert blocks[..i + 1][..i] == blocks[..i];
      ghost var start := done;
      for j := 0 to |blocks[i].feeBuckets|
        invariant done == start + blocks[i].feeBuckets[..j] && AllShaped(done) && Table(stats, done)
      {
        var bucket := blocks[i].feeBuckets[j];
        TableStep(stats, done, bucket);
        var stat := if bucket.bucket in stats then stats[bucket.bucket] else EmptyStat(bucket.bucket);
        stats := stats[bucket.bucket := Merge(stat, bucket)];
        done := done + [bucket];
      }
    }
    assert blocks[..|blocks|] == blocks;
  }

  // ---------- aggregation keeps the meaning ----------

  ghost function Concat(wss: seq<seq<Wait>>): seq<Wait> {
    if wss == [] then [] else Concat(wss[..|wss| - 1]) + wss[|wss| - 1]
  }

  lemma {:induction false} MergedConcat(bucket: nat, u: seq<FeeBucketStat>, v: seq<FeeBucketStat>)
    requires AllShaped(u) && AllShaped(v)
    ensures AllShaped(u + v)
    ensures Merged(bucket, u + v) == Merge(Merged(bucket, u), Merged(bucket, v))
  {
    if v == [] {
      assert u + v == u;
      assert Merge(Merged(bucket, u), EmptyStat(bucket)).waitBlockCount == Merged(bucket, u).waitBlockCount;
    } else {
      var n := |v| - 1;
      assert (u + v)[..|u + v| - 1] == u + v[..n];
      MergedConcat(bucket, u, v[..n]);
      if v[n].bucket == bucket {
        assert Merged(bucket, u + v).waitBlockCount == Merge(Merged(bucket, u), Merged(bucket, v)).waitBlockCount;
      }
    }
  }

  /** The listed statistics of one block merge, bucket by bucket, to the statistics of its transactions. */
  lemma MergedBlock(bucket: nat, stats: seq<FeeBucketStat>, ws: seq<Wait>)
    requires Enumerates(stats, ws)
    ensures AllShaped(stats) && Merged(bucket, stats) == StatFor(bucket, ws)
  {
    if j :| 0 <= j < |stats| && stats[j].bucket == bucket {
      MergedSingle(bucket, stats, j);
      assert Merge(EmptyStat(bucket), stats[j]).waitBlockCount == stats[j].waitBlockCount;
    } else {
      NoneMerged(bucket, stats);
      forall i | 0 <= i < |ws| ensures ws[i].bucket != bucket {
        assert Covers(stats, ws[i].bucket);
      }
      AbsentBucket(bucket, ws);
    }
  }

  lemma {:induction false} MergedSingle(bucket: nat, stats: seq<FeeBucketStat>, j: nat)
    requires AllShaped(stats) && j < |stats| && stats[j].bucket == bucket
    requires forall i | 0 <= i < |stats| && i != j :: stats[i].bucket != bucket
    ensures Merged(bucket, stats) == Merge(EmptyStat(bucket), stats[j])
  {
    var n := |stats| - 1;
    if j == n {
      NoneMerged(bucket, stats[..n]);
    } else {
      MergedSingle(bucket, stats[..n], j);
    }
  }

  /** Aggregating a window gives the statistics of all the transactions counted in its blocks. */
  lemma {:induction false} WindowStatistics(bucket: nat, blocks: seq<BlockData>, wss: seq<seq<Wait>>)
    requires |blocks| == |wss| && forall i | 0 <= i < |blocks| :: Enumerates(blocks[i].feeBuckets, wss[i])
    ensures AllShaped(Flatten(blocks)) && Merged(bucket, Flatten(blocks)) == StatFor(bucket, Concat(wss))
  {
    if blocks != [] {
      var n := |blocks| - 1;
      WindowStatistics(bucket, blocks[..n], wss[..n]);
      MergedBlock(bucket, blocks[n].feeBuckets, wss[n]);
      MergedConcat(bucket, Flatten(blocks[..n]), blocks[n].feeBuckets);
      MergeIsConcat(bucket, Concat(wss[..n]), wss[n]);
    }
  }

  // ---------- conversion ----------

  function CountSum(counts: seq<WaitBlockCount>): nat {
    if counts == [] then 0 else CountSum(counts[..|counts| - 1]) + counts[|counts| - 1].txCount
  }

  /** The message of one statistic: its numbers, its averages, and its non-empty histogram slots in order. */
  ghost predicate MessageOf(msg: FeeBucketMsg, stat: FeeBucketStat)
    requires Shaped(stat)
  {
    && msg.bucket == stat.bucket && msg.totalTxCount == stat.txCount > 0
    && msg.minPriority == BucketMin(stat.bucket) && msg.maxPriority == BucketMax(stat.bucket)
    && msg.avrWaitBlocks * stat.txCount as real == stat.totalWaitBlocks as real
    && msg.avrWaitSeconds * stat.txCount as real == stat.totalWaitSeconds as real
    && CountSum(msg.waitBlockCount) == Sum(stat.waitBlockCount)
    && (forall i, j | 0 <= i < j < |msg.waitBlockCount| ::
          msg.waitBlockCount[i].waitBlock < msg.waitBlockCount[j].waitBlock)
    && (forall i | 0 <= i < |msg.waitBlockCount| ::
          var c := msg.waitBlockCount[i]; c.waitBlock < WAIT_SLOTS && c.txCount == stat.waitBlockCount[c.waitBlock] > 0)
  }

  method CountSlots(stat: FeeBucketStat) returns (counts: seq<WaitBlockCount>)
    requires Shaped(stat)
    ensures CountSum(counts) == Sum(stat.waitBlockCount)
    ensures forall i, j | 0 <= i < j < |counts| :: counts[i].waitBlock < counts[j].waitBlock
    ensures forall i | 0 <= i < |counts| ::
              counts[i].waitBlock < WAIT_SLOTS && counts[i].txCount == stat.waitBlockCount[counts[i].waitBlock] > 0
  {
    counts := [];
    for k := 0 to WAIT_SLOTS
      invariant CountSum(counts) == Sum(stat.waitBlockCount[..k])
      invariant forall i, j | 0 <= i < j < |counts| :: counts[i].waitBlock < counts[j].waitBlock
      invariant forall i | 0 <= i < |counts| ::
                  counts[i].waitBlock < k && counts[i].txCount == stat.waitBlockCount[counts[i].waitBlock] > 0
    {
      assert stat.waitBlockCount[..k + 1][..k] == stat.waitBlockCount[..k];
      if stat.waitBlockCount[k] == 0 {
        continue;
      }
      ghost var before := counts;
      counts := counts + [WaitBlockCount(k, stat.waitBlockCount[k])];
      assert counts[..|counts| - 1] == before;
    }
    assert stat.waitBlockCount[..WAIT_SLOTS] == stat.waitBlockCount;
  }

  method ToMessage(stat: FeeBucketStat) returns (msg: FeeBucketMsg)
    requires Shaped(stat) && stat.txCount > 0
    ensures MessageOf(msg, stat) && msg.bucket == stat.bucket
  {
    var counts := CountSlots(stat);
    var n := stat.txCount as real;
    msg := FeeBucketMsg(stat.bucket, BucketMin(stat.bucket), BucketMax(stat.bucket), stat.txCount,
                        stat.totalWaitBlocks as real / n, stat.totalWaitSeconds as real / n, counts);
  }

  /** `msgs` are the messages of the non-empty statistics of the table, each once. */
  ghost predicate Messages(msgs: seq<FeeBucketMsg>, stats: map<nat, FeeBucketStat>)
    requires forall b | b in stats :: Shaped(stats[b])
  {
    && (forall i | 0 <= i < |msgs| :: msgs[i].bucket in stats && MessageOf(msgs[i], stats[msgs[i].bucket]))
    && (forall b | b in stats && stats[b].txCount > 0 :: Mentions(msgs, b))
  }

  ghost predicate Mentions(msgs: seq<FeeBucketMsg>, bucket: nat) {
    exists i | 0 <= i < |msgs| :: msgs[i].bucket == bucket
  }

  predicate Rising(msgs: seq<FeeBucketMsg>) {
    forall i, j | 0 <= i < j < |msgs| :: msgs[i].bucket < msgs[j].bucket
  }

  /** A message put in its place among messages in bucket order. */
  method Place(msgs: seq<FeeBucketMsg>, msg: FeeBucketMsg) returns (r: seq<FeeBucketMsg>)
    requires Rising(msgs) && !Mentions(msgs, msg.bucket)
    ensures Rising(r)
    ensures forall m :: m in r <==> m in msgs || m == msg
  {
    forall i | 0 <= i < |msgs| ensures msgs[i].bucket != msg.bucket {
      assert !Mentions(msgs, msg.bucket);
    }
    var k := |msgs|;
    while k > 0 && msgs[k - 1].bucket > msg.bucket
      invariant 0 <= k <= |msgs|
      invariant forall i | k <= i < |msgs| :: msgs[i].bucket > msg.bucket
    {
      k := k - 1;
    }
    r := msgs[..k] + [msg] + msgs[k..];
    PlacedMembers(msgs, msg, k);
    PlacedRising(msgs, msg, k);
  }

  lemma PlacedMembers(msgs: seq<FeeBucketMsg>, msg: FeeBucketMsg, k: nat)
    requires k <= |msgs|
    ensures forall m :: m in msgs[..k] + [msg] + msgs[k..] <==> m in msgs || m == msg
  {
    assert msgs == msgs[..k] + msgs[k..];
  }

  lemma PlacedRising(msgs: seq<FeeBucketMsg>, msg: FeeBucketMsg, k: nat)
    requires k <= |msgs| && Rising(msgs)
    requires forall i | 0 <= i < k :: msgs[i].bucket < msg.bucket
    requires forall i | k <= i < |msgs| :: msgs[i].bucket > msg.bucket
    ensures Rising(msgs[..k] + [msg] + msgs[k..])
  {
  }

  /** Conversion of every non-empty statistic, and the messages in strictly rising bucket order. */
  method ConvertFeeBuckets(stats: map<nat, FeeBucketStat>) returns (msgs: seq<FeeBucketMsg>)
    requires forall b | b in stats :: Shaped(stats[b]) && stats[b].bucket == b
    ensures Rising(msgs) && Messages(msgs, stats)
  {
    hide MessageOf, Shaped;
    var list := ListStats(stats);
    msgs := [];
    for i := 0 to |list|
      invariant Rising(msgs)
      invariant forall k | 0 <= k < |msgs| :: msgs[k].bucket in stats && MessageOf(msgs[k], stats[msgs[k].bucket])
      invariant forall k, l | 0 <= k < |msgs| && i <= l < |list| :: msgs[k].bucket != list[l].bucket
      invariant forall l | 0 <= l < i && list[l].txCount > 0 :: Mentions(msgs, list[l].bucket)
    {
      var stat := list[i];
      if stat.txCount == 0 {
        continue;
      }
      var msg := ToMessage(stat);
      ghost var before := msgs;
      msgs := Place(msgs, msg);
      PlacedKeeps(before, msg, msgs, stats, list, i);
    }
    forall b | b in stats && stats[b].txCount > 0 ensures Mentions(msgs, b) {
      assert Covers(list, b);
    }
  }

  lemma PlacedKeeps(before: seq<FeeBucketMsg>, msg: FeeBucketMsg, msgs: seq<FeeBucketMsg>,
                    stats: map<nat, FeeBucketStat>, list: seq<FeeBucketStat>, i: nat)
    requires forall m :: m in msgs <==> m in before || m == msg
    requires i < |list| && Lists(list, stats) && msg.bucket == list[i].bucket
    requires forall k, l | 0 <= k < |before| && i <= l < |list| :: before[k].bucket != list[l].bucket
    requires forall l | 0 <= l < i && list[l].txCount > 0 :: Mentions(before, list[l].bucket)
    ensures forall k, l | 0 <= k < |msgs| && i < l < |list| :: msgs[k].bucket != list[l].bucket
    ensures forall l | 0 <= l <= i && list[l].txCount > 0 :: Mentions(msgs, list[l].bucket)
    ensures forall k | 0 <= k < |msgs| :: msgs[k] == msg || msgs[k] in before
  {
    forall k, l | 0 <= k < |msgs| && i < l < |list| ensures msgs[k].bucket != list[l].bucket {
      assert msgs[k] in msgs;
    }
    forall l | 0 <= l <= i && list[l].txCount > 0 ensures Mentions(msgs, list[l].bucket) {
      if l == i {
        assert msg in msgs;
      } else {
        var k :| 0 <= k < |before| && before[k].bucket == list[l].bucket;
        assert before[k] in msgs;
      }
    }
  }

  /** What a window of blocks uploads: nothing, or messages in rising bucket order for exactly its non-empty buckets. */
  ghost predicate UploadOf(msgs: seq<FeeBucketMsg>, ws: seq<Wait>) {
    && Rising(msgs)
    && (forall i | 0 <= i < |msgs| :: MessageOf(msgs[i], StatFor(msgs[i].bucket, ws)))
    && (forall i | 0 <= i < |ws| :: Mentions(msgs, ws[i].bucket))
  }

  /**
   Conservation end to end: in every uploaded message the wait counts add up to its transaction count, in slots 0..10.
   */
  lemma UploadConserves(msgs: seq<FeeBucketMsg>, ws: seq<Wait>, i: nat)
    requires UploadOf(msgs, ws) && i < |msgs|
    ensures CountSum(msgs[i].waitBlockCount) == msgs[i].totalTxCount == |InBucket(msgs[i].bucket, ws)|
    ensures forall k | 0 <= k < |msgs[i].waitBlockCount| ::
              var c := msgs[i].waitBlockCount[k];
              c.waitBlock <= 10 && c.txCount == |InBucketSlot(msgs[i].bucket, c.waitBlock, ws)|
    ensures msgs[i].minPriority == 0.5 * msgs[i].bucket as real && msgs[i].maxPriority == msgs[i].minPriority + 0.5
  {
    hide InBucket, InBucketSlot, StatFor;
    StatForBalanced(msgs[i].bucket, ws);
    StatForCounts(msgs[i].bucket, ws, 0);
    forall k | 0 <= k < |msgs[i].waitBlockCount|
      ensures var c := msgs[i].waitBlockCount[k];
              c.waitBlock <= 10 && c.txCount == |InBucketSlot(msgs[i].bucket, c.waitBlock, ws)|
    {
      StatForCounts(msgs[i].bucket, ws, msgs[i].waitBlockCount[k].waitBlock);
    }
  }

  /** The averages of a message are those of the transactions of its bucket, each of them once. */
  lemma UploadAverages(msgs: seq<FeeBucketMsg>, ws: seq<Wait>, i: nat) returns (at: seq<nat>)
    requires UploadOf(msgs, ws) && i < |msgs|
    ensures Visits(at, InBucket(msgs[i].bucket, ws)) && Inside(ws, at) && |at| == msgs[i].totalTxCount
    ensures msgs[i].avrWaitBlocks * |at| as real == Sum(BlocksAt(ws, at)) as real
    ensures msgs[i].avrWaitSeconds * |at| as real == Sum(SecondsAt(ws, at)) as real
  {
    hide Visits, StatFor, Sum, BlocksAt, SecondsAt, CountSum, Inside;
    at := StatForTotals(msgs[i].bucket, ws);
  }

  function TotalSum(msgs: seq<FeeBucketMsg>): nat {
    if msgs == [] then 0 else TotalSum(msgs[..|msgs| - 1]) + msgs[|msgs| - 1].totalTxCount
  }

  lemma {:induction false} TotalsMatch(msgs: seq<FeeBucketMsg>, stats: seq<FeeBucketStat>)
    requires |msgs| == |stats| && forall i | 0 <= i < |msgs| :: msgs[i].totalTxCount == stats[i].txCount
    ensures TotalSum(msgs) == TxCountSum(stats)
  {
    if msgs != [] {
      TotalsMatch(msgs[..|msgs| - 1], stats[..|stats| - 1]);
    }
  }

  /** Over a whole upload the transaction counts add up to the number of transactions counted in the window. */
  lemma UploadTotal(msgs: seq<FeeBucketMsg>, ws: seq<Wait>)
    requires UploadOf(msgs, ws)
    ensures TotalSum(msgs) == |ws|
  {
    hide StatFor, Sum, CountSum;
    var stats := seq(|msgs|, i requires 0 <= i < |msgs| => StatFor(msgs[i].bucket, ws));
    forall i | 0 <= i < |ws| ensures Covers(stats, ws[i].bucket) {
      var j :| 0 <= j < |msgs| && msgs[j].bucket == ws[i].bucket;
      assert stats[j].bucket == ws[i].bucket;
    }
    CountsConserved(stats, ws);
    TotalsMatch(msgs, stats);
  }

  /** There is something to upload exactly when a transaction was counted. */
  lemma UploadEmpty(msgs: seq<FeeBucketMsg>, ws: seq<Wait>)
    requires UploadOf(msgs, ws)
    ensures msgs == [] <==> ws == []
  {
    hide StatFor, Sum, CountSum;
    UploadTotal(msgs, ws);
    if msgs != [] {
      assert msgs[|msgs| - 1].totalTxCount > 0;
    }
  }

  /** Aggregate, convert, order. The result describes all the transactions counted in the window. */
  method FeeStatistics(blocks: seq<BlockData>, ghost wss: seq<seq<Wait>>) returns (msgs: seq<FeeBucketMsg>)
    requires |blocks| == |wss| && forall i | 0 <= i < |blocks| :: Enumerates(blocks[i].feeBuckets, wss[i])
    ensures UploadOf(msgs, Concat(wss))
  {
    forall i | 0 <= i < |blocks| ensures AllShaped(blocks[i].feeBuckets) {
      MergedBlock(0, blocks[i].feeBuckets, wss[i]);
    }
    var stats := AggregateFeeBucket(blocks);
    msgs := ConvertFeeBuckets(stats);
    UploadDescribes(msgs, stats, blocks, wss);
  }

  lemma UploadDescribes(msgs: seq<FeeBucketMsg>, stats: map<nat, FeeBucketStat>, blocks: seq<BlockData>,
                        wss: seq<seq<Wait>>)
    requires |blocks| == |wss| && forall i | 0 <= i < |blocks| :: Enumerates(blocks[i].feeBuckets, wss[i])
    requires AllShaped(Flatten(blocks)) && Table(stats, Flatten(blocks))
    requires Rising(msgs) && (forall b | b in stats :: Shaped(stats[b])) && Messages(msgs, stats)
    ensures UploadOf(msgs, Concat(wss))
  {
    var ws := Concat(wss);
    forall b ensures Merged(b, Flatten(blocks)) == StatFor(b, ws) {
      WindowStatistics(b, blocks, wss);
    }
    forall i | 0 <= i < |ws| ensures Mentions(msgs, ws[i].bucket) {
      var b := ws[i].bucket;
      StatForCounts(b, ws, 0);
      assert i in InBucket(b, ws);
      if b !in stats {
        NoneMerged(b, Flatten(blocks));
        assert false;
      }
    }
  }
}
