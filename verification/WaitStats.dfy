/** Inclusion-wait statistics: one record per mined transaction, folded into fee buckets. */
module WaitStats {
  import opened Common
  import opened BlockStore

  /** One mined transaction: its fee bucket and how long it waited in the pool. */
  datatype Wait = Wait(bucket: nat, blocks: nat, seconds: nat)

  /** The fee bucket of a tip; the quotient is cut to 32 bits. */
  function FeeBucket(tip: uint64): nat {
    tip / FEE_BUCKET_SIZE % TWO_32
  }

  /** Waits of ten blocks or more share the last used histogram slot. */
  function WaitSlot(blocks: nat): nat {
    if blocks > MAX_WAIT_BLOCK then MAX_WAIT_BLOCK else blocks
  }

  function EmptyStat(bucket: nat): FeeBucketStat {
    FeeBucketStat(bucket, 0, 0, 0, seq(WAIT_SLOTS, _ => 0))
  }

  /** Every histogram has its sixteen slots. */
  predicate Shaped(stat: FeeBucketStat) {
    |stat.waitBlockCount| == WAIT_SLOTS
  }

  function Record(stat: FeeBucketStat, w: Wait): FeeBucketStat
    requires Shaped(stat)
  {
    var k := WaitSlot(w.blocks);
    FeeBucketStat(stat.bucket, stat.txCount + 1, stat.totalWaitBlocks + w.blocks, stat.totalWaitSeconds + w.seconds,
                  stat.waitBlockCount[k := stat.waitBlockCount[k] + 1])
  }

  /** The statistic of one bucket over a list of mined transactions. */
  function StatFor(bucket: nat, ws: seq<Wait>): (stat: FeeBucketStat)
    ensures Shaped(stat) && stat.bucket == bucket
  {
    if ws == [] then EmptyStat(bucket)
    else
      var before := StatFor(bucket, ws[..|ws| - 1]);
      if ws[|ws| - 1].bucket == bucket then Record(before, ws[|ws| - 1]) else before
  }

  function Sum(s: seq<nat>): nat {
    if s == [] then 0 else Sum(s[..|s| - 1]) + s[|s| - 1]
  }

  /** The histogram accounts for every counted transaction and uses slots 0..10 only. */
  predicate Balanced(stat: FeeBucketStat) {
    && Shaped(stat)
    && Sum(stat.waitBlockCount) == stat.txCount
    && forall k | 10 < k < WAIT_SLOTS :: stat.waitBlockCount[k] == 0
  }

  lemma {:induction false} SumUpdate(s: seq<nat>, k: nat, v: nat)
    requires k < |s|
    ensures Sum(s[k := v]) == Sum(s) - s[k] + v
  {
    var last := |s| - 1;
    if k == last {
      assert s[k := v][..last] == s[..last];
    } else {
      assert s[k := v][..last] == s[..last][k := v];
      SumUpdate(s[..last], k, v);
    }
  }

  lemma {:induction false} SumZero(s: seq<nat>)
    requires forall k | 0 <= k < |s| :: s[k] == 0
    ensures Sum(s) == 0
  {
    if s != [] {
      SumZero(s[..|s| - 1]);
    }
  }

  lemma {:induction false} StatForBalanced(bucket: nat, ws: seq<Wait>)
    ensures Balanced(StatFor(bucket, ws))
  {
    if ws == [] {
      SumZero(EmptyStat(bucket).waitBlockCount);
    } else {
      StatForBalanced(bucket, ws[..|ws| - 1]);
      var before := StatFor(bucket, ws[..|ws| - 1]);
      var w := ws[|ws| - 1];
      if w.bucket == bucket {
        var k := WaitSlot(w.blocks);
        SumUpdate(before.waitBlockCount, k, before.waitBlockCount[k] + 1);
      }
    }
  }

  /** Positions of the transactions of one bucket, and of those that waited for histogram slot k. */
  ghost function InBucket(bucket: nat, ws: seq<Wait>): set<nat> {
    set i | 0 <= i < |ws| && ws[i].bucket == bucket
  }

  ghost function InBucketSlot(bucket: nat, k: nat, ws: seq<Wait>): set<nat> {
    set i | 0 <= i < |ws| && ws[i].bucket == bucket && Fits(k, ws[i].blocks)
  }

  /** Slots 0 to 9 count the waits of that many blocks, slot 10 those of ten or more. */
  predicate Fits(k: nat, blocks: nat) {
    (k < 10 && blocks == k) || (k == 10 && blocks >= 10)
  }

  /** The folded numbers are exactly the cardinalities they stand for. */
  lemma {:induction false} StatForCounts(bucket: nat, ws: seq<Wait>, k: nat)
    requires k < WAIT_SLOTS
    ensures StatFor(bucket, ws).txCount == |InBucket(bucket, ws)|
    ensures StatFor(bucket, ws).waitBlockCount[k] == |InBucketSlot(bucket, k, ws)|
  {
    hide InBucket, InBucketSlot;
    if ws != [] {
      StatForCounts(bucket, ws[..|ws| - 1], k);
      InBucketStep(bucket, ws);
      InBucketSlotStep(bucket, k, ws);
    } else {
      NoneInBucket(bucket, k);
    }
  }

  lemma NoneInBucket(bucket: nat, k: nat)
    ensures InBucket(bucket, []) == {} && InBucketSlot(bucket, k, []) == {}
  {
  }

  lemma InBucketStep(bucket: nat, ws: seq<Wait>)
    requires ws != []
    ensures |InBucket(bucket, ws)|
         == |InBucket(bucket, ws[..|ws| - 1])| + (if ws[|ws| - 1].bucket == bucket then 1 else 0)
  {
    var last := |ws| - 1;
    assert InBucket(bucket, ws) == InBucket(bucket, ws[..last]) + (if ws[last].bucket == bucket then {last} else {});
  }

  lemma InBucketSlotStep(bucket: nat, k: nat, ws: seq<Wait>)
    requires ws != [] && k < WAIT_SLOTS
    ensures |InBucketSlot(bucket, k, ws)|
         == |InBucketSlot(bucket, k, ws[..|ws| - 1])|
            + (if ws[|ws| - 1].bucket == bucket && WaitSlot(ws[|ws| - 1].blocks) == k then 1 else 0)
  {
    var last := |ws| - 1;
    assert WaitSlot(ws[last].blocks) == k <==> Fits(k, ws[last].blocks);
    assert InBucketSlot(bucket, k, ws) == InBucketSlot(bucket, k, ws[..last])
        + (if ws[last].bucket == bucket && WaitSlot(ws[last].blocks) == k then {last} else {});
  }

  predicate Inside(ws: seq<Wait>, at: seq<nat>) {
    forall i | 0 <= i < |at| :: at[i] < |ws|
  }

  function BlocksAt(ws: seq<Wait>, at: seq<nat>): seq<nat>
    requires Inside(ws, at)
  {
    seq(|at|, i requires 0 <= i < |at| => ws[at[i]].blocks)
  }

  function SecondsAt(ws: seq<Wait>, at: seq<nat>): seq<nat>
    requires Inside(ws, at)
  {
    seq(|at|, i requires 0 <= i < |at| => ws[at[i]].seconds)
  }

  /** The totals are the sums over the transactions of the bucket, each of them once. */
  lemma {:induction false} StatForTotals(bucket: nat, ws: seq<Wait>) returns (at: seq<nat>)
    ensures Visits(at, InBucket(bucket, ws)) && Inside(ws, at) && |at| == StatFor(bucket, ws).txCount
    ensures StatFor(bucket, ws).totalWaitBlocks == Sum(BlocksAt(ws, at))
    ensures StatFor(bucket, ws).totalWaitSeconds == Sum(SecondsAt(ws, at))
  {
    if ws == [] {
      at := [];
    } else {
      hide Visits, Sum, BlocksAt, SecondsAt, Inside, InBucket;
      var n := |ws| - 1;
      var front := StatForTotals(bucket, ws[..n]);
      at := if ws[n].bucket == bucket then front + [n] else front;
      TotalsStep(ws, front);
      InBucketMore(bucket, ws, ws[..n]);
      if ws[n].bucket == bucket {
        VisitsMore(front, InBucket(bucket, ws[..n]), n);
      }
    }
  }

  lemma InBucketMore(bucket: nat, ws: seq<Wait>, front: seq<Wait>)
    requires ws != [] && front == ws[..|ws| - 1]
    ensures InBucket(bucket, ws) == InBucket(bucket, front) + (if ws[|ws| - 1].bucket == bucket then {|front|} else {})
    ensures forall i | i in InBucket(bucket, front) :: i < |front|
  {
  }

  lemma TotalsStep(ws: seq<Wait>, front: seq<nat>)
    requires ws != [] && Inside(ws[..|ws| - 1], front)
    ensures Inside(ws, front) && Inside(ws, front + [|ws| - 1])
    ensures BlocksAt(ws, front) == BlocksAt(ws[..|ws| - 1], front)
    ensures SecondsAt(ws, front) == SecondsAt(ws[..|ws| - 1], front)
    ensures Sum(BlocksAt(ws, front + [|ws| - 1])) == Sum(BlocksAt(ws, front)) + ws[|ws| - 1].blocks
    ensures Sum(SecondsAt(ws, front + [|ws| - 1])) == Sum(SecondsAt(ws, front)) + ws[|ws| - 1].seconds
  {
    var n := |ws| - 1;
    assert BlocksAt(ws, front + [n])[..|front|] == BlocksAt(ws, front);
    assert SecondsAt(ws, front + [n])[..|front|] == SecondsAt(ws, front);
  }

  /** The blocks waited as far as the histogram can tell. */
  function SlotSum(counts: seq<nat>): nat {
    if counts == [] then 0 else SlotSum(counts[..|counts| - 1]) + (|counts| - 1) * counts[|counts| - 1]
  }

  lemma {:induction false} SlotSumUpdate(s: seq<nat>, k: nat)
    requires k < |s|
    ensures SlotSum(s[k := s[k] + 1]) == SlotSum(s) + k
  {
    var last := |s| - 1;
    var s' := s[k := s[k] + 1];
    if k == last {
      assert s'[..last] == s[..last];
      assert k * (s[k] + 1) == k * s[k] + k;
    } else {
      assert s'[..last] == s[..last][k := s[..last][k] + 1];
      SlotSumUpdate(s[..last], k);
    }
  }

  lemma {:induction false} SlotSumZero(s: seq<nat>)
    requires forall k | 0 <= k < |s| :: s[k] == 0
    ensures SlotSum(s) == 0
  {
    if s != [] {
      SlotSumZero(s[..|s| - 1]);
    }
  }

  /** The total wait is what the histogram shows, and more exactly when some counted wait exceeded ten blocks. */
  lemma {:induction false} HistogramVersusTotal(bucket: nat, ws: seq<Wait>)
    ensures SlotSum(StatFor(bucket, ws).waitBlockCount) <= StatFor(bucket, ws).totalWaitBlocks
    ensures SlotSum(StatFor(bucket, ws).waitBlockCount) == StatFor(bucket, ws).totalWaitBlocks
            <==> forall i | 0 <= i < |ws| && ws[i].bucket == bucket :: ws[i].blocks <= 10
  {
    if ws == [] {
      SlotSumZero(EmptyStat(bucket).waitBlockCount);
    } else {
      var last := |ws| - 1;
      HistogramVersusTotal(bucket, ws[..last]);
      if ws[last].bucket == bucket {
        SlotSumUpdate(StatFor(bucket, ws[..last]).waitBlockCount, WaitSlot(ws[last].blocks));
      }
    }
  }

  /** Two statistics of one bucket added field by field. */
  function Merge(a: FeeBucketStat, b: FeeBucketStat): (r: FeeBucketStat)
    requires Shaped(a) && Shaped(b)
    ensures Shaped(r)
  {
    FeeBucketStat(a.bucket, a.txCount + b.txCount, a.totalWaitBlocks + b.totalWaitBlocks,
                  a.totalWaitSeconds + b.totalWaitSeconds,
                  seq(WAIT_SLOTS, k requires 0 <= k < WAIT_SLOTS => a.waitBlockCount[k] + b.waitBlockCount[k]))
  }

  /** Merging the statistics of two lists is the statistic of their concatenation. */
  lemma {:induction false} MergeIsConcat(bucket: nat, u: seq<Wait>, v: seq<Wait>)
    ensures Merge(StatFor(bucket, u), StatFor(bucket, v)) == StatFor(bucket, u + v)
  {
    if v == [] {
      assert u + v == u;
      assert Merge(StatFor(bucket, u), StatFor(bucket, v)).waitBlockCount == StatFor(bucket, u).waitBlockCount;
    } else {
      var last := |v| - 1;
      assert (u + v)[..|u + v| - 1] == u + v[..last];
      MergeIsConcat(bucket, u, v[..last]);
      if v[last].bucket == bucket {
        assert Merge(StatFor(bucket, u), StatFor(bucket, v)).waitBlockCount
            == StatFor(bucket, u + v).waitBlockCount;
      }
    }
  }

  function TxCountSum(stats: seq<FeeBucketStat>): nat {
    if stats == [] then 0 else TxCountSum(stats[..|stats| - 1]) + stats[|stats| - 1].txCount
  }

  ghost predicate Covers(stats: seq<FeeBucketStat>, bucket: nat) {
    exists j | 0 <= j < |stats| :: stats[j].bucket == bucket
  }

  /** `stats` lists, without repetition, the statistic of every bucket that occurs in `ws`, and no other. */
  ghost predicate Enumerates(stats: seq<FeeBucketStat>, ws: seq<Wait>) {
    && (forall i | 0 <= i < |stats| :: stats[i] == StatFor(stats[i].bucket, ws) && stats[i].txCount > 0)
    && (forall i, j | 0 <= i < j < |stats| :: stats[i].bucket != stats[j].bucket)
    && (forall i | 0 <= i < |ws| :: Covers(stats, ws[i].bucket))
  }

  ghost function StatsFor(buckets: seq<nat>, ws: seq<Wait>): seq<FeeBucketStat> {
    seq(|buckets|, i requires 0 <= i < |buckets| => StatFor(buckets[i], ws))
  }

  /** Adding one transaction raises the total by one if its bucket is listed, and not at all otherwise. */
  lemma {:induction false} TotalStep(buckets: seq<nat>, ws: seq<Wait>, w: Wait)
    requires forall i, j | 0 <= i < j < |buckets| :: buckets[i] != buckets[j]
    ensures TxCountSum(StatsFor(buckets, ws + [w]))
         == TxCountSum(StatsFor(buckets, ws)) + (if w.bucket in buckets then 1 else 0)
  {
    if buckets != [] {
      var n := |buckets| - 1;
      TotalStep(buckets[..n], ws, w);
      assert StatsFor(buckets, ws)[..n] == StatsFor(buckets[..n], ws);
      assert StatsFor(buckets, ws + [w])[..n] == StatsFor(buckets[..n], ws + [w]);
      assert (ws + [w])[..|ws|] == ws;
      assert buckets == buckets[..n] + [buckets[n]];
    }
  }

  lemma {:induction false} TotalIsLength(buckets: seq<nat>, ws: seq<Wait>)
    requires forall i, j | 0 <= i < j < |buckets| :: buckets[i] != buckets[j]
    requires forall i | 0 <= i < |ws| :: ws[i].bucket in buckets
    ensures TxCountSum(StatsFor(buckets, ws)) == |ws|
  {
    if ws == [] {
      AllEmpty(buckets);
    } else {
      var n := |ws| - 1;
      TotalIsLength(buckets, ws[..n]);
      TotalStep(buckets, ws[..n], ws[n]);
      assert ws == ws[..n] + [ws[n]];
    }
  }

  lemma {:induction false} AllEmpty(buckets: seq<nat>)
    ensures TxCountSum(StatsFor(buckets, [])) == 0
  {
    if buckets != [] {
      var n := |buckets| - 1;
      AllEmpty(buckets[..n]);
      assert StatsFor(buckets, [])[..n] == StatsFor(buckets[..n], []);
    }
  }

  /** Conservation: however the buckets are listed, their counts add up to the number of counted transactions. */
  lemma CountsConserved(stats: seq<FeeBucketStat>, ws: seq<Wait>)
    requires Enumerates(stats, ws)
    ensures TxCountSum(stats) == |ws|
  {
    var buckets := seq(|stats|, i requires 0 <= i < |stats| => stats[i].bucket);
    forall i | 0 <= i < |ws| ensures ws[i].bucket in buckets {
      var j :| 0 <= j < |stats| && stats[j].bucket == ws[i].bucket;
      assert buckets[j] == ws[i].bucket;
    }
    TotalIsLength(buckets, ws);
    assert StatsFor(buckets, ws) == stats;
  }

  /** However the buckets are listed, each histogram adds up to its count. */
  lemma EnumeratedBalanced(stats: seq<FeeBucketStat>, ws: seq<Wait>)
    requires Enumerates(stats, ws)
    ensures forall i | 0 <= i < |stats| :: Balanced(stats[i])
  {
    forall i | 0 <= i < |stats| ensures Balanced(stats[i]) {
      StatForBalanced(stats[i].bucket, ws);
    }
  }

  /** The running table of statistics, keyed by bucket, over the transactions recorded so far. */
  ghost predicate Tallies(stats: map<nat, FeeBucketStat>, ws: seq<Wait>) {
    && (forall b | b in stats :: stats[b] == StatFor(b, ws) && stats[b].txCount > 0)
    && (forall i | 0 <= i < |ws| :: ws[i].bucket in stats)
  }

  lemma {:induction false} AbsentBucket(bucket: nat, ws: seq<Wait>)
    requires forall i | 0 <= i < |ws| :: ws[i].bucket != bucket
    ensures StatFor(bucket, ws) == EmptyStat(bucket)
  {
    if ws != [] {
      AbsentBucket(bucket, ws[..|ws| - 1]);
    }
  }

  lemma TallyStep(stats: map<nat, FeeBucketStat>, ws: seq<Wait>, w: Wait)
    requires Tallies(stats, ws)
    ensures w.bucket in stats ==> Shaped(stats[w.bucket])
    ensures var stat := if w.bucket in stats then stats[w.bucket] else EmptyStat(w.bucket);
            Tallies(stats[w.bucket := Record(stat, w)], ws + [w])
  {
    assert (ws + [w])[..|ws|] == ws;
    if w.bucket !in stats {
      AbsentBucket(w.bucket, ws);
    }
  }

  /** `out` lists the values of the table once each, in some order. */
  ghost predicate Lists(out: seq<FeeBucketStat>, stats: map<nat, FeeBucketStat>) {
    && (forall i | 0 <= i < |out| :: out[i].bucket in stats && out[i] == stats[out[i].bucket])
    && (forall i, j | 0 <= i < j < |out| :: out[i].bucket != out[j].bucket)
    && (forall b | b in stats :: Covers(out, b))
  }

  /** The values of the table as a list; the iteration order is arbitrary. */
  method ListStats(stats: map<nat, FeeBucketStat>) returns (out: seq<FeeBucketStat>)
    requires forall b | b in stats :: stats[b].bucket == b
    ensures Lists(out, stats)
  {
    out := [];
    var todo := stats.Keys;
    while todo != {}
      invariant todo <= stats.Keys
      invariant forall i | 0 <= i < |out| ::
                  out[i].bucket in stats && out[i].bucket !in todo && out[i] == stats[out[i].bucket]
      invariant forall i, j | 0 <= i < j < |out| :: out[i].bucket != out[j].bucket
      invariant forall b | b in stats && b !in todo :: Covers(out, b)
    {
      var b :| b in todo;
      todo := todo - {b};
      ghost var before := out;
      out := out + [stats[b]];
      assert out[|before|].bucket == b;
      forall c | c in stats && c !in todo ensures Covers(out, c) {
        if c != b {
          var i :| 0 <= i < |before| && before[i].bucket == c;
          assert out[i].bucket == c;
        }
      }
    }
  }

  lemma ListedIsEnumerated(out: seq<FeeBucketStat>, stats: map<nat, FeeBucketStat>, ws: seq<Wait>)
    requires Lists(out, stats) && Tallies(stats, ws)
    ensures Enumerates(out, ws)
  {
  }
}
