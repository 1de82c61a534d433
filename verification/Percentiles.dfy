/** Weighted percentiles of a pool of tips (internal/gasanalyzer), over exact reals. */
module Percentiles {
  import opened Common

  datatype WeightedTip = WeightedTip(tip: uint64, weight: real)

  /** The thirteen analysed percentiles, P20, P40, P45, ..., P95. */
  const TARGETS: seq<real> :=
    [0.20, 0.40, 0.45, 0.50, 0.55, 0.60, 0.65, 0.70, 0.75, 0.80, 0.85, 0.90, 0.95]

  const COUNT: nat := 13

  function Target(k: nat): (q: real)
    requires k < COUNT
    ensures 0.0 < q < 1.0
  {
    TARGETS[k]
  }

  lemma TargetsIncrease(k: nat, l: nat)
    requires k <= l < COUNT
    ensures Target(k) <= Target(l)
  {
  }

  const P20: nat := 0
  const P95: nat := 12

  predicate Weighted(s: seq<WeightedTip>) {
    forall i | 0 <= i < |s| :: s[i].weight >= 0.0
  }

  predicate Sorted(s: seq<WeightedTip>) {
    forall i, j | 0 <= i < j < |s| :: s[i].tip <= s[j].tip
  }

  function Total(s: seq<WeightedTip>): real {
    if s == [] then 0.0 else Total(s[..|s| - 1]) + s[|s| - 1].weight
  }

  /** The weight of the entries whose tip is at most v: the reference notion, blind to the order of entries. */
  function WeightUpTo(s: seq<WeightedTip>, v: int): real {
    if s == [] then 0.0
    else WeightUpTo(s[..|s| - 1], v) + (if s[|s| - 1].tip <= v then s[|s| - 1].weight else 0.0)
  }

  /** The weight that makes up the share q of the pool. */
  function Share(s: seq<WeightedTip>, q: real): real {
    q * Total(s)
  }

  /** p is the least value at or below which the share q of the total weight lies. */
  ghost predicate IsPercentile(s: seq<WeightedTip>, q: real, p: uint64) {
    WeightUpTo(s, p) >= Share(s, q) && forall v: int | v < p :: WeightUpTo(s, v) < Share(s, q)
  }

  lemma PercentileUnique(s: seq<WeightedTip>, q: real, p: uint64, p': uint64)
    requires IsPercentile(s, q, p) && IsPercentile(s, q, p')
    ensures p == p'
  {
    assert !(p < p') && !(p' < p);
  }

  function TwoTips(low: uint64, high: uint64): seq<WeightedTip> {
    [WeightedTip(high, 1.0), WeightedTip(low, 1.0)]
  }

  lemma TwoTipsWeigh(low: uint64, high: uint64, v: int)
    ensures WeightUpTo(TwoTips(low, high), v) == (if high <= v then 1.0 else 0.0) + (if low <= v then 1.0 else 0.0)
    ensures Total(TwoTips(low, high)) == 2.0
  {
    var pool := TwoTips(low, high);
    var first := [WeightedTip(high, 1.0)];
    assert pool[..1] == first && first[..0] == [];
    assert WeightUpTo(first, v) == if high <= v then 1.0 else 0.0;
    assert Total(first) == 1.0;
  }

  /** Of two tips of equal weight the lower one is the median, and the higher one every percentile above. */
  lemma MedianOfTwo(low: uint64, high: uint64, q: real)
    requires low < high && 0.5 < q <= 1.0
    ensures IsPercentile(TwoTips(low, high), 0.50, low) && IsPercentile(TwoTips(low, high), q, high)
  {
    hide WeightUpTo, Total, TwoTips;
    forall v: int
      ensures WeightUpTo(TwoTips(low, high), v) == (if high <= v then 1.0 else 0.0) + (if low <= v then 1.0 else 0.0)
      ensures Total(TwoTips(low, high)) == 2.0
    {
      TwoTipsWeigh(low, high, v);
    }
    TwoTipsWeigh(low, high, low);
    assert Share(TwoTips(low, high), 0.50) == 1.0;
    assert 1.0 < Share(TwoTips(low, high), q) <= 2.0;
  }

  /** The weight of the first i entries. */
  function Prefix(s: seq<WeightedTip>, i: nat): real
    requires i <= |s|
  {
    Total(s[..i])
  }

  /** Entry i is the first at which the running weight reaches the share q. */
  ghost predicate LeastIndex(s: seq<WeightedTip>, q: real, i: nat) {
    && i < |s|
    && Prefix(s, i + 1) >= Share(s, q)
    && forall j: nat | j <= i :: Prefix(s, j) < Share(s, q)
  }

  lemma PrefixStep(s: seq<WeightedTip>, i: nat)
    requires i < |s|
    ensures Prefix(s, i + 1) == Prefix(s, i) + s[i].weight
  {
    assert s[..i + 1][..i] == s[..i];
  }

  lemma PrefixEnds(s: seq<WeightedTip>)
    ensures Prefix(s, 0) == 0.0 && Prefix(s, |s|) == Total(s)
  {
    assert s[..|s|] == s;
  }

  // ---------- sums ----------

  lemma {:induction false} PrefixMonotone(s: seq<WeightedTip>, i: nat, j: nat)
    requires Weighted(s) && i <= j <= |s|
    ensures Prefix(s, i) <= Prefix(s, j)
  {
    if i < j {
      PrefixMonotone(s, i, j - 1);
      PrefixStep(s, j - 1);
    }
  }

  lemma TotalNonNegative(s: seq<WeightedTip>)
    requires Weighted(s)
    ensures Total(s) >= 0.0
  {
    PrefixEnds(s);
    PrefixMonotone(s, 0, |s|);
  }

  lemma {:induction false} UpToBounds(s: seq<WeightedTip>, v: int)
    requires Weighted(s)
    ensures 0.0 <= WeightUpTo(s, v) <= Total(s)
  {
    if s != [] {
      UpToBounds(s[..|s| - 1], v);
    }
  }

  /** In a sorted pool, if the entries from position i on exceed v, the weight up to v is within the first i. */
  lemma {:induction false} UpToWithin(s: seq<WeightedTip>, v: int, i: nat)
    requires Weighted(s) && i <= |s|
    requires forall j | i <= j < |s| :: s[j].tip > v
    ensures WeightUpTo(s, v) <= Total(s[..i])
  {
    if i == |s| {
      UpToBounds(s, v);
      assert s[..i] == s;
    } else {
      UpToWithin(s[..|s| - 1], v, i);
      assert s[..|s| - 1][..i] == s[..i];
    }
  }

  /** If the first i entries are at most v, their whole weight counts. */
  lemma {:induction false} UpToCovers(s: seq<WeightedTip>, v: int, i: nat)
    requires Weighted(s) && i <= |s|
    requires forall j | 0 <= j < i :: s[j].tip <= v
    ensures WeightUpTo(s, v) >= Total(s[..i])
  {
    if i < |s| {
      UpToCovers(s[..|s| - 1], v, i);
      assert s[..|s| - 1][..i] == s[..i];
    } else if s != [] {
      UpToCovers(s[..|s| - 1], v, i - 1);
      assert s[..|s| - 1][..i - 1] == s[..i][..i - 1];
    }
  }

  /** The positional search on a sorted pool finds the percentile of the reference definition. */
  lemma LeastIndexIsPercentile(s: seq<WeightedTip>, q: real, i: nat)
    requires Weighted(s) && Sorted(s)
    requires LeastIndex(s, q, i)
    ensures IsPercentile(s, q, s[i].tip)
  {
    UpToCovers(s, s[i].tip, i + 1);
    forall v: int | v < s[i].tip ensures WeightUpTo(s, v) < Share(s, q) {
      UpToWithin(s, v, i);
      assert Prefix(s, i) < Share(s, q);
    }
  }

  lemma ShareMonotone(s: seq<WeightedTip>, q: real, q': real)
    requires q <= q' && Total(s) >= 0.0
    ensures Share(s, q) <= Share(s, q')
  {
  }

  lemma ShareStrict(s: seq<WeightedTip>, q: real, q': real)
    requires q < q' && Total(s) > 0.0
    ensures Share(s, q) < Share(s, q')
  {
  }

  /** A larger share never has a smaller percentile. */
  lemma PercentileMonotone(s: seq<WeightedTip>, q: real, q': real, p: uint64, p': uint64)
    requires q <= q' && Total(s) >= 0.0
    requires IsPercentile(s, q, p) && IsPercentile(s, q', p')
    ensures p <= p'
  {
    ShareMonotone(s, q, q');
    assert !(p' < p);
  }

  // ---------- independence of the order of entries ----------

  lemma {:induction false} DropOneEntry(s: seq<WeightedTip>, k: nat, v: int)
    requires k < |s|
    ensures WeightUpTo(s, v) == WeightUpTo(s[..k] + s[k + 1..], v) + (if s[k].tip <= v then s[k].weight else 0.0)
    ensures Total(s) == Total(s[..k] + s[k + 1..]) + s[k].weight
  {
    var n := |s| - 1;
    var rest := s[..k] + s[k + 1..];
    if k == n {
      assert rest == s[..n];
    } else {
      DropOneEntry(s[..n], k, v);
      assert rest[..|rest| - 1] == s[..n][..k] + s[..n][k + 1..];
      assert rest[|rest| - 1] == s[n];
    }
  }

  /** Two arrangements of the same entries weigh the same up to every value. */
  lemma {:induction false} ArrangementIrrelevant(s: seq<WeightedTip>, t: seq<WeightedTip>, v: int)
    requires multiset(s) == multiset(t)
    ensures WeightUpTo(s, v) == WeightUpTo(t, v)
    ensures Total(s) == Total(t)
    decreases |s|
  {
    assert |s| == |multiset(s)| && |t| == |multiset(t)|;
    if s != [] {
      var n := |s| - 1;
      var x := s[n];
      assert s == s[..n] + [x];
      assert x in multiset(t);
      var k :| 0 <= k < |t| && t[k] == x;
      var rest := t[..k] + t[k + 1..];
      assert t == t[..k] + [x] + t[k + 1..];
      assert multiset(rest) == multiset(t) - multiset{x};
      ArrangementIrrelevant(s[..n], rest, v);
      DropOneEntry(t, k, v);
    }
  }

  /**
   Percentiles do not depend on how ties were arranged: every sorted form of a pool has the percentiles of the pool.
   */
  lemma PercentilesOfArrangement(s: seq<WeightedTip>, t: seq<WeightedTip>, q: real, p: uint64)
    requires multiset(s) == multiset(t)
    ensures IsPercentile(s, q, p) <==> IsPercentile(t, q, p)
  {
    forall v: int ensures WeightUpTo(s, v) == WeightUpTo(t, v) && Total(s) == Total(t) {
      ArrangementIrrelevant(s, t, v);
    }
  }

  // ---------- the one-pass scan ----------

  method TotalWeight(poolData: seq<WeightedTip>) returns (total: real)
    ensures total == Total(poolData)
  {
    total := 0.0;
    for i := 0 to |poolData|
      invariant total == Prefix(poolData, i)
    {
      PrefixStep(poolData, i);
      total := total + poolData[i].weight;
    }
    PrefixEnds(poolData);
  }

  /** `tip` stands where the search for share q stops. */
  ghost predicate Found(s: seq<WeightedTip>, q: real, tip: uint64) {
    exists i: nat :: LeastIndex(s, q, i) && s[i].tip == tip
  }

  ghost predicate AllFound(s: seq<WeightedTip>, ps: seq<uint64>, n: nat)
    requires n <= |ps| == COUNT
  {
    forall k: nat | k < n :: Found(s, Target(k), ps[k])
  }

  /**
   All thirteen percentiles in one pass. Each equals the result of its own independent search; the fill-up loop
   at the end never runs.
   */
  method CalculateWeightedPercentiles(poolData: seq<WeightedTip>) returns (r: Option<seq<uint64>>)
    requires Weighted(poolData)
    ensures r.None? <==> Total(poolData) == 0.0
    ensures r.Some? ==> |r.value| == COUNT && AllFound(poolData, r.value, COUNT)
  {
    hide Target, Found, Prefix, Total;
    var total := TotalWeight(poolData);
    TotalNonNegative(poolData);
    PrefixEnds(poolData);
    if total == 0.0 {
      return None;
    }
    var results: seq<uint64> := seq(COUNT, _ => 0);
    var cumulative := 0.0;
    var index := 0;
    var i := 0;
    ShareStrict(poolData, 0.0, Target(0));
    while i < |poolData| && index < COUNT
      invariant 0 <= i <= |poolData| && 0 <= index <= COUNT && |results| == COUNT
      invariant cumulative == Prefix(poolData, i)
      invariant AllFound(poolData, results, index)
      invariant index < COUNT ==> cumulative < Share(poolData, Target(index))
    {
      PrefixStep(poolData, i);
      cumulative := cumulative + poolData[i].weight;
      ghost var before := index;
      while index < COUNT && cumulative >= Target(index) * total
        invariant before <= index <= COUNT && |results| == COUNT
        invariant AllFound(poolData, results, index)
      {
        FirstReached(poolData, before, index, i);
        results := results[index := poolData[i].tip];
        index := index + 1;
      }
      i := i + 1;
    }
    // Whatever is left over here gets the last tip in the program; nothing is left over.
    if index < COUNT {
      ShareStrict(poolData, Target(index), 1.0);
      assert false;
    }
    r := Some(results);
  }

  /** A target at or above one not reached before entry i, and reached at i, is first reached at i. */
  lemma FirstReached(s: seq<WeightedTip>, before: nat, index: nat, i: nat)
    requires Weighted(s) && i < |s| && before <= index < COUNT
    requires Prefix(s, i) < Share(s, Target(before))
    requires Prefix(s, i + 1) >= Share(s, Target(index))
    ensures Found(s, Target(index), s[i].tip)
  {
    hide Target, Prefix;
    TotalNonNegative(s);
    TargetsIncrease(before, index);
    ShareMonotone(s, Target(before), Target(index));
    forall j: nat | j <= i ensures Prefix(s, j) < Share(s, Target(index)) {
      PrefixMonotone(s, j, i);
    }
    assert LeastIndex(s, Target(index), i);
  }

  /** ps are the thirteen percentiles of the pool. */
  ghost predicate ArePercentiles(s: seq<WeightedTip>, ps: seq<uint64>) {
    |ps| == COUNT && forall k: nat | k < COUNT :: IsPercentile(s, Target(k), ps[k])
  }

  /** On a sorted pool the scan returns the percentiles of the reference definition. */
  lemma ScanIsPercentiles(s: seq<WeightedTip>, ps: seq<uint64>)
    requires Weighted(s) && Sorted(s)
    requires |ps| == COUNT && AllFound(s, ps, COUNT)
    ensures ArePercentiles(s, ps)
  {
    hide Target, IsPercentile;
    forall k: nat | k < COUNT ensures IsPercentile(s, Target(k), ps[k]) {
      var i: nat :| LeastIndex(s, Target(k), i) && s[i].tip == ps[k];
      LeastIndexIsPercentile(s, Target(k), i);
    }
  }

  predicate NonDecreasing(ps: seq<uint64>) {
    forall k, l | 0 <= k <= l < |ps| :: ps[k] <= ps[l]
  }

  lemma PercentilesOrdered(s: seq<WeightedTip>, ps: seq<uint64>)
    requires Weighted(s) && ArePercentiles(s, ps)
    ensures NonDecreasing(ps)
  {
    hide Target, IsPercentile;
    TotalNonNegative(s);
    forall k, l | 0 <= k <= l < |ps| ensures ps[k] <= ps[l] {
      TargetsIncrease(k, l);
      PercentileMonotone(s, Target(k), Target(l), ps[k], ps[l]);
    }
  }
}
