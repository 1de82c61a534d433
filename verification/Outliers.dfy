/** Outlier clipping of the pending pool: the bound, the clip, and what it leaves unchanged. */
module Outliers {
  import opened Common
  import opened Percentiles

  /** `count` entries lie above the bound; a zero bound means that nothing is clipped. */
  datatype OuterInfo = OuterInfo(count: nat, upperBound: uint64)

  /** 64-bit doubling wraps exactly when the wrapped result is below its argument. */
  lemma WrapTestExact(p: uint64)
    ensures 2 * p % TWO_64 < p <==> 2 * p >= TWO_64
    ensures 2 * p < TWO_64 ==> 2 * p % TWO_64 == 2 * p
  {
    if 2 * p >= TWO_64 {
      assert 2 * p % TWO_64 == 2 * p - TWO_64;
    }
  }

  ghost function Above(s: seq<WeightedTip>, bound: int): set<nat> {
    set i | 0 <= i < |s| && s[i].tip > bound
  }

  /** The pool with every tip capped at the bound. */
  function Capped(s: seq<WeightedTip>, bound: uint64): seq<WeightedTip> {
    seq(|s|, i requires 0 <= i < |s| => WeightedTip(Min(s[i].tip, bound), s[i].weight))
  }

  /** The clip performed: no clip when the 95th percentile is zero or the pool weighs nothing. */
  ghost predicate ClipBound(s: seq<WeightedTip>, info: OuterInfo) {
    if Total(s) == 0.0 || IsPercentile(s, 0.95, 0) then info == OuterInfo(0, 0)
    else exists p95: uint64 :: IsPercentile(s, 0.95, p95) && info.upperBound == Min(2 * p95, 0xFFFF_FFFF_FFFF_FFFF)
                            && info.count == |Above(s, info.upperBound)|
  }

  // ---------- the bound ----------

  /** The first position whose tip exceeds the bound, by binary search. */
  method SearchAbove(poolData: seq<WeightedTip>, bound: uint64) returns (idx: nat)
    requires Sorted(poolData)
    ensures idx <= |poolData|
    ensures forall i | 0 <= i < idx :: poolData[i].tip <= bound
    ensures forall i | idx <= i < |poolData| :: poolData[i].tip > bound
  {
    var lo, hi := 0, |poolData|;
    while lo < hi
      invariant 0 <= lo <= hi <= |poolData|
      invariant forall i | 0 <= i < lo :: poolData[i].tip <= bound
      invariant forall i | hi <= i < |poolData| :: poolData[i].tip > bound
    {
      var mid := (lo + hi) / 2;
      if poolData[mid].tip > bound {
        hi := mid;
      } else {
        lo := mid + 1;
      }
    }
    idx := lo;
  }

  lemma {:induction false} AboveSize(s: seq<WeightedTip>, bound: int, idx: nat)
    requires idx <= |s|
    requires forall i | 0 <= i < |s| :: s[i].tip > bound <==> i >= idx
    ensures |Above(s, bound)| == |s| - idx
  {
    if idx == |s| {
      assert Above(s, bound) == {};
    } else {
      var n := |s| - 1;
      AboveSize(s[..n], bound, idx);
      assert Above(s, bound) == Above(s[..n], bound) + {n};
    }
  }

  /** The tip at which the running weight first reaches 95 percent of the total. */
  method FindP95(poolData: seq<WeightedTip>, totalSum: real) returns (p95: uint64)
    requires Weighted(poolData) && totalSum == Total(poolData) > 0.0
    ensures Found(poolData, 0.95, p95)
  {
    hide Prefix, Total;
    p95 := 0;
    var sumWeight := 0.0;
    PrefixEnds(poolData);
    ShareStrict(poolData, 0.0, 0.95);
    ShareStrict(poolData, 0.95, 1.0);
    for i := 0 to |poolData|
      invariant sumWeight == Prefix(poolData, i)
      invariant forall j: nat | j <= i :: Prefix(poolData, j) < Share(poolData, 0.95)
    {
      PrefixStep(poolData, i);
      sumWeight := sumWeight + poolData[i].weight;
      if sumWeight >= totalSum * 0.95 {
        assert LeastIndex(poolData, 0.95, i);
        return poolData[i].tip;
      }
    }
    assert false;
  }

  method CalculateOuterBound(poolData: seq<WeightedTip>) returns (info: OuterInfo)
    requires Weighted(poolData) && Sorted(poolData)
    ensures ClipBound(poolData, info)
    ensures forall i | 0 <= i < |poolData| && info.count > 0 ::
              poolData[i].tip > info.upperBound <==> i >= |poolData| - info.count
    ensures info.count <= |poolData|
  {
    hide Total, IsPercentile;
    TotalNonNegative(poolData);
    if |poolData| == 0 {
      EmptyPool(poolData);
      return OuterInfo(0, 0);
    }
    var totalSum := TotalWeight(poolData);
    if totalSum == 0.0 {
      return OuterInfo(0, 0);
    }
    var p95 := FindP95(poolData, totalSum);
    ghost var at: nat :| LeastIndex(poolData, 0.95, at) && poolData[at].tip == p95;
    LeastIndexIsPercentile(poolData, 0.95, at);
    if p95 == 0 {
      return OuterInfo(0, 0);
    }
    OnlyOneP95(poolData, p95);
    WrapTestExact(p95);
    var upperBound: uint64 := p95 * 2 % TWO_64;
    if upperBound < p95 {
      upperBound := TWO_64 - 1;
    }
    assert upperBound == Min(2 * p95, 0xFFFF_FFFF_FFFF_FFFF);
    var idx := SearchAbove(poolData, upperBound);
    AboveSize(poolData, upperBound, idx);
    info := OuterInfo(|poolData| - idx, upperBound);
  }

  lemma EmptyPool(s: seq<WeightedTip>)
    requires s == []
    ensures Total(s) == 0.0
  {
  }

  lemma OnlyOneP95(s: seq<WeightedTip>, p95: uint64)
    requires IsPercentile(s, 0.95, p95) && p95 != 0
    ensures !IsPercentile(s, 0.95, 0)
  {
    if IsPercentile(s, 0.95, 0) {
      PercentileUnique(s, 0.95, p95, 0);
    }
  }

  // ---------- what clipping keeps ----------

  lemma {:induction false} CapKeepsWeights(s: seq<WeightedTip>, bound: uint64, v: int)
    requires v < bound
    ensures WeightUpTo(Capped(s, bound), v) == WeightUpTo(s, v)
    ensures Total(Capped(s, bound)) == Total(s)
  {
    if s != [] {
      var n := |s| - 1;
      CapKeepsWeights(s[..n], bound, v);
      assert Capped(s, bound)[..n] == Capped(s[..n], bound);
    }
  }

  lemma {:induction false} CapCoversAll(s: seq<WeightedTip>, bound: uint64)
    requires Weighted(s)
    ensures WeightUpTo(Capped(s, bound), bound) == Total(Capped(s, bound))
  {
    if s != [] {
      var n := |s| - 1;
      CapCoversAll(s[..n], bound);
      assert Capped(s, bound)[..n] == Capped(s[..n], bound);
    }
  }

  /** A percentile at or below the bound survives capping at the bound. */
  lemma CapKeepsPercentile(s: seq<WeightedTip>, bound: uint64, q: real, p: uint64)
    requires Weighted(s) && p <= bound && q <= 1.0
    requires IsPercentile(s, q, p)
    ensures IsPercentile(Capped(s, bound), q, p)
  {
    var c := Capped(s, bound);
    CapKeepsWeights(s, bound, -1);
    TotalNonNegative(s);
    forall v: int | v < p ensures WeightUpTo(c, v) < Share(c, q) {
      CapKeepsWeights(s, bound, v);
    }
    if p < bound {
      CapKeepsWeights(s, bound, p);
    } else {
      CapCoversAll(s, bound);
      ShareMonotone(c, q, 1.0);
    }
  }

  /** Clipping is meaning-preserving: the clipped pool has all thirteen percentiles of the pool it came from. */
  lemma ClipKeepsPercentiles(s: seq<WeightedTip>, bound: uint64, p95: uint64, ps: seq<uint64>)
    requires Weighted(s) && IsPercentile(s, 0.95, p95) && bound == Min(2 * p95, 0xFFFF_FFFF_FFFF_FFFF)
    requires ArePercentiles(s, ps)
    ensures ArePercentiles(Capped(s, bound), ps)
  {
    hide IsPercentile;
    PercentilesOrdered(s, ps);
    assert Target(P95) == 0.95;
    PercentileUnique(s, 0.95, p95, ps[P95]);
    forall k: nat | k < COUNT ensures IsPercentile(Capped(s, bound), Target(k), ps[k]) {
      assert ps[k] <= ps[P95] <= bound;
      CapKeepsPercentile(s, bound, Target(k), ps[k]);
    }
  }

  lemma CapKeepsOrder(s: seq<WeightedTip>, bound: uint64)
    requires Sorted(s)
    ensures Sorted(Capped(s, bound))
  {
  }
}
