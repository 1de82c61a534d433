/** From percentiles to fee levels (internal/gasanalyzer): grouped averages, blending, and the order of the levels. */
module Prediction {
  import opened Common
  import opened Percentiles
  import opened Outliers

  datatype Level = Low | Market | Fast | Urgent

  datatype WeightPoint = WeightPoint(index: int, weight: real)

  /** The levels predicted, in ascending order, and the percentiles each is averaged from. */
  const PREDICTED: seq<Level> := [Market, Fast, Urgent]

  function Group(level: Level): seq<WeightPoint> {
    match level
    case Low => []
    case Market => [WeightPoint(1, 1.0), WeightPoint(2, 1.0), WeightPoint(3, 4.0), WeightPoint(4, 1.0),
                    WeightPoint(5, 1.0)]
    case Fast => [WeightPoint(6, 1.0), WeightPoint(7, 5.0), WeightPoint(8, 10.0), WeightPoint(9, 5.0),
                  WeightPoint(10, 1.0)]
    case Urgent => [WeightPoint(10, 1.0), WeightPoint(11, 3.0), WeightPoint(12, 1.0)]
  }

  /** The levels used when there is nothing to analyse. */
  function DefaultLevels(): map<Level, uint64> {
    map[Low := 500_000_000, Market := 750_000_000, Fast := 1_000_000_000, Urgent := 1_500_000_000]
  }

  const DEFAULT_CUTOFF: uint64 := 1_000_000

  /** The three predicted levels are present and in order. */
  predicate Ordered(m: map<Level, uint64>) {
    Market in m && Fast in m && Urgent in m && m[Market] <= m[Fast] <= m[Urgent]
  }

  // ---------- weighted averages ----------

  predicate Applies(values: seq<uint64>, wp: WeightPoint) {
    0 <= wp.index < |values|
  }

  function SumOf(values: seq<uint64>, group: seq<WeightPoint>): real {
    if group == [] then 0.0
    else
      var wp := group[|group| - 1];
      SumOf(values, group[..|group| - 1]) + (if Applies(values, wp) then Times(values[wp.index], wp.weight) else 0.0)
  }

  function WeightOf(values: seq<uint64>, group: seq<WeightPoint>): real {
    if group == [] then 0.0
    else
      var wp := group[|group| - 1];
      WeightOf(values, group[..|group| - 1]) + (if Applies(values, wp) then wp.weight else 0.0)
  }

  predicate Positive(group: seq<WeightPoint>) {
    forall i | 0 <= i < |group| :: group[i].weight > 0.0
  }

  predicate NonNegative(group: seq<WeightPoint>) {
    forall i | 0 <= i < |group| :: group[i].weight >= 0.0
  }

  ghost predicate Between(values: seq<uint64>, group: seq<WeightPoint>, lo: int, hi: int) {
    forall i | 0 <= i < |group| && Applies(values, group[i]) :: lo <= values[group[i].index] <= hi
  }

  function Times(v: int, w: real): real {
    v as real * w
  }

  lemma {:induction false} SumBounds(values: seq<uint64>, group: seq<WeightPoint>, lo: int, hi: int)
    requires NonNegative(group) && Between(values, group, lo, hi)
    ensures Times(lo, WeightOf(values, group)) <= SumOf(values, group) <= Times(hi, WeightOf(values, group))
    ensures WeightOf(values, group) >= 0.0
  {
    hide Times;
    if group == [] {
      TimesZero(lo);
      TimesZero(hi);
    } else {
      var n := |group| - 1;
      SumBounds(values, group[..n], lo, hi);
      if Applies(values, group[n]) {
        var weight, sum := WeightOf(values, group[..n]), SumOf(values, group[..n]);
        ScaleStep(lo, values[group[n].index], hi, weight, group[n].weight, sum);
      }
    }
  }

  lemma TimesZero(v: int)
    ensures Times(v, 0.0) == 0.0
  {
  }

  /** Nothing is averaged exactly when no point of the group names a value. */
  lemma {:induction false} ZeroWeight(values: seq<uint64>, group: seq<WeightPoint>)
    requires Positive(group)
    ensures WeightOf(values, group) >= 0.0
    ensures WeightOf(values, group) == 0.0 <==> forall i | 0 <= i < |group| :: !Applies(values, group[i])
  {
    if group != [] {
      ZeroWeight(values, group[..|group| - 1]);
    }
  }

  lemma ScaleStep(lo: int, v: int, hi: int, w: real, x: real, sum: real)
    requires lo <= v <= hi && w >= 0.0 && x >= 0.0
    requires Times(lo, w) <= sum <= Times(hi, w)
    ensures Times(lo, w + x) <= sum + Times(v, x) <= Times(hi, w + x)
  {
    var l, m, h := lo as real, v as real, hi as real;
    assert l * (w + x) == l * w + l * x;
    assert h * (w + x) == h * w + h * x;
    assert l * x <= m * x <= h * x;
  }

  /** The average cut to an integer: the largest r with r * weight within the sum. */
  ghost predicate IsTruncatedAverage(values: seq<uint64>, group: seq<WeightPoint>, r: int) {
    var weight := WeightOf(values, group);
    if weight == 0.0 then r == 0
    else Times(r, weight) <= SumOf(values, group) < Times(r + 1, weight)
  }

  /** A truncated average lies between any bounds of the values averaged. */
  lemma AverageBetween(values: seq<uint64>, group: seq<WeightPoint>, r: int, lo: int, hi: int)
    requires NonNegative(group) && Between(values, group, lo, hi)
    requires IsTruncatedAverage(values, group, r) && WeightOf(values, group) != 0.0
    ensures lo <= r <= hi
  {
    hide SumOf, WeightOf, Times;
    SumBounds(values, group, lo, hi);
    TruncatedBetween(r, lo, hi, WeightOf(values, group), SumOf(values, group));
  }

  lemma TruncatedBetween(r: int, lo: int, hi: int, w: real, sum: real)
    requires w > 0.0 && Times(r, w) <= sum < Times(r + 1, w)
    requires Times(lo, w) <= sum <= Times(hi, w)
    ensures lo <= r <= hi
  {
    hide Times;
    Unscale(lo, r + 1, w);
    Unscale(r, hi, w);
  }

  lemma Unscale(a: int, b: int, w: real)
    requires w > 0.0
    ensures Times(a, w) <= Times(b, w) ==> a <= b
    ensures Times(a, w) < Times(b, w) ==> a < b
  {
    assert Times(b, w) - Times(a, w) == (b - a) as real * w;
  }

  method CalculateWeightedValue(values: seq<uint64>, group: seq<WeightPoint>) returns (r: uint64)
    requires NonNegative(group)
    ensures IsTruncatedAverage(values, group, r)
  {
    hide SumOf, WeightOf, Times;
    var sum, weight := Accumulate(values, group);
    SumBounds(values, group, 0, TWO_64 - 1);
    if weight == 0.0 {
      return 0;
    }
    var q := sum / weight;
    var t := q.Floor;
    FloorScale(q, t, weight, sum);
    assert IsTruncatedAverage(values, group, t);
    AverageBetween(values, group, t, 0, TWO_64 - 1);
    r := t;
  }

  method Accumulate(values: seq<uint64>, group: seq<WeightPoint>) returns (sum: real, weight: real)
    ensures sum == SumOf(values, group) && weight == WeightOf(values, group)
  {
    sum, weight := 0.0, 0.0;
    for i := 0 to |group|
      invariant sum == SumOf(values, group[..i]) && weight == WeightOf(values, group[..i])
    {
      assert group[..i + 1][..i] == group[..i];
      var wp := group[i];
      if wp.index < 0 || wp.index >= |values| {
        continue;
      }
      sum := sum + values[wp.index] as real * wp.weight;
      weight := weight + wp.weight;
    }
    assert group[..|group|] == group;
  }

  lemma FloorScale(q: real, t: int, w: real, sum: real)
    requires t as real <= q < (t + 1) as real && w > 0.0 && q == sum / w
    ensures Times(t, w) <= sum < Times(t + 1, w)
  {
    assert q * w == sum;
  }

  // ---------- the three levels ----------

  /** Each level is the truncated average of its group of percentiles. */
  ghost predicate Predicts(ps: seq<uint64>, m: map<Level, uint64>) {
    && m.Keys == {Market, Fast, Urgent}
    && forall level | level in m.Keys :: IsTruncatedAverage(ps, Group(level), m[level])
  }

  method BuildPrediction(percentiles: seq<uint64>) returns (result: map<Level, uint64>)
    ensures Predicts(percentiles, result)
  {
    result := map[];
    for i := 0 to |PREDICTED|
      invariant result.Keys == set k | 0 <= k < i :: PREDICTED[k]
      invariant forall level | level in result.Keys :: IsTruncatedAverage(percentiles, Group(level), result[level])
    {
      var group := Group(PREDICTED[i]);
      if |group| == 0 {
        continue;
      }
      var value := CalculateWeightedValue(percentiles, group);
      result := result[PREDICTED[i] := value];
    }
    assert result.Keys == {PREDICTED[0], PREDICTED[1], PREDICTED[2]};
  }

  /** Thirteen ordered percentiles give ordered levels, each within its own group of percentiles. */
  lemma LevelsOrdered(ps: seq<uint64>, m: map<Level, uint64>)
    requires |ps| == COUNT && NonDecreasing(ps) && Predicts(ps, m)
    ensures Ordered(m)
    ensures ps[1] <= m[Market] <= ps[5] && ps[6] <= m[Fast] <= ps[10] && ps[10] <= m[Urgent] <= ps[12]
  {
    InGroup(ps, Market, 1, 5, m[Market]);
    InGroup(ps, Fast, 6, 10, m[Fast]);
    InGroup(ps, Urgent, 10, 12, m[Urgent]);
    assert ps[5] <= ps[6];
  }

  lemma InGroup(ps: seq<uint64>, level: Level, first: nat, last: nat, r: uint64)
    requires |ps| == COUNT && NonDecreasing(ps) && first <= last < COUNT
    requires IsTruncatedAverage(ps, Group(level), r) && Group(level) != []
    requires forall i | 0 <= i < |Group(level)| :: first <= Group(level)[i].index <= last
    ensures ps[first] <= r <= ps[last]
  {
    ZeroWeight(ps, Group(level));
    assert Applies(ps, Group(level)[0]);
    AverageBetween(ps, Group(level), r, ps[first], ps[last]);
  }

  /** With no percentiles every level is zero. */
  lemma NoPercentiles(m: map<Level, uint64>)
    requires Predicts([], m)
    ensures m == map[Market := 0, Fast := 0, Urgent := 0]
  {
    forall level | level in m.Keys ensures m[level] == 0 {
      ZeroWeight([], Group(level));
    }
  }

  // ---------- the pool sorted in place ----------

  /** Stands for the library sort: some sorted arrangement of the same entries. */
  method SortByTip(a: array<WeightedTip>)
    modifies a
    ensures Sorted(a[..]) && multiset(a[..]) == multiset(old(a[..]))
  {
    var s: seq<WeightedTip> := [];
    for i := 0 to a.Length
      invariant Sorted(s) && multiset(s) == multiset(a[..i])
      invariant a[..] == old(a[..])
    {
      s := Inserted(a[i], s);
      assert a[..i + 1] == a[..i] + [a[i]];
    }
    assert a[..a.Length] == a[..];
    assert |s| == |multiset(s)| == |multiset(a[..])| == a.Length;
    forall i | 0 <= i < a.Length {
      a[i] := s[i];
    }
    assert a[..] == s;
  }

  method Inserted(x: WeightedTip, s: seq<WeightedTip>) returns (r: seq<WeightedTip>)
    requires Sorted(s)
    ensures Sorted(r) && multiset(r) == multiset(s) + multiset{x}
  {
    var k := SearchAbove(s, x.tip);
    r := s[..k] + [x] + s[k..];
    assert s == s[..k] + s[k..];
  }

  lemma WeightedArrangement(s: seq<WeightedTip>, t: seq<WeightedTip>)
    requires multiset(s) == multiset(t) && Weighted(s)
    ensures Weighted(t)
  {
    forall i | 0 <= i < |t| ensures t[i].weight >= 0.0 {
      assert t[i] in multiset(t);
      assert t[i] in s;
    }
  }

  /** What an analysis of a pool of tips must return. */
  ghost predicate Analysis(s: seq<WeightedTip>, m: map<Level, uint64>) {
    if s == [] then m == DefaultLevels()
    else if Total(s) == 0.0 then m == map[Market := 0, Fast := 0, Urgent := 0]
    else exists ps: seq<uint64> :: ArePercentiles(s, ps) && Predicts(ps, m)
  }

  /** Whatever the pool, the levels come out in order. */
  lemma AnalysisOrdered(s: seq<WeightedTip>, m: map<Level, uint64>)
    requires Weighted(s) && Analysis(s, m)
    ensures Ordered(m)
  {
    hide ArePercentiles, Predicts;
    if s != [] && Total(s) != 0.0 {
      var ps: seq<uint64> :| ArePercentiles(s, ps) && Predicts(ps, m);
      PercentilesOrdered(s, ps);
      PercentilesLength(s, ps);
      LevelsOrdered(ps, m);
    }
  }

  lemma PercentilesLength(s: seq<WeightedTip>, ps: seq<uint64>)
    requires ArePercentiles(s, ps)
    ensures |ps| == COUNT
  {
  }

  lemma SumMore(values: seq<uint64>, group: seq<WeightPoint>, wp: WeightPoint)
    requires Applies(values, wp)
    ensures SumOf(values, group + [wp]) == SumOf(values, group) + values[wp.index] as real * wp.weight
    ensures WeightOf(values, group + [wp]) == WeightOf(values, group) + wp.weight
  {
    assert (group + [wp])[..|group|] == group;
  }

  /** Five percentiles around the median, the median counting four times. */
  lemma MarketGroup(ps: seq<uint64>, r: uint64)
    requires |ps| == 13 && IsTruncatedAverage(ps, Group(Market), r)
    ensures 8 * r <= ps[1] + ps[2] + 4 * ps[3] + ps[4] + ps[5] < 8 * (r + 1)
  {
    hide SumOf, WeightOf;
    var g := Group(Market);
    SumNone(ps);
    SumMore(ps, [], g[0]);
    SumMore(ps, [] + [g[0]], g[1]);
    SumMore(ps, [] + [g[0]] + [g[1]], g[2]);
    SumMore(ps, [] + [g[0]] + [g[1]] + [g[2]], g[3]);
    SumMore(ps, [] + [g[0]] + [g[1]] + [g[2]] + [g[3]], g[4]);
    assert g == [] + [g[0]] + [g[1]] + [g[2]] + [g[3]] + [g[4]];
  }

  lemma FastGroup(ps: seq<uint64>, r: uint64)
    requires |ps| == 13 && IsTruncatedAverage(ps, Group(Fast), r)
    ensures 22 * r <= ps[6] + 5 * ps[7] + 10 * ps[8] + 5 * ps[9] + ps[10] < 22 * (r + 1)
  {
    hide SumOf, WeightOf;
    var g := Group(Fast);
    SumNone(ps);
    SumMore(ps, [], g[0]);
    SumMore(ps, [] + [g[0]], g[1]);
    SumMore(ps, [] + [g[0]] + [g[1]], g[2]);
    SumMore(ps, [] + [g[0]] + [g[1]] + [g[2]], g[3]);
    SumMore(ps, [] + [g[0]] + [g[1]] + [g[2]] + [g[3]], g[4]);
    assert g == [] + [g[0]] + [g[1]] + [g[2]] + [g[3]] + [g[4]];
  }

  lemma UrgentGroup(ps: seq<uint64>, r: uint64)
    requires |ps| == 13 && IsTruncatedAverage(ps, Group(Urgent), r)
    ensures 5 * r <= ps[10] + 3 * ps[11] + ps[12] < 5 * (r + 1)
  {
    hide SumOf, WeightOf;
    var g := Group(Urgent);
    SumNone(ps);
    SumMore(ps, [], g[0]);
    SumMore(ps, [] + [g[0]], g[1]);
    SumMore(ps, [] + [g[0]] + [g[1]], g[2]);
    assert g == [] + [g[0]] + [g[1]] + [g[2]];
  }

  lemma SumNone(values: seq<uint64>)
    ensures SumOf(values, []) == 0.0 && WeightOf(values, []) == 0.0
  {
  }

  /** The percentiles by the shares of the weight they stand for. */
  ghost predicate ByShare(s: seq<WeightedTip>, ps: seq<uint64>) {
    && |ps| == 13 && IsPercentile(s, 0.20, ps[0])
    && IsPercentile(s, 0.40, ps[1]) && IsPercentile(s, 0.45, ps[2]) && IsPercentile(s, 0.50, ps[3])
    && IsPercentile(s, 0.55, ps[4]) && IsPercentile(s, 0.60, ps[5]) && IsPercentile(s, 0.65, ps[6])
    && IsPercentile(s, 0.70, ps[7]) && IsPercentile(s, 0.75, ps[8]) && IsPercentile(s, 0.80, ps[9])
    && IsPercentile(s, 0.85, ps[10]) && IsPercentile(s, 0.90, ps[11]) && IsPercentile(s, 0.95, ps[12])
  }

  /** The levels by the percentiles they average, each average cut to an integer. */
  ghost predicate ByWeight(ps: seq<int>, m: map<Level, int>) {
    && |ps| == 13 && m.Keys == {Market, Fast, Urgent}
    && 8 * m[Market] <= ps[1] + ps[2] + 4 * ps[3] + ps[4] + ps[5] < 8 * (m[Market] + 1)
    && 22 * m[Fast] <= ps[6] + 5 * ps[7] + 10 * ps[8] + 5 * ps[9] + ps[10] < 22 * (m[Fast] + 1)
    && 5 * m[Urgent] <= ps[10] + 3 * ps[11] + ps[12] < 5 * (m[Urgent] + 1)
  }

  /** What an analysis means, in numbers: the defaults, zeros, or averages of percentiles at fixed shares. */
  lemma AnalysisMeans(s: seq<WeightedTip>, m: map<Level, uint64>) returns (ps: seq<uint64>)
    requires Analysis(s, m)
    ensures s != [] && Total(s) != 0.0 ==> ByShare(s, ps) && ByWeight(ps, m)
    ensures s != [] && Total(s) == 0.0 ==> m == map[Market := 0, Fast := 0, Urgent := 0]
    ensures s == [] ==>
              m == map[Low := 500_000_000, Market := 750_000_000, Fast := 1_000_000_000, Urgent := 1_500_000_000]
  {
    hide IsTruncatedAverage, Total, ByShare, ArePercentiles;
    ps := [];
    if s != [] && Total(s) != 0.0 {
      ps :| ArePercentiles(s, ps) && Predicts(ps, m);
      PercentilesLength(s, ps);
      MarketGroup(ps, m[Market]);
      FastGroup(ps, m[Fast]);
      UrgentGroup(ps, m[Urgent]);
      ShareOf(s, ps);
    }
  }

  lemma ShareOf(s: seq<WeightedTip>, ps: seq<uint64>)
    requires ArePercentiles(s, ps)
    ensures ByShare(s, ps)
  {
    hide IsPercentile;
    assert Target(0) == 0.20;
    assert Target(1) == 0.40 && Target(2) == 0.45 && Target(3) == 0.50 && Target(4) == 0.55 && Target(5) == 0.60;
    assert Target(6) == 0.65 && Target(7) == 0.70 && Target(8) == 0.75 && Target(9) == 0.80 && Target(10) == 0.85;
    assert Target(11) == 0.90 && Target(12) == 0.95;
  }

  /** The tips above the bound, which are the last `count` of the sorted pool, drop to the bound in place. */
  method Clip(a: array<WeightedTip>, outer: OuterInfo)
    requires outer.count <= a.Length
    requires outer.count > 0 ==>
               forall i | 0 <= i < a.Length :: a[i].tip > outer.upperBound <==> i >= a.Length - outer.count
    modifies a
    ensures a[..] == if outer.count > 0 then Capped(old(a[..]), outer.upperBound) else old(a[..])
  {
    if outer.count > 0 {
      var start := a.Length - outer.count;
      for i := start to a.Length
        invariant forall j | 0 <= j < a.Length ::
                    a[j] == if start <= j < i then WeightedTip(outer.upperBound, old(a[j]).weight) else old(a[j])
      {
        a[i] := WeightedTip(outer.upperBound, a[i].weight);
      }
    }
  }

  /** Sorting and clipping in place, the analysis still describes the pool that was passed in. */
  method PendingPercentiles(poolData: array<WeightedTip>) returns (r: map<Level, uint64>)
    requires Weighted(poolData[..])
    modifies poolData
    ensures Analysis(old(poolData[..]), r) && Ordered(r)
    ensures SortedAndClipped(old(poolData[..]), poolData[..])
  {
    hide Total, IsPercentile, Predicts, Target, ClipBound;
    ghost var input := poolData[..];
    if poolData.Length == 0 {
      NothingClipped(poolData[..]);
      return DefaultLevels();
    }
    SortByTip(poolData);
    ghost var sorted := poolData[..];
    WeightedArrangement(input, sorted);
    ArrangementIrrelevant(input, sorted, 0);
    var outer := CalculateOuterBound(poolData[..]);
    Clip(poolData, outer);
    assert Clipped(sorted, outer, poolData[..]);
    ClippedForm(sorted, outer, poolData[..]);
    var percentiles := CalculateWeightedPercentiles(poolData[..]);
    r := BuildPrediction(if percentiles.Some? then percentiles.value else []);
    if percentiles.None? {
      NoPercentiles(r);
    } else {
      ScanIsPercentiles(poolData[..], percentiles.value);
      UnclippedPercentiles(sorted, outer, poolData[..], percentiles.value);
      SamePercentiles(input, sorted, percentiles.value);
    }
    AnalysisOrdered(input, r);
  }

  ghost predicate Clipped(sorted: seq<WeightedTip>, outer: OuterInfo, clipped: seq<WeightedTip>) {
    clipped == if outer.count > 0 then Capped(sorted, outer.upperBound) else sorted
  }

  /** The pool put in tip order and its outliers capped at the bound. */
  ghost predicate SortedAndClipped(input: seq<WeightedTip>, output: seq<WeightedTip>) {
    exists sorted: seq<WeightedTip>, outer: OuterInfo ::
      && multiset(sorted) == multiset(input) && Sorted(sorted)
      && ClipBound(sorted, outer) && Clipped(sorted, outer, output)
  }

  lemma NothingClipped(s: seq<WeightedTip>)
    requires s == []
    ensures SortedAndClipped(s, s)
  {
    assert ClipBound(s, OuterInfo(0, 0)) && Clipped(s, OuterInfo(0, 0), s);
  }

  lemma ClippedForm(sorted: seq<WeightedTip>, outer: OuterInfo, clipped: seq<WeightedTip>)
    requires Weighted(sorted) && Sorted(sorted) && Clipped(sorted, outer, clipped)
    ensures Weighted(clipped) && Sorted(clipped) && Total(clipped) == Total(sorted)
  {
    if outer.count > 0 {
      CapKeepsWeights(sorted, outer.upperBound, -1);
      CapKeepsOrder(sorted, outer.upperBound);
    }
  }

  lemma UnclippedPercentiles(sorted: seq<WeightedTip>, outer: OuterInfo, clipped: seq<WeightedTip>, ps: seq<uint64>)
    requires Weighted(sorted) && Sorted(sorted) && Total(sorted) != 0.0
    requires ClipBound(sorted, outer) && Clipped(sorted, outer, clipped) && ArePercentiles(clipped, ps)
    ensures ArePercentiles(sorted, ps)
  {
    hide IsPercentile, Total, Target;
    if outer.count > 0 {
      var qs := SortedPercentiles(sorted);
      var p95: uint64 :| IsPercentile(sorted, 0.95, p95) && outer.upperBound == Min(2 * p95, 0xFFFF_FFFF_FFFF_FFFF);
      ClipKeepsPercentiles(sorted, outer.upperBound, p95, qs);
      forall k: nat | k < COUNT ensures ps[k] == qs[k] {
        PercentileUnique(clipped, Target(k), ps[k], qs[k]);
      }
      assert ps == qs;
    }
  }

  /** A sorted pool of positive weight has percentiles. */
  lemma SortedPercentiles(s: seq<WeightedTip>) returns (ps: seq<uint64>)
    requires Weighted(s) && Sorted(s) && Total(s) != 0.0
    ensures ArePercentiles(s, ps)
  {
    hide Target, IsPercentile, Total;
    ps := [];
    while |ps| < COUNT
      invariant |ps| <= COUNT
      invariant forall k: nat | k < |ps| :: IsPercentile(s, Target(k), ps[k])
    {
      var p := SomePercentile(s, Target(|ps|));
      ps := ps + [p];
    }
  }

  lemma SomePercentile(s: seq<WeightedTip>, q: real) returns (p: uint64)
    requires Weighted(s) && Sorted(s) && Total(s) != 0.0 && 0.0 < q < 1.0
    ensures IsPercentile(s, q, p)
  {
    hide Prefix, Total;
    TotalNonNegative(s);
    PrefixEnds(s);
    ShareStrict(s, 0.0, q);
    ShareStrict(s, q, 1.0);
    var i := 0;
    while Prefix(s, i + 1) < Share(s, q)
      invariant 0 <= i < |s|
      invariant forall j: nat | j <= i :: Prefix(s, j) < Share(s, q)
      decreases |s| - i
    {
      i := i + 1;
    }
    LeastIndexIsPercentile(s, q, i);
    p := s[i].tip;
  }

  lemma SamePercentiles(s: seq<WeightedTip>, t: seq<WeightedTip>, ps: seq<uint64>)
    requires multiset(s) == multiset(t) && ArePercentiles(t, ps)
    ensures ArePercentiles(s, ps)
  {
    hide IsPercentile, Target;
    forall k: nat | k < COUNT ensures IsPercentile(s, Target(k), ps[k]) {
      PercentilesOfArrangement(s, t, Target(k), ps[k]);
    }
  }

  /** The block analysis: no clipping; also the 20th percentile as a cutoff. A non-empty pool must weigh something. */
  method BlockPercentiles(poolData: array<WeightedTip>) returns (r: map<Level, uint64>, cutoff: uint64)
    requires Weighted(poolData[..])
    requires poolData.Length > 0 ==> Total(poolData[..]) != 0.0
    modifies poolData
    ensures Analysis(old(poolData[..]), r) && Ordered(r)
    ensures if poolData.Length == 0 then cutoff == 1_000_000 else IsPercentile(old(poolData[..]), 0.20, cutoff)
    ensures poolData.Length == 0 ==>
              r[Market] == 750_000_000 && r[Fast] == 1_000_000_000 && r[Urgent] == 1_500_000_000
    ensures Sorted(poolData[..]) && multiset(poolData[..]) == multiset(old(poolData[..]))
  {
    hide Total, IsPercentile, Predicts;
    ghost var input := poolData[..];
    if poolData.Length == 0 {
      return DefaultLevels(), DEFAULT_CUTOFF;
    }
    SortByTip(poolData);
    WeightedArrangement(input, poolData[..]);
    ArrangementIrrelevant(input, poolData[..], 0);
    var percentiles := CalculateWeightedPercentiles(poolData[..]);
    r := BuildPrediction(percentiles.value);
    ScanIsPercentiles(poolData[..], percentiles.value);
    SamePercentiles(input, poolData[..], percentiles.value);
    AnalysisOrdered(input, r);
    cutoff := percentiles.value[P20];
    assert Target(P20) == 0.20;
  }

  // ---------- blending and the maximum fee ----------

  /** One fifth of the block-based fee and four fifths of the pending-based one, cut to an integer. */
  function Blend(block: uint64, pending: uint64): (r: uint64)
    ensures 5 * r <= block + 4 * pending < 5 * (r + 1)
    ensures Min(block, pending) <= r <= (if block >= pending then block else pending)
  {
    var x := block as real * 0.2 + pending as real * 0.8;
    x.Floor
  }

  /** Higher inputs never blend to a lower fee. */
  lemma BlendMonotone(b: uint64, b': uint64, p: uint64, p': uint64)
    requires b <= b' && p <= p'
    ensures Blend(b, p) <= Blend(b', p')
  {
  }

  /** The 64-bit sum of base fee and priority fee. */
  function MaxFee(baseFee: uint64, priorityFee: uint64): uint64 {
    (baseFee + priorityFee) % TWO_64
  }

  /**
   Ordered priority fees give ordered maximum fees exactly when the sums wrap around for all of the levels or for
   none; in particular whenever the highest sum fits 64 bits.
   */
  lemma MaxFeeOrder(baseFee: uint64, m: uint64, f: uint64, u: uint64)
    requires m <= f <= u
    ensures MaxFee(baseFee, m) <= MaxFee(baseFee, f) <= MaxFee(baseFee, u)
            <==> (baseFee + m >= TWO_64 <==> baseFee + u >= TWO_64)
  {
    WrappedSum(baseFee, m);
    WrappedSum(baseFee, f);
    WrappedSum(baseFee, u);
  }

  /** Fees in order whose maximum fees are not: only the higher ones wrap around. */
  lemma MaxFeeDisorder()
    ensures var base := TWO_64 - 10;
            MaxFee(base, 5) == TWO_64 - 5 && MaxFee(base, 20) == 10 < MaxFee(base, 5)
  {
    WrappedSum(TWO_64 - 10, 5);
    WrappedSum(TWO_64 - 10, 20);
  }

  lemma WrappedSum(a: uint64, b: uint64)
    ensures MaxFee(a, b) == if a + b >= TWO_64 then a + b - TWO_64 else a + b
  {
  }
}
