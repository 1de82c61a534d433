/** The base-fee update (internal/gasanalyzer/fee.go), following the "Specification" section of EIP-1559. */
module BaseFee {
  import opened Common

  const INITIAL: nat := 1_000_000_000
  const MAX_CHANGE: nat := 8

  /** The change as the program computes it: divided by the target, then by eight. */
  function Delta(fee: nat, gap: nat, target: nat): nat
    requires target > 0
  {
    fee * gap / target / MAX_CHANGE
  }

  /** The update as the program computes it. A target of zero is only divided by when gas was used. */
  function NextBaseFee(parent: Option<nat>, gasUsed: nat, gasLimit: nat): int
    requires parent.None? || gasLimit >= 2 || gasUsed == 0
  {
    if parent.None? then INITIAL
    else
      var baseFee := parent.value;
      var target := gasLimit / 2;
      if gasUsed == target then baseFee
      else
        var next :=
          if gasUsed > target then
            var diff := Delta(baseFee, gasUsed - target, target);
            baseFee + (if diff == 0 then 1 else diff)
          else
            baseFee - Delta(baseFee, target - gasUsed, target);
        if next < 0 then 0 else next
  }

  /** The share of the fee that `gap` units of gas away from the target are worth: one division by 8 * target. */
  function Change(fee: nat, gap: nat, target: nat): (r: nat)
    requires target > 0
  {
    fee * gap / (MAX_CHANGE * target)
  }

  lemma DivTwice(n: nat, a: nat, b: nat)
    requires a > 0 && b > 0
    ensures b * a > 0 && n / a / b == n / (b * a)
  {
    var q := n / a;
    var p := q / b;
    assert n == a * q + n % a;
    assert q == b * p + q % b;
    assert b * a > 0;
    Compose(n, a, b, q, p);
    DivUnique(n, b * a, p);
  }

  lemma Compose(n: nat, a: nat, b: nat, q: nat, p: nat)
    requires a > 0 && b > 0
    requires a * q <= n < a * q + a && b * p <= q < b * p + b
    ensures (b * a) * p <= n < (b * a) * p + b * a
  {
    assert a * (b * p) <= a * q by { MulMonotone(a, b * p, q); }
    assert a * (q + 1) <= a * (b * p + b) by { MulMonotone(a, q + 1, b * p + b); }
    assert a * (b * p) == (b * a) * p;
    assert a * (b * p + b) == (b * a) * p + b * a;
    assert a * (q + 1) == a * q + a;
  }

  lemma MulMonotone(a: nat, x: int, y: int)
    requires x <= y
    ensures a * x <= a * y
  {
  }

  /** The quotient is the only integer whose multiple brackets n. */
  lemma DivUnique(n: nat, d: nat, p: int)
    requires d > 0 && d * p <= n < d * p + d
    ensures n / d == p
  {
    var q := n / d;
    assert d * q <= n < d * q + d;
    if q < p {
      MulMonotone(d, q + 1, p);
    } else if q > p {
      MulMonotone(d, p + 1, q);
    }
  }

  lemma DivMonotone(x: nat, y: nat, d: nat)
    requires d > 0 && x <= y
    ensures x / d <= y / d
  {
    var p, q := x / d, y / d;
    assert d * p <= x < d * p + d && d * q <= y < d * q + d;
    if q < p {
      MulMonotone(d, q + 1, p);
    }
  }

  lemma DeltaIsChange(fee: nat, gap: nat, target: nat)
    requires target > 0
    ensures Delta(fee, gap, target) == Change(fee, gap, target)
  {
    DivTwice(fee * gap, target, MAX_CHANGE);
  }

  /** What the program computes, with one division in place of two and without the clamp. */
  lemma NextByChange(fee: nat, gasUsed: nat, gasLimit: nat)
    requires gasLimit >= 2
    ensures var target := gasLimit / 2;
            NextBaseFee(Some(fee), gasUsed, gasLimit) ==
              if gasUsed == target then fee
              else if gasUsed > target then fee + Max1(Change(fee, gasUsed - target, target))
              else fee - Change(fee, target - gasUsed, target)
  {
    hide Delta, Change;
    var target := gasLimit / 2;
    if gasUsed > target {
      DeltaIsChange(fee, gasUsed - target, target);
    } else if gasUsed < target {
      DeltaIsChange(fee, target - gasUsed, target);
      ChangeAtMostEighth(fee, target - gasUsed, target);
    }
  }

  /**
   The fee moves by the share of it, cut to an integer, that the distance from the target is of eight targets: down
   below the target, and up by at least one above it.
   */
  lemma NextIsChange(fee: nat, gasUsed: nat, gasLimit: nat) returns (change: nat)
    requires gasLimit >= 2
    ensures var target := gasLimit / 2;
            var gap := if gasUsed > target then gasUsed - target else target - gasUsed;
            8 * target * change <= fee * gap < 8 * target * change + 8 * target
    ensures gasUsed < gasLimit / 2 ==> NextBaseFee(Some(fee), gasUsed, gasLimit) == fee - change
    ensures gasUsed == gasLimit / 2 ==> NextBaseFee(Some(fee), gasUsed, gasLimit) == fee
    ensures gasUsed > gasLimit / 2 ==>
              NextBaseFee(Some(fee), gasUsed, gasLimit) == fee + (if change == 0 then 1 else change)
  {
    hide NextBaseFee, Change;
    var target := gasLimit / 2;
    var gap := if gasUsed > target then gasUsed - target else target - gasUsed;
    NextByChange(fee, gasUsed, gasLimit);
    change := Change(fee, gap, target);
    ChangeBracket(fee, gap, target);
  }

  lemma ChangeBracket(fee: nat, gap: nat, target: nat)
    requires target > 0
    ensures 8 * target * Change(fee, gap, target) <= fee * gap < 8 * target * Change(fee, gap, target) + 8 * target
  {
    var d, n := MAX_CHANGE * target, fee * gap;
    assert d * (n / d) <= n < d * (n / d) + d;
  }

  function Max1(x: nat): (r: nat) {
    if x == 0 then 1 else x
  }

  /** Within one target of the target, the change is at most an eighth. */
  lemma ChangeAtMostEighth(fee: nat, gap: nat, target: nat)
    requires 0 < target && gap <= target
    ensures 0 <= Change(fee, gap, target) <= fee / 8 <= fee
  {
    MulMonotone(fee, gap, target);
    DivMonotone(fee * gap, fee * target, MAX_CHANGE * target);
    var q := fee / MAX_CHANGE;
    assert MAX_CHANGE * q <= fee < MAX_CHANGE * q + MAX_CHANGE;
    Scaled(fee, q, target);
    DivUnique(fee * target, MAX_CHANGE * target, q);
  }

  lemma Scaled(fee: nat, q: nat, target: nat)
    requires MAX_CHANGE * q <= fee < MAX_CHANGE * q + MAX_CHANGE && target > 0
    ensures (MAX_CHANGE * target) * q <= fee * target < (MAX_CHANGE * target) * q + MAX_CHANGE * target
  {
    MulMonotone(target, MAX_CHANGE * q, fee);
    MulMonotone(target, fee + 1, MAX_CHANGE * q + MAX_CHANGE);
    assert target * (MAX_CHANGE * q) == (MAX_CHANGE * target) * q;
    assert target * (MAX_CHANGE * q + MAX_CHANGE) == (MAX_CHANGE * target) * q + MAX_CHANGE * target;
    assert target * (fee + 1) == fee * target + target;
  }

  /**
   The result stays within an eighth below, and within an eighth (at least one) above a block of at most twice the
   target.
   */
  lemma NextWithin(fee: nat, gasUsed: nat, gasLimit: nat)
    requires gasLimit >= 2
    ensures NextBaseFee(Some(fee), gasUsed, gasLimit) >= fee - fee / 8 >= 0
    ensures gasUsed <= 2 * (gasLimit / 2) ==> NextBaseFee(Some(fee), gasUsed, gasLimit) <= fee + Max1(fee / 8)
    ensures gasUsed > gasLimit / 2 ==> NextBaseFee(Some(fee), gasUsed, gasLimit) > fee
    ensures gasUsed <= gasLimit / 2 ==> NextBaseFee(Some(fee), gasUsed, gasLimit) <= fee
  {
    hide Change, NextBaseFee;
    var target := gasLimit / 2;
    NextByChange(fee, gasUsed, gasLimit);
    if gasUsed > target {
      if gasUsed <= 2 * target {
        ChangeAtMostEighth(fee, gasUsed - target, target);
      }
    } else {
      ChangeAtMostEighth(fee, target - gasUsed, target);
    }
  }

  /** The clamp at zero never acts: the unclamped value is already non-negative. */
  lemma ClampUnreachable(fee: nat, gasUsed: nat, gasLimit: nat)
    requires gasLimit >= 2 && gasUsed < gasLimit / 2
    ensures fee - Delta(fee, gasLimit / 2 - gasUsed, gasLimit / 2) >= 0
  {
    hide Delta, Change;
    var target := gasLimit / 2;
    DeltaIsChange(fee, target - gasUsed, target);
    ChangeAtMostEighth(fee, target - gasUsed, target);
  }

  lemma ChangeInGap(fee: nat, gap: nat, gap': nat, target: nat)
    requires target > 0 && gap <= gap'
    ensures Change(fee, gap, target) <= Change(fee, gap', target)
  {
    MulMonotone(fee, gap, gap');
    DivMonotone(fee * gap, fee * gap', MAX_CHANGE * target);
  }

  /** More gas used never lowers the next fee. */
  lemma MonotoneInGasUsed(fee: nat, used: nat, used': nat, gasLimit: nat)
    requires gasLimit >= 2 && used <= used'
    ensures NextBaseFee(Some(fee), used, gasLimit) <= NextBaseFee(Some(fee), used', gasLimit)
  {
    hide Change, NextBaseFee;
    var target := gasLimit / 2;
    NextByChange(fee, used, gasLimit);
    NextByChange(fee, used', gasLimit);
    if used > target {
      ChangeInGap(fee, used - target, used' - target, target);
    } else if used' <= target {
      ChangeInGap(fee, target - used', target - used, target);
    }
  }

  /** One more unit of fee moves the change by zero or, for a gap within the target, at most one. */
  lemma ChangeInFee(fee: nat, gap: nat, target: nat)
    requires target > 0
    ensures Change(fee, gap, target) <= Change(fee + 1, gap, target)
    ensures gap <= target ==> Change(fee + 1, gap, target) <= Change(fee, gap, target) + 1
  {
    var d := MAX_CHANGE * target;
    assert (fee + 1) * gap == fee * gap + gap;
    DivMonotone(fee * gap, fee * gap + gap, d);
    if gap <= target {
      DivMonotone(fee * gap + gap, fee * gap + d, d);
      var q := fee * gap / d;
      assert d * q <= fee * gap < d * q + d;
      assert d * (q + 1) == d * q + d;
      DivUnique(fee * gap + d, d, q + 1);
    }
  }

  /** A higher fee never leads to a lower next fee. */
  lemma {:induction false} MonotoneInFee(fee: nat, fee': nat, gasUsed: nat, gasLimit: nat)
    requires gasLimit >= 2 && fee <= fee'
    ensures NextBaseFee(Some(fee), gasUsed, gasLimit) <= NextBaseFee(Some(fee'), gasUsed, gasLimit)
    decreases fee' - fee
  {
    hide Change, NextBaseFee;
    if fee < fee' {
      var target := gasLimit / 2;
      MonotoneInFee(fee + 1, fee', gasUsed, gasLimit);
      NextByChange(fee, gasUsed, gasLimit);
      NextByChange(fee + 1, gasUsed, gasLimit);
      ChangeInFee(fee, if gasUsed > target then gasUsed - target else target - gasUsed, target);
    }
  }

  // ---------- over a sequence of blocks ----------

  datatype Block = Block(gasUsed: nat, gasLimit: nat)

  predicate Plausible(blocks: seq<Block>) {
    forall i | 0 <= i < |blocks| :: blocks[i].gasLimit >= 2
  }

  function FeeAfter(fee: nat, blocks: seq<Block>): int
    requires Plausible(blocks)
  {
    if blocks == [] then fee
    else
      var before := FeeAfter(fee, blocks[..|blocks| - 1]);
      var b := blocks[|blocks| - 1];
      if before < 0 then before else NextBaseFee(Some(before), b.gasUsed, b.gasLimit)
  }

  /** Over any run of blocks a fee of at least seven stays at least seven, and a lower one never falls. */
  lemma {:induction false} FloorOfSeven(fee: nat, blocks: seq<Block>)
    requires Plausible(blocks)
    ensures FeeAfter(fee, blocks) >= Min(fee, 7)
  {
    if blocks != [] {
      var n := |blocks| - 1;
      FloorOfSeven(fee, blocks[..n]);
      NextWithin(FeeAfter(fee, blocks[..n]), blocks[n].gasUsed, blocks[n].gasLimit);
    }
  }
}
