/** The bounded, newest-first window of processed blocks (internal/blockstore). */
module BlockStore {
  import opened Common

  const FEE_BUCKET_SIZE: nat := 500_000_000
  const MAX_WAIT_BLOCK: nat := 10
  const WAIT_SLOTS: nat := 16

  datatype TxInfo = TxInfo(hash: Hash, tip: uint64, gasUsed: nat, gasWeight: real)

  datatype FeeBucketStat = FeeBucketStat(
    bucket: nat,
    txCount: nat,
    totalWaitBlocks: nat,
    totalWaitSeconds: nat,
    waitBlockCount: seq<nat>)

  datatype BlockData = BlockData(
    number: nat,
    baseFee: nat,
    gasLimit: nat,
    txs: seq<TxInfo>,
    feeBuckets: seq<FeeBucketStat>)

  /** `window` shows the newest `max` blocks of `history`, newest first. */
  ghost predicate IsWindow(window: seq<BlockData>, history: seq<BlockData>, max: nat) {
    && |window| == Min(max, |history|)
    && forall i | 0 <= i < |window| :: window[i] == history[|history| - 1 - i]
  }

  ghost predicate Increasing(history: seq<BlockData>) {
    forall i, j | 0 <= i < j < |history| :: history[i].number < history[j].number
  }

  ghost predicate Decreasing(window: seq<BlockData>) {
    forall i, j | 0 <= i < j < |window| :: window[i].number > window[j].number
  }

  /** The window holds block `n` exactly when `n` was added and fewer than `max` blocks came after it. */
  lemma WindowHolds(window: seq<BlockData>, history: seq<BlockData>, max: nat, n: nat)
    requires IsWindow(window, history, max) && Increasing(history)
    ensures Decreasing(window)
    ensures (exists i | 0 <= i < |window| :: window[i].number == n) <==>
            (exists k | 0 <= k < |history| :: history[k].number == n && |history| - 1 - k < max)
  {
    if k :| 0 <= k < |history| && history[k].number == n && |history| - 1 - k < max {
      assert window[|history| - 1 - k].number == n;
    }
    if i :| 0 <= i < |window| && window[i].number == n {
      var k := |history| - 1 - i;
      assert history[k].number == n;
    }
  }

  class Store {
    var blocks: seq<BlockData>
    const max: nat

    /** Every block added since the last Clear, oldest first. */
    ghost var history: seq<BlockData>

    ghost predicate Valid()
      reads this
    {
      IsWindow(blocks, history, max)
    }

    constructor (max: nat)
      ensures Valid() && this.max == max && history == []
    {
      this.max := max;
      blocks := [];
      history := [];
    }

    method Clear()
      modifies this
      ensures Valid() && history == []
    {
      blocks := [];
      history := [];
    }

    method AddBlock(blockData: BlockData)
      requires Valid()
      modifies this
      ensures Valid() && history == old(history) + [blockData]
    {
      blocks := [blockData] + blocks;
      if |blocks| > max {
        blocks := blocks[..max];
      }
      history := history + [blockData];
    }

    method GetBlockData() returns (res: seq<BlockData>)
      requires Valid()
      ensures res == blocks && IsWindow(res, history, max)
    {
      res := blocks;
    }
  }
}
