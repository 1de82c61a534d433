/**
 The pending transaction pool (internal/mempool): one set of transactions in three indexes, kept in agreement
 by every operation and refining the plain map of PoolSpec.
 */
module Mempool {
  import opened Common
  import opened BlockStore
  import opened WaitStats
  import opened PoolSpec

  /** A pooled transaction; only its position in the expiry bucket changes after it is built. */
  class PendingTx {
    const data: Tx
    var expireIndex: int

    constructor (data: Tx)
      ensures this.data == data && expireIndex == -1
    {
      this.data := data;
      expireIndex := -1;
    }
  }

  type Accounts = map<Address, map<nat, PendingTx>>
  type Hashes = map<Hash, PendingTx>

  // ---------- the sender and hash indexes ----------

  predicate Has(acc: Accounts, a: Address, n: nat) {
    a in acc && n in acc[a]
  }

  ghost predicate Listed(acc: Accounts, t: PendingTx) {
    Has(acc, t.data.body.from, t.data.body.nonce) && acc[t.data.body.from][t.data.body.nonce] == t
  }

  ghost predicate Hashed(hidx: Hashes, t: PendingTx) {
    t.data.hash in hidx && hidx[t.data.hash] == t
  }

  ghost predicate NoneEmpty(acc: Accounts) {
    forall a | a in acc :: exists n :: Has(acc, a, n)
  }

  /** Entry (a, n) of the sender index is in its own slot, genuine, and known to the hash index and the plain map. */
  ghost predicate EntryOk(acc: Accounts, hidx: Hashes, slots: Pool, meaning: Hash -> Body, a: Address, n: nat)
    requires Has(acc, a, n)
  {
    var t := acc[a][n];
    && t.data.At() == Slot(a, n)
    && t.data.body == meaning(t.data.hash)
    && Hashed(hidx, t)
    && t.data.At() in slots && slots[t.data.At()] == t.data
  }

  /** The sender index, the hash index and the plain map hold the same transactions; no account is empty. */
  ghost predicate Linked(acc: Accounts, hidx: Hashes, slots: Pool, meaning: Hash -> Body) {
    && NoneEmpty(acc)
    && (forall a, n | Has(acc, a, n) :: EntryOk(acc, hidx, slots, meaning, a, n))
    && (forall h | h in hidx :: hidx[h].data.hash == h && Listed(acc, hidx[h]))
    && (forall s | s in slots :: Has(acc, s.from, s.nonce))
  }

  lemma LinkedEntry(acc: Accounts, hidx: Hashes, slots: Pool, meaning: Hash -> Body, a: Address, n: nat)
    requires Linked(acc, hidx, slots, meaning)
    ensures Has(acc, a, n) <==> Slot(a, n) in slots
    ensures Has(acc, a, n) ==> EntryOk(acc, hidx, slots, meaning, a, n)
  {
  }

  lemma HashedEntry(acc: Accounts, hidx: Hashes, slots: Pool, meaning: Hash -> Body, t: PendingTx)
    requires Linked(acc, hidx, slots, meaning) && Hashed(hidx, t)
    ensures Listed(acc, t) && t.data.At() in slots && slots[t.data.At()] == t.data
  {
    assert EntryOk(acc, hidx, slots, meaning, t.data.body.from, t.data.body.nonce);
  }

  /** A nonce map entry added, opening the account if needed. */
  function With(acc: Accounts, t: PendingTx): Accounts {
    var a, n := t.data.body.from, t.data.body.nonce;
    var account: map<nat, PendingTx> := if a in acc then acc[a] else map[];
    acc[a := account[n := t]]
  }

  /** A nonce map entry deleted, closing the account with its last transaction. */
  function Without(acc: Accounts, a: Address, n: nat): Accounts {
    if a !in acc then acc
    else if acc[a] - {n} == map[] then acc - {a}
    else acc[a := acc[a] - {n}]
  }

  lemma WithoutHas(acc: Accounts, a: Address, n: nat, b: Address, k: nat)
    ensures Has(Without(acc, a, n), b, k) <==> Has(acc, b, k) && Slot(b, k) != Slot(a, n)
    ensures Has(Without(acc, a, n), b, k) ==> Without(acc, a, n)[b][k] == acc[b][k]
  {
    if a in acc && k in acc[a] && k != n {
      assert k in acc[a] - {n};
    }
  }

  lemma WithoutNoneEmpty(acc: Accounts, a: Address, n: nat)
    requires NoneEmpty(acc)
    ensures NoneEmpty(Without(acc, a, n))
  {
    var acc' := Without(acc, a, n);
    forall b | b in acc' ensures exists k :: Has(acc', b, k) {
      if b == a {
        assert acc'[a] != map[];
        var k :| k in acc'[a];
        assert Has(acc', a, k);
      } else {
        var k :| Has(acc, b, k);
        assert Has(acc', b, k);
      }
    }
  }

  lemma WithNoneEmpty(acc: Accounts, t: PendingTx)
    requires NoneEmpty(acc)
    ensures NoneEmpty(With(acc, t))
  {
    var acc' := With(acc, t);
    forall b | b in acc' ensures exists k :: Has(acc', b, k) {
      if b == t.data.body.from {
        assert Has(acc', b, t.data.body.nonce);
      } else {
        var k :| Has(acc, b, k);
        assert Has(acc', b, k);
      }
    }
  }

  lemma WithHas(acc: Accounts, t: PendingTx, b: Address, k: nat)
    ensures Has(With(acc, t), b, k) <==> Has(acc, b, k) || Slot(b, k) == t.data.At()
    ensures Has(With(acc, t), b, k) ==> With(acc, t)[b][k] == if Slot(b, k) == t.data.At() then t else acc[b][k]
  {
  }

  lemma UnlinkKeeps(acc: Accounts, hidx: Hashes, slots: Pool, meaning: Hash -> Body, t: PendingTx)
    requires Linked(acc, hidx, slots, meaning) && Hashed(hidx, t)
    ensures Linked(Without(acc, t.data.body.from, t.data.body.nonce), hidx - {t.data.hash}, slots - {t.data.At()},
                   meaning)
    ensures forall x :: Hashed(hidx - {t.data.hash}, x) <==> Hashed(hidx, x) && x != t
  {
    var a, n := t.data.body.from, t.data.body.nonce;
    hide Without;
    var acc', hidx', slots' := Without(acc, a, n), hidx - {t.data.hash}, slots - {t.data.At()};
    WithoutNoneEmpty(acc, a, n);
    forall b, k | Has(acc', b, k) ensures EntryOk(acc', hidx', slots', meaning, b, k) {
      WithoutHas(acc, a, n, b, k);
      assert EntryOk(acc, hidx, slots, meaning, b, k);
    }
    forall h | h in hidx' ensures hidx'[h].data.hash == h && Listed(acc', hidx'[h]) {
      var x := hidx[h];
      WithoutHas(acc, a, n, x.data.body.from, x.data.body.nonce);
    }
    forall s | s in slots' ensures Has(acc', s.from, s.nonce) {
      WithoutHas(acc, a, n, s.from, s.nonce);
    }
  }

  lemma FreshHash(acc: Accounts, hidx: Hashes, slots: Pool, meaning: Hash -> Body, t: PendingTx)
    requires Linked(acc, hidx, slots, meaning)
    requires !Has(acc, t.data.body.from, t.data.body.nonce) && t.data.body == meaning(t.data.hash)
    ensures t.data.hash !in hidx
  {
    forall h | h in hidx ensures hidx[h].data.body == meaning(h) {
      assert EntryOk(acc, hidx, slots, meaning, hidx[h].data.body.from, hidx[h].data.body.nonce);
    }
  }

  lemma LinkEntry(acc: Accounts, hidx: Hashes, slots: Pool, meaning: Hash -> Body, t: PendingTx, b: Address, k: nat)
    requires Linked(acc, hidx, slots, meaning)
    requires t.data.hash !in hidx && t.data.body == meaning(t.data.hash)
    requires Has(With(acc, t), b, k)
    ensures EntryOk(With(acc, t), hidx[t.data.hash := t], slots[t.data.At() := t.data], meaning, b, k)
  {
    WithHas(acc, t, b, k);
    if Slot(b, k) != t.data.At() {
      assert EntryOk(acc, hidx, slots, meaning, b, k);
    }
  }

  lemma LinkKeeps(acc: Accounts, hidx: Hashes, slots: Pool, meaning: Hash -> Body, t: PendingTx)
    requires Linked(acc, hidx, slots, meaning)
    requires !Has(acc, t.data.body.from, t.data.body.nonce) && t.data.body == meaning(t.data.hash)
    ensures Linked(With(acc, t), hidx[t.data.hash := t], slots[t.data.At() := t.data], meaning)
    ensures forall x :: Hashed(hidx[t.data.hash := t], x) <==> Hashed(hidx, x) || x == t
  {
    hide EntryOk;
    var acc', hidx', slots' := With(acc, t), hidx[t.data.hash := t], slots[t.data.At() := t.data];
    FreshHash(acc, hidx, slots, meaning, t);
    WithNoneEmpty(acc, t);
    forall b, k | Has(acc', b, k) ensures EntryOk(acc', hidx', slots', meaning, b, k) {
      LinkEntry(acc, hidx, slots, meaning, t, b, k);
    }
    forall h | h in hidx' ensures hidx'[h].data.hash == h && Listed(acc', hidx'[h]) {
      WithHas(acc, t, hidx'[h].data.body.from, hidx'[h].data.body.nonce);
    }
    forall s | s in slots' ensures Has(acc', s.from, s.nonce) {
      WithHas(acc, t, s.from, s.nonce);
    }
  }

  /** Replacing a transaction is unlinking the old one and linking the new one. */
  lemma ReplaceIsRelink(acc: Accounts, prior: PendingTx, t: PendingTx)
    requires Listed(acc, prior) && prior.data.At() == t.data.At()
    ensures With(acc, t) == With(Without(acc, t.data.body.from, t.data.body.nonce), t)
  {
    var a, n := t.data.body.from, t.data.body.nonce;
    if acc[a] - {n} == map[] {
      assert forall k | k in acc[a] && k != n :: k in acc[a] - {n};
      assert acc[a][n := t] == map[n := t];
    } else {
      assert acc[a][n := t] == (acc[a] - {n})[n := t];
    }
  }

  /** One entry of a snapshot. */
  datatype Snap = Snap(tx: Tx, nonceGap: bool)

  class PendingMemPool {
    var accounts: Accounts
    var expireBuckets: map<nat, seq<PendingTx>>
    var hashIndex: Hashes
    const ttlBlock: nat

    /** The content each transaction hash stands for. */
    const meaning: Hash -> Body

    /** The pool as a plain map, and the transaction objects it may hold. */
    ghost var slots: Pool
    ghost var owned: set<PendingTx>

    /** tx is in its expiry bucket at the position its back-pointer names. */
    ghost predicate Placed(t: PendingTx)
      reads this`expireBuckets, t`expireIndex
    {
      && t.data.expireBlock in expireBuckets
      && 0 <= t.expireIndex < |expireBuckets[t.data.expireBlock]|
      && expireBuckets[t.data.expireBlock][t.expireIndex] == t
    }

    /** No bucket is empty, and every bucket entry belongs there and points back at its position. */
    ghost predicate BucketsOk()
      reads this`expireBuckets, this`owned, owned`expireIndex
    {
      && (forall b | b in expireBuckets :: |expireBuckets[b]| > 0)
      && (forall b, i | b in expireBuckets && 0 <= i < |expireBuckets[b]| ::
            var t := expireBuckets[b][i]; t in owned && t.data.expireBlock == b && t.expireIndex == i)
    }

    /** The three indexes hold the same transactions, except that `gone` still linger in the expiry buckets. */
    ghost predicate Agree(gone: set<PendingTx>)
      reads this, owned`expireIndex
    {
      && Linked(accounts, hashIndex, slots, meaning)
      && BucketsOk()
      && (forall h | h in hashIndex :: hashIndex[h] in owned)
      && (forall t | t in owned :: Hashed(hashIndex, t) <==> Placed(t) && t !in gone)
    }

    ghost predicate Valid()
      reads this, owned`expireIndex
    {
      Agree({})
    }

    constructor (ttlBlock: nat, meaning: Hash -> Body)
      ensures Valid() && slots == map[] && owned == {}
      ensures this.ttlBlock == ttlBlock && this.meaning == meaning
    {
      this.ttlBlock := ttlBlock;
      this.meaning := meaning;
      accounts := map[];
      expireBuckets := map[];
      hashIndex := map[];
      slots := map[];
      owned := {};
    }

    /** What the invariant says of hash lookups and of the set of pooled hashes. */
    lemma HashIndexIsPool()
      requires Valid()
      ensures Sound(slots, meaning)
      ensures forall h :: h in hashIndex <==> Pooled(slots, meaning, h)
      ensures forall h | h in hashIndex :: Hashed(hashIndex, hashIndex[h]) && hashIndex[h].data.hash == h
      ensures forall h | h in hashIndex ::
                hashIndex[h].data.At() in slots && slots[hashIndex[h].data.At()] == hashIndex[h].data
    {
      forall s | s in slots
        ensures slots[s].At() == s && slots[s].body == meaning(slots[s].hash) && slots[s].hash in hashIndex
      {
        assert EntryOk(accounts, hashIndex, slots, meaning, s.from, s.nonce);
      }
      forall h | h in hashIndex
        ensures Pooled(slots, meaning, h) && slots[hashIndex[h].data.At()] == hashIndex[h].data
      {
        var x := hashIndex[h].data;
        assert EntryOk(accounts, hashIndex, slots, meaning, x.body.from, x.body.nonce);
      }
    }

    method Clear()
      modifies this
      ensures Valid() && slots == map[] && owned == {}
    {
      accounts := map[];
      expireBuckets := map[];
      hashIndex := map[];
      slots := map[];
      owned := {};
    }

    // ---------- expiry buckets ----------

    method AddExpireBucket(tx: PendingTx)
      requires BucketsOk() && tx in owned
      requires forall b, i | b in expireBuckets && 0 <= i < |expireBuckets[b]| :: expireBuckets[b][i] != tx
      modifies this`expireBuckets, tx`expireIndex
      ensures BucketsOk()
      ensures forall t | t in owned :: Placed(t) <==> old(Placed(t)) || t == tx
    {
      var list: seq<PendingTx> := if tx.data.expireBlock in expireBuckets then expireBuckets[tx.data.expireBlock]
        else [];
      tx.expireIndex := |list|;
      expireBuckets := expireBuckets[tx.data.expireBlock := list + [tx]];
    }

    /** Swap-removal: the last entry of the bucket takes the place of tx. The three guards never fire. */
    method RemoveExpireBucket(tx: PendingTx)
      requires BucketsOk() && tx in owned && Placed(tx)
      modifies this`expireBuckets, owned`expireIndex
      ensures BucketsOk()
      ensures forall t | t in owned :: Placed(t) <==> old(Placed(t)) && t != tx
    {
      if tx.data.expireBlock !in expireBuckets || |expireBuckets[tx.data.expireBlock]| == 0 {
        assert false;
        return;
      }
      var list := expireBuckets[tx.data.expireBlock];
      var index := tx.expireIndex;
      if index < 0 || index >= |list| {
        assert false;
        return;
      }
      if list[index].data.hash != tx.data.hash {
        assert false;
        return;
      }
      var last := |list| - 1;
      if index != last {
        list := list[index := list[last]];
        list[index].expireIndex := index;
      }
      list := list[..last];
      if |list| == 0 {
        expireBuckets := expireBuckets - {tx.data.expireBlock};
      } else {
        expireBuckets := expireBuckets[tx.data.expireBlock := list];
      }
    }

    // ---------- insertion ----------

    method PushBatch(txs: seq<Signed>, currentBlockNum: nat, curBlockTime: nat)
      requires Valid()
      requires forall i | 0 <= i < |txs| :: txs[i].body == meaning(txs[i].hash)
      modifies this, owned
      ensures Valid() && fresh(owned - old(owned))
      ensures slots == OfferAll(old(slots), Stamped(txs, currentBlockNum, curBlockTime, ttlBlock))
    {
      hide Linked;
      ghost var stamped := Stamped(txs, currentBlockNum, curBlockTime, ttlBlock);
      for i := 0 to |txs|
        invariant Valid() && fresh(owned - old(owned))
        invariant slots == OfferAll(old(slots), stamped[..i])
      {
        assert stamped[..i + 1][..i] == stamped[..i];
        PushOne(txs[i], currentBlockNum, curBlockTime);
      }
      assert stamped[..|txs|] == stamped;
    }

    method PushOne(x: Signed, currentBlockNum: nat, curBlockTime: nat)
      requires Valid() && x.body == meaning(x.hash)
      modifies this, owned
      ensures Valid() && fresh(owned - old(owned))
      ensures slots == Offer(old(slots), Stamp(x, currentBlockNum, curBlockTime, ttlBlock))
    {
      hide Linked, With, Without, BucketsOk;
      var tx := new PendingTx(Tx(x.hash, x.body, currentBlockNum, curBlockTime, currentBlockNum + ttlBlock));
      if Has(accounts, x.body.from, x.body.nonce) {
        var prior := accounts[x.body.from][x.body.nonce];
        LinkedEntry(accounts, hashIndex, slots, meaning, x.body.from, x.body.nonce);
        if tx.data.body.tipCap <= prior.data.body.tipCap || tx.data.body.feeCap <= prior.data.body.feeCap {
          return;
        }
        WithoutHas(accounts, x.body.from, x.body.nonce, x.body.from, x.body.nonce);
        ReplaceIsRelink(accounts, prior, tx);
        Evict(prior);
        Insert(tx, Without(accounts, x.body.from, x.body.nonce), slots - {prior.data.At()});
      } else {
        LinkedEntry(accounts, hashIndex, slots, meaning, x.body.from, x.body.nonce);
        Insert(tx, accounts, slots);
      }
    }

    /** Before a replacement: the old transaction leaves its expiry bucket and the hash index. */
    method Evict(prior: PendingTx)
      requires Valid() && prior in owned && Hashed(hashIndex, prior)
      modifies this`expireBuckets, this`hashIndex, owned`expireIndex
      ensures Linked(Without(accounts, prior.data.body.from, prior.data.body.nonce), hashIndex,
                     slots - {prior.data.At()}, meaning)
      ensures BucketsOk()
      ensures forall h | h in hashIndex :: hashIndex[h] in owned
      ensures forall t | t in owned :: Hashed(hashIndex, t) <==> Placed(t)
    {
      hide Linked, Without;
      UnlinkKeeps(accounts, hashIndex, slots, meaning, prior);
      RemoveExpireBucket(prior);
      hashIndex := hashIndex - {prior.data.hash};
    }

    /** Enter tx into the three indexes; `rest` and `others` are the sender index and the map without its slot. */
    method Insert(tx: PendingTx, ghost rest: Accounts, ghost others: Pool)
      requires Linked(rest, hashIndex, others, meaning) && BucketsOk()
      requires forall h | h in hashIndex :: hashIndex[h] in owned
      requires forall t | t in owned :: Hashed(hashIndex, t) <==> Placed(t)
      requires With(accounts, tx) == With(rest, tx) && others == slots - {tx.data.At()}
      requires !Has(rest, tx.data.body.from, tx.data.body.nonce) && tx.data.body == meaning(tx.data.hash)
      requires tx !in owned
      modifies this, tx
      ensures Valid() && owned == old(owned) + {tx}
      ensures slots == old(slots)[tx.data.At() := tx.data]
    {
      hide Linked, With;
      LinkKeeps(rest, hashIndex, others, meaning, tx);
      accounts := With(accounts, tx);
      hashIndex := hashIndex[tx.data.hash := tx];
      slots := slots[tx.data.At() := tx.data];
      assert slots == others[tx.data.At() := tx.data];
      owned := owned + {tx};
      AddExpireBucket(tx);
    }

    // ---------- removal ----------

    method RemoveByHash(tx: PendingTx)
      requires Valid() && tx in owned && Hashed(hashIndex, tx)
      modifies this, owned
      ensures Valid() && owned == old(owned)
      ensures slots == old(slots) - {tx.data.At()}
    {
      hide Linked, Without;
      UnlinkKeeps(accounts, hashIndex, slots, meaning, tx);
      accounts := Without(accounts, tx.data.body.from, tx.data.body.nonce);
      hashIndex := hashIndex - {tx.data.hash};
      slots := slots - {tx.data.At()};
      RemoveExpireBucket(tx);
    }

    /** Drop the transactions a block's receipts name; count how long the ones seen in time had waited. */
    method RemoveByReceipts(curBlockNum: nat, curBlockTime: nat, receipts: seq<Hash>)
      returns (feeBuckets: seq<FeeBucketStat>, removed: nat)
      requires Valid()
      modifies this, owned
      ensures Valid() && owned == old(owned)
      ensures slots == Settle(old(slots), meaning, receipts, curBlockNum, curBlockTime).pool
      ensures Enumerates(feeBuckets, Settle(old(slots), meaning, receipts, curBlockNum, curBlockTime).waits)
      ensures forall i | 0 <= i < |feeBuckets| :: Balanced(feeBuckets[i])
      ensures removed == |Settle(old(slots), meaning, receipts, curBlockNum, curBlockTime).waits|
    {
      var stats: map<nat, FeeBucketStat> := map[];
      removed := 0;
      ghost var done := Settled(slots, []);
      for i := 0 to |receipts|
        invariant Valid() && owned == old(owned)
        invariant done == Settle(old(slots), meaning, receipts[..i], curBlockNum, curBlockTime)
        invariant slots == done.pool && removed == |done.waits|
        invariant Tallies(stats, done.waits)
      {
        assert receipts[..i + 1][..i] == receipts[..i];
        stats, removed, done := SettleReceipt(curBlockNum, curBlockTime, receipts[i], stats, removed, done);
      }
      assert receipts[..|receipts|] == receipts;
      feeBuckets := ListStats(stats);
      ListedIsEnumerated(feeBuckets, stats, done.waits);
      EnumeratedBalanced(feeBuckets, done.waits);
    }

    /** One pass of the receipt loop. */
    method SettleReceipt(curBlockNum: nat, curBlockTime: nat, txHash: Hash,
                         stats: map<nat, FeeBucketStat>, removed: nat, ghost done: Settled)
      returns (stats': map<nat, FeeBucketStat>, removed': nat, ghost done': Settled)
      requires Valid() && slots == done.pool && removed == |done.waits| && Tallies(stats, done.waits)
      modifies this, owned
      ensures Valid() && owned == old(owned)
      ensures done' == SettleOne(done, meaning, txHash, curBlockNum, curBlockTime)
      ensures slots == done'.pool && removed' == |done'.waits| && Tallies(stats', done'.waits)
    {
      hide Linked, BucketsOk;
      HashIndexIsPool();
      stats', removed', done' := stats, removed, SettleOne(done, meaning, txHash, curBlockNum, curBlockTime);
      if txHash in hashIndex {
        var tx := hashIndex[txHash];
        if tx.data.seenBlock > curBlockNum || tx.data.seenTime > curBlockTime {
          RemoveByHash(tx);
        } else {
          var waitBlocks := curBlockNum - tx.data.seenBlock;
          var waitSeconds := curBlockTime - tx.data.seenTime;
          var bucket := FeeBucket(tx.data.body.tipCap);
          TallyStep(stats, done.waits, Wait(bucket, waitBlocks, waitSeconds));
          var stat := if bucket in stats then stats[bucket] else EmptyStat(bucket);
          stats' := stats[bucket := Record(stat, Wait(bucket, waitBlocks, waitSeconds))];
          RemoveByHash(tx);
          removed' := removed + 1;
        }
      }
    }

    // ---------- expiry ----------

    lemma SlotPlaced(s: Slot)
      requires Valid() && s in slots
      ensures slots[s].expireBlock in expireBuckets
    {
      LinkedEntry(accounts, hashIndex, slots, meaning, s.from, s.nonce);
      assert Placed(accounts[s.from][s.nonce]);
    }

    method RemoveExpired(curBlock: nat) returns (removed: nat)
      requires Valid()
      modifies this
      ensures Valid() && owned == old(owned)
      ensures slots == Expire(old(slots), curBlock)
      ensures removed == |old(slots)| - |slots|
    {
      hide Linked, BucketsOk;
      removed := 0;
      var todo := expireBuckets.Keys;
      while todo != {}
        invariant Valid() && owned == old(owned)
        invariant forall b | b in expireBuckets && b !in todo :: b > curBlock
        invariant todo <= expireBuckets.Keys
        invariant forall s | s in slots :: s in old(slots) && slots[s] == old(slots)[s]
        invariant forall s | s in old(slots) && s !in slots :: old(slots)[s].expireBlock <= curBlock
        invariant removed == |old(slots)| - |slots|
      {
        var block :| block in todo;
        todo := todo - {block};
        if block <= curBlock {
          var n := DropBucket(block);
          removed := removed + n;
        }
      }
      forall s | s in slots ensures slots[s].expireBlock > curBlock {
        SlotPlaced(s);
      }
    }

    /** Remove every transaction of one expiry bucket, then the bucket. The two skip branches never run. */
    method DropBucket(block: nat) returns (removed: nat)
      requires Valid() && block in expireBuckets
      modifies this
      ensures Valid() && owned == old(owned)
      ensures expireBuckets == old(expireBuckets) - {block}
      ensures slots == map s | s in old(slots) && old(slots)[s].expireBlock != block :: old(slots)[s]
      ensures removed == |old(slots)| - |slots|
    {
      hide Linked, BucketsOk;
      ghost var gone;
      removed, gone := UnlinkBucket(block);
      DeleteBucket(block, gone);
      forall s | s in slots ensures slots[s].expireBlock != block {
        SlotPlaced(s);
      }
    }

    lemma BucketEntry(block: nat, i: nat, gone: set<PendingTx>)
      requires Agree(gone) && block in expireBuckets && i < |expireBuckets[block]|
      requires gone == set k | 0 <= k < i :: expireBuckets[block][k]
      ensures var t := expireBuckets[block][i]; t in owned && Placed(t) && t !in gone && t.data.expireBlock == block
    {
      hide Linked;
    }

    method UnlinkBucket(block: nat) returns (removed: nat, ghost gone: set<PendingTx>)
      requires Valid() && block in expireBuckets
      modifies this`accounts, this`hashIndex, this`slots
      ensures Agree(gone)
      ensures gone == set k | 0 <= k < |expireBuckets[block]| :: expireBuckets[block][k]
      ensures forall s | s in slots :: s in old(slots) && slots[s] == old(slots)[s]
      ensures forall s | s in old(slots) && s !in slots :: old(slots)[s].expireBlock == block
      ensures removed == |old(slots)| - |slots|
    {
      hide Linked, Agree, Placed;
      removed := 0;
      var list := expireBuckets[block];
      gone := {};
      for i := 0 to |list|
        invariant Agree(gone)
        invariant gone == set k | 0 <= k < i :: list[k]
        invariant forall s | s in slots :: s in old(slots) && slots[s] == old(slots)[s]
        invariant forall s | s in old(slots) && s !in slots :: old(slots)[s].expireBlock == block
        invariant removed == |old(slots)| - |slots|
      {
        var tx := list[i];
        BucketEntry(block, i, gone);
        DropOne(tx, gone);
        gone := gone + {tx};
        removed := removed + 1;
      }
    }

    /** A bucket whose transactions have all left the other indexes goes last. */
    method DeleteBucket(block: nat, ghost gone: set<PendingTx>)
      requires Agree(gone) && block in expireBuckets
      requires gone == set k | 0 <= k < |expireBuckets[block]| :: expireBuckets[block][k]
      modifies this`expireBuckets
      ensures Valid() && expireBuckets == old(expireBuckets) - {block}
    {
      hide Linked;
      expireBuckets := expireBuckets - {block};
      assert forall t | t in owned :: Placed(t) <==> old(Placed(t)) && t !in gone;
    }

    /** One pass of the expiry loop: the sender and hash indexes lose tx, its bucket still holds it. */
    method DropOne(tx: PendingTx, ghost gone: set<PendingTx>)
      requires Agree(gone) && tx in owned && Placed(tx) && tx !in gone
      modifies this`accounts, this`hashIndex, this`slots
      ensures Agree(gone + {tx})
      ensures tx.data.At() in old(slots) && old(slots)[tx.data.At()] == tx.data
      ensures slots == old(slots) - {tx.data.At()} && |slots| == |old(slots)| - 1
    {
      hide Linked, Without, BucketsOk;
      HashedEntry(accounts, hashIndex, slots, meaning, tx);
      if tx.data.body.from !in accounts {
        assert false;
        return;
      }
      var nonceMap := accounts[tx.data.body.from];
      if tx.data.body.nonce !in nonceMap || nonceMap[tx.data.body.nonce].data.hash != tx.data.hash {
        assert false;
        return;
      }
      UnlinkKeeps(accounts, hashIndex, slots, meaning, tx);
      accounts := Without(accounts, tx.data.body.from, tx.data.body.nonce);
      hashIndex := hashIndex - {tx.data.hash};
      slots := slots - {tx.data.At()};
      assert slots.Keys == old(slots).Keys - {tx.data.At()};
    }

    // ---------- whole runs ----------

    /** Any run of operations does to the three indexes what it does to the plain map. */
    method Perform(ops: seq<Op>)
      requires Valid()
      requires forall i | 0 <= i < |ops| :: GenuineOp(ops[i], meaning)
      modifies this, owned
      ensures Valid() && fresh(owned - old(owned))
      ensures slots == Run(old(slots), meaning, ttlBlock, ops)
    {
      hide Linked, BucketsOk, Settle, OfferAll;
      for i := 0 to |ops|
        invariant Valid() && fresh(owned - old(owned))
        invariant slots == Run(old(slots), meaning, ttlBlock, ops[..i])
      {
        assert ops[..i + 1][..i] == ops[..i];
        match ops[i] {
          case Push(batch, block, time) =>
            assert GenuineOp(ops[i], meaning);
            PushBatch(batch, block, time);
          case Receipts(hashes, block, time) =>
            var stats, removed := RemoveByReceipts(block, time, hashes);
          case Expiry(until) =>
            var removed := RemoveExpired(until);
          case Wipe =>
            Clear();
        }
      }
      assert ops[..|ops|] == ops;
    }

    // ---------- snapshot ----------

    /** Every pooled transaction once, in some order, flagged when a nonce below its own is missing. */
    method Snapshot() returns (data: seq<Snap>)
      requires Valid()
      ensures SnapshotOf(data, slots)
    {
      hide Linked, BucketsOk, GapBelow, AccountSnap;
      data := [];
      var todo := accounts.Keys;
      while todo != {}
        invariant todo <= accounts.Keys
        invariant SnapshotOfSome(data, slots, accounts.Keys - todo)
      {
        var a :| a in todo;
        AccountNonces(a);
        var part := SnapAccount(a, accounts[a]);
        SnapshotJoins(data, part, slots, accounts.Keys - todo, a, accounts[a]);
        todo, data := todo - {a}, data + part;
        assert accounts.Keys - todo == accounts.Keys - (todo + {a}) + {a};
      }
      forall s | s in slots ensures s.from in accounts {
        LinkedEntry(accounts, hashIndex, slots, meaning, s.from, s.nonce);
      }
    }

    lemma AccountNonces(a: Address)
      requires Valid() && a in accounts
      ensures Holds(slots, a, accounts[a])
    {
      forall n ensures n in accounts[a] <==> Slot(a, n) in slots
               ensures n in accounts[a] ==>
                         slots[Slot(a, n)] == accounts[a][n].data && accounts[a][n].data.At() == Slot(a, n)
      {
        LinkedEntry(accounts, hashIndex, slots, meaning, a, n);
      }
    }
  }

  // ---------- snapshot contents ----------

  /** Between some held nonce and n, a nonce is not held. */
  ghost predicate GapBelow(held: set<nat>, n: nat) {
    exists lo: nat, k: nat :: lo in held && lo <= k <= n && k !in held
  }

  ghost function NoncesOf(m: Pool, a: Address): set<nat> {
    set s | s in m && s.from == a :: s.nonce
  }

  /** nonceMap is exactly the part of the map that belongs to sender a. */
  ghost predicate Holds(m: Pool, a: Address, nonceMap: map<nat, PendingTx>) {
    forall n :: (n in nonceMap <==> Slot(a, n) in m)
             && (n in nonceMap ==> m[Slot(a, n)] == nonceMap[n].data && nonceMap[n].data.At() == Slot(a, n))
  }

  ghost predicate SnapOk(snap: Snap, m: Pool) {
    var s := snap.tx.At();
    s in m && m[s] == snap.tx && (snap.nonceGap <==> GapBelow(NoncesOf(m, s.from), s.nonce))
  }

  /** `data` lists every transaction of the map exactly once, with its gap flag. */
  ghost predicate SnapshotOf(data: seq<Snap>, m: Pool) {
    && (forall i | 0 <= i < |data| :: SnapOk(data[i], m))
    && (forall i, j | 0 <= i < j < |data| :: data[i].tx.At() != data[j].tx.At())
    && (forall s | s in m :: InSnapshot(data, s))
  }

  ghost predicate InSnapshot(data: seq<Snap>, s: Slot) {
    exists i | 0 <= i < |data| :: data[i].tx.At() == s
  }

  /** The same, restricted to some senders. */
  ghost predicate SnapshotOfSome(data: seq<Snap>, m: Pool, senders: set<Address>) {
    && (forall i | 0 <= i < |data| :: SnapOk(data[i], m) && data[i].tx.body.from in senders)
    && (forall i, j | 0 <= i < j < |data| :: data[i].tx.At() != data[j].tx.At())
    && (forall s | s in m && s.from in senders :: InSnapshot(data, s))
  }

  /** The snapshot of one account, in nonce order. */
  ghost predicate AccountSnap(part: seq<Snap>, nonceMap: map<nat, PendingTx>) {
    && (forall i | 0 <= i < |part| ::
          && part[i].tx.body.nonce in nonceMap && part[i].tx == nonceMap[part[i].tx.body.nonce].data
          && (part[i].nonceGap <==> GapBelow(nonceMap.Keys, part[i].tx.body.nonce)))
    && (forall i, j | 0 <= i < j < |part| :: part[i].tx.body.nonce < part[j].tx.body.nonce)
    && (forall n | n in nonceMap :: exists i | 0 <= i < |part| :: part[i].tx.body.nonce == n)
  }

  predicate Ascending(s: seq<nat>) {
    forall i, j | 0 <= i < j < |s| :: s[i] < s[j]
  }

  ghost predicate IsLeast(m: nat, s: set<nat>) {
    m in s && forall k | k in s :: m <= k
  }

  lemma LeastExists(s: set<nat>)
    requires s != {}
    ensures exists m :: IsLeast(m, s)
  {
    var x :| x in s;
    if s == {x} {
      assert IsLeast(x, s);
    } else {
      var rest := s - {x};
      assert s == rest + {x};
      LeastExists(rest);
      var m :| IsLeast(m, rest);
      assert IsLeast(if x <= m then x else m, s);
    }
  }

  /** The keys in increasing order. */
  method SortNonces(keys: set<nat>) returns (nonces: seq<nat>)
    ensures Ascending(nonces)
    ensures forall k :: k in nonces <==> k in keys
  {
    nonces := [];
    var rest := keys;
    while rest != {}
      invariant Ascending(nonces)
      invariant forall k :: k in keys <==> k in nonces || k in rest
      invariant forall i, k | 0 <= i < |nonces| && k in rest :: nonces[i] < k
    {
      LeastExists(rest);
      var m :| m in rest && forall k | k in rest :: m <= k;
      nonces := nonces + [m];
      rest := rest - {m};
    }
  }

  /** With the held nonces in order, everything below position i is held exactly when no gap was met. */
  lemma GapStep(nonces: seq<nat>, held: set<nat>, i: nat)
    requires Ascending(nonces) && forall k :: k in nonces <==> k in held
    requires i < |nonces|
    ensures i == 0 ==> !GapBelow(held, nonces[i])
    ensures i > 0 ==> (GapBelow(held, nonces[i]) <==> GapBelow(held, nonces[i - 1]) || nonces[i] != nonces[i - 1] + 1)
  {
    forall x | x in held ensures x >= nonces[0] && (i > 0 && x > nonces[i - 1] ==> x >= nonces[i]) {
      var j :| 0 <= j < |nonces| && nonces[j] == x;
    }
    assert nonces[i] in held;
    if i > 0 {
      assert nonces[i - 1] < nonces[i] && nonces[i - 1] in held;
      if nonces[i] != nonces[i - 1] + 1 {
        assert nonces[i - 1] + 1 !in held;
      }
    }
  }

  /** One account: nonces in order, and one running flag that turns on at the first missing nonce. */
  method SnapAccount(a: Address, nonceMap: map<nat, PendingTx>) returns (part: seq<Snap>)
    requires forall n | n in nonceMap :: nonceMap[n].data.At() == Slot(a, n)
    ensures AccountSnap(part, nonceMap)
  {
    hide GapBelow, AccountSnap;
    part := [];
    var nonces := SortNonces(nonceMap.Keys);
    if |nonces| == 0 {
      NoNonces(nonces, nonceMap);
      return;
    }
    var expected := nonces[0];
    var hasGap := false;
    for i := 0 to |nonces|
      invariant |part| == i
      invariant i == 0 ==> expected == nonces[0] && !hasGap
      invariant i > 0 ==> expected == nonces[i - 1] + 1 && (hasGap <==> GapBelow(nonceMap.Keys, nonces[i - 1]))
      invariant forall j | 0 <= j < i ::
                  part[j].tx == nonceMap[nonces[j]].data && (part[j].nonceGap <==> GapBelow(nonceMap.Keys, nonces[j]))
    {
      var nonce := nonces[i];
      GapStep(nonces, nonceMap.Keys, i);
      if nonce != expected {
        hasGap := true;
      }
      part := part + [Snap(nonceMap[nonce].data, hasGap)];
      expected := nonce + 1;
    }
    AccountSnapped(part, nonces, a, nonceMap);
  }

  lemma NoNonces(nonces: seq<nat>, nonceMap: map<nat, PendingTx>)
    requires nonces == [] && forall k :: k in nonces <==> k in nonceMap.Keys
    ensures AccountSnap([], nonceMap)
  {
  }

  lemma AccountSnapped(part: seq<Snap>, nonces: seq<nat>, a: Address, nonceMap: map<nat, PendingTx>)
    requires forall n | n in nonceMap :: nonceMap[n].data.At() == Slot(a, n)
    requires |part| == |nonces| && Ascending(nonces) && forall k :: k in nonces <==> k in nonceMap.Keys
    requires forall j | 0 <= j < |part| :: nonces[j] in nonceMap
               && part[j].tx == nonceMap[nonces[j]].data && (part[j].nonceGap <==> GapBelow(nonceMap.Keys, nonces[j]))
    ensures AccountSnap(part, nonceMap)
  {
    hide GapBelow;
    forall n | n in nonceMap ensures exists i | 0 <= i < |part| :: part[i].tx.body.nonce == n {
      var i :| 0 <= i < |nonces| && nonces[i] == n;
      assert part[i].tx.body.nonce == n;
    }
  }

  lemma SnapshotJoins(data: seq<Snap>, part: seq<Snap>, m: Pool, before: set<Address>, a: Address,
                      nonceMap: map<nat, PendingTx>)
    requires SnapshotOfSome(data, m, before) && a !in before
    requires AccountSnap(part, nonceMap) && Holds(m, a, nonceMap)
    ensures SnapshotOfSome(data + part, m, before + {a})
  {
    hide SnapshotOfSome, AccountSnap, Holds;
    AccountIsSnapshot(part, m, a, nonceMap);
    SnapshotsJoin(data, part, m, before, a);
  }

  lemma AccountIsSnapshot(part: seq<Snap>, m: Pool, a: Address, nonceMap: map<nat, PendingTx>)
    requires AccountSnap(part, nonceMap) && Holds(m, a, nonceMap)
    ensures SnapshotOfSome(part, m, {a})
  {
    hide GapBelow;
    assert NoncesOf(m, a) == nonceMap.Keys;
    forall i | 0 <= i < |part| ensures SnapOk(part[i], m) && part[i].tx.body.from == a {
      assert part[i].tx.At() == Slot(a, part[i].tx.body.nonce);
    }
    forall s | s in m && s.from in {a} ensures InSnapshot(part, s) {
      var i :| 0 <= i < |part| && part[i].tx.body.nonce == s.nonce;
      assert part[i].tx.At() == s;
    }
  }

  lemma SnapshotsJoin(data: seq<Snap>, part: seq<Snap>, m: Pool, before: set<Address>, a: Address)
    requires SnapshotOfSome(data, m, before) && a !in before && SnapshotOfSome(part, m, {a})
    ensures SnapshotOfSome(data + part, m, before + {a})
  {
    hide SnapOk;
    var all := data + part;
    forall s | s in m && s.from in before + {a} ensures InSnapshot(all, s) {
      if s.from == a {
        assert InSnapshot(part, s);
        var i :| 0 <= i < |part| && part[i].tx.At() == s;
        assert all[|data| + i].tx.At() == s;
      } else {
        assert InSnapshot(data, s);
        var i :| 0 <= i < |data| && data[i].tx.At() == s;
        assert all[i].tx.At() == s;
      }
    }
  }
}
