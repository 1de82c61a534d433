/**
 The pending pool as a plain map from (sender, nonce) to transaction: what each pool operation does to
 that map, and what holds over every run of operations.
 */
module PoolSpec {
  import opened Common
  import opened WaitStats

  type Address = nat

  datatype Slot = Slot(from: Address, nonce: nat)

  /** The signed content of a transaction. Its hash determines it. */
  datatype Body = Body(from: Address, nonce: nat, tipCap: uint64, feeCap: uint64, gasLimit: nat)

  /** A validated transaction as it arrives: hash and signed content. */
  datatype Signed = Signed(hash: Hash, body: Body)

  /** A pooled transaction with the block and time it was first seen and the block it expires at. */
  datatype Tx = Tx(hash: Hash, body: Body, seenBlock: nat, seenTime: nat, expireBlock: nat) {
    function At(): Slot {
      Slot(body.from, body.nonce)
    }
  }

  type Pool = map<Slot, Tx>

  /** Every entry sits in its own slot and its hash stands for its content. */
  ghost predicate Sound(m: Pool, meaning: Hash -> Body) {
    forall s | s in m :: m[s].At() == s && m[s].body == meaning(m[s].hash)
  }

  /** The transaction with hash h is pooled. */
  predicate Pooled(m: Pool, meaning: Hash -> Body, h: Hash) {
    var s := Slot(meaning(h).from, meaning(h).nonce);
    s in m && m[s].hash == h
  }

  predicate Outbids(x: Tx, y: Tx) {
    x.body.tipCap > y.body.tipCap && x.body.feeCap > y.body.feeCap
  }

  // ---------- the operations on the plain map ----------

  function Stamp(x: Signed, block: nat, time: nat, ttl: nat): Tx {
    Tx(x.hash, x.body, block, time, block + ttl)
  }

  function Stamped(xs: seq<Signed>, block: nat, time: nat, ttl: nat): seq<Tx> {
    seq(|xs|, i requires 0 <= i < |xs| => Stamp(xs[i], block, time, ttl))
  }

  /** An empty slot takes the transaction; a held one only if both caps are strictly higher. */
  function Offer(m: Pool, x: Tx): Pool {
    if x.At() in m && !Outbids(x, m[x.At()]) then m else m[x.At() := x]
  }

  function OfferAll(m: Pool, xs: seq<Tx>): Pool {
    if xs == [] then m else Offer(OfferAll(m, xs[..|xs| - 1]), xs[|xs| - 1])
  }

  /** First seen after the block that mined it, by number or by time. */
  predicate Late(x: Tx, block: nat, time: nat) {
    x.seenBlock > block || x.seenTime > time
  }

  function WaitOf(x: Tx, block: nat, time: nat): Wait
    requires !Late(x, block, time)
  {
    Wait(FeeBucket(x.body.tipCap), block - x.seenBlock, time - x.seenTime)
  }

  datatype Settled = Settled(pool: Pool, waits: seq<Wait>)

  /** Mined transactions leave the pool one receipt at a time; the late ones leave no wait record. */
  function Settle(m: Pool, meaning: Hash -> Body, receipts: seq<Hash>, block: nat, time: nat): Settled {
    if receipts == [] then Settled(m, [])
    else
      var before := Settle(m, meaning, receipts[..|receipts| - 1], block, time);
      SettleOne(before, meaning, receipts[|receipts| - 1], block, time)
  }

  function SettleOne(before: Settled, meaning: Hash -> Body, h: Hash, block: nat, time: nat): Settled {
    if !Pooled(before.pool, meaning, h) then before
    else
      var s := Slot(meaning(h).from, meaning(h).nonce);
      var x := before.pool[s];
      Settled(before.pool - {s}, if Late(x, block, time) then before.waits else before.waits + [WaitOf(x, block, time)])
  }

  function Expire(m: Pool, block: nat): Pool {
    map s | s in m && m[s].expireBlock > block :: m[s]
  }

  // ---------- one batch ----------

  /** A held slot changes its transaction exactly if both caps of the new one are strictly higher. */
  lemma OfferExact(m: Pool, x: Tx)
    ensures x.At() in Offer(m, x) && Offer(m, x).Keys == m.Keys + {x.At()}
    ensures Offer(m, x)[x.At()] == x
            <==> x.At() !in m || m[x.At()] == x
                 || (x.body.tipCap > m[x.At()].body.tipCap && x.body.feeCap > m[x.At()].body.feeCap)
    ensures forall s | s in m && s != x.At() :: Offer(m, x)[s] == m[s]
    ensures x.At() in m ==> Offer(m, x)[x.At()] == x || Offer(m, x) == m
  {
  }

  /** A batch empties no slot, and a slot it changes rises strictly in both caps. */
  lemma {:induction false} OfferAllRises(m: Pool, xs: seq<Tx>, s: Slot)
    requires s in m
    ensures s in OfferAll(m, xs)
    ensures var x, y := OfferAll(m, xs)[s], m[s];
            x == y || (x.body.tipCap > y.body.tipCap && x.body.feeCap > y.body.feeCap)
  {
    if xs != [] {
      OfferAllRises(m, xs[..|xs| - 1], s);
    }
  }

  /** After a batch, no transaction of the batch outbids the one its slot holds, and that one was there or offered. */
  lemma {:induction false} OfferAllBest(m: Pool, xs: seq<Tx>, i: nat)
    requires i < |xs|
    ensures xs[i].At() in OfferAll(m, xs)
    ensures var x, y := xs[i], OfferAll(m, xs)[xs[i].At()];
            x.body.tipCap <= y.body.tipCap || x.body.feeCap <= y.body.feeCap
  {
    var n := |xs| - 1;
    if i < n {
      OfferAllBest(m, xs[..n], i);
      OfferAllRises(OfferAll(m, xs[..n]), [xs[n]], xs[i].At());
      assert [xs[n]][..0] == [];
    }
  }

  lemma {:induction false} OfferAllOrigin(m: Pool, xs: seq<Tx>, s: Slot)
    requires s in OfferAll(m, xs)
    ensures (s in m && OfferAll(m, xs)[s] == m[s]) || OfferAll(m, xs)[s] in xs
  {
    if xs != [] {
      var n := |xs| - 1;
      if s in OfferAll(m, xs[..n]) {
        OfferAllOrigin(m, xs[..n], s);
      }
    }
  }

  /** A transaction that a push brought into the pool is stamped with the block and time of the push. */
  lemma PushedAs(m: Pool, txs: seq<Signed>, block: nat, time: nat, ttl: nat, s: Slot)
    requires s in OfferAll(m, Stamped(txs, block, time, ttl))
    ensures var x := OfferAll(m, Stamped(txs, block, time, ttl))[s];
            || (s in m && x == m[s])
            || (&& x.seenBlock == block && x.seenTime == time && x.expireBlock == block + ttl
                && exists i | 0 <= i < |txs| :: txs[i] == Signed(x.hash, x.body))
  {
    var xs := Stamped(txs, block, time, ttl);
    OfferAllOrigin(m, xs, s);
    if x :| x == OfferAll(m, xs)[s] && x in xs {
      var i :| 0 <= i < |xs| && xs[i] == x;
      assert txs[i] == Signed(x.hash, x.body);
    }
  }

  lemma {:induction false} OfferAllSound(m: Pool, meaning: Hash -> Body, xs: seq<Tx>)
    requires Sound(m, meaning)
    requires forall i | 0 <= i < |xs| :: xs[i].body == meaning(xs[i].hash)
    ensures Sound(OfferAll(m, xs), meaning)
  {
    if xs != [] {
      OfferAllSound(m, meaning, xs[..|xs| - 1]);
    }
  }

  // ---------- receipts ----------

  /** Which pooled transactions a block settles with a wait record. */
  ghost function Mined(m: Pool, receipts: seq<Hash>, block: nat, time: nat): set<Slot> {
    set s | s in m && m[s].hash in receipts && !Late(m[s], block, time)
  }

  /** Exactly the transactions named by a receipt leave, however often and in whatever order they are named. */
  lemma {:induction false} SettleRemoves(m: Pool, meaning: Hash -> Body, receipts: seq<Hash>, block: nat, time: nat)
    requires Sound(m, meaning)
    ensures Settle(m, meaning, receipts, block, time).pool == map s | s in m && m[s].hash !in receipts :: m[s]
  {
    if receipts != [] {
      var n := |receipts| - 1;
      SettleRemoves(m, meaning, receipts[..n], block, time);
      assert receipts == receipts[..n] + [receipts[n]];
    }
  }

  ghost function Hits(waits: seq<Wait>, p: Wait -> bool): set<nat> {
    set i | 0 <= i < |waits| && p(waits[i])
  }

  ghost function MinedWith(m: Pool, receipts: seq<Hash>, block: nat, time: nat, p: Wait -> bool): set<Slot> {
    set s | s in Mined(m, receipts, block, time) && p(WaitOf(m[s], block, time))
  }

  /** The transactions one more receipt adds to the mined ones: at most its own, and only the first time it is named. */
  lemma MinedStep(m: Pool, meaning: Hash -> Body, receipts: seq<Hash>, h: Hash, block: nat, time: nat, p: Wait -> bool)
    requires Sound(m, meaning)
    ensures var s := Slot(meaning(h).from, meaning(h).nonce);
            var news := h !in receipts && Pooled(m, meaning, h) && !Late(m[s], block, time)
              && p(WaitOf(m[s], block, time));
            && MinedWith(m, receipts + [h], block, time, p)
               == MinedWith(m, receipts, block, time, p) + (if news then {s} else {})
            && (news ==> s !in MinedWith(m, receipts, block, time, p))
  {
    var s := Slot(meaning(h).from, meaning(h).nonce);
    forall t | t in m ensures m[t].hash == h <==> t == s && Pooled(m, meaning, h) {}
  }

  lemma HitsStep(waits: seq<Wait>, w: Wait, p: Wait -> bool)
    ensures |Hits(waits + [w], p)| == |Hits(waits, p)| + (if p(w) then 1 else 0)
  {
    if p(w) {
      assert Hits(waits + [w], p) == Hits(waits, p) + {|waits|};
    } else {
      assert Hits(waits + [w], p) == Hits(waits, p);
    }
  }

  /**
   The wait records correspond one to one to the mined, not late, pooled transactions: any property of waits
   holds of as many records as of transactions.
   */
  lemma {:induction false} SettleCounts(m: Pool, meaning: Hash -> Body, receipts: seq<Hash>, block: nat, time: nat,
                                        p: Wait -> bool)
    requires Sound(m, meaning)
    ensures |Hits(Settle(m, meaning, receipts, block, time).waits, p)| == |MinedWith(m, receipts, block, time, p)|
  {
    if receipts == [] {
      assert Hits([], p) == {};
      assert MinedWith(m, receipts, block, time, p) == {};
    } else {
      var n := |receipts| - 1;
      var h := receipts[n];
      var s := Slot(meaning(h).from, meaning(h).nonce);
      assert receipts == receipts[..n] + [h];
      SettleCounts(m, meaning, receipts[..n], block, time, p);
      SettleRemoves(m, meaning, receipts[..n], block, time);
      MinedStep(m, meaning, receipts[..n], h, block, time, p);
      var before := Settle(m, meaning, receipts[..n], block, time);
      assert Pooled(before.pool, meaning, h) <==> Pooled(m, meaning, h) && h !in receipts[..n];
      if Pooled(before.pool, meaning, h) && !Late(m[s], block, time) {
        HitsStep(before.waits, WaitOf(m[s], block, time), p);
      }
    }
  }

  /** The pooled transactions that a receipt names and that were seen no later than the block, by number and by time. */
  ghost predicate Recorded(m: Pool, receipts: seq<Hash>, block: nat, time: nat, s: Slot) {
    s in m && m[s].hash in receipts && m[s].seenBlock <= block && m[s].seenTime <= time
  }

  /** The record says from which block and time to which the transaction waited, and in which half gwei its tip lies. */
  ghost predicate RecordOf(w: Wait, x: Tx, block: nat, time: nat) {
    && w.blocks + x.seenBlock == block && w.seconds + x.seenTime == time
    && w.bucket == x.body.tipCap / 500_000_000 % 0x1_0000_0000
  }

  ghost predicate RecordsAt(m: Pool, waits: seq<Wait>, at: seq<Slot>, block: nat, time: nat) {
    |at| == |waits| && forall i | 0 <= i < |at| :: at[i] in m && RecordOf(waits[i], m[at[i]], block, time)
  }

  /** The records are, entry by entry, those of the mined, not late, pooled transactions, each of them once. */
  lemma {:induction false} SettleRecords(m: Pool, meaning: Hash -> Body, receipts: seq<Hash>, block: nat, time: nat)
    returns (at: seq<Slot>)
    requires Sound(m, meaning)
    ensures RecordsAt(m, Settle(m, meaning, receipts, block, time).waits, at, block, time)
    ensures forall i, j | 0 <= i < j < |at| :: at[i] != at[j]
    ensures forall s :: s in at <==> Recorded(m, receipts, block, time, s)
  {
    if receipts == [] {
      at := [];
    } else {
      hide RecordsAt;
      var n := |receipts| - 1;
      var h := receipts[n];
      assert receipts == receipts[..n] + [h];
      at := SettleRecords(m, meaning, receipts[..n], block, time);
      SettleRemoves(m, meaning, receipts[..n], block, time);
      var before := Settle(m, meaning, receipts[..n], block, time);
      var s := Slot(meaning(h).from, meaning(h).nonce);
      assert Pooled(before.pool, meaning, h) <==> Pooled(m, meaning, h) && h !in receipts[..n];
      if Pooled(before.pool, meaning, h) && !Late(m[s], block, time) {
        assert s !in at by {
          assert m[s].hash == h;
        }
        RecordsMore(m, before.waits, at, block, time, s);
        at := at + [s];
      }
    }
  }

  lemma RecordsMore(m: Pool, waits: seq<Wait>, at: seq<Slot>, block: nat, time: nat, s: Slot)
    requires RecordsAt(m, waits, at, block, time) && s in m && !Late(m[s], block, time)
    ensures RecordsAt(m, waits + [WaitOf(m[s], block, time)], at + [s], block, time)
  {
  }

  /** The number of wait records is the number of mined, not late, pooled transactions. */
  lemma SettleCountsAll(m: Pool, meaning: Hash -> Body, receipts: seq<Hash>, block: nat, time: nat)
    requires Sound(m, meaning)
    ensures |Settle(m, meaning, receipts, block, time).waits| == |Mined(m, receipts, block, time)|
  {
    var all := (w: Wait) => true;
    SettleCounts(m, meaning, receipts, block, time, all);
    assert MinedWith(m, receipts, block, time, all) == Mined(m, receipts, block, time);
    HitsAll(Settle(m, meaning, receipts, block, time).waits, all);
  }

  lemma {:induction false} HitsAll(waits: seq<Wait>, all: Wait -> bool)
    requires forall w :: all(w)
    ensures |Hits(waits, all)| == |waits|
  {
    if waits == [] {
      assert Hits(waits, all) == {};
    } else {
      var n := |waits| - 1;
      HitsAll(waits[..n], all);
      assert Hits(waits, all) == Hits(waits[..n], all) + {n};
    }
  }

  ghost predicate WaitsWithin(waits: seq<Wait>, blocks: int) {
    forall i | 0 <= i < |waits| :: waits[i].blocks <= blocks
  }

  /** Every transaction the receipts settle was first seen at block `lo` or later. */
  ghost predicate MinedSince(m: Pool, receipts: seq<Hash>, block: nat, time: nat, lo: nat) {
    forall s | s in Mined(m, receipts, block, time) :: m[s].seenBlock >= lo
  }

  /** No recorded wait reaches back before block `lo` exactly when no settled transaction was stamped before it. */
  lemma WaitsExact(m: Pool, meaning: Hash -> Body, receipts: seq<Hash>, block: nat, time: nat, lo: nat)
    requires Sound(m, meaning) && lo <= block
    ensures WaitsWithin(Settle(m, meaning, receipts, block, time).waits, block - lo)
            <==> MinedSince(m, receipts, block, time, lo)
  {
    var waits := Settle(m, meaning, receipts, block, time).waits;
    var early := (w: Wait) => w.blocks > block - lo;
    SettleCounts(m, meaning, receipts, block, time, early);
    assert Hits(waits, early) == {} <==> MinedWith(m, receipts, block, time, early) == {};
    assert Hits(waits, early) == {} <==> forall i | 0 <= i < |waits| :: !early(waits[i]) by {
      assert forall i | 0 <= i < |waits| :: early(waits[i]) <==> i in Hits(waits, early);
    }
    forall s | s in Mined(m, receipts, block, time)
      ensures m[s].seenBlock >= lo <==> s !in MinedWith(m, receipts, block, time, early)
    {
    }
    assert MinedWith(m, receipts, block, time, early) == {}
           <==> forall s | s in Mined(m, receipts, block, time) :: m[s].seenBlock >= lo;
  }

  /** A transaction stamped with block 0 and time 0 is recorded as having waited for the whole chain. */
  lemma StaleWait(meaning: Hash -> Body, h: Hash, ttl: nat, block: nat, time: nat)
    ensures var x := Stamp(Signed(h, meaning(h)), 0, 0, ttl);
            Settle(map[x.At() := x], meaning, [h], block, time).waits == [Wait(FeeBucket(x.body.tipCap), block, time)]
  {
    assert [h][..0] == [];
  }

  // ---------- whole runs ----------

  datatype Op =
    | Push(batch: seq<Signed>, block: nat, time: nat)
    | Receipts(hashes: seq<Hash>, block: nat, time: nat)
    | Expiry(until: nat)
    | Wipe

  predicate GenuineOp(op: Op, meaning: Hash -> Body) {
    op.Push? ==> forall i | 0 <= i < |op.batch| :: op.batch[i].body == meaning(op.batch[i].hash)
  }

  function Apply(m: Pool, meaning: Hash -> Body, ttl: nat, op: Op): Pool {
    match op
    case Push(batch, block, time) => OfferAll(m, Stamped(batch, block, time, ttl))
    case Receipts(hs, block, time) => Settle(m, meaning, hs, block, time).pool
    case Expiry(until) => Expire(m, until)
    case Wipe => map[]
  }

  function Run(m: Pool, meaning: Hash -> Body, ttl: nat, ops: seq<Op>): Pool {
    if ops == [] then m else Apply(Run(m, meaning, ttl, ops[..|ops| - 1]), meaning, ttl, ops[|ops| - 1])
  }

  lemma RunStep(m: Pool, meaning: Hash -> Body, ttl: nat, ops: seq<Op>, op: Op)
    ensures Run(m, meaning, ttl, ops + [op]) == Apply(Run(m, meaning, ttl, ops), meaning, ttl, op)
  {
    assert (ops + [op])[..|ops|] == ops;
  }

  /** Nothing from before a wipe is left: what is pooled comes from the operations after it. */
  lemma {:induction false} RunAfterWipe(m: Pool, meaning: Hash -> Body, ttl: nat, ops: seq<Op>, k: nat)
    requires k < |ops| && ops[k] == Wipe
    ensures Run(m, meaning, ttl, ops) == Run(map[], meaning, ttl, ops[k + 1..])
  {
    var n := |ops| - 1;
    if k < n {
      RunAfterWipe(m, meaning, ttl, ops[..n], k);
      assert ops[k + 1..] == ops[..n][k + 1..] + [ops[n]];
      RunStep(map[], meaning, ttl, ops[..n][k + 1..], ops[n]);
    }
  }

  lemma {:induction false} RunSound(m: Pool, meaning: Hash -> Body, ttl: nat, ops: seq<Op>)
    requires Sound(m, meaning)
    requires forall i | 0 <= i < |ops| :: GenuineOp(ops[i], meaning)
    ensures Sound(Run(m, meaning, ttl, ops), meaning)
  {
    if ops != [] {
      var n := |ops| - 1;
      RunSound(m, meaning, ttl, ops[..n]);
      var before := Run(m, meaning, ttl, ops[..n]);
      match ops[n]
      case Push(batch, block, time) =>
        assert GenuineOp(ops[n], meaning);
        OfferAllSound(before, meaning, Stamped(batch, block, time, ttl));
      case Receipts(hs, block, time) => SettleRemoves(before, meaning, hs, block, time);
      case Expiry(_) =>
      case Wipe =>
    }
  }

  function Expiries(untils: seq<nat>): seq<Op> {
    seq(|untils|, i requires 0 <= i < |untils| => Expiry(untils[i]))
  }

  /** Left alone, a transaction stays pooled until exactly its time-to-live in blocks after it was first seen. */
  lemma {:induction false} LivesForTtl(m: Pool, meaning: Hash -> Body, ttl: nat, x: Signed, block: nat, time: nat,
                                       untils: seq<nat>)
    requires var t := Stamp(x, block, time, ttl); t.At() in m && m[t.At()] == t
    ensures var t := Stamp(x, block, time, ttl);
            t.At() in Run(m, meaning, ttl, Expiries(untils))
            <==> forall i | 0 <= i < |untils| :: untils[i] < block + ttl
    ensures var t := Stamp(x, block, time, ttl);
            t.At() in Run(m, meaning, ttl, Expiries(untils)) ==> Run(m, meaning, ttl, Expiries(untils))[t.At()] == t
  {
    if untils != [] {
      var n := |untils| - 1;
      LivesForTtl(m, meaning, ttl, x, block, time, untils[..n]);
      assert Expiries(untils)[..n] == Expiries(untils[..n]);
    }
  }

  /** The slot is occupied after every operation of the run. */
  ghost predicate HeldThroughout(m: Pool, meaning: Hash -> Body, ttl: nat, ops: seq<Op>, s: Slot) {
    forall k | 0 <= k <= |ops| :: s in Run(m, meaning, ttl, ops[..k])
  }

  /** Over the lifetime of a slot both caps strictly rise at every change of its transaction. */
  lemma {:induction false} LifetimeRises(m: Pool, meaning: Hash -> Body, ttl: nat, ops: seq<Op>, s: Slot)
    requires Sound(m, meaning)
    requires forall i | 0 <= i < |ops| :: GenuineOp(ops[i], meaning)
    requires HeldThroughout(m, meaning, ttl, ops, s)
    ensures s in m && s in Run(m, meaning, ttl, ops)
    ensures var x, y := Run(m, meaning, ttl, ops)[s], m[s];
            x == y || (x.body.tipCap > y.body.tipCap && x.body.feeCap > y.body.feeCap)
  {
    assert ops[..0] == [];
    assert ops[..|ops|] == ops;
    assert s in Run(m, meaning, ttl, ops[..0]);
    if ops != [] {
      var n := |ops| - 1;
      forall k | 0 <= k <= n ensures s in Run(m, meaning, ttl, ops[..n][..k]) {
        assert ops[..n][..k] == ops[..k];
      }
      LifetimeRises(m, meaning, ttl, ops[..n], s);
      RunSound(m, meaning, ttl, ops[..n]);
      var before := Run(m, meaning, ttl, ops[..n]);
      match ops[n]
      case Push(batch, block, time) => OfferAllRises(before, Stamped(batch, block, time, ttl), s);
      case Receipts(hs, block, time) => SettleRemoves(before, meaning, hs, block, time);
      case Expiry(_) =>
      case Wipe =>
    }
  }

  /** A replaced transaction is gone for as long as its slot stays occupied: no operation brings its hash back. */
  lemma ReplacedStaysGone(m: Pool, meaning: Hash -> Body, ttl: nat, ops: seq<Op>, s: Slot)
    requires Sound(m, meaning)
    requires forall i | 0 <= i < |ops| :: GenuineOp(ops[i], meaning)
    requires HeldThroughout(m, meaning, ttl, ops, s)
    ensures s in m && s in Run(m, meaning, ttl, ops)
    ensures Run(m, meaning, ttl, ops)[s] != m[s] ==> !Pooled(Run(m, meaning, ttl, ops), meaning, m[s].hash)
  {
    LifetimeRises(m, meaning, ttl, ops, s);
    RunSound(m, meaning, ttl, ops);
  }
}
