/**
 The drop-oldest upload queue (internal/network/grpcClient/client.go): one producer and one consumer, interleaved
 between the producer's non-blocking selects.
 */
module UploadQueue {
  import opened Common

  datatype Msg = Prediction(nextBlock: nat) | Gap(fromBlock: nat, toBlock: nat)

  /** A step of the consumer: take the oldest message, or finish the one in flight. */
  datatype Consumer = Receive | Finish(ok: bool)

  /**
   The channel, the consumer, and what happened so far: every message put into the channel, the positions of those the
   producer took out again, the positions of those the consumer received, and how often a message found no room.
   */
  datatype Queue = Queue(
    items: seq<Msg>,
    inFlight: Option<Msg>,
    lastSent: nat,
    enqueued: seq<Msg>,
    dropped: set<nat>,
    received: set<nat>,
    lost: nat)
  {
    /** The position of the oldest message still in the channel. */
    function Oldest(): int {
      |enqueued| - |items|
    }
  }

  const EMPTY := Queue([], None, 0, [], {}, {}, 0)

  // ---------- the steps ----------

  function Consume1(q: Queue, c: Consumer): Queue {
    match c
    case Receive =>
      if q.inFlight.Some? || q.items == [] then q
      else q.(inFlight := Some(q.items[0]), items := q.items[1..], received := q.received + PositionSet(q))
    case Finish(ok) =>
      if q.inFlight.None? then q
      else q.(inFlight := None,
              lastSent := if ok && q.inFlight.value.Prediction? then q.inFlight.value.nextBlock else q.lastSent)
  }

  function PositionSet(q: Queue): set<nat> {
    if q.Oldest() >= 0 then {q.Oldest()} else {}
  }

  function Consume(q: Queue, cs: seq<Consumer>): Queue {
    if cs == [] then q else Consume1(Consume(q, cs[..|cs| - 1]), cs[|cs| - 1])
  }

  function Push(q: Queue, m: Msg): Queue {
    q.(items := q.items + [m], enqueued := q.enqueued + [m])
  }

  function DropOldest(q: Queue): Queue {
    if q.items == [] then q else q.(items := q.items[1..], dropped := q.dropped + PositionSet(q))
  }

  /** What the consumer does before each of the producer's three selects. */
  datatype Schedule = Schedule(first: seq<Consumer>, second: seq<Consumer>, third: seq<Consumer>)

  function Enqueue(q: Queue, m: Msg, capacity: nat, s: Schedule): Queue {
    var q1 := Consume(q, s.first);
    if |q1.items| < capacity then Push(q1, m)
    else
      var q2 := DropOldest(Consume(q1, s.second));
      var q3 := Consume(q2, s.third);
      if |q3.items| < capacity then Push(q3, m) else q3.(lost := q3.lost + 1)
  }

  /** A gap is announced when block numbers were skipped since the last acknowledged prediction. */
  predicate Announces(q: Queue, nextBlock: nat) {
    q.lastSent != 0 && nextBlock > q.lastSent + 1
  }

  function Send(q: Queue, nextBlock: nat, capacity: nat, s1: Schedule, s2: Schedule): Queue {
    var q1 :=
      if Announces(q, nextBlock) then Enqueue(q, Gap(q.lastSent + 1, nextBlock - 1), capacity, s1) else q;
    Enqueue(q1, Prediction(nextBlock), capacity, s2)
  }

  // ---------- invariant ----------

  /**
   The channel is within capacity and holds the newest of everything enqueued, in order; every older message was
   either received or dropped, not both; nothing was ever turned away.
   */
  ghost predicate Inv(q: Queue, capacity: nat) {
    && |q.items| <= capacity && |q.items| <= |q.enqueued|
    && q.items == q.enqueued[q.Oldest()..]
    && (forall p: nat :: p in q.dropped || p in q.received <==> p < q.Oldest())
    && q.dropped !! q.received
    && q.lost == 0
  }

  /** q' came from q by consumer steps: it may have taken from the front, and dropped nothing. */
  ghost predicate Consumed(q: Queue, q': Queue) {
    && q'.enqueued == q.enqueued && q'.dropped == q.dropped && q'.lost == q.lost
    && |q'.items| <= |q.items| && q'.items == q.items[|q.items| - |q'.items|..]
  }

  lemma {:induction false} ConsumeKeeps(q: Queue, cs: seq<Consumer>, capacity: nat)
    requires Inv(q, capacity)
    ensures Inv(Consume(q, cs), capacity) && Consumed(q, Consume(q, cs))
  {
    if cs != [] {
      ConsumeKeeps(q, cs[..|cs| - 1], capacity);
      Consume1Keeps(Consume(q, cs[..|cs| - 1]), cs[|cs| - 1], capacity);
    }
  }

  lemma Consume1Keeps(q: Queue, c: Consumer, capacity: nat)
    requires Inv(q, capacity)
    ensures Inv(Consume1(q, c), capacity) && Consumed(q, Consume1(q, c))
  {
  }

  /** The block of a message, if it is a prediction that waits or is in flight. */
  ghost predicate Pending(q: Queue, block: nat) {
    Prediction(block) in q.items || q.inFlight == Some(Prediction(block))
  }

  /** The acknowledged block changes only on an acknowledgement, and only to that of a prediction. */
  lemma {:induction false} AcknowledgedOnly(q: Queue, cs: seq<Consumer>)
    ensures var r := Consume(q, cs);
            && (r.lastSent == q.lastSent || (Finish(true) in cs && Pending(q, r.lastSent)))
            && (forall m | m in r.items :: m in q.items)
            && (r.inFlight.Some? ==> r.inFlight == q.inFlight || r.inFlight.value in q.items)
  {
    if cs != [] {
      var n := |cs| - 1;
      AcknowledgedOnly(q, cs[..n]);
      assert cs == cs[..n] + [cs[n]];
    }
  }

  /** The oldest message is taken; once acknowledged, the block of a prediction is noted. */
  lemma AcknowledgedNoted(q: Queue, capacity: nat, ok: bool)
    requires Inv(q, capacity) && q.items != [] && q.inFlight.None?
    ensures var r := Consume(q, [Receive, Finish(ok)]);
            var oldest := q.enqueued[|q.enqueued| - |q.items|];
            && r.items == q.items[1..] && r.inFlight.None?
            && r.lastSent == if ok && oldest.Prediction? then oldest.nextBlock else q.lastSent
  {
    assert [Receive, Finish(ok)][..1] == [Receive];
    assert [Receive][..0] == [];
    assert Consume(q, [Receive]) == Consume1(q, Receive);
  }

  lemma DropKeeps(q: Queue, capacity: nat)
    requires Inv(q, capacity)
    ensures Inv(DropOldest(q), capacity)
    ensures q.items != [] ==> DropOldest(q).dropped == q.dropped + {q.Oldest()}
    ensures |DropOldest(q).items| < capacity || capacity == 0
  {
  }

  lemma PushKeeps(q: Queue, m: Msg, capacity: nat)
    requires Inv(q, capacity) && |q.items| < capacity
    ensures Inv(Push(q, m), capacity)
  {
    var q' := Push(q, m);
    assert q'.enqueued[q'.Oldest()..] == q.enqueued[q.Oldest()..] + [m];
  }

  /**
   Whatever the consumer does in between: the message enters the channel as its newest, nothing is turned away, at
   most one message is dropped, and that is the oldest one left.
   */
  lemma EnqueueKeeps(q: Queue, m: Msg, capacity: nat, s: Schedule)
    requires Inv(q, capacity) && capacity >= 1
    ensures var r := Enqueue(q, m, capacity, s);
            && Inv(r, capacity)
            && r.enqueued == q.enqueued + [m]
            && r.items != [] && r.items[|r.items| - 1] == m
            && (r.dropped == q.dropped
                || exists p: nat :: q.Oldest() <= p < |q.enqueued| && r.dropped == q.dropped + {p} && p < r.Oldest())
    ensures |q.items| < capacity ==> Enqueue(q, m, capacity, s).dropped == q.dropped
  {
    hide Inv, Consume;
    var q1 := Consume(q, s.first);
    ConsumeKeeps(q, s.first, capacity);
    if |q1.items| < capacity {
      PushKeeps(q1, m, capacity);
    } else {
      FullKeeps(q1, m, capacity, s);
      assert q1.Oldest() >= q.Oldest();
    }
  }

  /** The path through a full channel. */
  lemma FullKeeps(q: Queue, m: Msg, capacity: nat, s: Schedule)
    requires Inv(q, capacity) && capacity >= 1
    ensures var q3 := Consume(DropOldest(Consume(q, s.second)), s.third);
            && |q3.items| < capacity
            && Inv(Push(q3, m), capacity)
            && q3.enqueued == q.enqueued
            && (q3.dropped == q.dropped
                || exists p: nat :: q.Oldest() <= p < |q.enqueued| && q3.dropped == q.dropped + {p} && p < q3.Oldest())
  {
    hide Inv, Consume;
    var c := Consume(q, s.second);
    ConsumeKeeps(q, s.second, capacity);
    var q2 := DropOldest(c);
    DropKeeps(c, capacity);
    var q3 := Consume(q2, s.third);
    ConsumeKeeps(q2, s.third, capacity);
    PushKeeps(q3, m, capacity);
    OldestKnown(c, capacity);
    if c.items != [] {
      assert q3.dropped == q.dropped + {c.Oldest()};
    }
  }

  lemma OldestKnown(q: Queue, capacity: nat)
    requires Inv(q, capacity)
    ensures 0 <= q.Oldest() <= |q.enqueued|
  {
  }

  /** Block n lies in a gap among these messages. */
  ghost predicate InGap(msgs: seq<Msg>, n: nat) {
    exists i | 0 <= i < |msgs| :: msgs[i].Gap? && msgs[i].fromBlock <= n <= msgs[i].toBlock
  }

  /**
   With an acknowledged block, the messages put in cover exactly the numbers between it and the new one by gaps, before
   the new prediction; without one they are the prediction alone.
   */
  ghost predicate Covers(before: seq<Msg>, after: seq<Msg>, lastSent: nat, nextBlock: nat) {
    && |before| < |after| && after[..|before|] == before && after[|after| - 1] == Prediction(nextBlock)
    && (forall i | |before| <= i < |after| - 1 :: after[i].Gap?)
    && (forall n: nat :: InGap(after[|before|..], n) <==> lastSent != 0 && lastSent < n < nextBlock)
    && (lastSent == 0 ==> |after| == |before| + 1)
  }

  lemma CoversBySend(before: seq<Msg>, lastSent: nat, nextBlock: nat)
    ensures lastSent != 0 && nextBlock > lastSent + 1 ==>
              Covers(before, before + [Gap(lastSent + 1, nextBlock - 1)] + [Prediction(nextBlock)], lastSent, nextBlock)
    ensures lastSent == 0 || nextBlock <= lastSent + 1 ==>
              Covers(before, before + [Prediction(nextBlock)], lastSent, nextBlock)
  {
    if lastSent != 0 && nextBlock > lastSent + 1 {
      var after := before + [Gap(lastSent + 1, nextBlock - 1)] + [Prediction(nextBlock)];
      var news := after[|before|..];
      assert news == [Gap(lastSent + 1, nextBlock - 1), Prediction(nextBlock)];
      forall n | lastSent < n < nextBlock ensures InGap(news, n) {
        assert news[0].Gap? && news[0].fromBlock <= n <= news[0].toBlock;
      }
    } else {
      assert (before + [Prediction(nextBlock)])[|before|..] == [Prediction(nextBlock)];
    }
  }

  lemma SendKeeps(q: Queue, nextBlock: nat, capacity: nat, s1: Schedule, s2: Schedule)
    requires Inv(q, capacity) && capacity >= 1
    ensures var r := Send(q, nextBlock, capacity, s1, s2);
            && Inv(r, capacity)
            && r.items[|r.items| - 1] == Prediction(nextBlock)
            && r.enqueued == q.enqueued
                 + (if Announces(q, nextBlock) then [Gap(q.lastSent + 1, nextBlock - 1)] else [])
                 + [Prediction(nextBlock)]
            && Covers(q.enqueued, r.enqueued, q.lastSent, nextBlock)
  {
    hide Inv, Enqueue, Covers;
    CoversBySend(q.enqueued, q.lastSent, nextBlock);
    if Announces(q, nextBlock) {
      var gap := Gap(q.lastSent + 1, nextBlock - 1);
      EnqueueKeeps(q, gap, capacity, s1);
      EnqueueKeeps(Enqueue(q, gap, capacity, s1), Prediction(nextBlock), capacity, s2);
    } else {
      EnqueueKeeps(q, Prediction(nextBlock), capacity, s2);
    }
  }

  // ---------- whole runs ----------

  datatype Op = Sending(nextBlock: nat, s1: Schedule, s2: Schedule) | Consuming(cs: seq<Consumer>)

  function Perform(q: Queue, op: Op, capacity: nat): Queue {
    match op
    case Sending(n, s1, s2) => Send(q, n, capacity, s1, s2)
    case Consuming(cs) => Consume(q, cs)
  }

  function Run(ops: seq<Op>, capacity: nat): Queue {
    if ops == [] then EMPTY else Perform(Run(ops[..|ops| - 1], capacity), ops[|ops| - 1], capacity)
  }

  lemma RunNone(capacity: nat)
    ensures Run([], capacity) == EMPTY
  {
  }

  lemma RunStep(ops: seq<Op>, op: Op, capacity: nat)
    ensures Run(ops + [op], capacity) == Perform(Run(ops, capacity), op, capacity)
  {
    assert (ops + [op])[..|ops|] == ops;
  }

  /** In every interleaving of sends and consumer steps the invariant holds. */
  lemma {:induction false} EveryRun(ops: seq<Op>, capacity: nat)
    requires capacity >= 1
    ensures Inv(Run(ops, capacity), capacity)
  {
    if ops != [] {
      var n := |ops| - 1;
      EveryRun(ops[..n], capacity);
      match ops[n]
      case Sending(b, s1, s2) => SendKeeps(Run(ops[..n], capacity), b, capacity, s1, s2);
      case Consuming(cs) => ConsumeKeeps(Run(ops[..n], capacity), cs, capacity);
    }
  }

  // ---------- when a gap survives its own call ----------

  const QUIET := Schedule([], [], [])

  /** The consumer works off k messages. */
  function WorkOff(k: nat): seq<Consumer> {
    if k == 0 then [] else WorkOff(k - 1) + [Finish(true), Receive]
  }

  lemma {:induction false} WorkOffTakes(q: Queue, k: nat)
    requires k <= |q.items|
    ensures Consume(q, WorkOff(k)).items == q.items[k..]
    ensures Consume(q, WorkOff(k)).enqueued == q.enqueued && Consume(q, WorkOff(k)).dropped == q.dropped
  {
    if k > 0 {
      WorkOffTakes(q, k - 1);
      var cs := WorkOff(k);
      assert cs[..|cs| - 1] == WorkOff(k - 1) + [Finish(true)];
      assert (WorkOff(k - 1) + [Finish(true)])[..|cs| - 2] == WorkOff(k - 1);
    }
  }

  /** With room for two messages, no interleaving drops the gap announced by the same call. */
  lemma GapSurvives(q: Queue, nextBlock: nat, capacity: nat, s1: Schedule, s2: Schedule)
    requires Inv(q, capacity) && capacity >= 1 && Announces(q, nextBlock)
    requires |q.items| + 2 <= capacity
    ensures |q.enqueued| !in Send(q, nextBlock, capacity, s1, s2).dropped
  {
    hide Enqueue;
    var gap := Gap(q.lastSent + 1, nextBlock - 1);
    var q1 := Enqueue(q, gap, capacity, s1);
    EnqueueKeeps(q, gap, capacity, s1);
    RoomKept(q, gap, capacity, s1);
    EnqueueKeeps(q1, Prediction(nextBlock), capacity, s2);
  }

  lemma RoomKept(q: Queue, m: Msg, capacity: nat, s: Schedule)
    requires Inv(q, capacity) && |q.items| < capacity
    ensures |Enqueue(q, m, capacity, s).items| <= |q.items| + 1
  {
    ConsumeKeeps(q, s.first, capacity);
  }

  lemma QuietConsume(q: Queue)
    ensures Consume(q, []) == q
  {
  }

  lemma SizeKnown(q: Queue, capacity: nat)
    requires Inv(q, capacity)
    ensures |q.items| <= capacity && |q.items| <= |q.enqueued|
  {
  }

  /**
   Without it, a consumer that works off the rest between the full test and the drop makes the producer drop the gap.
   */
  lemma GapDropped(q: Queue, nextBlock: nat, capacity: nat)
    requires Inv(q, capacity) && capacity >= 1 && Announces(q, nextBlock)
    requires |q.items| + 2 > capacity
    ensures |q.enqueued| in Send(q, nextBlock, capacity, QUIET, Schedule([], WorkOff(capacity - 1), [])).dropped
  {
    hide WorkOff, Inv, Consume;
    QuietConsume(q);
    var gap := Gap(q.lastSent + 1, nextBlock - 1);
    var q1 := Enqueue(q, gap, capacity, QUIET);
    EnqueueKeeps(q, gap, capacity, QUIET);
    SizeKnown(q, capacity);
    QuietConsume(DropOldest(q));
    assert |q1.items| == capacity;
    QuietConsume(q1);
    WorkOffTakes(q1, capacity - 1);
    var c := Consume(q1, WorkOff(capacity - 1));
    assert |c.items| == 1 && c.Oldest() == |q.enqueued|;
    QuietConsume(DropOldest(c));
  }

  /** From the start: 10 is sent and acknowledged, then 11 and 13 are sent, which fills a channel of three. */
  function FillThree(): seq<Op> {
    [Sending(10, QUIET, QUIET), Consuming([Receive, Finish(true)]), Sending(11, QUIET, QUIET),
     Sending(13, QUIET, QUIET)]
  }

  lemma QuietEnqueue(q: Queue, m: Msg, capacity: nat)
    requires |q.items| < capacity
    ensures Enqueue(q, m, capacity, QUIET) == Push(q, m)
  {
    QuietConsume(q);
  }

  lemma ReceiveOne(q: Queue)
    ensures Consume(q, [Receive, Finish(true)]) == Consume1(Consume1(q, Receive), Finish(true))
  {
    assert [Receive, Finish(true)][..1] == [Receive];
    assert [Receive][..0] == [];
    assert Consume(q, [Receive]) == Consume1(q, Receive);
  }

  lemma ThreeFilled()
    ensures var q := Run(FillThree(), 3);
            q.items == [Prediction(11), Gap(11, 12), Prediction(13)] && q.lastSent == 10 && |q.enqueued| == 4
  {
    hide Run, Enqueue, Consume;
    var ops := FillThree();
    RunNone(3);
    var q1 := Push(EMPTY, Prediction(10));
    QuietEnqueue(EMPTY, Prediction(10), 3);
    RunStep([], ops[0], 3);
    var q2 := Consume1(Consume1(q1, Receive), Finish(true));
    ReceiveOne(q1);
    RunStep(ops[..1], ops[1], 3);
    var q3 := Push(q2, Prediction(11));
    QuietEnqueue(q2, Prediction(11), 3);
    RunStep(ops[..2], ops[2], 3);
    QuietEnqueue(q3, Gap(11, 12), 3);
    QuietEnqueue(Push(q3, Gap(11, 12)), Prediction(13), 3);
    RunStep(ops[..3], ops[3], 3);
    assert ops[..1] == [] + [ops[0]];
    assert ops[..2] == ops[..1] + [ops[1]];
    assert ops[..3] == ops[..2] + [ops[2]];
    assert ops == ops[..3] + [ops[3]];
  }

  /** The next send, of 15, announces the gap from 11 to 14 and drops it within the same call. */
  lemma GapDroppedRun()
    ensures var q := Run(FillThree(), 3);
            && Announces(q, 15)
            && |q.enqueued| in Send(q, 15, 3, QUIET, Schedule([], WorkOff(2), [])).dropped
  {
    hide Run, Send, Inv;
    ThreeFilled();
    EveryRun(FillThree(), 3);
    GapDropped(Run(FillThree(), 3), 15, 3);
  }

  /**
   A gap event survives the call that announces it in every interleaving exactly when the channel has room for two.
   */
  lemma GapSurvivesExactly(q: Queue, nextBlock: nat, capacity: nat)
    requires Inv(q, capacity) && capacity >= 1 && Announces(q, nextBlock)
    ensures (forall s1, s2 :: |q.enqueued| !in Send(q, nextBlock, capacity, s1, s2).dropped)
            <==> |q.items| + 2 <= capacity
  {
    hide Inv, Send, Announces;
    if |q.items| + 2 <= capacity {
      forall s1, s2 ensures |q.enqueued| !in Send(q, nextBlock, capacity, s1, s2).dropped {
        GapSurvives(q, nextBlock, capacity, s1, s2);
      }
    } else {
      GapDropped(q, nextBlock, capacity);
    }
  }

  /** If the consumer is idle during the call, a capacity of two is enough for the gap. */
  lemma GapSurvivesIdle(q: Queue, nextBlock: nat, capacity: nat)
    requires Inv(q, capacity) && capacity >= 2 && Announces(q, nextBlock)
    ensures |q.enqueued| !in Send(q, nextBlock, capacity, QUIET, QUIET).dropped
  {
  }

  // ---------- the client ----------

  class GasPredictionClient {
    var gasPredictCh: seq<Msg>
    var inFlight: Option<Msg>
    var lastSentBlock: nat
    const capacity: nat

    ghost var enqueued: seq<Msg>
    ghost var dropped: set<nat>
    ghost var received: set<nat>
    ghost var lost: nat

    ghost function View(): Queue
      reads this
    {
      Queue(gasPredictCh, inFlight, lastSentBlock, enqueued, dropped, received, lost)
    }

    ghost predicate Valid()
      reads this
    {
      capacity >= 1 && Inv(View(), capacity)
    }

    constructor (capacity: nat)
      requires capacity >= 1
      ensures Valid() && View() == EMPTY && this.capacity == capacity
    {
      this.capacity := capacity;
      gasPredictCh := [];
      inFlight := None;
      lastSentBlock := 0;
      enqueued := [];
      dropped := {};
      received := {};
      lost := 0;
    }

    /** Steps of the stream worker. */
    method Consumer(cs: seq<Consumer>)
      modifies this
      ensures View() == Consume(old(View()), cs)
    {
      for i := 0 to |cs|
        invariant View() == Consume(old(View()), cs[..i])
      {
        assert cs[..i + 1][..i] == cs[..i];
        match cs[i] {
          case Receive =>
            if inFlight.None? && |gasPredictCh| > 0 {
              received := received + PositionSet(View());
              inFlight := Some(gasPredictCh[0]);
              gasPredictCh := gasPredictCh[1..];
            }
          case Finish(ok) =>
            if inFlight.Some? {
              if ok && inFlight.value.Prediction? {
                lastSentBlock := inFlight.value.nextBlock;
              }
              inFlight := None;
            }
        }
      }
      assert cs[..|cs|] == cs;
    }

    /** Put the message in; if there is no room, take the oldest one out first. The last select always finds room. */
    method Put(req: Msg, s: Schedule)
      requires Valid()
      modifies this
      ensures Valid() && View() == Enqueue(old(View()), req, capacity, s)
    {
      hide Inv, Consume;
      EnqueueKeeps(View(), req, capacity, s);
      ConsumeKeeps(View(), s.first, capacity);
      Consumer(s.first);
      if |gasPredictCh| < capacity {
        gasPredictCh, enqueued := gasPredictCh + [req], enqueued + [req];
        return;
      }
      ConsumeKeeps(View(), s.second, capacity);
      Consumer(s.second);
      DropKeeps(View(), capacity);
      if |gasPredictCh| > 0 {
        dropped := dropped + PositionSet(View());
        gasPredictCh := gasPredictCh[1..];
      }
      ConsumeKeeps(View(), s.third, capacity);
      Consumer(s.third);
      if |gasPredictCh| < capacity {
        gasPredictCh, enqueued := gasPredictCh + [req], enqueued + [req];
      } else {
        assert false;
      }
    }

    /** Announce skipped blocks, then hand over the prediction. */
    method GasPredictResultSend(nextBlock: nat, s1: Schedule, s2: Schedule)
      requires Valid()
      modifies this
      ensures Valid() && View() == Send(old(View()), nextBlock, capacity, s1, s2)
      ensures gasPredictCh != [] && gasPredictCh[|gasPredictCh| - 1] == Prediction(nextBlock)
      ensures |old(enqueued)| < |enqueued| && enqueued[..|old(enqueued)|] == old(enqueued)
      ensures forall n: nat :: InGap(enqueued[|old(enqueued)|..], n)
                          <==> old(lastSentBlock) != 0 && old(lastSentBlock) < n < nextBlock
    {
      hide Inv, Enqueue;
      SendKeeps(View(), nextBlock, capacity, s1, s2);
      var last := lastSentBlock;
      if last != 0 && nextBlock > last + 1 {
        Put(Gap(last + 1, nextBlock - 1), s1);
      }
      EnqueueKeeps(View(), Prediction(nextBlock), capacity, s2);
      Put(Prediction(nextBlock), s2);
    }
  }
}
