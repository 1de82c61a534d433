/** The block pipeline (internal/coordinator/blockPipeline.go) driving the processor over an unreliable node. */
module Pipeline {
  import opened Common
  import opened BlockStore
  import opened Chain
  import opened PipelineLog
  import opened Gaps
  import Goroutines
  import Processor
  import Ready = ReadyProtocol

  const RETRIES: nat := 3

  /** How the last look for missing blocks ended. */
  datatype GapOutcome = NoGap | Resynced | ResyncFailed | Completed | StoppedAt(number: nat)

  /** What the select of the block loop picks: the wake-up token or a header, which may be nil. */
  datatype Choice = Wake | Head(header: Option<Header>)

  /** Every stored block is the one the run started from or was processed with success in it. */
  ghost predicate StoredOk(history: seq<BlockData>, log: seq<Event>, start: nat) {
    && history != [] && history[0].number + 1 == start
    && forall i | 0 < i < |history| :: Succeeded(history[i].number) in log
  }

  /** Where processing ends: the least number from the next one on that is not pending. */
  ghost predicate FirstMissing(pending: Headers, next: nat, first: nat) {
    next <= first && first !in pending && forall n | next <= n < first :: n in pending
  }

  ghost function From(pending: Headers, first: nat): Headers {
    map n | n in pending && n >= first :: pending[n]
  }

  /** Processing came from `first` to `next`: what was pending between them is gone, the rest is still there. */
  ghost predicate Drained(before: Headers, first: nat, pending: Headers, next: nat) {
    && first <= next && (forall n | first <= n < next :: n in before)
    && (forall n :: n in pending <==> n in before && n >= next)
    && (forall n | n in pending && n > next :: pending[n] == before[n])
  }

  lemma DrainedNone(pending: Headers, next: nat)
    requires forall n | n in pending :: n >= next
    ensures Drained(pending, next, pending, next)
  {
  }

  lemma DrainedStep(before: Headers, first: nat, pending: Headers, next: nat, pending': Headers, next': nat)
    requires Drained(before, first, pending, next) && next in pending
    requires (next' == next + 1 && pending' == pending - {next})
             || (next' == next && pending'.Keys == pending.Keys
                 && forall n | n in pending' && n != next :: pending'[n] == pending[n])
    ensures Drained(before, first, pending', next')
  {
  }

  lemma DrainedAll(before: Headers, first: nat, pending: Headers, next: nat)
    requires Drained(before, first, pending, next) && next !in pending
    ensures FirstMissing(before, first, next) && pending == From(before, next)
  {
  }

  /** The attempts of the log are exactly what the node answered since the run began, in the same order. */
  ghost predicate Honest(log: seq<Event>, replies: seq<Reply>, mark: nat) {
    mark <= |replies| && Tried(log) == OutcomesOf(replies[mark..])
  }

  lemma HonestAttempt(log: seq<Event>, replies: seq<Reply>, mark: nat, header: Header, reply: Option<seq<Receipt>>)
    requires Honest(log, replies, mark)
    ensures Honest(log + [if reply.Some? then Succeeded(header.number) else Failed(header.number)],
                   replies + [ReceiptsReply(header, reply)], mark)
  {
    hide Tried, OutcomesOf;
    TriedStep(log, if reply.Some? then Succeeded(header.number) else Failed(header.number));
    OutcomesStep(replies[mark..], ReceiptsReply(header, reply));
    assert (replies + [ReceiptsReply(header, reply)])[mark..] == replies[mark..] + [ReceiptsReply(header, reply)];
  }

  lemma HonestOffer(log: seq<Event>, replies: seq<Reply>, mark: nat, n: nat)
    requires Honest(log, replies, mark)
    ensures Honest(log + [Offered(n)], replies, mark)
  {
    hide Tried, OutcomesOf;
    TriedStep(log, Offered(n));
  }

  lemma HonestAsk(log: seq<Event>, replies: seq<Reply>, mark: nat, n: nat, header: Option<Header>)
    requires Honest(log, replies, mark)
    ensures Honest(log, replies + [HeaderReply(n, header)], mark)
  {
    hide Tried, OutcomesOf;
    OutcomesStep(replies[mark..], HeaderReply(n, header));
    assert (replies + [HeaderReply(n, header)])[mark..] == replies[mark..] + [HeaderReply(n, header)];
  }

  lemma HonestStart(replies: seq<Reply>)
    ensures Honest([], replies, |replies|)
  {
  }

  /** The replies since are those to the numbers asked for, and the answers are the headers among them. */
  ghost predicate AskedSoFar(before: seq<Reply>, replies: seq<Reply>, asked: seq<nat>, answers: Headers) {
    && replies == before + RepliesTo(asked, answers)
    && |before| <= |replies| && AnswersOf(replies[|before|..]) == answers
  }

  lemma NoneAsked(replies: seq<Reply>, answers: Headers)
    requires answers == map[]
    ensures AskedSoFar(replies, replies, [], answers)
  {
  }

  lemma AskedMore(before: seq<Reply>, replies: seq<Reply>, asked: seq<nat>, answers: Headers, n: nat,
                  header: Option<Header>)
    requires AskedSoFar(before, replies, asked, answers)
    requires n !in answers && forall i | 0 <= i < |asked| :: asked[i] < n
    ensures AskedSoFar(before, replies + [HeaderReply(n, header)], asked + [n],
                       if header.Some? then answers[n := header.value] else answers)
  {
    hide AnswersOf;
    var answers' := if header.Some? then answers[n := header.value] else answers;
    AnswersStep(replies[|before|..], HeaderReply(n, header));
    assert (replies + [HeaderReply(n, header)])[|before|..] == replies[|before|..] + [HeaderReply(n, header)];
    assert RepliesTo(asked + [n], answers') == RepliesTo(asked, answers) + [HeaderReply(n, header)];
  }

  /** The node was asked for its newest block, and for the receipts of the one it named. */
  ghost predicate Restarted(before: seq<Reply>, after: seq<Reply>, latest: Option<Header>,
                            fetched: Option<seq<Receipt>>) {
    after == before + [LatestReply(latest)] + (if latest.Some? then [ReceiptsReply(latest.value, fetched)] else [])
  }

  /** The replies since are `count` answers about this block's receipts, all of them errors but the last if ok. */
  ghost predicate AskedTimes(before: seq<Reply>, after: seq<Reply>, header: Header, count: nat, ok: bool) {
    && |after| == |before| + count && after[..|before|] == before
    && forall i | |before| <= i < |after| ::
         && after[i].ReceiptsReply? && after[i].of == header
         && (after[i].receipts.Some? <==> ok && i == |after| - 1)
  }

  lemma AskedOnce(before: seq<Reply>, after: seq<Reply>, header: Header, count: nat, reply: Option<seq<Receipt>>)
    requires AskedTimes(before, after, header, count, false)
    ensures AskedTimes(before, after + [ReceiptsReply(header, reply)], header, count + 1, reply.Some?)
  {
  }

  lemma AskedNever(before: seq<Reply>, header: Header)
    ensures AskedTimes(before, before, header, 0, false)
  {
  }

  class BlockPipeline {
    const proc: Processor.Process
    const maxBlockLag: nat

    var nextBlockNum: nat
    var pendingBlock: map<nat, Header>
    var wakeupToken: bool

    /** The server is shutting down. */
    var cancelled: bool

    /** Since the last start or resync: the first number to process, and everything done. */
    ghost var start: nat
    ghost var log: seq<Event>
    ghost var lastGap: GapOutcome

    /** How much the node had been asked about blocks when the run began. */
    ghost var runMark: nat

    ghost function Repr(): set<object>
      reads this, proc, proc.shared.pool
    {
      {this, proc, proc.shared, proc.shared.pool, proc.shared.store, proc.shared.analyzer, proc.shared.node}
      + proc.shared.pool.owned
    }

    /** Between any two steps of the block loop; `current` is the number in work. */
    ghost predicate Core(current: nat)
      reads this`nextBlockNum, this`pendingBlock, this`start, this`log, this`runMark, this`cancelled, proc, proc.shared
      reads proc.shared.pool, proc.shared.pool.owned, proc.shared.store, proc.shared.analyzer, proc.shared.node`replies
    {
      && proc.Valid() && proc.shared.view.processing == Ready.AtRest
      && Replay(log, start, cancelled) == Some(current)
      && Honest(log, proc.shared.node.replies, runMark)
      && Increasing(proc.shared.store.history) && StoredOk(proc.shared.store.history, log, start)
      && (forall i | 0 <= i < |proc.shared.store.history| :: proc.shared.store.history[i].number < current)
      && proc.shared.analyzer.ready && proc.shared.view.base + 1 == start
      && proc.shared.analyzer.latestBlockData.blockNumber == LastDone(log, start)
      && (forall n | n in pendingBlock :: n >= nextBlockNum && pendingBlock[n].number == n)
    }

    /** When the block loop waits for its next input. */
    ghost predicate Valid()
      reads this, proc, proc.shared
      reads proc.shared.pool, proc.shared.pool.owned, proc.shared.store, proc.shared.analyzer, proc.shared.node`replies
    {
      && Core(nextBlockNum)
      && (nextBlockNum in pendingBlock && !wakeupToken ==> lastGap.StoppedAt? && lastGap.number > nextBlockNum)
      && (!lastGap.ResyncFailed? ==> forall n | n in pendingBlock :: n < nextBlockNum + maxBlockLag)
    }

    constructor (proc: Processor.Process, maxBlockLag: nat)
      ensures this.proc == proc && this.maxBlockLag == maxBlockLag
      ensures pendingBlock == map[] && !wakeupToken && nextBlockNum == 0
    {
      this.proc := proc;
      this.maxBlockLag := maxBlockLag;
      nextBlockNum := 0;
      pendingBlock := map[];
      wakeupToken := false;
      cancelled := false;
      runMark := 0;
      start := 0;
      log := [];
      lastGap := NoGap;
    }

    /** Initialise the processor; false stands for the panic of the program. */
    method Start() returns (ok: bool)
      requires proc.Valid() && proc.shared.view.processing == Ready.NotStarted && proc.shared.store.history == []
      requires pendingBlock == map[] && !wakeupToken
      modifies Repr()
      ensures ok ==> Valid() && start == nextBlockNum
    {
      hide Valid, Processor.Process.Valid, Processor.Process.Analysed, Processor.Process.Appended;
      var header;
      ghost var latest, fetched;
      header, latest, fetched := proc.Initialize();
      if header.None? {
        return false;
      }
      Restart(header.value, fetched.value, NoGap);
      ok := true;
    }

    /** Begin a new run after the block of this header, the only one stored. */
    method Restart(header: Header, ghost receipts: seq<Receipt>, ghost outcome: GapOutcome)
      requires proc.Valid() && proc.Appended([], header, receipts) && proc.Analysed(header)
      requires proc.shared.analyzer.ready
      requires proc.shared.view.processing == Ready.AtRest && proc.shared.view.base == header.number
      modifies this`nextBlockNum, this`pendingBlock, this`start, this`log, this`lastGap, this`runMark
      ensures Valid() && nextBlockNum == header.number + 1 == start
      ensures pendingBlock == map[] && log == [] && lastGap == outcome
    {
      hide Processor.Process.Valid, Processor.Process.Analysed, Processor.Process.Appended, Honest;
      hide Replay, LastDone, StoredOk, Increasing;
      AnalysedNumber(header);
      AppendedNumber([], header, receipts);
      FreshRun(proc.shared.store.history, header.number + 1, cancelled);
      HonestStart(proc.shared.node.replies);
      pendingBlock := map[];
      nextBlockNum := header.number + 1;
      start := nextBlockNum;
      log := [];
      lastGap := outcome;
      runMark := |proc.shared.node.replies|;
    }

    /** The stored window at any step: strictly decreasing, bounded, and below the number in work. */
    lemma StoredWindow(current: nat)
      requires Core(current)
      ensures Decreasing(proc.shared.store.blocks) && 0 < |proc.shared.store.blocks| <= proc.shared.store.max
      ensures forall i | 0 <= i < |proc.shared.store.blocks| :: proc.shared.store.blocks[i].number < current
    {
      WindowHolds(proc.shared.store.blocks, proc.shared.store.history, proc.shared.store.max, 0);
    }

    /**
     At any step every number of the run so far was processed with success exactly once or offered to the failed queue
     exactly once, never both; and a number that was offered is not in the store.
     */
    lemma SettledSoFar(current: nat, n: nat)
      requires Core(current)
      ensures start <= n < current ==> |Settlements(log, n)| == 1 && (Succeeded(n) in log <==> Offered(n) !in log)
      ensures !(start <= n < current) ==> Settlements(log, n) == {}
      ensures Offered(n) in log ==>
                forall i | 0 <= i < |proc.shared.store.history| :: proc.shared.store.history[i].number != n
    {
      SettledExactlyOnce(log, start, cancelled, n);
    }

    /**
     A number counts as processed with success exactly if the node answered an attempt at it with receipts, and as
     attempted in vain exactly if the node answered with an error.
     */
    lemma AnsweredSoFar(current: nat, n: nat)
      requires Core(current)
      ensures runMark <= |proc.shared.node.replies|
      ensures Succeeded(n) in log <==> AnsweredFor(proc.shared.node.replies[runMark..], n, true)
      ensures Failed(n) in log <==> AnsweredFor(proc.shared.node.replies[runMark..], n, false)
    {
      hide Processor.Process.Valid, Replay, Increasing, StoredOk, LastDone, Tried, OutcomesOf, AnsweredFor;
      TriedExact(log, Succeeded(n));
      TriedExact(log, Failed(n));
      OutcomesExact(proc.shared.node.replies[runMark..], n);
    }

    /** A number was given up on right after three failed attempts in a row, or one when the server is shutting down. */
    lemma GivenUpRightly(current: nat, i: nat)
      requires Core(current) && i < |log| && log[i].Offered?
      ensures i > 0 && log[i - 1] == Failed(log[i].number)
      ensures !cancelled ==> i > 2 && log[i - 2] == log[i - 3] == Failed(log[i].number)
    {
      hide Processor.Process.Valid, Replay, Increasing, StoredOk, LastDone, Honest;
      OfferedAfterFailure(log, start, cancelled, i);
    }

    /**
     At every step of the block loop, so outside an attempt and a resync, the analyzer follows the chain: it is ready,
     its block is the last one processed with success, and every number between that block and the one in work was
     given up on. What it predicts is never beyond the number in work.
     */
    lemma AnalysisFollows(current: nat, n: nat)
      requires Core(current)
      ensures proc.shared.analyzer.ready && proc.shared.analyzer.latestBlockData.blockNumber + 1 <= current
      ensures proc.shared.analyzer.latestBlockData.blockNumber < n < current ==> Offered(n) in log
    {
      GivenUpSince(log, start, cancelled, n);
    }

    /**
     If no worker pushed a stamp it had read before this run began, every pooled transaction was first seen at the
     block the run started from or later.
     */
    lemma PooledInRun(current: nat)
      requires Core(current)
      requires forall i | 0 <= i < |proc.shared.view.pushed| :: proc.shared.view.pushed[i].inRun
      ensures forall s | s in proc.shared.pool.slots :: proc.shared.pool.slots[s].seenBlock + 1 >= start
    {
      hide Goroutines.Shared.Valid;
      proc.shared.PooledInRun();
    }

    // ---------- the other goroutines ----------

    /** What no other goroutine touches: the block loop's own fields and the stored blocks. */
    twostate predicate Untouched()
      reads this, proc, proc.shared.store
    {
      && nextBlockNum == old(nextBlockNum) && pendingBlock == old(pendingBlock) && wakeupToken == old(wakeupToken)
      && start == old(start) && log == old(log) && lastGap == old(lastGap)
      && cancelled == old(cancelled) && runMark == old(runMark)
      && proc.shared.store.history == old(proc.shared.store.history)
      && proc.shared.store.blocks == old(proc.shared.store.blocks)
      && proc.waits == old(proc.waits) && proc.uploads == old(proc.uploads)
    }

    /** Any number of steps of the other goroutines between two steps of the block loop. */
    method Interfere(ghost current: nat)
      requires Core(current)
      modifies Repr() - {this, proc, proc.shared.store}
      ensures Core(current) && fresh(proc.shared.pool.owned - old(proc.shared.pool.owned))
      ensures Untouched() && proc.shared.node.Quiet()
    {
      hide Processor.Process.Valid, Replay, StoredOk, Increasing, LastDone, Honest;
      proc.Yield();
    }

    /** The wait between two attempts, during which the server may be told to shut down. */
    method Pause()
      requires Core(nextBlockNum)
      modifies this`cancelled
      ensures Core(nextBlockNum) && (old(cancelled) ==> cancelled)
    {
      hide Processor.Process.Valid, Replay, StoredOk, Increasing, LastDone, Honest;
      var shutdown: bool := *;
      if shutdown && !cancelled {
        ReplayStopped(log, start);
        cancelled := true;
      }
    }

    /** The header the node has for the number now, and whether it differs. */
    method CheckStale(header: Header) returns (latest: Option<Header>, stale: bool)
      modifies proc.shared.node
      ensures proc.shared.node.Asked(BlockLoop, HeaderReply(header.number, latest))
      ensures stale <==> latest.Some? && latest.value.hash != header.hash
      ensures latest.Some? ==> latest.value.number == header.number
      ensures latest.Some? ==>
                && header.number in proc.shared.node.reported
                && proc.shared.node.reported[header.number] == latest.value.hash
      ensures proc.shared.node.SettledFrom(old(proc.shared.node.changesLeft), old(proc.shared.node.reported))
      ensures stale && header.number in old(proc.shared.node.reported)
              && old(proc.shared.node.reported)[header.number] == header.hash
              ==> proc.shared.node.changesLeft < old(proc.shared.node.changesLeft)
    {
      latest := proc.shared.node.HeaderByNumber(header.number, BlockLoop);
      stale := latest.Some? && latest.value.hash != header.hash;
    }

    // ---------- one block ----------

    /** The block loop's own position, apart from its log. */
    twostate predicate Steady()
      reads this
    {
      && nextBlockNum == old(nextBlockNum) && pendingBlock == old(pendingBlock) && wakeupToken == old(wakeupToken)
      && start == old(start) && lastGap == old(lastGap)
    }

    /** One attempt at the number in work: it succeeds exactly if the node answers with the block's receipts. */
    method Attempt(header: Header) returns (ok: bool, ghost reply: Option<seq<Receipt>>)
      requires Core(nextBlockNum) && header.number == nextBlockNum
      modifies Repr()
      ensures Core(if ok then nextBlockNum + 1 else nextBlockNum)
      ensures Steady() && cancelled == old(cancelled)
      ensures log == old(log) + [if ok then Succeeded(nextBlockNum) else Failed(nextBlockNum)]
      ensures proc.shared.node.replies == old(proc.shared.node.replies) + [ReceiptsReply(header, reply)]
      ensures ok <==> reply.Some?
      ensures proc.shared.node.restartReplies == old(proc.shared.node.restartReplies)
      ensures fresh(proc.shared.pool.owned - old(proc.shared.pool.owned))
      ensures !ok ==> unchanged(proc) && unchanged(proc.shared) && unchanged(proc.shared.store)
                      && unchanged(proc.shared.analyzer) && unchanged(proc.shared.pool)
      ensures proc.shared.node.SettledFrom(old(proc.shared.node.changesLeft), old(proc.shared.node.reported))
    {
      hide Processor.Process.Valid, Increasing, StoredOk, Replay, LastDone, Processor.Process.Analysed, Honest;
      hide Processor.Process.Uploaded, Processor.Worked, Processor.Amid, Processor.Process.Appended;
      hide Chain.Node.SettledFrom, Goroutines.Shared.SettledWaits;
      StoredSome(proc.shared.store.history, log, start);
      ReplayFrom(log, start, cancelled);
      ghost var receipts, settled, expired;
      ok, receipts, settled, expired := proc.ProcessBlock(header);
      reply := if ok then Some(receipts) else None;
      ghost var e := if ok then Succeeded(nextBlockNum) else Failed(nextBlockNum);
      if ok {
        AnalysedNumber(header);
        proc.ReadyNow();
      }
      LogStep(log, start, cancelled, nextBlockNum, e);
      HonestAttempt(log, old(proc.shared.node.replies), runMark, header, reply);
      if ok && receipts != [] {
        AppendedNumber(old(proc.shared.store.history), header, receipts);
        AppendStored(old(proc.shared.store.history), proc.shared.store.history, log, start, nextBlockNum);
      } else {
        StoredMonotone(proc.shared.store.history, log, start, e);
      }
      log := log + [e];
    }

    lemma AppendedNumber(before: seq<BlockData>, header: Header, receipts: seq<Receipt>)
      requires proc.Appended(before, header, receipts)
      ensures var history := proc.shared.store.history;
              |history| == |before| + 1 && history[..|before|] == before && history[|before|].number == header.number
    {
    }

    lemma AnalysedNumber(header: Header)
      requires proc.Analysed(header)
      ensures proc.shared.analyzer.latestBlockData.blockNumber == header.number
    {
    }

    /** Three attempts, or fewer if one succeeds or the server shuts down. */
    method ProcWithRetry(header: Header) returns (ok: bool, ghost count: nat)
      requires Core(nextBlockNum) && header.number == nextBlockNum
      modifies Repr()
      ensures Core(if ok then nextBlockNum + 1 else nextBlockNum)
              && fresh(proc.shared.pool.owned - old(proc.shared.pool.owned))
      ensures 0 < count <= 3 && log == old(log) + Attempts(nextBlockNum, count, ok)
      ensures ok || cancelled || count == 3
      ensures proc.shared.node.restartReplies == old(proc.shared.node.restartReplies)
      ensures AskedTimes(old(proc.shared.node.replies), proc.shared.node.replies, header, count, ok)
      ensures Steady() && (old(cancelled) ==> cancelled)
      ensures proc.shared.node.SettledFrom(old(proc.shared.node.changesLeft), old(proc.shared.node.reported))
    {
      hide Core, Failures, AskedTimes;
      NoFailures(nextBlockNum);
      AskedNever(proc.shared.node.replies, header);
      ok, count := false, 0;
      for i := 0 to RETRIES
        invariant !ok && Core(nextBlockNum) && fresh(proc.shared.pool.owned - old(proc.shared.pool.owned))
        invariant count == i && log == old(log) + Failures(nextBlockNum, i)
        invariant Steady() && (old(cancelled) ==> cancelled)
        invariant AskedTimes(old(proc.shared.node.replies), proc.shared.node.replies, header, i, false)
        invariant proc.shared.node.restartReplies == old(proc.shared.node.restartReplies)
        invariant proc.shared.node.SettledFrom(old(proc.shared.node.changesLeft), old(proc.shared.node.reported))
      {
        Interfere(nextBlockNum);
        ghost var reply, replies := None, proc.shared.node.replies;
        ok, reply := Attempt(header);
        AskedOnce(old(proc.shared.node.replies), replies, header, i, reply);
        count := count + 1;
        assert log == old(log) + Attempts(nextBlockNum, count, ok);
        if ok {
          return;
        }
        AllFailed(nextBlockNum, count);
        if i < RETRIES - 1 {
          Pause();
          var noticed: bool := *;
          if cancelled && noticed {
            return;
          }
        }
      }
      AllFailed(nextBlockNum, count);
    }

    lemma MayGiveUpNow(before: seq<Event>, count: nat)
      requires count > 0 && log == before + Attempts(nextBlockNum, count, false) && (cancelled || count == 3)
      ensures MayGiveUp(log, nextBlockNum, cancelled)
    {
      AllFailed(nextBlockNum, count);
      if !cancelled {
        assert log[|log| - 3..] == Failures(nextBlockNum, 3);
        assert Failures(nextBlockNum, 3) == [Failed(nextBlockNum), Failed(nextBlockNum), Failed(nextBlockNum)];
      }
    }

    /** A block given up on goes to the failed queue if there is room; either way its number is settled. */
    method FailedBlock(header: Header)
      requires Core(nextBlockNum) && header.number == nextBlockNum && MayGiveUp(log, nextBlockNum, cancelled)
      modifies this`log, proc.shared`failedQueue
      ensures Core(nextBlockNum + 1)
      ensures log == old(log) + [Offered(nextBlockNum)]
      ensures proc.shared.failedQueue == if |old(proc.shared.failedQueue)| < 10
              then old(proc.shared.failedQueue) + [header] else old(proc.shared.failedQueue)
    {
      hide Goroutines.Shared.Valid, Processor.Process.HistoryOk, Increasing, StoredOk, Replay, LastDone, Honest;
      proc.shared.OfferFailed(header);
      LogStep(log, start, cancelled, nextBlockNum, Offered(nextBlockNum));
      HonestOffer(log, proc.shared.node.replies, runMark, nextBlockNum);
      StoredMonotone(proc.shared.store.history, log, start, Offered(nextBlockNum));
      log := log + [Offered(nextBlockNum)];
    }

    /** 0 if the header waiting for the number in work is the one the node last reported, else 1. */
    ghost function Unsettled(): nat
      reads this, proc, proc.shared.node
    {
      if nextBlockNum in pendingBlock && nextBlockNum in proc.shared.node.reported
         && proc.shared.node.reported[nextBlockNum] == pendingBlock[nextBlockNum].hash
      then 0 else 1
    }

    /** Only the header in work was replaced, and the node used up a hash change or settled on that header. */
    twostate predicate Replaced()
      reads this, proc, proc.shared.node
    {
      && pendingBlock.Keys == old(pendingBlock).Keys
      && (forall n | n in pendingBlock && n != nextBlockNum :: pendingBlock[n] == old(pendingBlock)[n])
      && (proc.shared.node.changesLeft < old(proc.shared.node.changesLeft)
          || (proc.shared.node.changesLeft == old(proc.shared.node.changesLeft) && Unsettled() < old(Unsettled())))
    }

    /**
     One pass of the processing loop: the number in work is settled, or its header is replaced after a reorganisation.
     */
    method Step()
      requires Core(nextBlockNum) && nextBlockNum in pendingBlock
      modifies Repr()
      ensures Core(nextBlockNum) && fresh(proc.shared.pool.owned - old(proc.shared.pool.owned))
      ensures wakeupToken == old(wakeupToken) && start == old(start) && lastGap == old(lastGap) && old(log) <= log
      ensures old(proc.shared.node.replies) <= proc.shared.node.replies
      ensures proc.shared.node.restartReplies == old(proc.shared.node.restartReplies)
      ensures (nextBlockNum == old(nextBlockNum) + 1 && pendingBlock == old(pendingBlock) - {old(nextBlockNum)})
              || (nextBlockNum == old(nextBlockNum) && Replaced())
    {
      hide Core;
      var header := HeaderInWork();
      var ok;
      ghost var count;
      ok, count := ProcWithRetry(header);
      if !ok {
        MayGiveUpNow(old(log), count);
        var replaced;
        ghost var latest;
        replaced, latest := Recover(header);
        if replaced {
          return;
        }
      }
      Advance();
    }

    /**
     After the attempts failed the node is asked for the header again: if its hash differs it replaces the one in work,
     otherwise the block is given up on.
     */
    method Recover(header: Header) returns (replaced: bool, ghost latest: Option<Header>)
      requires Core(nextBlockNum) && nextBlockNum in pendingBlock && header == pendingBlock[nextBlockNum]
               && header.number == nextBlockNum
      requires MayGiveUp(log, nextBlockNum, cancelled)
      modifies Repr()
      ensures Core(if replaced then nextBlockNum else nextBlockNum + 1)
              && fresh(proc.shared.pool.owned - old(proc.shared.pool.owned))
      ensures nextBlockNum == old(nextBlockNum) && wakeupToken == old(wakeupToken) && start == old(start)
              && lastGap == old(lastGap) && cancelled == old(cancelled)
      ensures proc.shared.node.replies == old(proc.shared.node.replies) + [HeaderReply(nextBlockNum, latest)]
      ensures proc.shared.node.restartReplies == old(proc.shared.node.restartReplies)
      ensures replaced <==> latest.Some? && latest.value.hash != header.hash
      ensures log == if replaced then old(log) else old(log) + [Offered(nextBlockNum)]
      ensures replaced ==> Replaced() && pendingBlock == old(pendingBlock)[nextBlockNum := latest.value]
      ensures !replaced ==> pendingBlock == old(pendingBlock)
    {
      hide Core;
      var now, stale := Recheck(header);
      latest := now;
      if stale {
        ReplaceHeader(now.value);
        return true, now;
      }
      Interfere(nextBlockNum);
      FailedBlock(header);
      replaced := false;
    }

    method HeaderInWork() returns (header: Header)
      requires Core(nextBlockNum) && nextBlockNum in pendingBlock
      ensures header == pendingBlock[nextBlockNum] && header.number == nextBlockNum
    {
      hide Processor.Process.Valid, Replay, Increasing, StoredOk, LastDone, Honest;
      header := pendingBlock[nextBlockNum];
    }

    method Recheck(header: Header) returns (latest: Option<Header>, stale: bool)
      requires Core(nextBlockNum)
      modifies proc.shared.node
      ensures Core(nextBlockNum)
      ensures proc.shared.node.Asked(BlockLoop, HeaderReply(header.number, latest))
      ensures stale <==> latest.Some? && latest.value.hash != header.hash
      ensures latest.Some? ==> latest.value.number == header.number
      ensures stale ==>
                && header.number in proc.shared.node.reported
                && proc.shared.node.reported[header.number] == latest.value.hash
      ensures proc.shared.node.SettledFrom(old(proc.shared.node.changesLeft), old(proc.shared.node.reported))
      ensures stale && header.number in old(proc.shared.node.reported)
              && old(proc.shared.node.reported)[header.number] == header.hash
              ==> proc.shared.node.changesLeft < old(proc.shared.node.changesLeft)
    {
      hide Processor.Process.Valid, Replay, Increasing, StoredOk, LastDone, Honest;
      latest, stale := CheckStale(header);
      HonestAsk(log, old(proc.shared.node.replies), runMark, header.number, latest);
    }

    method ReplaceHeader(latest: Header)
      requires Core(nextBlockNum) && latest.number == nextBlockNum
      modifies this`pendingBlock
      ensures Core(nextBlockNum) && pendingBlock == old(pendingBlock)[nextBlockNum := latest]
    {
      hide Processor.Process.Valid, Replay, Increasing, StoredOk, LastDone, Honest;
      pendingBlock := pendingBlock[nextBlockNum := latest];
    }

    method Advance()
      requires Core(nextBlockNum + 1)
      modifies Repr()
      ensures Core(nextBlockNum) && fresh(proc.shared.pool.owned - old(proc.shared.pool.owned))
      ensures wakeupToken == old(wakeupToken) && start == old(start) && lastGap == old(lastGap) && log == old(log)
      ensures proc.shared.node.Quiet()
      ensures nextBlockNum == old(nextBlockNum) + 1 && pendingBlock == old(pendingBlock) - {old(nextBlockNum)}
    {
      hide Processor.Process.Valid, Replay, Increasing, StoredOk, LastDone, Honest;
      Interfere(nextBlockNum + 1);
      pendingBlock := pendingBlock - {nextBlockNum};
      nextBlockNum := nextBlockNum + 1;
    }

    // ---------- everything that is ready ----------

    /**
     The processing loop. It ends, since the node reports finitely many hash changes, at exactly the least number not
     pending from the start on, whichever blocks succeed, fail or are reorganised.
     */
    method Drain()
      requires Core(nextBlockNum)
      modifies Repr()
      ensures Core(nextBlockNum) && fresh(proc.shared.pool.owned - old(proc.shared.pool.owned))
      ensures wakeupToken == old(wakeupToken) && start == old(start) && lastGap == old(lastGap) && old(log) <= log
      ensures FirstMissing(old(pendingBlock), old(nextBlockNum), nextBlockNum)
      ensures pendingBlock == From(old(pendingBlock), nextBlockNum)
      ensures old(proc.shared.node.replies) <= proc.shared.node.replies
      ensures proc.shared.node.restartReplies == old(proc.shared.node.restartReplies)
    {
      hide Core, Drained, Gaps.Fill;
      PendingFrom();
      DrainedNone(pendingBlock, nextBlockNum);
      while nextBlockNum in pendingBlock
        invariant Core(nextBlockNum) && fresh(proc.shared.pool.owned - old(proc.shared.pool.owned))
        invariant wakeupToken == old(wakeupToken) && start == old(start) && lastGap == old(lastGap) && old(log) <= log
        invariant old(proc.shared.node.replies) <= proc.shared.node.replies
        invariant proc.shared.node.restartReplies == old(proc.shared.node.restartReplies)
        invariant Drained(old(pendingBlock), old(nextBlockNum), pendingBlock, nextBlockNum)
        decreases pendingBlock.Keys, proc.shared.node.changesLeft, Unsettled()
      {
        ghost var pending, next := pendingBlock, nextBlockNum;
        Step();
        DrainedStep(old(pendingBlock), old(nextBlockNum), pending, next, pendingBlock, nextBlockNum);
      }
      DrainedAll(old(pendingBlock), old(nextBlockNum), pendingBlock, nextBlockNum);
    }

    lemma PendingFrom()
      requires Core(nextBlockNum)
      ensures forall n | n in pendingBlock :: n >= nextBlockNum && pendingBlock[n].number == n
    {
    }

    // ---------- missing blocks ----------

    /** No number between the next one and a pending one is missing. */
    ghost predicate Contiguous()
      reads this
    {
      forall n, m | nextBlockNum <= n <= m && m in pendingBlock :: n in pendingBlock
    }

    /** What each outcome of the look for missing blocks means for the pending blocks and the wake-up token. */
    ghost predicate GapReport()
      reads this
    {
      match lastGap
      case NoGap => pendingBlock == map[]
      case Resynced => pendingBlock == map[] && log == [] && start == nextBlockNum
      case ResyncFailed =>
        nextBlockNum !in pendingBlock && exists n :: n in pendingBlock && n >= nextBlockNum + maxBlockLag
      case Completed => wakeupToken && nextBlockNum in pendingBlock && Contiguous()
      case StoppedAt(m) =>
        m !in pendingBlock && m >= nextBlockNum && forall n | nextBlockNum <= n < m :: n in pendingBlock
    }

    /** The highest pending number, or zero. */
    method Highest() returns (highest: nat)
      ensures forall n | n in pendingBlock :: n <= highest
      ensures highest in pendingBlock || (highest == 0 && pendingBlock == map[])
    {
      highest := 0;
      var todo := pendingBlock.Keys;
      while todo != {}
        invariant todo <= pendingBlock.Keys
        invariant forall n | n in pendingBlock && n !in todo :: n <= highest
        invariant highest in pendingBlock || highest == 0
      {
        var num :| num in todo;
        todo := todo - {num};
        if num > highest {
          highest := num;
        }
      }
      if pendingBlock != map[] {
        var n :| n in pendingBlock;
        assert n <= highest;
        assert highest == 0 ==> n == highest;
      }
    }

    /** Without a resync the run goes on and no pending header is lost. */
    twostate predicate Kept()
      reads this
    {
      !lastGap.Resynced? ==>
        && nextBlockNum == old(nextBlockNum) && start == old(start) && log == old(log)
        && forall n | n in old(pendingBlock) :: n in pendingBlock && pendingBlock[n] == old(pendingBlock)[n]
    }

    /** The headers the node answered with about blocks in line, since it had been asked `mark` times. */
    ghost function AnsweredSince(mark: nat): Headers
      reads proc.shared.node`replies
    {
      if mark <= |proc.shared.node.replies| then AnswersOf(proc.shared.node.replies[mark..]) else map[]
    }

    /** The pending headers, the outcome and the questions to the node are those of the filling function. */
    ghost predicate Filled(before: Headers, next: nat, highest: nat, replies: seq<Reply>)
      reads this, proc.shared.node`replies
    {
      var answers := AnsweredSince(|replies|);
      var f := Fill(before, next, highest, answers);
      && nextBlockNum == next && pendingBlock == f.pending
      && lastGap == (if f.stop.Some? then StoppedAt(f.stop.value) else Completed)
      && proc.shared.node.replies == replies + RepliesTo(f.asked, answers)
    }

    /** A resync was tried: with success exactly if the node named its newest block and some receipts of it. */
    ghost predicate Resyncing(restarts: seq<Reply>)
      reads this, proc.shared.node`restartReplies
    {
      exists latest: Option<Header>, fetched: Option<seq<Receipt>> ::
        Restarted(restarts, proc.shared.node.restartReplies, latest, fetched)
        && (latest.Some? && fetched.Some? && fetched.value != [] ==>
              lastGap == Resynced && nextBlockNum == latest.value.number + 1)
        && (!(latest.Some? && fetched.Some? && fetched.value != []) ==> lastGap == ResyncFailed)
    }

    /**
     What the look for missing blocks did: nothing if nothing is pending; a resync if the highest pending number is too
     far ahead of the next one; otherwise it filled the gaps below it.
     */
    ghost predicate Looked(before: Headers, next: nat, replies: seq<Reply>, restarts: seq<Reply>)
      reads this, proc.shared.node`replies, proc.shared.node`restartReplies
    {
      && (before == map[] ==> lastGap == NoGap && proc.shared.node.replies == replies)
      && (forall highest | highest in before && (forall n | n in before :: n <= highest) ::
            if highest < next + maxBlockLag then
              Filled(before, next, highest, replies) && proc.shared.node.restartReplies == restarts
            else Resyncing(restarts) && proc.shared.node.replies == replies)
    }

    /**
     Look for missing blocks. The next number is left pending without a new token exactly when the node answers for it
     but not for a later missing number.
     */
    method CheckBlockGap()
      requires Core(nextBlockNum) && nextBlockNum !in pendingBlock
      modifies Repr()
      ensures Valid() && fresh(proc.shared.pool.owned - old(proc.shared.pool.owned))
      ensures GapReport() && Kept()
      ensures Looked(old(pendingBlock), old(nextBlockNum), old(proc.shared.node.replies),
                     old(proc.shared.node.restartReplies))
      ensures old(pendingBlock) == map[] ==> lastGap == NoGap
      ensures !lastGap.Completed? ==> wakeupToken == old(wakeupToken)
      ensures nextBlockNum in pendingBlock && !lastGap.Completed?
              <==> Stranded(old(pendingBlock), old(nextBlockNum), maxBlockLag,
                            AnsweredSince(|old(proc.shared.node.replies)|))
    {
      hide Core, Fill, Filled, Resyncing, Looked, Stranded, AnsweredSince;
      PendingFrom();
      ghost var before, replies, restarts := pendingBlock, proc.shared.node.replies, proc.shared.node.restartReplies;
      var highest := Highest();
      if highest <= nextBlockNum {
        lastGap := NoGap;
        assert pendingBlock == map[];
        LookedNothing();
        return;
      }
      if highest - nextBlockNum >= maxBlockLag {
        Resync(highest);
        LookedResync(before, old(nextBlockNum), highest, replies, restarts);
        return;
      }
      StrandedAll(pendingBlock, highest);
      Backfill(highest);
      FilledMeans(before, nextBlockNum, highest, replies);
      LookedFilled(before, nextBlockNum, highest, replies, restarts);
    }

    lemma LookedNothing()
      requires lastGap == NoGap && pendingBlock == map[]
      ensures Looked(map[], nextBlockNum, proc.shared.node.replies, proc.shared.node.restartReplies)
      ensures forall answers: Headers :: !Stranded(map[], nextBlockNum, maxBlockLag, answers)
    {
    }

    lemma LookedResync(before: Headers, next: nat, highest: nat, replies: seq<Reply>, restarts: seq<Reply>)
      requires highest in before && (forall n | n in before :: n <= highest) && highest >= next + maxBlockLag
      requires Resyncing(restarts) && proc.shared.node.replies == replies
      ensures Looked(before, next, replies, restarts)
      ensures forall answers: Headers :: !Stranded(before, next, maxBlockLag, answers)
    {
      hide Resyncing;
      OneHighest(before, highest);
    }

    lemma LookedFilled(before: Headers, next: nat, highest: nat, replies: seq<Reply>, restarts: seq<Reply>)
      requires highest in before && (forall n | n in before :: n <= highest) && highest < next + maxBlockLag
      requires Filled(before, next, highest, replies) && proc.shared.node.restartReplies == restarts
      ensures Looked(before, next, replies, restarts)
    {
      hide Filled;
      OneHighest(before, highest);
    }

    lemma OneHighest(before: Headers, highest: nat)
      requires highest in before && forall n | n in before :: n <= highest
      ensures forall h | h in before && (forall n | n in before :: n <= h) :: h == highest
    {
    }

    lemma FilledMeans(before: Headers, next: nat, highest: nat, replies: seq<Reply>)
      requires Filled(before, next, highest, replies)
      ensures var f := Fill(before, next, highest, AnsweredSince(|replies|));
              nextBlockNum == next && pendingBlock == f.pending
              && lastGap == (if f.stop.Some? then StoppedAt(f.stop.value) else Completed)
    {
    }

    lemma StrandedAll(pending: Headers, highest: nat)
      requires nextBlockNum !in pending && highest in pending && nextBlockNum < highest < nextBlockNum + maxBlockLag
      requires forall n | n in pending :: n <= highest
      ensures forall answers: Headers ::
                var f := Fill(pending, nextBlockNum, highest, answers);
                f.stop.Some? && nextBlockNum in f.pending <==> Stranded(pending, nextBlockNum, maxBlockLag, answers)
    {
      forall answers: Headers
        ensures var f := Fill(pending, nextBlockNum, highest, answers);
                f.stop.Some? && nextBlockNum in f.pending <==> Stranded(pending, nextBlockNum, maxBlockLag, answers)
      {
        StrandedExactly(pending, nextBlockNum, maxBlockLag, highest, answers);
      }
    }

    /** Start over from the newest block; on failure everything stays as it was. */
    method Resync(ghost highest: nat)
      requires Core(nextBlockNum) && nextBlockNum !in pendingBlock
      requires highest in pendingBlock && highest >= nextBlockNum + maxBlockLag
      modifies Repr()
      ensures Valid() && fresh(proc.shared.pool.owned - old(proc.shared.pool.owned))
      ensures GapReport() && Resyncing(old(proc.shared.node.restartReplies))
      ensures proc.shared.node.replies == old(proc.shared.node.replies)
      ensures lastGap.Resynced? || (lastGap.ResyncFailed? && Unmoved() && pendingBlock == old(pendingBlock))
      ensures wakeupToken == old(wakeupToken)
    {
      hide Processor.Process.Valid, Processor.Process.Appended, Processor.Process.Analysed, Replay, Increasing,
        StoredOk, LastDone, Honest;
      var header;
      ghost var wiped, latest, fetched;
      header, wiped, latest, fetched := proc.Resync();
      assert Restarted(old(proc.shared.node.restartReplies), proc.shared.node.restartReplies, latest, fetched);
      if header.None? {
        lastGap := ResyncFailed;
        return;
      }
      Restart(header.value, fetched.value, Resynced);
    }

    /** The run goes on: same next number, same log. */
    twostate predicate Unmoved()
      reads this
    {
      nextBlockNum == old(nextBlockNum) && start == old(start) && log == old(log)
    }

    /** Ask the node for every missing header below the highest pending one; stop at the first failure. */
    method Backfill(highest: nat)
      requires Core(nextBlockNum) && nextBlockNum !in pendingBlock
      requires highest in pendingBlock && nextBlockNum < highest < nextBlockNum + maxBlockLag
      requires forall n | n in pendingBlock :: nextBlockNum <= n <= highest
      modifies Repr()
      ensures Valid() && fresh(proc.shared.pool.owned - old(proc.shared.pool.owned))
      ensures GapReport() && Kept()
      ensures Unmoved() && (!lastGap.Completed? ==> wakeupToken == old(wakeupToken))
      ensures Filled(old(pendingBlock), old(nextBlockNum), highest, old(proc.shared.node.replies))
      ensures proc.shared.node.restartReplies == old(proc.shared.node.restartReplies)
    {
      hide Core, Fill, Filled, GapReport, AskedSoFar;
      ghost var answers: Headers := map[];
      ghost var asked: seq<nat> := [];
      FillNone(pendingBlock, nextBlockNum, answers);
      NoneAsked(proc.shared.node.replies, answers);
      for num := nextBlockNum to highest
        invariant Core(nextBlockNum) && fresh(proc.shared.pool.owned - old(proc.shared.pool.owned))
        invariant Unmoved() && wakeupToken == old(wakeupToken) && lastGap == old(lastGap)
        invariant proc.shared.node.restartReplies == old(proc.shared.node.restartReplies)
        invariant forall n | n in answers :: n < num
        invariant forall i | 0 <= i < |asked| :: asked[i] < num
        invariant Fill(old(pendingBlock), nextBlockNum, num, answers) == Gaps.Filled(pendingBlock, None, asked)
        invariant AskedSoFar(old(proc.shared.node.replies), proc.shared.node.replies, asked, answers)
      {
        ghost var replies := proc.shared.node.replies;
        var present, header := Probe(num);
        if present {
          FillStep(old(pendingBlock), nextBlockNum, num, answers);
          continue;
        }
        AskedMore(old(proc.shared.node.replies), replies, asked, answers, num, header);
        asked := asked + [num];
        if header.None? {
          lastGap := StoppedAt(num);
          FillStep(old(pendingBlock), nextBlockNum, num, answers);
          FillStays(old(pendingBlock), nextBlockNum, num + 1, highest, answers);
          Report(old(pendingBlock), highest, old(proc.shared.node.replies), asked, answers);
          return;
        }
        FillEarlier(old(pendingBlock), nextBlockNum, num, answers, num, header.value);
        answers := answers[num := header.value];
        FillStep(old(pendingBlock), nextBlockNum, num, answers);
      }
      wakeupToken := true;
      lastGap := Completed;
      Report(old(pendingBlock), highest, old(proc.shared.node.replies), asked, answers);
    }

    /** What the filling function says of its outcome. */
    lemma Report(before: Headers, highest: nat, replies: seq<Reply>, asked: seq<nat>, answers: Headers)
      requires Fill(before, nextBlockNum, highest, answers)
               == Gaps.Filled(pendingBlock, if lastGap.StoppedAt? then Some(lastGap.number) else None, asked)
      requires AskedSoFar(replies, proc.shared.node.replies, asked, answers)
      requires lastGap.StoppedAt? || (lastGap.Completed? && wakeupToken)
      requires highest in before && nextBlockNum < highest < nextBlockNum + maxBlockLag
      requires forall n | n in before :: nextBlockNum <= n <= highest
      ensures GapReport() && Filled(before, nextBlockNum, highest, replies)
      ensures forall n | n in before :: n in pendingBlock && pendingBlock[n] == before[n]
      ensures forall n | n in pendingBlock :: n < nextBlockNum + maxBlockLag
      ensures nextBlockNum in pendingBlock && lastGap.StoppedAt? ==> lastGap.number > nextBlockNum
    {
      hide Fill, AnswersOf, RepliesTo;
      FillExact(before, nextBlockNum, highest, answers);
      var f := Fill(before, nextBlockNum, highest, answers);
      forall n | nextBlockNum <= n < EndOf(f, highest) ensures n in pendingBlock {
        assert !Missing(before, answers, n);
      }
    }

    /** Ask for a header that is not pending. */
    method Probe(num: nat) returns (present: bool, header: Option<Header>)
      requires Core(nextBlockNum) && num >= nextBlockNum
      modifies Repr()
      ensures Core(nextBlockNum) && fresh(proc.shared.pool.owned - old(proc.shared.pool.owned))
      ensures Unmoved() && wakeupToken == old(wakeupToken) && lastGap == old(lastGap)
      ensures present <==> num in old(pendingBlock)
      ensures present ==> pendingBlock == old(pendingBlock) && proc.shared.node.replies == old(proc.shared.node.replies)
      ensures !present ==>
                && proc.shared.node.replies == old(proc.shared.node.replies) + [HeaderReply(num, header)]
                && pendingBlock
                   == if header.Some? then old(pendingBlock)[num := header.value] else old(pendingBlock)
      ensures proc.shared.node.restartReplies == old(proc.shared.node.restartReplies)
    {
      hide Core;
      Interfere(nextBlockNum);
      if num in pendingBlock {
        return true, None;
      }
      header := FetchHeader(num);
      present := false;
    }

    method FetchHeader(num: nat) returns (header: Option<Header>)
      requires Core(nextBlockNum) && num >= nextBlockNum && num !in pendingBlock
      modifies this`pendingBlock, proc.shared.node
      ensures Core(nextBlockNum)
      ensures proc.shared.node.Asked(BlockLoop, HeaderReply(num, header))
      ensures header.None? ==> pendingBlock == old(pendingBlock)
      ensures header.Some? ==> header.value.number == num && pendingBlock == old(pendingBlock)[num := header.value]
    {
      hide Processor.Process.Valid, Replay, Increasing, StoredOk, LastDone, Honest;
      header := proc.shared.node.HeaderByNumber(num, BlockLoop);
      HonestAsk(log, old(proc.shared.node.replies), runMark, num, header);
      if header.None? {
        return;
      }
      pendingBlock := pendingBlock[num := header.value];
    }

    // ---------- the block loop ----------

    /**
     Process what is ready, up to the first number that is not pending, then look for what is missing from there on.
     */
    method ProcAvailable() returns (ghost first: nat, ghost replies: seq<Reply>)
      requires Core(nextBlockNum)
      modifies Repr()
      ensures Valid() && fresh(proc.shared.pool.owned - old(proc.shared.pool.owned))
      ensures GapReport()
      ensures FirstMissing(old(pendingBlock), old(nextBlockNum), first)
      ensures old(proc.shared.node.replies) <= replies
      ensures Looked(From(old(pendingBlock), first), first, replies, old(proc.shared.node.restartReplies))
      ensures !lastGap.Resynced? ==> nextBlockNum == first && start == old(start) && old(log) <= log
      ensures old(Contiguous()) ==> lastGap == NoGap
      ensures !lastGap.Completed? ==> wakeupToken == old(wakeupToken)
      ensures nextBlockNum in pendingBlock && !lastGap.Completed?
              <==> Stranded(From(old(pendingBlock), first), first, maxBlockLag, AnsweredSince(|replies|))
    {
      hide Core, Stranded, Looked, AnsweredSince;
      PendingFrom();
      Drain();
      first, replies := nextBlockNum, proc.shared.node.replies;
      assert old(Contiguous()) ==> pendingBlock == map[];
      CheckBlockGap();
    }

    /** Nil, settled and already pending headers are ignored. */
    predicate Ignored(header: Option<Header>)
      reads this
    {
      header.None? || header.value.number < nextBlockNum || header.value.number in pendingBlock
    }

    /** A header from the subscription. */
    method HandleHeader(header: Option<Header>) returns (ghost first: nat, ghost replies: seq<Reply>)
      requires Valid()
      modifies Repr()
      ensures Valid() && fresh(proc.shared.pool.owned - old(proc.shared.pool.owned))
      ensures old(Ignored(header)) ==>
                unchanged(this) && unchanged(proc) && unchanged(proc.shared) && unchanged(proc.shared.node)
      ensures !old(Ignored(header)) ==>
                var pending := old(pendingBlock)[header.value.number := header.value];
                && GapReport()
                && FirstMissing(pending, old(nextBlockNum), first)
                && old(proc.shared.node.replies) <= replies
                && Looked(From(pending, first), first, replies, old(proc.shared.node.restartReplies))
                && (!lastGap.Resynced? ==> nextBlockNum == first && start == old(start) && old(log) <= log)
                && (nextBlockNum in pendingBlock && !wakeupToken
                    <==> && !old(wakeupToken)
                         && Stranded(From(pending, first), first, maxBlockLag, AnsweredSince(|replies|)))
    {
      hide Core, Stranded, FirstMissing, From, Looked, AnsweredSince;
      first, replies := 0, [];
      if header.None? {
        return;
      }
      var blockNum := header.value.number;
      if nextBlockNum > blockNum {
        return;
      }
      if blockNum in pendingBlock {
        return;
      }
      AddPending(header.value);
      first, replies := ProcAvailable();
    }

    method AddPending(header: Header)
      requires Core(nextBlockNum) && header.number >= nextBlockNum
      modifies this`pendingBlock
      ensures Core(nextBlockNum) && pendingBlock == old(pendingBlock)[header.number := header]
    {
      hide Processor.Process.Valid, Replay, Increasing, StoredOk, LastDone, Honest;
      pendingBlock := pendingBlock[header.number := header];
    }

    /**
     The token is taken; with nothing missing, one wake-up settles everything that was pending. Afterwards the next
     number waits without a token exactly when the node answered for it and not for a later missing one.
     */
    method OnWakeup() returns (ghost first: nat, ghost replies: seq<Reply>)
      requires Valid() && wakeupToken
      modifies Repr()
      ensures Valid() && fresh(proc.shared.pool.owned - old(proc.shared.pool.owned))
      ensures GapReport()
      ensures FirstMissing(old(pendingBlock), old(nextBlockNum), first)
      ensures old(proc.shared.node.replies) <= replies
      ensures Looked(From(old(pendingBlock), first), first, replies, old(proc.shared.node.restartReplies))
      ensures old(Contiguous()) ==> pendingBlock == map[] && old(log) <= log && start == old(start)
      ensures nextBlockNum in pendingBlock && !wakeupToken
              <==> Stranded(From(old(pendingBlock), first), first, maxBlockLag, AnsweredSince(|replies|))
    {
      hide Core, Stranded, FirstMissing, From, Looked, AnsweredSince;
      wakeupToken := false;
      first, replies := ProcAvailable();
    }

    /** The other goroutines run until the next input. */
    method Wait()
      requires Valid()
      modifies Repr() - {this, proc, proc.shared.store}
      ensures Valid() && fresh(proc.shared.pool.owned - old(proc.shared.pool.owned))
      ensures Untouched() && proc.shared.node.Quiet()
    {
      hide Core;
      Interfere(nextBlockNum);
    }

    /** The block loop under any schedule of wake-ups and headers, with the other goroutines running in between. */
    method BlockProcLoop(choices: seq<Choice>)
      requires Valid()
      modifies Repr()
      ensures Valid() && fresh(proc.shared.pool.owned - old(proc.shared.pool.owned))
    {
      hide Valid, Looked, GapReport, Stranded, FirstMissing, From, Contiguous, AnsweredSince;
      for i := 0 to |choices|
        invariant Valid() && fresh(proc.shared.pool.owned - old(proc.shared.pool.owned))
      {
        Wait();
        match choices[i] {
          case Wake =>
            if wakeupToken {
              ghost var _, _ := OnWakeup();
            }
          case Head(header) =>
            ghost var _, _ := HandleHeader(header);
        }
      }
    }
  }

  lemma FreshRun(history: seq<BlockData>, start: nat, stopped: bool)
    requires |history| == 1 && history[0].number + 1 == start
    ensures Replay([], start, stopped) == Some(start) && LastDone([], start) == start - 1
    ensures StoredOk(history, [], start) && Increasing(history)
  {
  }

  lemma StoredSome(history: seq<BlockData>, log: seq<Event>, start: nat)
    requires StoredOk(history, log, start)
    ensures history != []
  {
  }

  lemma LogStep(log: seq<Event>, start: nat, stopped: bool, current: nat, e: Event)
    requires Replay(log, start, stopped) == Some(current) && e.number == current
    requires e.Offered? ==> MayGiveUp(log, current, stopped)
    ensures Replay(log + [e], start, stopped) == Some(if e.Settles() then current + 1 else current)
    ensures LastDone(log + [e], start) == if e.Succeeded? then e.number else LastDone(log, start)
  {
    assert (log + [e])[..|log|] == log;
  }

  lemma StoredMonotone(history: seq<BlockData>, log: seq<Event>, start: nat, e: Event)
    ensures StoredOk(history, log, start) ==> StoredOk(history, log + [e], start)
  {
  }

  lemma AppendStored(history: seq<BlockData>, history': seq<BlockData>, log: seq<Event>, start: nat, n: nat)
    requires StoredOk(history, log, start) && Increasing(history)
    requires forall i | 0 <= i < |history| :: history[i].number < n
    requires |history'| == |history| + 1 && history'[..|history|] == history && history'[|history|].number == n
    ensures StoredOk(history', log + [Succeeded(n)], start) && Increasing(history')
    ensures forall i | 0 <= i < |history'| :: history'[i].number < n + 1
  {
    forall i | 0 <= i < |history| ensures history'[i] == history[i] {
      assert history'[..|history|][i] == history[i];
    }
  }
}
