/** What the block loop records, and what a record it can produce says about each block number. */
module PipelineLog {
  import opened Common
  import opened Chain

  /**
   An attempt at a number that failed, one that succeeded, or a number given up on and offered to the failed queue.
   */
  datatype Event = Failed(number: nat) | Succeeded(number: nat) | Offered(number: nat) {
    predicate Settles() {
      !Failed?
    }
  }

  /**
   The number may be given up on: the last three events are failed attempts at it; one is enough when the server is
   shutting down.
   */
  predicate MayGiveUp(log: seq<Event>, n: nat, stopped: bool) {
    if stopped then log != [] && log[|log| - 1] == Failed(n)
    else |log| >= 3 && log[|log| - 3..] == [Failed(n), Failed(n), Failed(n)]
  }

  /**
   The number in work after the log, if the log only ever works on the number that is next in line and gives it up
   only when it may.
   */
  function Replay(log: seq<Event>, start: nat, stopped: bool): Option<nat> {
    if log == [] then Some(start)
    else
      var front, e := log[..|log| - 1], log[|log| - 1];
      match Replay(front, start, stopped)
      case None => None
      case Some(k) =>
        if e.number != k || (e.Offered? && !MayGiveUp(front, k, stopped)) then None
        else Some(if e.Settles() then k + 1 else k)
  }

  /** What was right before a shutdown is still right in one. */
  lemma {:induction false} ReplayStopped(log: seq<Event>, start: nat)
    requires Replay(log, start, false).Some?
    ensures Replay(log, start, true) == Replay(log, start, false)
  {
    if log != [] {
      ReplayStopped(log[..|log| - 1], start);
      var front := log[..|log| - 1];
      assert |front| >= 3 ==> front[|front| - 1] == front[|front| - 3..][2];
    }
  }

  /** What up to three attempts at n leave in the log: failures, then a success if there was one. */
  function Attempts(n: nat, count: nat, ok: bool): seq<Event>
    requires count > 0
  {
    Failures(n, count - 1) + [if ok then Succeeded(n) else Failed(n)]
  }

  function Failures(n: nat, count: nat): seq<Event> {
    seq(count, _ => Failed(n))
  }

  lemma NoFailures(n: nat)
    ensures Failures(n, 0) == []
  {
  }

  lemma AllFailed(n: nat, count: nat)
    requires count > 0
    ensures Attempts(n, count, false) == Failures(n, count)
  {
  }

  lemma {:induction false} ReplayOrdered(log: seq<Event>, start: nat, stopped: bool, i: nat)
    requires Replay(log, start, stopped).Some? && i < |log|
    ensures start <= log[i].number <= Replay(log, start, stopped).value
    ensures log[i].Settles() ==> log[i].number < Replay(log, start, stopped).value
  {
    if i < |log| - 1 {
      ReplayOrdered(log[..|log| - 1], start, stopped, i);
    } else {
      ReplayFrom(log[..i], start, stopped);
    }
  }

  lemma {:induction false} ReplayFrom(log: seq<Event>, start: nat, stopped: bool)
    requires Replay(log, start, stopped).Some?
    ensures Replay(log, start, stopped).value >= start
  {
    if log != [] {
      ReplayFrom(log[..|log| - 1], start, stopped);
    }
  }

  /** Once a number is settled, nothing later concerns it or any number before it. */
  lemma {:induction false} NothingAfterSettled(log: seq<Event>, start: nat, stopped: bool, i: nat, j: nat)
    requires Replay(log, start, stopped).Some? && i < j < |log|
    ensures log[i].number <= log[j].number
    ensures log[i].Settles() ==> log[i].number < log[j].number
  {
    if j == |log| - 1 {
      ReplayOrdered(log[..j], start, stopped, i);
    } else {
      NothingAfterSettled(log[..|log| - 1], start, stopped, i, j);
    }
  }

  /** A number is given up on right after three failed attempts in a row, or one when the server is shutting down. */
  lemma {:induction false} OfferedAfterFailure(log: seq<Event>, start: nat, stopped: bool, i: nat)
    requires Replay(log, start, stopped).Some? && i < |log| && log[i].Offered?
    ensures i > 0 && log[i - 1] == Failed(log[i].number)
    ensures !stopped ==> i > 2 && log[i - 2] == log[i - 3] == Failed(log[i].number)
  {
    var front := log[..|log| - 1];
    if i < |front| {
      OfferedAfterFailure(front, start, stopped, i);
    } else if !stopped {
      var last := front[|front| - 3..];
      assert last[0] == log[i - 3] && last[1] == log[i - 2] && last[2] == log[i - 1];
    }
  }

  ghost function Settlements(log: seq<Event>, n: nat): set<nat> {
    set i | 0 <= i < |log| && log[i].number == n && log[i].Settles()
  }

  /**
   Every number from the start up to the one in work was settled exactly once, by one successful attempt or by one
   offer to the failed queue and never both; no other number was settled.
   */
  lemma {:induction false} SettledExactlyOnce(log: seq<Event>, start: nat, stopped: bool, n: nat)
    requires Replay(log, start, stopped).Some?
    ensures |Settlements(log, n)| == if start <= n < Replay(log, start, stopped).value then 1 else 0
    ensures start <= n < Replay(log, start, stopped).value ==> (Succeeded(n) in log <==> Offered(n) !in log)
    ensures !(start <= n < Replay(log, start, stopped).value) ==> Succeeded(n) !in log && Offered(n) !in log
  {
    if log == [] {
      assert Settlements(log, n) == {};
    } else {
      var last := |log| - 1;
      var front := log[..last];
      SettledExactlyOnce(front, start, stopped, n);
      ReplayFrom(front, start, stopped);
      assert log == front + [log[last]];
      if log[last].number == n && log[last].Settles() {
        assert Settlements(log, n) == Settlements(front, n) + {last};
      } else {
        assert Settlements(log, n) == Settlements(front, n);
      }
    }
  }

  /** The last number processed with success, or the block the run started from. */
  function LastDone(log: seq<Event>, start: nat): int {
    if log == [] then start - 1
    else if log[|log| - 1].Succeeded? then log[|log| - 1].number
    else LastDone(log[..|log| - 1], start)
  }

  /** Every number between the last success and the one in work was given up on. */
  lemma {:induction false} GivenUpSince(log: seq<Event>, start: nat, stopped: bool, n: nat)
    requires Replay(log, start, stopped).Some?
    ensures LastDone(log, start) < Replay(log, start, stopped).value
    ensures LastDone(log, start) < n < Replay(log, start, stopped).value ==> Offered(n) in log
  {
    if log != [] {
      var front := log[..|log| - 1];
      GivenUpSince(front, start, stopped, n);
      assert log == front + [log[|log| - 1]];
    }
  }

  // ---------- the attempts and the node's answers ----------

  /** The attempts of a log, in order. */
  function Tried(log: seq<Event>): seq<Event> {
    if log == [] then []
    else
      var e := log[|log| - 1];
      Tried(log[..|log| - 1]) + (if e.Offered? then [] else [e])
  }

  /** What the node's replies about receipts mean for the attempts that asked. */
  function OutcomesOf(replies: seq<Reply>): seq<Event> {
    if replies == [] then []
    else
      var front := OutcomesOf(replies[..|replies| - 1]);
      match replies[|replies| - 1]
      case ReceiptsReply(h, receipts) => front + [if receipts.Some? then Succeeded(h.number) else Failed(h.number)]
      case _ => front
  }

  lemma TriedStep(log: seq<Event>, e: Event)
    ensures Tried(log + [e]) == Tried(log) + (if e.Offered? then [] else [e])
  {
    assert (log + [e])[..|log|] == log;
  }

  lemma OutcomesStep(replies: seq<Reply>, reply: Reply)
    ensures OutcomesOf(replies + [reply]) == OutcomesOf(replies)
            + (if !reply.ReceiptsReply? then []
               else [if reply.receipts.Some? then Succeeded(reply.of.number) else Failed(reply.of.number)])
  {
    assert (replies + [reply])[..|replies|] == replies;
  }

  lemma {:induction false} TriedExact(log: seq<Event>, e: Event)
    ensures e in Tried(log) <==> e in log && !e.Offered?
  {
    if log != [] {
      TriedExact(log[..|log| - 1], e);
      assert log == log[..|log| - 1] + [log[|log| - 1]];
    }
  }

  /** The node answered an attempt at n: with receipts, or with an error. */
  ghost predicate AnsweredFor(replies: seq<Reply>, n: nat, known: bool) {
    exists i | 0 <= i < |replies| :: Tells(replies[i], n, known)
  }

  predicate Tells(reply: Reply, n: nat, known: bool) {
    reply.ReceiptsReply? && reply.of.number == n && (reply.receipts.Some? <==> known)
  }

  lemma {:induction false} OutcomesExact(replies: seq<Reply>, n: nat)
    ensures Succeeded(n) in OutcomesOf(replies) <==> AnsweredFor(replies, n, true)
    ensures Failed(n) in OutcomesOf(replies) <==> AnsweredFor(replies, n, false)
    ensures Offered(n) !in OutcomesOf(replies)
  {
    if replies != [] {
      var k := |replies| - 1;
      var front := replies[..k];
      OutcomesExact(front, n);
      AnsweredStep(replies, n, true);
      AnsweredStep(replies, n, false);
    }
  }

  lemma AnsweredStep(replies: seq<Reply>, n: nat, known: bool)
    requires replies != []
    ensures AnsweredFor(replies, n, known)
            <==> AnsweredFor(replies[..|replies| - 1], n, known) || Tells(replies[|replies| - 1], n, known)
  {
    var k := |replies| - 1;
    if i :| 0 <= i < k && Tells(replies[..k][i], n, known) {
      assert Tells(replies[i], n, known);
    }
    if i :| 0 <= i < |replies| && Tells(replies[i], n, known) {
      if i < k {
        assert Tells(replies[..k][i], n, known);
      }
    }
  }
}
