/** The look for missing blocks (checkBlockGap in internal/coordinator/blockPipeline.go) as a function on values. */
module Gaps {
  import opened Common
  import opened Chain

  type Headers = map<nat, Header>

  /** The pending headers afterwards, the number at which the node did not answer, and the numbers it was asked for. */
  datatype Filled = Filled(pending: Headers, stop: Option<nat>, asked: seq<nat>)

  /** The loop over the numbers from `next` up to `end`, with a node that answers as in `answers`. */
  function Fill(pending: Headers, next: nat, end: nat, answers: Headers): Filled {
    if end <= next then Filled(pending, None, [])
    else
      var before, num := Fill(pending, next, end - 1, answers), end - 1;
      if before.stop.Some? || num in before.pending then before
      else if num !in answers then Filled(before.pending, Some(num), before.asked + [num])
      else Filled(before.pending[num := answers[num]], None, before.asked + [num])
  }

  predicate Missing(pending: Headers, answers: Headers, n: nat) {
    n !in pending && n !in answers
  }

  /** Where the loop ends: at the first number that is missing, or at its end. */
  function EndOf(f: Filled, end: nat): nat {
    if f.stop.Some? then f.stop.value else end
  }

  /** The loop stops at the least missing number, and below it every header asked for was added to the pending ones. */
  lemma {:induction false} FillExact(pending: Headers, next: nat, end: nat, answers: Headers)
    requires next <= end
    ensures var f := Fill(pending, next, end, answers);
            && (f.stop.Some? ==> next <= f.stop.value < end && Missing(pending, answers, f.stop.value))
            && (forall n | next <= n < EndOf(f, end) :: !Missing(pending, answers, n))
            && (forall n :: n in f.pending <==> n in pending || (next <= n < EndOf(f, end) && n in answers))
            && (forall n | n in f.pending :: f.pending[n] == if n in pending then pending[n] else answers[n])
  {
    if next < end {
      FillExact(pending, next, end - 1, answers);
    }
  }

  /** The numbers not pending up to where the loop ends, the one it stops at included. */
  ghost function ToAsk(pending: Headers, next: nat, f: Filled, end: nat): set<nat> {
    set n | next <= n < end && n <= EndOf(f, end) && n !in pending
  }

  /** The node is asked in ascending order, once each, for exactly those numbers. */
  lemma {:induction false} AskedExact(pending: Headers, next: nat, end: nat, answers: Headers)
    requires next <= end
    ensures var f := Fill(pending, next, end, answers); Visits(f.asked, ToAsk(pending, next, f, end))
  {
    if next < end {
      hide Visits;
      AskedExact(pending, next, end - 1, answers);
      FillExact(pending, next, end - 1, answers);
      var before, f, num := Fill(pending, next, end - 1, answers), Fill(pending, next, end, answers), end - 1;
      if before.stop.Some? || num in before.pending {
        assert ToAsk(pending, next, f, end) == ToAsk(pending, next, before, num);
      } else {
        assert ToAsk(pending, next, f, end) == ToAsk(pending, next, before, num) + {num};
        VisitsMore(before.asked, ToAsk(pending, next, before, num), num);
      }
    }
  }

  lemma FillNone(pending: Headers, next: nat, answers: Headers)
    ensures Fill(pending, next, next, answers) == Filled(pending, None, [])
  {
  }

  /** One pass of the loop. */
  lemma FillStep(pending: Headers, next: nat, num: nat, answers: Headers)
    requires next <= num && Fill(pending, next, num, answers).stop.None?
    ensures var before := Fill(pending, next, num, answers);
            Fill(pending, next, num + 1, answers)
            == if num in before.pending then before
               else if num !in answers then Filled(before.pending, Some(num), before.asked + [num])
               else Filled(before.pending[num := answers[num]], None, before.asked + [num])
  {
  }

  /** An answer for a number not asked for yet changes nothing. */
  lemma {:induction false} FillEarlier(pending: Headers, next: nat, end: nat, answers: Headers, num: nat,
                                       header: Header)
    requires num >= end
    ensures Fill(pending, next, end, answers[num := header]) == Fill(pending, next, end, answers)
  {
    if next < end {
      FillEarlier(pending, next, end - 1, answers, num, header);
    }
  }

  /** Once stopped, the loop does nothing more. */
  lemma {:induction false} FillStays(pending: Headers, next: nat, stop: nat, end: nat, answers: Headers)
    requires stop <= end && Fill(pending, next, stop, answers).stop.Some?
    ensures Fill(pending, next, end, answers) == Fill(pending, next, stop, answers)
    decreases end
  {
    if stop < end {
      FillStays(pending, next, stop, end - 1, answers);
    }
  }

  /** The node's replies to these questions. */
  function RepliesTo(asked: seq<nat>, answers: Headers): seq<Reply> {
    seq(|asked|, i requires 0 <= i < |asked| => ReplyTo(asked[i], answers))
  }

  function ReplyTo(n: nat, answers: Headers): Reply {
    HeaderReply(n, if n in answers then Some(answers[n]) else None)
  }

  /** The headers the node answered with, by number. */
  function AnswersOf(replies: seq<Reply>): Headers {
    if replies == [] then map[]
    else
      var front := AnswersOf(replies[..|replies| - 1]);
      match replies[|replies| - 1]
      case HeaderReply(n, header) => if header.Some? then front[n := header.value] else front
      case _ => front
  }

  lemma AnswersStep(replies: seq<Reply>, reply: Reply)
    ensures AnswersOf(replies + [reply])
            == if reply.HeaderReply? && reply.header.Some? then AnswersOf(replies)[reply.number := reply.header.value]
               else AnswersOf(replies)
  {
    assert (replies + [reply])[..|replies|] == replies;
  }

  /** A header is among the answers exactly if the node answered its number, and with the last such answer. */
  lemma {:induction false} AnswersExact(replies: seq<Reply>, n: nat)
    ensures n in AnswersOf(replies) <==> exists i | 0 <= i < |replies| :: Answers(replies[i], n)
    ensures n in AnswersOf(replies) ==> HeaderReply(n, Some(AnswersOf(replies)[n])) in replies
  {
    if replies != [] {
      var front := replies[..|replies| - 1];
      AnswersExact(front, n);
      assert replies == front + [replies[|replies| - 1]];
    }
  }

  predicate Answers(reply: Reply, n: nat) {
    reply.HeaderReply? && reply.number == n && reply.header.Some?
  }

  /**
   The next number is answered, a later one below a pending one is missing, and the pending ones are not so far ahead
   that there is a resync.
   */
  ghost predicate Stranded(pending: Headers, next: nat, lag: nat, answers: Headers) {
    && next in answers
    && (forall h | h in pending :: h < next + lag)
    && exists m, h :: next < m < h && h in pending && Missing(pending, answers, m)
  }

  /** A loop that stops leaves the next number pending exactly for such answers. */
  lemma StrandedExactly(pending: Headers, next: nat, lag: nat, highest: nat, answers: Headers)
    requires next !in pending && highest in pending && next < highest < next + lag
    requires forall n | n in pending :: n <= highest
    ensures var f := Fill(pending, next, highest, answers);
            f.stop.Some? && next in f.pending <==> Stranded(pending, next, lag, answers)
  {
    FillExact(pending, next, highest, answers);
    var f := Fill(pending, next, highest, answers);
    if f.stop.Some? && next in f.pending {
      assert next < f.stop.value < highest && Missing(pending, answers, f.stop.value);
    }
    if Stranded(pending, next, lag, answers) {
      var m, h :| next < m < h && h in pending && Missing(pending, answers, m);
      assert f.stop.Some? && f.stop.value <= m;
      assert !Missing(pending, answers, next);
    }
  }

  /** Block 7 is pending, the node has block 5 but not block 6: block 5 is left pending, and nothing wakes the loop. */
  lemma StrandedRun(five: Header, seven: Header, lag: nat)
    requires lag > 2
    ensures Stranded(map[7 := seven], 5, lag, map[5 := five])
    ensures Fill(map[7 := seven], 5, 7, map[5 := five])
            == Filled(map[5 := five, 7 := seven], Some(6), [5, 6])
  {
    var pending, answers := map[7 := seven], map[5 := five];
    assert Missing(pending, answers, 6) && 7 in pending;
    assert Fill(pending, 5, 5, answers) == Filled(pending, None, []);
    assert Fill(pending, 5, 6, answers) == Filled(pending[5 := five], None, [5]);
  }
}
