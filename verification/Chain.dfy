/** Headers, receipts and the node that serves them. */
module Chain {
  import opened Common

  datatype RawHeader = RawHeader(number: nat, hash: Hash, time: nat, baseFee: nat, gasUsed: nat, gasLimit: nat)

  /** A header of a block since EIP-1559: it carries a base fee and a gas limit of at least two. */
  type Header = h: RawHeader | h.gasLimit >= 2 witness RawHeader(0, 0, 0, 0, 0, 2)

  datatype RawReceipt = RawReceipt(txHash: Hash, effectiveGasPrice: Option<nat>, gasUsed: nat)

  /** A receipt of a mined transaction: it used some gas. */
  type Receipt = r: RawReceipt | r.gasUsed > 0 witness RawReceipt(0, None, 1)

  /** What the node was asked, and what it answered; no answer is an error. */
  datatype Reply =
    | HeaderReply(number: nat, header: Option<Header>)
    | LatestReply(header: Option<Header>)
    | ReceiptsReply(of: Header, receipts: Option<seq<Receipt>>)

  /** Who asks: the block loop about blocks in line, the same when it starts or resyncs, or the failed-block loop. */
  datatype Asker = BlockLoop | Restart | FailedLoop

  /**
   The node behind the RPC manager. Every answer is arbitrary and may be an error; a header asked for by number has
   that number. `changesLeft` bounds how often the node will still report, for a number it already reported, a hash
   different from its last report: a chain settles.
   */
  class Node {
    var reported: map<nat, Hash>
    var changesLeft: nat

    /** Everything each of them asked so far, in order. */
    ghost var replies: seq<Reply>
    ghost var restartReplies: seq<Reply>
    ghost var failedReplies: seq<Reply>

    constructor (changes: nat) {
      reported := map[];
      changesLeft := changes;
      replies := [];
      restartReplies := [];
      failedReplies := [];
    }

    /**
     Since a state with c changes left and the reports r: no more remain, and if none was used then no report changed.
     */
    ghost predicate SettledFrom(c: nat, r: map<nat, Hash>)
      reads this`changesLeft, this`reported
    {
      && changesLeft <= c
      && (changesLeft == c ==> forall n | n in r :: n in reported && reported[n] == r[n])
    }

    /** The block goroutine asked nothing meanwhile. */
    twostate predicate Quiet()
      reads this
    {
      && SettledFrom(old(changesLeft), old(reported))
      && replies == old(replies) && restartReplies == old(restartReplies)
    }

    /** This one asked exactly this, and the others nothing. */
    twostate predicate Asked(who: Asker, reply: Reply)
      reads this
    {
      && replies == old(replies) + (if who == BlockLoop then [reply] else [])
      && restartReplies == old(restartReplies) + (if who == Restart then [reply] else [])
      && failedReplies == old(failedReplies) + (if who == FailedLoop then [reply] else [])
    }

    ghost method Note(who: Asker, reply: Reply)
      modifies this`replies, this`restartReplies, this`failedReplies
      ensures Asked(who, reply)
    {
      match who
      case BlockLoop => replies := replies + [reply];
      case Restart => restartReplies := restartReplies + [reply];
      case FailedLoop => failedReplies := failedReplies + [reply];
    }

    method HeaderByNumber(n: nat, ghost who: Asker) returns (r: Option<Header>)
      modifies this
      ensures Asked(who, HeaderReply(n, r))
      ensures r.Some? ==> r.value.number == n && n in reported && reported[n] == r.value.hash
      ensures SettledFrom(old(changesLeft), old(reported))
      ensures r.Some? && n in old(reported) && old(reported)[n] != r.value.hash ==> changesLeft < old(changesLeft)
    {
      var failed: bool := *;
      if failed {
        r := None;
      } else {
        var h: Header :| true;
        h := h.(number := n);
        if n in reported && reported[n] != h.hash {
          if changesLeft == 0 {
            h := h.(hash := reported[n]);
          } else {
            changesLeft := changesLeft - 1;
          }
        }
        reported := reported[n := h.hash];
        r := Some(h);
      }
      Note(who, HeaderReply(n, r));
    }

    method Latest() returns (r: Option<Header>)
      modifies this`replies, this`restartReplies, this`failedReplies
      ensures Asked(Restart, LatestReply(r))
    {
      r :| true;
      Note(Restart, LatestReply(r));
    }

    method BlockReceipts(h: Header, ghost who: Asker) returns (r: Option<seq<Receipt>>)
      modifies this`replies, this`restartReplies, this`failedReplies
      ensures Asked(who, ReceiptsReply(h, r))
    {
      r :| true;
      Note(who, ReceiptsReply(h, r));
    }
  }
}
