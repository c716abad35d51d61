/**
What the sender's report does to the slots of the batch it was handed: accepted operations are
acknowledged, a definite failure frees exactly the slots of its creates, and an unknown outcome
touches nothing.
*/
module SendFate {
  import opened Common
  import opened Orders
  import opened OrderSlots
  import opened OrderDiff
  import opened NonceSync

  /** A slot once a failed batch has been reported. */
  function Released(slot: Slot, op: Option<BatchOp>, now: int): Slot {
    if op.Some? && op.value.action == Create && (op.value.clientId == 0 || slot.orderId == Some(op.value.clientId))
    then IdleSlot(now) else slot
  }

  lemma {:induction false} FailedCreatesFit(ops: seq<BatchOp>, n: nat)
    requires OpsFit(ops, n)
    ensures EventsFit(FailedCreates(ops), n)
  {
    if ops != [] {
      FailedCreatesFit(ops[..|ops| - 1], n);
    }
  }

  lemma {:induction false} ReleasedAt(tick: real, s: State, ops: seq<BatchOp>, now: int, m: nat)
    requires Ordered(ops) && OpsFit(ops, |s.slots|) && m < |s.slots|
    ensures EventsFit(FailedCreates(ops), |s.slots|)
    ensures HandleAll(tick, s, FailedCreates(ops), now).slots[m] == Released(s.slots[m], OpFor(ops, m), now)
  {
    FailedCreatesFit(ops, |s.slots|);
    if ops != [] {
      var before, op := ops[..|ops| - 1], ops[|ops| - 1];
      OrderedPrefix(ops, |s.slots|);
      ReleasedAt(tick, s, before, now, m);
      var es := FailedCreates(ops);
      if op.action == Create {
        assert es[..|es| - 1] == FailedCreates(before);
      } else {
        assert es == FailedCreates(before);
      }
      if OpPos(op) == m {
        NoOpBeyond(before, m);
      }
    }
  }

  /** The fate of one slot of a batch that was marked and then sent: bound or cleared when accepted,
      left as marked when the outcome is unknown, and otherwise freed exactly if it was a create. */
  lemma FateOfSlot(tick: real, s: State, ops: seq<BatchOp>, reply: Reply, t1: int, t2: int, m: nat)
    requires Shaped(s, ops, |s.slots|) && m < |s.slots|
    ensures var marked := MarkAll(s, ops, t1);
            EventsFit(Fate(ops, reply), |marked.slots|) &&
            var before, op := marked.slots[m], OpFor(ops, m);
            var after := HandleAll(tick, marked, Fate(ops, reply), t2).slots[m];
            && (op.None? || reply.Unknown? ==> after == before)
            && (op.Some? && reply.Accepted? ==>
                  after == if op.value.action == Cancel then IdleSlot(t2)
                           else Bound(op.value.clientId, op.value.price, op.value.size, t2))
            && (op.Some? && !reply.Accepted? && !reply.Unknown? ==>
                  after == if op.value.action == Create then IdleSlot(t2) else before)
  {
    MarkAllAt(s, ops, t1, m);
    var marked := MarkAll(s, ops, t1);
    if OpFor(ops, m).Some? {
      OpForMember(s, ops, m);
    }
    if reply.Accepted? {
      AckAllAt(tick, marked, ops, t2, m);
    } else if !reply.Unknown? {
      ReleasedAt(tick, marked, ops, t2, m);
    }
  }

  /** The ladder is pulled after every unknown outcome, after a reject while trading is paused, and after
      a reject whose mandatory nonce refresh failed; never after an accepted or an unsent batch. */
  lemma PullsLadderTable(reply: Reply, refresh: seq<bool>, tripped: bool)
    ensures reply.Unknown? ==> PullsLadder(reply, refresh, tripped)
    ensures reply.Accepted? || reply.NotSent? ==> !PullsLadder(reply, refresh, tripped)
    ensures !reply.Accepted? && !reply.NotSent? && tripped ==> PullsLadder(reply, refresh, tripped)
    ensures !reply.Accepted? && !reply.NotSent? && !reply.Unknown? && !tripped ==>
              (PullsLadder(reply, refresh, tripped) <==>
                 !reply.RateLimited? && !FlagAfter(true, Send(0, reply, refresh, [])))
  {
  }
}
