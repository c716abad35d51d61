/**
The actor as it runs: hash sets beside FIFO queues, updated in place. Every handler is tied to
the state machine of module PnlActor, so its run theorems hold of this class.
*/
module PnlTask {
  import opened Common
  import opened FillAccounting
  import opened PnlActor

  /** The hash set holds exactly the ids of its queue, each of them once. */
  ghost predicate SameIds(ids: set<int>, order: seq<int>) {
    Distinct(order) && forall id :: id in ids <==> id in order
  }

  ghost predicate SamePending(ids: set<int>, pending: seq<Queued>) {
    && (forall i :: 0 <= i < |pending| ==> pending[i].payload.tradeId.Some?)
    && (forall i, j :: 0 <= i < j < |pending| ==> pending[i].payload.tradeId != pending[j].payload.tradeId)
    && (forall id :: id in ids <==> IsPending(pending, id))
  }

  lemma Matched(ids: set<int>, order: seq<int>, id: int)
    requires SameIds(ids, order)
    ensures id in ids <==> id in order
  {
  }

  lemma PopId(ids: set<int>, order: seq<int>)
    requires SameIds(ids, order) && |order| > 0
    ensures SameIds(ids - {order[0]}, order[1..])
  {
  }

  lemma PushId(ids: set<int>, order: seq<int>, id: int)
    requires SameIds(ids, order) && id !in ids
    ensures SameIds(ids + {id}, order + [id])
  {
  }

  lemma PopPending(ids: set<int>, pending: seq<Queued>)
    requires SamePending(ids, pending) && |pending| > 0
    ensures pending[0].payload.tradeId.Some?
    ensures SamePending(ids - {pending[0].payload.tradeId.value}, pending[1..])
  {
  }

  lemma PushPending(ids: set<int>, pending: seq<Queued>, q: Queued)
    requires SamePending(ids, pending) && q.payload.tradeId.Some? && q.payload.tradeId.value !in ids
    ensures SamePending(ids + {q.payload.tradeId.value}, pending + [q])
  {
    var all := pending + [q];
    forall i | 0 <= i < |pending|
      ensures pending[i].payload.tradeId != q.payload.tradeId
    {
      assert IsPending(pending, pending[i].payload.tradeId.value);
    }
    forall id
      ensures id in ids + {q.payload.tradeId.value} <==> IsPending(all, id)
    {
      if IsPending(pending, id) {
        var i :| 0 <= i < |pending| && pending[i].payload.tradeId == Some(id);
        assert all[i].payload.tradeId == Some(id);
      }
      assert all[|pending|] == q;
    }
  }

  /** Moving one queued trade between the two ends of the queue keeps the match. */
  lemma RotatePending(ids: set<int>, kept: seq<Queued>, q: Queued, rest: seq<Queued>)
    requires SamePending(ids, kept + ([q] + rest))
    ensures q.payload.tradeId.Some?
    ensures SamePending(ids, kept + [q] + rest)
    ensures SamePending(ids - {q.payload.tradeId.value}, kept + rest)
    ensures q.payload.tradeId.value in ids
  {
    var all := kept + ([q] + rest);
    var fewer := kept + rest;
    assert kept + [q] + rest == all;
    assert all[|kept|] == q;
    var own := q.payload.tradeId.value;
    assert IsPending(all, own);
    assert forall i :: 0 <= i < |fewer| ==> fewer[i] == all[if i < |kept| then i else i + 1];
    forall id
      ensures id in ids - {own} <==> IsPending(fewer, id)
    {
      if IsPending(fewer, id) {
        var i :| 0 <= i < |fewer| && fewer[i].payload.tradeId == Some(id);
        assert all[if i < |kept| then i else i + 1].payload.tradeId == Some(id);
      }
      if id in ids && id != own {
        var i :| 0 <= i < |all| && all[i].payload.tradeId == Some(id);
        assert fewer[if i < |kept| then i else i - 1].payload.tradeId == Some(id);
      }
    }
  }

  /** Insert into a FIFO-bounded set: a new id is queued and the oldest ones are forgotten. */
  method InsertBounded(ids: set<int>, order: seq<int>, id: int) returns (ids': set<int>, order': seq<int>)
    requires SameIds(ids, order)
    ensures SameIds(ids', order') && order' == Remember(order, id)
  {
    ids', order' := ids, order;
    if id !in ids' {
      PushId(ids, order, id);
      ids', order' := ids' + {id}, order' + [id];
      ghost var all := order';
      ghost var k := 0;
      while |order'| > ID_SET_CAP
        invariant SameIds(ids', order')
        invariant 0 <= k <= |all| && order' == all[k..]
        invariant k == 0 || |order'| >= ID_SET_CAP
      {
        PopId(ids', order');
        ids', order' := ids' - {order'[0]}, order'[1..];
        k := k + 1;
      }
    }
  }

  lemma PendingIsFramed(cfg: Config, a: Actor, p: Payload, generation: nat, pending: seq<Queued>)
    ensures var (b, d) := TryAccept(cfg, a, p, generation);
            TryAccept(cfg, a.(pending := pending), p, generation) == (b.(pending := pending), d)
  {
  }

  /** Retrying the next trade of the queue while the rest of it waits in place. */
  lemma RetryStep(cfg: Config, a: Actor, all: seq<Queued>, k: nat, b: Actor, kept: seq<Queued>)
    requires k < |all| && (b.(pending := all), kept) == RetryAll(cfg, a, all[..k])
    ensures var (c, kept') := RetryOne(cfg, b, kept, all[k]);
            (c.(pending := all), kept') == RetryAll(cfg, a, all[..k + 1])
  {
    assert all[..k + 1][..k] == all[..k];
    PendingIsFramed(cfg, b, all[k].payload, all[k].generation, all);
  }

  class Task {
    const cfg: Config
    const accounting: FillAccounting
    var strategyIds: set<int>
    var strategyOrder: seq<int>
    var seenIds: set<int>
    var seenOrder: seq<int>
    var pendingIds: set<int>
    var pending: seq<Queued>
    var generation: nat
    var strategyPnl: real
    var unattributedPnl: real
    var fillCount: nat
    var buyCount: nat
    var sellCount: nat
    var notional: real
    var duplicates: nat
    var unattributed: nat
    ghost var booked: seq<Booking>
    ghost var overflowed: seq<Queued>

    ghost function View(): Actor
      reads this, accounting
    {
      Actor(accounting.View(), strategyOrder, seenOrder, pending, generation,
            strategyPnl, unattributedPnl, fillCount, buyCount, sellCount,
            notional, duplicates, unattributed, booked, overflowed)
    }

    ghost predicate SetsMatch()
      reads this
    {
      SameIds(strategyIds, strategyOrder) && SameIds(seenIds, seenOrder) && accounting.makerFeeRate == cfg.feeRate
    }

    ghost predicate Valid()
      reads this
    {
      SetsMatch() && SamePending(pendingIds, pending)
    }

    /** A session on restored figures (all zero when nothing was saved). */
    constructor (cfg: Config, position: real, vwap: real, realized: real, fills: nat, volume: real)
      ensures Valid() && Fresh(View()) && this.cfg == cfg && fresh(accounting)
      ensures View().acct == FromSnapshot(cfg.feeRate, position, vwap, realized)
      ensures strategyPnl == realized && fillCount == fills && notional == volume
    {
      this.cfg := cfg;
      accounting := new FillAccounting.FromSnapshotState(cfg.feeRate, position, vwap, realized);
      strategyIds, strategyOrder, seenIds, seenOrder, pendingIds, pending := {}, [], {}, [], {}, [];
      generation, duplicates, unattributed := 0, 0, 0;
      strategyPnl, unattributedPnl, notional := realized, 0.0, volume;
      fillCount, buyCount, sellCount := fills, 0, 0;
      booked, overflowed := [], [];
    }

    method MarkSeen(id: int)
      requires SetsMatch()
      modifies this`seenIds, this`seenOrder
      ensures SetsMatch() && seenOrder == Remember(old(seenOrder), id)
    {
      seenIds, seenOrder := InsertBounded(seenIds, seenOrder, id);
    }

    method TryAcceptTrade(p: Payload, queued: nat) returns (d: Decision)
      requires SetsMatch()
      modifies this, accounting
      ensures SetsMatch() && pendingIds == old(pendingIds)
      ensures (View(), d) == TryAccept(cfg, old(View()), p, queued)
    {
      if p.tradeId.None? {
        return Skipped;
      }
      var id := p.tradeId.value;
      if id in seenIds {
        duplicates := duplicates + 1;
        return Accepted;
      }
      var found := FromTrade(p, cfg.account);
      if found.None? || found.value.trade.price <= 0.0 || found.value.trade.size <= 0.0 {
        return Skipped;
      }
      var fill := found.value;
      var own := (fill.clientId.Some? && fill.clientId.value in strategyIds) || cfg.includeUnattributed;
      if fill.clientId.Some? {
        Matched(strategyIds, strategyOrder, fill.clientId.value);
      }
      if !own && fill.clientId.Some? {
        return PendingClientId;
      }
      Book(id, fill, queued, own);
      d := Accepted;
    }

    /** Apply a current fill to the position; what it realized, by the exchange's word if given. */
    method Settle(fill: FillView, queued: nat) returns (delta: real)
      modifies accounting
      ensures var before := old(accounting.View());
              accounting.View() == if queued < generation then before else Applied(before, fill.trade)
      ensures delta == if fill.exchangePnl.Some? then fill.exchangePnl.value
                       else LocalDelta(old(View()), fill, queued < generation)
    {
      delta := 0.0;
      if queued >= generation {
        delta := accounting.Apply(fill.trade);
      }
      if fill.exchangePnl.Some? {
        delta := fill.exchangePnl.value;
      }
    }

    method Tally(id: int, fill: FillView, delta: real, own: bool)
      modifies this`strategyPnl, this`unattributedPnl, this`unattributed, this`fillCount
      modifies this`buyCount, this`sellCount, this`notional, this`booked
      ensures strategyPnl == old(strategyPnl) + (if own then delta else 0.0)
      ensures unattributedPnl == old(unattributedPnl) + (if own then 0.0 else delta)
      ensures unattributed == old(unattributed) + (if own then 0 else 1)
      ensures fillCount == old(fillCount) + 1 && notional == old(notional) + fill.notional
      ensures buyCount == old(buyCount) + (if fill.trade.side == Buy then 1 else 0)
      ensures sellCount == old(sellCount) + (if fill.trade.side == Sell then 1 else 0)
      ensures booked == old(booked) + [Booking(id, delta)]
    {
      if own {
        strategyPnl := strategyPnl + delta;
      } else {
        unattributedPnl := unattributedPnl + delta;
        unattributed := unattributed + 1;
      }
      fillCount := fillCount + 1;
      match fill.trade.side {
        case Buy => buyCount := buyCount + 1;
        case Sell => sellCount := sellCount + 1;
      }
      notional := notional + fill.notional;
      booked := booked + [Booking(id, delta)];
    }

    method Book(id: int, fill: FillView, queued: nat, own: bool)
      requires SetsMatch() && own == Attributed(cfg, View(), fill)
      modifies this, accounting
      ensures SetsMatch() && pendingIds == old(pendingIds)
      ensures View() == Booked(cfg, old(View()), id, fill, queued)
    {
      var delta := Settle(fill, queued);
      MarkSeen(id);
      Tally(id, fill, delta, own);
    }

    /** Queue a trade whose client id is not registered yet. */
    method Enqueue(p: Payload, queued: nat)
      requires Valid() && p.tradeId.Some? && p.tradeId.value !in pendingIds
      modifies this`pendingIds, this`pending, this`unattributed, this`overflowed
      ensures Valid() && View() == Enqueued(old(View()), Queued(p, queued))
    {
      PushPending(pendingIds, pending, Queued(p, queued));
      pendingIds, pending := pendingIds + {p.tradeId.value}, pending + [Queued(p, queued)];
      ghost var all, lost, count := pending, overflowed, unattributed;
      ghost var k := 0;
      while |pending| > PENDING_LIMIT
        invariant SamePending(pendingIds, pending)
        invariant 0 <= k <= |all| && pending == all[k..]
        invariant k == 0 || |pending| >= PENDING_LIMIT
        invariant overflowed == lost + all[..k] && unattributed == count + k
      {
        PopPending(pendingIds, pending);
        assert pending[0] == all[k] && all[..k + 1] == all[..k] + [all[k]];
        var oldest := pending[0];
        pendingIds, pending := pendingIds - {oldest.payload.tradeId.value}, pending[1..];
        unattributed := unattributed + 1;
        overflowed := overflowed + [oldest];
        k := k + 1;
      }
    }

    method ProcessTrade(p: Payload)
      requires Valid()
      modifies this, accounting
      ensures Valid() && View() == ProcessOrQueue(cfg, old(View()), p)
    {
      if p.tradeId.None? {
        unattributed := unattributed + 1;
        return;
      }
      if p.tradeId.value in seenIds {
        duplicates := duplicates + 1;
        return;
      }
      if p.tradeId.value in pendingIds {
        return;
      }
      var queued := generation;
      var d := TryAcceptTrade(p, queued);
      match d {
        case Accepted =>
        case PendingClientId => Enqueue(p, queued);
        case Skipped => unattributed := unattributed + 1;
      }
    }

    /** Retry the front of the queue, already taken off it. */
    method RetryFront(kept: seq<Queued>, q: Queued) returns (kept': seq<Queued>)
      requires SetsMatch() && SamePending(pendingIds, kept + ([q] + pending))
      modifies this, accounting
      ensures SetsMatch() && SamePending(pendingIds, kept' + pending) && pending == old(pending)
      ensures (View(), kept') == RetryOne(cfg, old(View()), kept, q)
    {
      RotatePending(pendingIds, kept, q, pending);
      ghost var ids := pendingIds;
      var id := q.payload.tradeId.value;
      pendingIds := pendingIds - {id};
      var d := TryAcceptTrade(q.payload, q.generation);
      kept' := kept;
      match d {
        case Accepted =>
        case PendingClientId =>
          pendingIds, kept' := pendingIds + {id}, kept + [q];
          assert forall x :: x in pendingIds <==> x in ids;
        case Skipped => unattributed := unattributed + 1;
      }
    }

    /** The queue being drained: `k` trades of `all` retried, `kept` of them still waiting. */
    ghost predicate Draining(a: Actor, all: seq<Queued>, k: nat, kept: seq<Queued>)
      reads this, accounting
    {
      && k <= |all| && pending == all[k..]
      && SetsMatch() && SamePending(pendingIds, kept + pending)
      && (View().(pending := all), kept) == RetryAll(cfg, a, all[..k])
    }

    method RetryNext(kept: seq<Queued>, ghost a: Actor, ghost all: seq<Queued>, ghost k: nat)
      returns (kept': seq<Queued>)
      requires Draining(a, all, k, kept) && |pending| > 0
      modifies this, accounting
      ensures k < |all| && Draining(a, all, k + 1, kept')
    {
      var q := pending[0];
      assert pending == [q] + pending[1..];
      pending := pending[1..];
      RetryStep(cfg, a, all, k, View(), kept);
      kept' := RetryFront(kept, q);
    }

    method RetryQueue()
      requires Valid()
      modifies this, accounting
      ensures Valid() && View() == RetryPending(cfg, old(View()))
    {
      ghost var a, all := View(), pending;
      var kept: seq<Queued> := [];
      ghost var k := 0;
      assert all[..0] == [] && [] + pending == pending;
      while |pending| > 0
        invariant Draining(a, all, k, kept)
        decreases |all| - k
      {
        kept := RetryNext(kept, a, all, k);
        k := k + 1;
      }
      assert all[..k] == all && kept + pending == kept;
      pending := kept;
    }

    /** Adopt an exchange position snapshot and open a new sync generation. */
    method AdoptPosition(p: Position)
      requires Valid()
      modifies this`generation, accounting
      ensures Valid() && View() == UpdatePosition(cfg, old(View()), p)
    {
      if Abs(p.signed) < EPSILON || p.vwap.Some? {
        accounting.Reseed(p.signed, if p.vwap.Some? then p.vwap.value else 0.0, strategyPnl);
        generation := generation + 1;
      }
    }

    method Register(ids: seq<int>)
      requires Valid()
      modifies this`strategyIds, this`strategyOrder
      ensures Valid() && strategyOrder == Registered(old(strategyOrder), ids)
    {
      for i := 0 to |ids|
        invariant Valid() && strategyOrder == Registered(old(strategyOrder), ids[..i])
      {
        assert ids[..i + 1][..i] == ids[..i];
        if ids[i] > 0 {
          strategyIds, strategyOrder := InsertBounded(strategyIds, strategyOrder, ids[i]);
        }
      }
      assert ids[..|ids|] == ids;
    }

    method ProcessTrades(trades: seq<Payload>)
      requires Valid()
      modifies this, accounting
      ensures Valid() && View() == ProcessAll(cfg, old(View()), trades)
    {
      for i := 0 to |trades|
        invariant Valid() && View() == ProcessAll(cfg, old(View()), trades[..i])
      {
        assert trades[..i + 1][..i] == trades[..i];
        ProcessTrade(trades[i]);
      }
      assert trades[..|trades|] == trades;
    }

    method Handle(e: Event)
      requires Valid()
      modifies this, accounting
      ensures Valid() && View() == HandleEvent(cfg, old(View()), e)
    {
      match e {
        case RegisterClientIds(ids) =>
          Register(ids);
          RetryQueue();
        case AccountAll(position, trades) =>
          ProcessTrades(trades);
          RetryQueue();
          if position.Some? {
            AdoptPosition(position.value);
          }
      }
    }

    /** Every event sequence, from a fresh session: the class ends in the state the machine
        prescribes, with its sets matching its queues and its books sound. */
    method Serve(es: seq<Event>)
      requires Valid() && Fresh(View())
      modifies this, accounting
      ensures Valid() && View() == PnlActor.Run(cfg, old(View()), es)
      ensures Sound(cfg, old(View()), View())
    {
      for i := 0 to |es|
        invariant Valid() && View() == PnlActor.Run(cfg, old(View()), es[..i])
      {
        assert es[..i + 1][..i] == es[..i];
        Handle(es[i]);
      }
      assert es[..|es|] == es;
      RunIsSound(cfg, old(View()), es);
    }
  }
}
