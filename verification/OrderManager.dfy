/**
The order manager as it runs: two slot vectors, the id map and the id counter, changed in place.
Each operation is tied to its effect on the state described in module OrderSlots.
*/
module OrderManager {
  import opened Common
  import opened Orders
  import opened OrderSlots

  /** The two slot vectors in ladder order. */
  ghost function Interleaved(bids: seq<Slot>, asks: seq<Slot>): (r: seq<Slot>)
    requires |bids| == |asks|
    ensures |r| == 2 * |bids|
    ensures forall m :: 0 <= m < |r| ==> r[m] == if m % 2 == 0 then bids[m / 2] else asks[m / 2]
  {
    seq(2 * |bids|, m requires 0 <= m < 2 * |bids| => if m % 2 == 0 then bids[m / 2] else asks[m / 2])
  }

  lemma SetBid(bids: seq<Slot>, asks: seq<Slot>, level: nat, slot: Slot)
    requires level < |bids| == |asks|
    ensures Interleaved(bids[level := slot], asks) == Interleaved(bids, asks)[Pos(Buy, level) := slot]
  {
  }

  lemma SetAsk(bids: seq<Slot>, asks: seq<Slot>, level: nat, slot: Slot)
    requires level < |bids| == |asks|
    ensures Interleaved(bids, asks[level := slot]) == Interleaved(bids, asks)[Pos(Sell, level) := slot]
  {
  }

  lemma LiveIdsInterleaved(bids: seq<Slot>, asks: seq<Slot>)
    requires |bids| == |asks|
    ensures LiveIds(bids) + LiveIds(asks) == LiveIds(Interleaved(bids, asks))
  {
    var all := Interleaved(bids, asks);
    forall id
      ensures id in LiveIds(bids) + LiveIds(asks) <==> id in LiveIds(all)
    {
      if id in LiveIds(bids) {
        var l :| 0 <= l < |bids| && bids[l].orderId == Some(id);
        assert all[2 * l] == bids[l];
      }
      if id in LiveIds(asks) {
        var l :| 0 <= l < |asks| && asks[l].orderId == Some(id);
        assert all[2 * l + 1] == asks[l];
      }
    }
  }

  lemma {:induction false} FirstHoldingIs(slots: seq<Slot>, clientId: int, from: nat, m: nat)
    requires from <= m <= |slots|
    requires m < |slots| ==> slots[m].orderId == Some(clientId)
    requires forall k :: from <= k < m ==> slots[k].orderId != Some(clientId)
    ensures FirstHolding(slots, clientId, from) == m
  {
  }

  // ---- Trimming the id map -----------------------------------------------

  method MaxOf(s: set<int>) returns (x: int)
    requires exists y :: y in s
    ensures x in s && forall y :: y in s ==> y <= x
  {
    x :| x in s;
    var rest := s - {x};
    while exists y :: y in rest
      invariant rest < s && x in s
      invariant forall y :: y in s && y !in rest ==> y <= x
      decreases |rest|
    {
      var y :| y in rest;
      rest := rest - {y};
      if y > x {
        x := y;
      }
    }
  }

  /** The `n` largest elements of a set, or all of it. */
  method TakeLargest(s: set<int>, n: nat) returns (taken: set<int>)
    ensures forall x :: x in taken <==> x in s && |set y | y in s && y > x| < n
  {
    taken := {};
    var rest := s;
    while |taken| < n && exists y :: y in rest
      invariant taken !! rest && taken + rest == s && |taken| <= n
      invariant forall x, y :: x in taken && y in rest ==> y < x
      decreases |rest|
    {
      var x := MaxOf(rest);
      taken, rest := taken + {x}, rest - {x};
    }
    forall x
      ensures x in taken <==> x in s && |set y | y in s && y > x| < n
    {
      if x in s {
        LargestRank(s, taken, rest, n, x);
      }
    }
  }

  lemma LargestRank(s: set<int>, taken: set<int>, rest: set<int>, n: nat, x: int)
    requires taken !! rest && taken + rest == s && |taken| <= n && x in s
    requires forall x, y :: x in taken && y in rest ==> y < x
    requires |taken| == n || !exists y :: y in rest
    ensures x in taken <==> |set y | y in s && y > x| < n
  {
    var above := set y | y in s && y > x;
    if x in taken {
      assert above <= taken - {x};
      SubsetSize(above, taken - {x});
    } else {
      assert x in rest;
      assert taken <= above;
      SubsetSize(taken, above);
    }
  }

  /** Keep the live ids and the 100 largest of the others. */
  method Trim(ids: map<int, int>, live: set<int>) returns (kept: map<int, int>)
    ensures kept == Trimmed(ids, live)
  {
    var others := set k | k in ids && k !in live;
    var newest := TakeLargest(others, ID_MAP_RECENT);
    kept := map k | k in ids && (k in live || k in newest) :: ids[k];
    forall k | k in ids && k !in live
      ensures k in newest <==> Keeps(ids, live, k)
    {
      assert (set y | y in others && y > k) == NewerExtras(ids, live, k);
    }
    assert forall k :: k in kept <==> k in Trimmed(ids, live);
    assert kept == Trimmed(ids, live);
  }

  // ---- The manager -------------------------------------------------------

  class OrderManager {
    const numLevels: nat
    const amountTick: real
    var bids: seq<Slot>
    var asks: seq<Slot>
    var clientToExchange: map<int, int>
    var lastClientOrderIndex: int

    ghost predicate Valid()
      reads this
    {
      |bids| == numLevels && |asks| == numLevels
    }

    ghost function View(): (s: State)
      requires Valid()
      reads this
      ensures |s.slots| == 2 * numLevels
    {
      State(Interleaved(bids, asks), clientToExchange, lastClientOrderIndex)
    }

    constructor (levels: nat, tick: real, now: int)
      ensures Valid() && numLevels == levels && amountTick == tick
      ensures View() == State(seq(2 * levels, m => IdleSlot(now)), map[], 0)
    {
      numLevels, amountTick := levels, tick;
      bids, asks := seq(levels, i => IdleSlot(now)), seq(levels, i => IdleSlot(now));
      clientToExchange, lastClientOrderIndex := map[], 0;
      new;
      assert Interleaved(bids, asks) == seq(2 * levels, m => IdleSlot(now));
    }

    function SlotAt(side: Side, level: nat): (s: Slot)
      requires Valid() && level < numLevels
      reads this
      ensures s == View().slots[Pos(side, level)]
    {
      match side case Buy => bids[level] case Sell => asks[level]
    }

    method SetSlot(side: Side, level: nat, slot: Slot)
      requires Valid() && level < numLevels
      modifies this`bids, this`asks
      ensures Valid() && View() == old(View()).(slots := old(View()).slots[Pos(side, level) := slot])
    {
      match side {
        case Buy =>
          SetBid(bids, asks, level, slot);
          bids := bids[level := slot];
        case Sell =>
          SetAsk(bids, asks, level, slot);
          asks := asks[level := slot];
      }
    }

    method NextClientOrderIndex(nowNs: int) returns (id: int)
      requires Valid()
      modifies this`lastClientOrderIndex
      ensures id == NextId(old(lastClientOrderIndex), nowNs) && lastClientOrderIndex == id
    {
      id := nowNs % MAX_CLIENT_ORDER_INDEX;
      if id <= lastClientOrderIndex {
        id := (lastClientOrderIndex + 1) % (MAX_CLIENT_ORDER_INDEX + 1);
      }
      if id == 0 {
        id := 1;
      }
      lastClientOrderIndex := id;
    }

    /** The operation one slot needs, if any. */
    method CollectOne(side: Side, level: nat, target: Option<real>, c: Cycle) returns (op: Option<BatchOp>)
      requires Valid() && level < numLevels && level < |c.prices| && target == Target(c, Pos(side, level))
      modifies this`lastClientOrderIndex
      ensures op == Decide(amountTick, View().slots[Pos(side, level)], clientToExchange, c, Pos(side, level),
                           NextId(old(lastClientOrderIndex), c.nowNs))
      ensures lastClientOrderIndex == if op.Some? && op.value.action == Create
                                      then NextId(old(lastClientOrderIndex), c.nowNs) else old(lastClientOrderIndex)
    {
      var slot := SlotAt(side, level);
      var reduceOnly := IsReducingSide(side, c.position);
      if target.None? {
        if c.hold || slot.orderId.None? || slot.orderId.value !in clientToExchange {
          return None;
        }
        var cid := slot.orderId.value;
        return Some(BatchOp(side, level, Cancel, 0.0, 0.0, cid, Some(clientToExchange[cid]), false));
      }
      var price := target.value;
      if c.size <= 0.0 || price <= 0.0 {
        return None;
      }
      if slot.orderId.None? {
        var id := NextClientOrderIndex(c.nowNs);
        return Some(BatchOp(side, level, Create, price, c.size, id, None, reduceOnly));
      }
      var cid := slot.orderId.value;
      if c.hold || cid !in clientToExchange {
        return None;
      }
      var change := PriceChangeBps(if slot.price.Some? then slot.price.value else 0.0, price);
      if slot.price.Some? && change <= c.threshold && !SizeChanged(amountTick, slot.size, c.size) {
        return None;
      }
      op := Some(BatchOp(side, level, Modify, price, c.size, cid, Some(clientToExchange[cid]), reduceOnly));
    }

    /** Extend the batch by one slot. */
    method CollectNext(side: Side, level: nat, c: Cycle, ops: seq<BatchOp>, ghost s: State) returns (ops': seq<BatchOp>)
      requires Valid() && level < |c.prices| <= numLevels && View() == s.(lastId := lastClientOrderIndex)
      requires (ops, lastClientOrderIndex) == Collect(amountTick, s, c, Pos(side, level))
      modifies this`lastClientOrderIndex
      ensures View() == s.(lastId := lastClientOrderIndex)
      ensures (ops', lastClientOrderIndex) == Collect(amountTick, s, c, Pos(side, level) + 1)
    {
      var target := match side case Buy => c.prices[level].0 case Sell => c.prices[level].1;
      var op := CollectOne(side, level, target, c);
      ops' := ops;
      if op.Some? {
        ops' := ops + [op.value];
      }
    }

    /** Diff the target ladder against the tracked slots. */
    method CollectOrderOperations(c: Cycle) returns (ops: seq<BatchOp>)
      requires Valid() && |c.prices| <= numLevels
      modifies this`lastClientOrderIndex
      ensures (ops, lastClientOrderIndex) == CollectAll(amountTick, old(View()), c)
      ensures View() == old(View()).(lastId := lastClientOrderIndex)
    {
      ops := [];
      for level := 0 to |c.prices|
        invariant View() == old(View()).(lastId := lastClientOrderIndex)
        invariant (ops, lastClientOrderIndex) == Collect(amountTick, old(View()), c, Pos(Buy, level))
      {
        ops := CollectNext(Buy, level, c, ops, old(View()));
        ops := CollectNext(Sell, level, c, ops, old(View()));
      }
    }

    method MarkPending(op: BatchOp, now: int)
      requires Valid() && op.level < numLevels
      modifies this`bids, this`asks
      ensures Valid() && View() == Mark(old(View()), op, now)
    {
      var s := SlotAt(op.side, op.level);
      match op.action {
        case Create =>
          s := s.(orderId := Some(op.clientId), price := Some(op.price), size := Some(op.size), status := Placing);
        case Modify =>
          s := s.(price := Some(op.price), size := Some(op.size), status := Modifying);
        case Cancel =>
          s := s.(status := Canceling);
      }
      SetSlot(op.side, op.level, s.(updatedAt := now, miss := 0));
    }

    /** Occupy every slot of a batch before it is handed to the sender. */
    method MarkBatch(ops: seq<BatchOp>, now: int)
      requires Valid() && OpsFit(ops, 2 * numLevels)
      modifies this`bids, this`asks
      ensures Valid() && View() == MarkAll(old(View()), ops, now)
    {
      for i := 0 to |ops|
        invariant Valid() && View() == MarkAll(old(View()), ops[..i], now)
      {
        assert ops[..i + 1][..i] == ops[..i];
        MarkPending(ops[i], now);
      }
      assert ops[..|ops|] == ops;
    }

    method ClearAllSlots(now: int)
      requires Valid()
      modifies this`bids, this`asks
      ensures Valid() && View() == old(View()).(slots := seq(2 * numLevels, m => IdleSlot(now)))
    {
      for level := 0 to numLevels
        invariant Valid() && View() == old(View()).(slots := View().slots)
        invariant forall m :: 0 <= m < 2 * level ==> View().slots[m] == IdleSlot(now)
      {
        SetSlot(Buy, level, IdleSlot(now));
        SetSlot(Sell, level, IdleSlot(now));
      }
      assert View().slots == seq(2 * numLevels, m => IdleSlot(now));
    }

    method RecordIdMapping(clientId: int, exchangeId: int)
      requires Valid()
      modifies this`clientToExchange
      ensures View() == Record(old(View()), clientId, exchangeId)
    {
      LiveIdsInterleaved(bids, asks);
      clientToExchange := clientToExchange[clientId := exchangeId];
      if |clientToExchange| > ID_MAP_CAP {
        clientToExchange := Trim(clientToExchange, LiveIds(bids) + LiveIds(asks));
      }
    }

    method ApplyFill(clientId: int, filledSize: real, now: int)
      requires Valid()
      modifies this`bids, this`asks
      ensures Valid() && View() == Handle(amountTick, old(View()), Fill(clientId, filledSize), now)
    {
      for level := 0 to numLevels
        invariant Valid() && View() == old(View())
        invariant forall m :: 0 <= m < 2 * level ==> View().slots[m].orderId != Some(clientId)
      {
        for k := 0 to 2
          invariant Valid() && View() == old(View())
          invariant forall m :: 0 <= m < 2 * level + k ==> View().slots[m].orderId != Some(clientId)
        {
          var side := if k == 0 then Buy else Sell;
          var s := SlotAt(side, level);
          assert Pos(side, level) == 2 * level + k;
          if s.orderId == Some(clientId) {
            FirstHoldingIs(View().slots, clientId, 0, 2 * level + k);
            SetSlot(side, level, Filled(amountTick, s, filledSize, now));
            return;
          }
        }
      }
      FirstHoldingIs(View().slots, clientId, 0, 2 * numLevels);
    }

    /** Drain one hot order event. */
    method ApplyEvent(e: OrderEvent, now: int)
      requires Valid() && EventFits(e, 2 * numLevels)
      modifies this`bids, this`asks, this`clientToExchange
      ensures Valid() && View() == Handle(amountTick, old(View()), e, now)
    {
      match e {
        case BindLive(side, level, clientId, exchangeId, price, size) =>
          if exchangeId.Some? {
            RecordIdMapping(clientId, exchangeId.value);
          }
          SetSlot(side, level, Bound(clientId, price, size, now));
        case ClearLive(side, level, clientId) =>
          if clientId == 0 || SlotAt(side, level).orderId == Some(clientId) {
            SetSlot(side, level, IdleSlot(now));
          }
        case ClearAll => ClearAllSlots(now);
        case IdResolved(clientId, resolvedId) => RecordIdMapping(clientId, resolvedId);
        case Fill(clientId, filledSize) => ApplyFill(clientId, filledSize, now);
      }
    }

    method UpdateIdMapping(remote: seq<Remote>)
      requires Valid()
      modifies this`clientToExchange
      ensures View() == RecordRemote(old(View()), remote)
    {
      for i := 0 to |remote|
        invariant View() == RecordRemote(old(View()), remote[..i])
      {
        assert remote[..i + 1][..i] == remote[..i];
        var o := remote[i];
        if o.clientId.Some? && o.orderIndex.Some? {
          RecordIdMapping(o.clientId.value, o.orderIndex.value);
        }
      }
      assert remote[..|remote|] == remote;
    }

    method DebounceSlot(side: Side, level: nat, live: set<int>, ghost remote: seq<Remote>, now: int)
      requires Valid() && level < numLevels
      requires forall id :: id in live <==> ShownLive(remote, id)
      modifies this`bids, this`asks
      ensures Valid() && View() == old(View()).(slots := old(View()).slots[
                Pos(side, level) := Debounced(old(View()).slots[Pos(side, level)], remote, now)])
    {
      var s := SlotAt(side, level);
      var aged := now - s.updatedAt >= GRACE;
      if s.orderId.Some? {
        var id: int := s.orderId.value;
        if id in live {
          s := s.(miss := 0);
        } else {
          s := s.(miss := s.miss + 1);
          if s.miss >= MISSING_DEBOUNCE && aged {
            s := IdleSlot(now);
          }
        }
      }
      SetSlot(side, level, s);
    }

    method DebounceAll(live: set<int>, ghost remote: seq<Remote>, now: int)
      requires Valid()
      requires forall id :: id in live <==> ShownLive(remote, id)
      modifies this`bids, this`asks
      ensures Valid() && View() == old(View()).(slots := View().slots)
      ensures forall m :: 0 <= m < 2 * numLevels ==> View().slots[m] == Debounced(old(View()).slots[m], remote, now)
    {
      for level := 0 to numLevels
        invariant Valid() && View() == old(View()).(slots := View().slots)
        invariant forall m :: 0 <= m < 2 * level ==> View().slots[m] == Debounced(old(View()).slots[m], remote, now)
        invariant forall m :: 2 * level <= m < 2 * numLevels ==> View().slots[m] == old(View()).slots[m]
      {
        DebounceSlot(Buy, level, live, remote, now);
        DebounceSlot(Sell, level, live, remote, now);
      }
    }

    method RefreshSlot(side: Side, level: nat, byClient: map<int, Remote>, ghost remote: seq<Remote>, now: int)
      requires Valid() && level < numLevels
      requires forall id :: if id in byClient then RowOf(remote, id) == Some(byClient[id]) else RowOf(remote, id).None?
      modifies this`bids, this`asks
      ensures Valid() && View() == old(View()).(slots := old(View()).slots[
                Pos(side, level) := Refreshed(old(View()).slots[Pos(side, level)], side, remote, now)])
    {
      var s := SlotAt(side, level);
      if s.orderId.Some? {
        var id: int := s.orderId.value;
        if id in byClient && !WrongSide(side, byClient[id].isAsk) {
          var price, size := OrElse(byClient[id].price, s.price), OrElse(byClient[id].remaining, s.size);
          s := if price.Some? && size.Some? then Bound(id, price.value, size.value, now)
               else s.(status := Live, updatedAt := now);
        }
      }
      SetSlot(side, level, s);
    }

    method RefreshLevel(level: nat, byClient: map<int, Remote>, ghost remote: seq<Remote>, now: int)
      requires Valid() && level < numLevels
      requires forall id :: if id in byClient then RowOf(remote, id) == Some(byClient[id]) else RowOf(remote, id).None?
      modifies this`bids, this`asks
      ensures Valid() && View() == old(View()).(slots := View().slots)
      ensures forall m :: 0 <= m < 2 * numLevels ==>
                View().slots[m] == if LevelOf(m) == level then Refreshed(old(View()).slots[m], SideOf(m), remote, now)
                                   else old(View()).slots[m]
    {
      RefreshSlot(Buy, level, byClient, remote, now);
      RefreshSlot(Sell, level, byClient, remote, now);
    }

    method RefreshAll(byClient: map<int, Remote>, ghost remote: seq<Remote>, now: int)
      requires Valid()
      requires forall id :: if id in byClient then RowOf(remote, id) == Some(byClient[id]) else RowOf(remote, id).None?
      modifies this`bids, this`asks
      ensures Valid() && View() == old(View()).(slots := View().slots)
      ensures forall m :: 0 <= m < 2 * numLevels ==>
                View().slots[m] == Refreshed(old(View()).slots[m], SideOf(m), remote, now)
    {
      for level := 0 to numLevels
        invariant Valid() && View() == old(View()).(slots := View().slots)
        invariant forall m :: 0 <= m < 2 * level ==>
                    View().slots[m] == Refreshed(old(View()).slots[m], SideOf(m), remote, now)
        invariant forall m :: 2 * level <= m < 2 * numLevels ==> View().slots[m] == old(View()).slots[m]
      {
        RefreshLevel(level, byClient, remote, now);
      }
    }

    method ByClient(remote: seq<Remote>) returns (rows: map<int, Remote>)
      ensures forall id :: if id in rows then RowOf(remote, id) == Some(rows[id]) else RowOf(remote, id).None?
    {
      rows := map[];
      for i := 0 to |remote|
        invariant forall id :: if id in rows then RowOf(remote[..i], id) == Some(rows[id])
                               else RowOf(remote[..i], id).None?
      {
        assert remote[..i + 1][..i] == remote[..i];
        if remote[i].clientId.Some? {
          rows := rows[remote[i].clientId.value := remote[i]];
        }
      }
      assert remote[..|remote|] == remote;
    }

    /** Apply a full snapshot of the account's active orders. */
    method ProcessReconcile(remote: seq<Remote>, now: int)
      requires Valid()
      modifies this`bids, this`asks, this`clientToExchange
      ensures Valid() && View() == Reconcile(old(View()), remote, now)
    {
      UpdateIdMapping(remote);
      var live := set i | 0 <= i < |remote| && remote[i].isLive && remote[i].clientId.Some? :: remote[i].clientId.value;
      assert forall id :: id in live <==> ShownLive(remote, id);
      DebounceAll(live, remote, now);
      var byClient := ByClient(remote);
      RefreshAll(byClient, remote, now);
      assert View().slots == Reconcile(old(View()), remote, now).slots;
    }

    /** The batch holds the cancels of the first `n` positions. */
    ghost predicate CancelsTo(ops: seq<BatchOp>, n: nat)
      requires Valid() && n <= 2 * numLevels
      reads this
    {
      ops == CancelOps(View(), n)
    }

    /** The cancel one slot needs when the ladder is taken down, appended to the batch. */
    method CancelNext(side: Side, level: nat, ops: seq<BatchOp>) returns (ops': seq<BatchOp>)
      requires Valid() && level < numLevels && CancelsTo(ops, Pos(side, level))
      ensures CancelsTo(ops', Pos(side, level) + 1)
    {
      var s := SlotAt(side, level);
      ops' := ops;
      if s.status != Canceling && s.orderId.Some? && s.orderId.value in clientToExchange {
        var cid := s.orderId.value;
        ops' := ops + [BatchOp(side, level, Cancel, 0.0, 0.0, cid, Some(clientToExchange[cid]), false)];
      }
    }

    method CollectCancelOps() returns (ops: seq<BatchOp>)
      requires Valid()
      ensures ops == CancelOps(View(), 2 * numLevels)
    {
      ops := [];
      for level := 0 to numLevels
        invariant CancelsTo(ops, Pos(Buy, level))
      {
        ops := CancelNext(Buy, level, ops);
        ops := CancelNext(Sell, level, ops);
      }
    }
  }
}
