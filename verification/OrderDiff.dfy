/** The diff converges: an acknowledged batch leaves nothing for the next cycle to do. */
module OrderDiff {
  import opened Common
  import opened Orders
  import opened OrderSlots

  /** Operations in ladder order, hence at most one per slot. */
  ghost predicate Ordered(ops: seq<BatchOp>) {
    forall i, j :: 0 <= i < j < |ops| ==> OpPos(ops[i]) < OpPos(ops[j])
  }

  /** The operation of a batch that addresses position `m`. */
  function OpFor(ops: seq<BatchOp>, m: nat): Option<BatchOp> {
    if ops == [] then None
    else if OpPos(ops[|ops| - 1]) == m then Some(ops[|ops| - 1])
    else OpFor(ops[..|ops| - 1], m)
  }

  lemma {:induction false} NoOpBeyond(ops: seq<BatchOp>, m: nat)
    requires OpsFit(ops, m)
    ensures OpFor(ops, m).None?
  {
    if ops != [] {
      NoOpBeyond(ops[..|ops| - 1], m);
    }
  }

  /** Modifies and cancels name the slot's own order and its known exchange id. */
  ghost predicate Faithful(s: State, op: BatchOp) {
    && OpPos(op) < |s.slots|
    && (op.action == Create <==> s.slots[OpPos(op)].orderId.None?)
    && (op.action != Create ==> s.slots[OpPos(op)].orderId == Some(op.clientId))
    && (op.exchangeId.Some? ==> op.clientId in s.ids && s.ids[op.clientId] == op.exchangeId.value)
  }

  ghost predicate Shaped(s: State, ops: seq<BatchOp>, n: nat) {
    OpsFit(ops, n) && Ordered(ops) && AllFaithful(s, ops)
  }

  ghost predicate AllFaithful(s: State, ops: seq<BatchOp>) {
    forall i :: 0 <= i < |ops| ==> Faithful(s, ops[i])
  }

  lemma DecideFaithful(tick: real, s: State, c: Cycle, m: nat, newId: int)
    requires m < 2 * |c.prices| <= |s.slots|
    ensures var op := Decide(tick, s.slots[m], s.ids, c, m, newId);
            op.Some? ==> OpPos(op.value) == m && Faithful(s, op.value)
  {
  }

  lemma CollectStep(tick: real, s: State, c: Cycle, n: nat)
    requires n < 2 * |c.prices| <= |s.slots|
    ensures var (before, last) := Collect(tick, s, c, n);
            Collect(tick, s, c, n + 1).0
            == Appended(before, Decide(tick, s.slots[n], s.ids, c, n, NextId(last, c.nowNs)))
  {
  }

  lemma AppendKeepsShape(s: State, ops: seq<BatchOp>, op: Option<BatchOp>, n: nat)
    requires Shaped(s, ops, n)
    requires op.Some? ==> OpPos(op.value) == n && Faithful(s, op.value)
    ensures Shaped(s, Appended(ops, op), n + 1)
  {
  }

  /** A batch addresses each slot at most once, in ladder order, and only orders the slots hold. */
  lemma {:induction false} CollectShape(tick: real, s: State, c: Cycle, n: nat)
    requires n <= 2 * |c.prices| <= |s.slots|
    ensures Shaped(s, Collect(tick, s, c, n).0, n)
  {
    if n > 0 {
      CollectShape(tick, s, c, n - 1);
      CollectStepShape(tick, s, c, n - 1);
    }
  }

  lemma CollectStepShape(tick: real, s: State, c: Cycle, n: nat)
    requires n < 2 * |c.prices| <= |s.slots| && Shaped(s, Collect(tick, s, c, n).0, n)
    ensures Shaped(s, Collect(tick, s, c, n + 1).0, n + 1)
  {
    var (before, last) := Collect(tick, s, c, n);
    var newId := NextId(last, c.nowNs);
    var op := Decide(tick, s.slots[n], s.ids, c, n, newId);
    DecideFaithful(tick, s, c, n, newId);
    AppendKeepsShape(s, before, op, n);
    assert Collect(tick, s, c, n + 1).0 == Appended(before, op);
  }

  lemma OpForAppended(ops: seq<BatchOp>, op: Option<BatchOp>, n: nat, m: nat)
    requires OpsFit(ops, n) && m <= n && (op.Some? ==> OpPos(op.value) == n)
    ensures OpFor(Appended(ops, op), m) == if m < n then OpFor(ops, m) else op
  {
    if op.Some? {
      assert Appended(ops, op)[..|ops|] == ops;
    }
    if m == n {
      NoOpBeyond(ops, n);
    }
  }

  /** Which operation, if any, a batch holds for a slot. */
  lemma {:induction false} CollectOpFor(tick: real, s: State, c: Cycle, n: nat, m: nat)
    requires m < n <= 2 * |c.prices| <= |s.slots|
    ensures OpFor(Collect(tick, s, c, n).0, m)
         == Decide(tick, s.slots[m], s.ids, c, m, NextId(Collect(tick, s, c, m).1, c.nowNs))
  {
    var (before, last) := Collect(tick, s, c, n - 1);
    var newId := NextId(last, c.nowNs);
    CollectStep(tick, s, c, n - 1);
    CollectShape(tick, s, c, n - 1);
    DecideFaithful(tick, s, c, n - 1, newId);
    OpForAppended(before, Decide(tick, s.slots[n - 1], s.ids, c, n - 1, newId), n - 1, m);
    if m < n - 1 {
      CollectOpFor(tick, s, c, n - 1, m);
    }
  }

  lemma {:induction false} OpForMember(s: State, ops: seq<BatchOp>, m: nat)
    requires AllFaithful(s, ops) && OpFor(ops, m).Some?
    ensures Faithful(s, OpFor(ops, m).value) && OpPos(OpFor(ops, m).value) == m
  {
    if OpPos(ops[|ops| - 1]) != m {
      OpForMember(s, ops[..|ops| - 1], m);
    }
  }

  // ---- What the first collect does, in plain arithmetic ------------------

  lemma BpsWithin(before: real, after: real, threshold: real)
    requires before > 0.0
    ensures PriceChangeBps(before, after) <= threshold <==> Abs(after - before) * 10000.0 <= threshold * before
  {
    var move := Abs(after - before);
    assert move / before * before == move;
    ScaledOrder(move / before * 10000.0, threshold, before);
    assert move / before * 10000.0 * before == move * 10000.0;
  }

  lemma ScaledOrder(x: real, y: real, k: real)
    requires k > 0.0
    ensures x <= y <==> x * k <= y * k
  {
  }

  /** A resting quote that need not move: its price is within the threshold of the target, in basis
      points of itself, and its size within a tick of the wanted one. A price that is not positive
      counts as infinitely far off, which is 1e18. */
  predicate CloseEnough(tick: real, slot: Slot, price: real, size: real, threshold: real) {
    && slot.price.Some? && slot.size.Some?
    && Abs(slot.size.value - size) < Max(tick, EPSILON)
    && var q := slot.price.value;
       if q > 0.0 then Abs(price - q) * 10000.0 <= threshold * q else threshold >= 1000000000000000000.0
  }

  lemma CloseEnoughIff(tick: real, slot: Slot, price: real, size: real, threshold: real)
    ensures NeedsModify(tick, slot, price, size, threshold) <==> !CloseEnough(tick, slot, price, size, threshold)
  {
    if slot.price.Some? && slot.price.value > 0.0 {
      BpsWithin(slot.price.value, price, threshold);
    }
  }

  /** Sells reduce a long position and buys a short one. */
  predicate Reduces(side: Side, position: real) {
    match side case Buy => position < -EPSILON case Sell => position > EPSILON
  }

  /** The whole first collect, slot by slot: an idle slot with a target is created in, a resolved slot
      without one is cancelled, and a resolved quote is left alone exactly when it is close enough. */
  lemma CollectTable(tick: real, s: State, c: Cycle, m: nat)
    requires m < 2 * |c.prices| <= |s.slots|
    ensures var slot, target := s.slots[m], if m % 2 == 0 then c.prices[m / 2].0 else c.prices[m / 2].1;
            var side, op := if m % 2 == 0 then Buy else Sell, OpFor(CollectAll(tick, s, c).0, m);
            var resolved := slot.orderId.Some? && slot.orderId.value in s.ids;
            match target
            case None =>
              op == if c.hold || !resolved then None
                    else
                      var id := slot.orderId.value;
                      Some(BatchOp(side, m / 2, Cancel, 0.0, 0.0, id, Some(s.ids[id]), false))
            case Some(p) =>
              if c.size <= 0.0 || p <= 0.0 then op.None?
              else if slot.orderId.None? then
                op.Some? && var id := op.value.clientId;
                op.value == BatchOp(side, m / 2, Create, p, c.size, id, None, Reduces(side, c.position))
              else if c.hold || !resolved then op.None?
              else
                var id := slot.orderId.value;
                op == if CloseEnough(tick, slot, p, c.size, c.threshold) then None
                      else Some(BatchOp(side, m / 2, Modify, p, c.size, id, Some(s.ids[id]), Reduces(side, c.position)))
  {
    CollectOpFor(tick, s, c, 2 * |c.prices|, m);
    var target := Target(c, m);
    if target.Some? {
      CloseEnoughIff(tick, s.slots[m], target.value, c.size, c.threshold);
    }
  }

  /** A bid at 100.00 and a target of 100.01 under a threshold of 8 basis points: nothing to do. */
  lemma WithinThresholdExample()
    ensures var slot := Slot(Live, Some(7), Some(100.0), Some(1.0), 0, 0);
            CloseEnough(0.1, slot, 100.01, 1.0, 8.0) && !CloseEnough(0.1, slot, 100.09, 1.0, 8.0)
  {
  }

  // ---- Marking and acknowledging a batch ---------------------------------

  lemma OrderedPrefix(ops: seq<BatchOp>, n: nat)
    requires ops != [] && Ordered(ops) && OpsFit(ops, n)
    ensures Ordered(ops[..|ops| - 1]) && OpsFit(ops[..|ops| - 1], OpPos(ops[|ops| - 1])) && OpsFit(ops[..|ops| - 1], n)
  {
  }

  lemma {:induction false} MarkAllAt(s: State, ops: seq<BatchOp>, now: int, m: nat)
    requires Ordered(ops) && OpsFit(ops, |s.slots|) && m < |s.slots|
    ensures MarkAll(s, ops, now).slots[m]
         == match OpFor(ops, m) case None => s.slots[m] case Some(op) => Marked(s.slots[m], op, now)
  {
    if ops != [] {
      var before, op := ops[..|ops| - 1], ops[|ops| - 1];
      OrderedPrefix(ops, |s.slots|);
      MarkAllAt(s, before, now, m);
      if OpPos(op) == m {
        NoOpBeyond(before, m);
      }
    }
  }

  lemma AckEventsFit(ops: seq<BatchOp>, n: nat)
    requires OpsFit(ops, n)
    ensures EventsFit(AckEvents(ops), n)
  {
  }

  /** A slot once its operation is acknowledged. */
  function Acked(slot: Slot, op: Option<BatchOp>, now: int): Slot {
    match op
    case None => slot
    case Some(o) =>
      if o.action != Cancel then Bound(o.clientId, o.price, o.size, now)
      else if o.clientId == 0 || slot.orderId == Some(o.clientId) then IdleSlot(now)
      else slot
  }

  lemma {:induction false} AckAllAt(tick: real, s: State, ops: seq<BatchOp>, now: int, m: nat)
    requires Ordered(ops) && OpsFit(ops, |s.slots|) && m < |s.slots|
    ensures EventsFit(AckEvents(ops), |s.slots|)
    ensures HandleAll(tick, s, AckEvents(ops), now).slots[m] == Acked(s.slots[m], OpFor(ops, m), now)
  {
    AckEventsFit(ops, |s.slots|);
    if ops != [] {
      var before, op := ops[..|ops| - 1], ops[|ops| - 1];
      OrderedPrefix(ops, |s.slots|);
      AckAllAt(tick, s, before, now, m);
      var es := AckEvents(ops);
      assert es[..|es| - 1] == AckEvents(before);
      if OpPos(op) == m {
        NoOpBeyond(before, m);
      }
    }
  }

  ghost predicate SubMap(a: map<int, int>, b: map<int, int>) {
    forall k :: k in a ==> k in b && a[k] == b[k]
  }

  lemma RecordedSubMap(ids: map<int, int>, live: set<int>, base: map<int, int>, clientId: int, exchangeId: int)
    requires SubMap(ids, base) && clientId in base && base[clientId] == exchangeId
    ensures SubMap(Recorded(ids, live, clientId, exchangeId), base)
  {
  }

  /** Acknowledging a batch resolves no id that was not resolved before. */
  lemma {:induction false} AckIds(tick: real, s: State, ops: seq<BatchOp>, now: int, base: map<int, int>)
    requires OpsFit(ops, |s.slots|) && SubMap(s.ids, base)
    requires forall i :: 0 <= i < |ops| && ops[i].exchangeId.Some? ==>
               ops[i].clientId in base && base[ops[i].clientId] == ops[i].exchangeId.value
    ensures EventsFit(AckEvents(ops), |s.slots|)
    ensures SubMap(HandleAll(tick, s, AckEvents(ops), now).ids, base)
  {
    AckEventsFit(ops, |s.slots|);
    if ops != [] {
      var before, op := ops[..|ops| - 1], ops[|ops| - 1];
      AckIds(tick, s, before, now, base);
      var es := AckEvents(ops);
      assert es[..|es| - 1] == AckEvents(before);
      var t := HandleAll(tick, s, AckEvents(before), now);
      if op.action != Cancel && op.exchangeId.Some? {
        RecordedSubMap(t.ids, LiveIds(t.slots), base, op.clientId, op.exchangeId.value);
      }
    }
  }

  // ---- Convergence -------------------------------------------------------

  /** The slot matches its target up to the requote threshold and the size tolerance. */
  ghost predicate Agrees(tick: real, slot: Slot, c: Cycle, m: nat)
    requires m < 2 * |c.prices|
  {
    match Target(c, m)
    case None => slot.orderId.None?
    case Some(price) =>
      price > 0.0 && c.size > 0.0 ==>
        && slot.orderId.Some? && slot.price.Some? && slot.size.Some?
        && PriceChangeBps(slot.price.value, price) <= c.threshold
        && Abs(slot.size.value - c.size) < SizeTolerance(tick)
  }

  /** The slot is one the cycle may act on: idle, or resolved while mutations are allowed. */
  predicate Resolvable(slot: Slot, ids: map<int, int>, hold: bool) {
    slot.orderId.None? || (!hold && slot.orderId.value in ids)
  }

  /** A negative threshold counts a quote that has not moved as moved. */
  predicate Reprices(c: Cycle, m: nat, slot: Slot, ids: map<int, int>)
    requires m < 2 * |c.prices|
  {
    && c.threshold < 0.0 && !c.hold && c.size > 0.0
    && Target(c, m).Some? && Target(c, m).value > 0.0
    && slot.orderId.Some? && slot.orderId.value in ids
  }

  lemma SamePriceNoChange(price: real)
    requires price > 0.0
    ensures PriceChangeBps(price, price) == 0.0
  {
  }

  lemma ChangeNonNegative(before: real, after: real)
    ensures PriceChangeBps(before, after) >= 0.0
  {
  }

  /** One slot: after its operation is acknowledged there is nothing more to do for it, unless a
      negative threshold reprices it. */
  lemma SlotSettles(tick: real, slot: Slot, ids: map<int, int>, ids': map<int, int>, c: Cycle, c': Cycle, m: nat,
                    newId: int, newId': int, t1: int, t2: int)
    requires m < 2 * |c.prices| && SubMap(ids', ids)
    requires c' == c.(nowNs := c'.nowNs, position := c'.position)
    ensures var op := Decide(tick, slot, ids, c, m, newId);
            var after := Acked(match op case None => slot case Some(o) => Marked(slot, o, t1), op, t2);
            && (Decide(tick, after, ids', c', m, newId').None? <==> !Reprices(c, m, after, ids'))
            && (c.threshold >= 0.0 && Resolvable(slot, ids, c.hold) ==> Agrees(tick, after, c, m))
  {
    assert Target(c', m) == Target(c, m);
    if Target(c, m).Some? && Target(c, m).value > 0.0 {
      SamePriceNoChange(Target(c, m).value);
      if slot.price.Some? {
        ChangeNonNegative(slot.price.value, Target(c, m).value);
      }
    }
  }

  lemma {:induction false} NothingToCollect(tick: real, s: State, c: Cycle, n: nat)
    requires n <= 2 * |c.prices| <= |s.slots|
    requires forall m, newId :: 0 <= m < n ==> Decide(tick, s.slots[m], s.ids, c, m, newId).None?
    ensures Collect(tick, s, c, n) == ([], s.lastId)
  {
    if n > 0 {
      NothingToCollect(tick, s, c, n - 1);
    }
  }

  /** The state once a collected batch has been marked pending and acknowledged. */
  ghost function Acknowledged(tick: real, s: State, c: Cycle, t1: int, t2: int): State
    requires 2 * |c.prices| <= |s.slots|
  {
    var (ops, last) := CollectAll(tick, s, c);
    CollectShape(tick, s, c, 2 * |c.prices|);
    AckEventsFit(ops, |s.slots|);
    HandleAll(tick, MarkAll(s.(lastId := last), ops, t1), AckEvents(ops), t2)
  }

  lemma SettledSlot(tick: real, s: State, c: Cycle, c': Cycle, t1: int, t2: int, m: nat, newId': int)
    requires m < 2 * |c.prices| <= |s.slots|
    requires c' == c.(nowNs := c'.nowNs, position := c'.position)
    ensures var t := Acknowledged(tick, s, c, t1, t2);
            && |t.slots| == |s.slots|
            && (Decide(tick, t.slots[m], t.ids, c', m, newId').None? <==> !Reprices(c, m, t.slots[m], t.ids))
            && (c.threshold >= 0.0 && Resolvable(s.slots[m], s.ids, c.hold) ==> Agrees(tick, t.slots[m], c, m))
  {
    var n := 2 * |c.prices|;
    var (ops, last) := CollectAll(tick, s, c);
    var s' := s.(lastId := last);
    CollectShape(tick, s, c, n);
    CollectOpFor(tick, s, c, n, m);
    MarkAllAt(s', ops, t1, m);
    var marked := MarkAll(s', ops, t1);
    AckAllAt(tick, marked, ops, t2, m);
    forall i | 0 <= i < |ops| && ops[i].exchangeId.Some?
      ensures ops[i].clientId in s.ids && s.ids[ops[i].clientId] == ops[i].exchangeId.value
    {
      assert Faithful(s, ops[i]);
    }
    AckIds(tick, marked, ops, t2, s.ids);
    var t := Acknowledged(tick, s, c, t1, t2);
    SlotSettles(tick, s.slots[m], s.ids, t.ids, c, c', m, NextId(Collect(tick, s, c, m).1, c.nowNs), newId', t1, t2);
  }

  /** For every slot state, ladder, size, non-negative threshold and hold flag: once the collected
      batch is marked pending and acknowledged, a second collect emits nothing and every
      resolvable slot agrees with its target. */
  lemma DiffConverges(tick: real, s: State, c: Cycle, c': Cycle, t1: int, t2: int)
    requires 2 * |c.prices| <= |s.slots| && c.threshold >= 0.0
    requires c' == c.(nowNs := c'.nowNs, position := c'.position)
    ensures var t := Acknowledged(tick, s, c, t1, t2);
            && |t.slots| == |s.slots|
            && CollectAll(tick, t, c') == ([], t.lastId)
            && (forall m :: 0 <= m < 2 * |c.prices| && Resolvable(s.slots[m], s.ids, c.hold) ==>
                  Agrees(tick, t.slots[m], c, m))
  {
    var t := Acknowledged(tick, s, c, t1, t2);
    assert |t.slots| == |s.slots| by {
      CollectShape(tick, s, c, 2 * |c.prices|);
      AckEventsFit(CollectAll(tick, s, c).0, |s.slots|);
    }
    forall m, newId | 0 <= m < 2 * |c.prices|
      ensures Decide(tick, t.slots[m], t.ids, c', m, newId).None?
    {
      SettledSlot(tick, s, c, c', t1, t2, m, newId);
    }
    forall m | 0 <= m < 2 * |c.prices| && Resolvable(s.slots[m], s.ids, c.hold)
      ensures Agrees(tick, t.slots[m], c, m)
    {
      SettledSlot(tick, s, c, c', t1, t2, m, 0);
    }
    NothingToCollect(tick, t, c', 2 * |c.prices|);
  }

  /** A batch is empty only if no slot needs anything. */
  lemma EmptyCollect(tick: real, s: State, c: Cycle, m: nat)
    requires m < 2 * |c.prices| <= |s.slots| && CollectAll(tick, s, c).0 == []
    ensures exists newId :: Decide(tick, s.slots[m], s.ids, c, m, newId).None?
  {
    CollectOpFor(tick, s, c, 2 * |c.prices|, m);
    assert OpFor(CollectAll(tick, s, c).0, m).None?;
    assert Decide(tick, s.slots[m], s.ids, c, m, NextId(Collect(tick, s, c, m).1, c.nowNs)).None?;
  }

  /** For every threshold: the second collect is empty exactly when the threshold is not negative,
      or mutations are held, or the size is not positive, or no targeted slot is resolved after the
      acknowledgement. */
  lemma SettlesIff(tick: real, s: State, c: Cycle, c': Cycle, t1: int, t2: int)
    requires 2 * |c.prices| <= |s.slots|
    requires c' == c.(nowNs := c'.nowNs, position := c'.position)
    ensures var t := Acknowledged(tick, s, c, t1, t2);
            && |t.slots| == |s.slots|
            && (CollectAll(tick, t, c').0 == [] <==>
                  forall m :: 0 <= m < 2 * |c.prices| ==> !Reprices(c, m, t.slots[m], t.ids))
  {
    var t := Acknowledged(tick, s, c, t1, t2);
    assert |t.slots| == |s.slots| by {
      CollectShape(tick, s, c, 2 * |c.prices|);
      AckEventsFit(CollectAll(tick, s, c).0, |s.slots|);
    }
    if CollectAll(tick, t, c').0 == [] {
      forall m | 0 <= m < 2 * |c.prices|
        ensures !Reprices(c, m, t.slots[m], t.ids)
      {
        EmptyCollect(tick, t, c', m);
        var newId :| Decide(tick, t.slots[m], t.ids, c', m, newId).None?;
        SettledSlot(tick, s, c, c', t1, t2, m, newId);
      }
    }
    if forall m :: 0 <= m < 2 * |c.prices| ==> !Reprices(c, m, t.slots[m], t.ids) {
      forall m, newId | 0 <= m < 2 * |c.prices|
        ensures Decide(tick, t.slots[m], t.ids, c', m, newId).None?
      {
        SettledSlot(tick, s, c, c', t1, t2, m, newId);
      }
      NothingToCollect(tick, t, c', 2 * |c.prices|);
    }
  }

  /** A live, resolved bid that sits exactly on its target is modified again after every
      acknowledgement once the threshold is negative. */
  lemma NegativeThresholdExample()
    ensures var slot := Slot(Live, Some(7), Some(100.0), Some(1.0), 0, 0);
            var s := State([slot, IdleSlot(0)], map[7 := 70], 7);
            var c := Cycle([(Some(100.0), None)], 1.0, 0.0, -1.0, 0, false);
            CollectAll(0.1, s, c).0 == [BatchOp(Buy, 0, Modify, 100.0, 1.0, 7, Some(70), false)]
  {
    var slot := Slot(Live, Some(7), Some(100.0), Some(1.0), 0, 0);
    var s := State([slot, IdleSlot(0)], map[7 := 70], 7);
    var c := Cycle([(Some(100.0), None)], 1.0, 0.0, -1.0, 0, false);
    SamePriceNoChange(100.0);
    assert Collect(0.1, s, c, 0) == ([], 7);
    assert Collect(0.1, s, c, 1).0 == [BatchOp(Buy, 0, Modify, 100.0, 1.0, 7, Some(70), false)];
  }

  /** One slot between the mark and the acknowledgement: an order in flight is not sent again, except
      that a cancel is repeated. */
  lemma InFlightSlot(tick: real, slot: Slot, ids: map<int, int>, c: Cycle, c': Cycle, m: nat, newId: int, newId': int,
                     now: int)
    requires m < 2 * |c.prices| && c.threshold >= 0.0
    requires newId !in ids
    requires c' == c.(nowNs := c'.nowNs, position := c'.position)
    ensures var op := Decide(tick, slot, ids, c, m, newId);
            var marked := match op case None => slot case Some(o) => Marked(slot, o, now);
            var again := Decide(tick, marked, ids, c', m, newId');
            again == if op.Some? && op.value.action == Cancel then op else None
  {
    assert Target(c', m) == Target(c, m);
    if Target(c, m).Some? && Target(c, m).value > 0.0 {
      SamePriceNoChange(Target(c, m).value);
    }
  }

  /** A create or a modify in flight is not sent again even if its id is resolved meanwhile: the slot
      already tracks the price and the size that were sent. */
  lemma ResolvedInFlight(tick: real, slot: Slot, ids: map<int, int>, ids': map<int, int>, c: Cycle, c': Cycle, m: nat,
                         newId: int, newId': int, now: int)
    requires m < 2 * |c.prices| && c.threshold >= 0.0
    requires c' == c.(nowNs := c'.nowNs, position := c'.position)
    ensures var op := Decide(tick, slot, ids, c, m, newId);
            op.Some? && op.value.action != Cancel ==>
              Decide(tick, Marked(slot, op.value, now), ids', c', m, newId').None?
  {
    assert Target(c', m) == Target(c, m);
    if Target(c, m).Some? && Target(c, m).value > 0.0 {
      SamePriceNoChange(Target(c, m).value);
    }
  }

  /** While a batch is in flight the next cycle repeats its cancels and nothing else. */
  lemma InFlightRepeatsOnlyCancels(tick: real, s: State, c: Cycle, c': Cycle, now: int, m: nat)
    requires m < 2 * |c.prices| <= |s.slots| && c.threshold >= 0.0
    requires c' == c.(nowNs := c'.nowNs, position := c'.position)
    requires NextId(Collect(tick, s, c, m).1, c.nowNs) !in s.ids
    ensures var (ops, last) := CollectAll(tick, s, c);
            OpsFit(ops, |s.slots|) &&
            var again := OpFor(CollectAll(tick, MarkAll(s.(lastId := last), ops, now), c').0, m);
            again == if OpFor(ops, m).Some? && OpFor(ops, m).value.action == Cancel then OpFor(ops, m) else None
  {
    var n := 2 * |c.prices|;
    var (ops, last) := CollectAll(tick, s, c);
    CollectShape(tick, s, c, n);
    var t := MarkAll(s.(lastId := last), ops, now);
    CollectOpFor(tick, s, c, n, m);
    MarkAllAt(s.(lastId := last), ops, now, m);
    CollectOpFor(tick, t, c', n, m);
    InFlightSlot(tick, s.slots[m], s.ids, c, c', m, NextId(Collect(tick, s, c, m).1, c.nowNs),
                 NextId(Collect(tick, t, c', m).1, c'.nowNs), now);
  }
}
