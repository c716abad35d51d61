/**
The order manager's slots, id map and id counter, and what each of its operations does to them.
Slots are addressed by their position in ladder order: level 0 bid, level 0 ask, level 1 bid, ...
*/
module OrderSlots {
  import opened Common
  import opened Orders

  const MAX_CLIENT_ORDER_INDEX: int := 281474976710655
  const ID_MAP_CAP: nat := 200
  const ID_MAP_RECENT: nat := 100
  const MISSING_DEBOUNCE: nat := 2
  const GRACE: int := 5_000_000_000

  datatype Status = Idle | Placing | Live | Modifying | Canceling

  /** `miss` counts the consecutive reconcile snapshots that did not show the order. */
  datatype Slot = Slot(
    status: Status, orderId: Option<int>, price: Option<real>, size: Option<real>, updatedAt: int, miss: nat)

  datatype State = State(slots: seq<Slot>, ids: map<int, int>, lastId: int)

  datatype Remote = Remote(
    clientId: Option<int>, orderIndex: Option<int>, isAsk: Option<bool>, isLive: bool,
    price: Option<real>, remaining: Option<real>)

  /** One quote cycle: the target ladder and the settings it is diffed under. */
  datatype Cycle = Cycle(
    prices: seq<(Option<real>, Option<real>)>, size: real, position: real, threshold: real, nowNs: int, hold: bool)

  // ---- Positions ---------------------------------------------------------

  function Pos(side: Side, level: nat): nat {
    2 * level + (if side == Buy then 0 else 1)
  }

  function SideOf(m: nat): Side {
    if m % 2 == 0 then Buy else Sell
  }

  function LevelOf(m: nat): nat {
    m / 2
  }

  function OpPos(op: BatchOp): nat {
    Pos(op.side, op.level)
  }

  function Target(c: Cycle, m: nat): Option<real>
    requires m < 2 * |c.prices|
  {
    if SideOf(m) == Buy then c.prices[LevelOf(m)].0 else c.prices[LevelOf(m)].1
  }

  // ---- Client ids --------------------------------------------------------

  /** Ids follow the clock but never repeat the last one, and 0 is never handed out. */
  function NextId(last: int, nowNs: int): int {
    var fromClock := nowNs % MAX_CLIENT_ORDER_INDEX;
    var id := if fromClock <= last then (last + 1) % (MAX_CLIENT_ORDER_INDEX + 1) else fromClock;
    if id == 0 then 1 else id
  }

  /** Ids strictly increase exactly until the end of the id space is reached. */
  lemma NextIdIncreasesIff(last: int, nowNs: int)
    requires 0 <= last <= MAX_CLIENT_ORDER_INDEX
    ensures 1 <= NextId(last, nowNs) <= MAX_CLIENT_ORDER_INDEX
    ensures NextId(last, nowNs) > last <==> last < MAX_CLIENT_ORDER_INDEX
    ensures last < MAX_CLIENT_ORDER_INDEX ==>
              var clock := nowNs % MAX_CLIENT_ORDER_INDEX;
              NextId(last, nowNs) == if clock > last then clock else last + 1
  {
  }

  // ---- The client-to-exchange id map -------------------------------------

  function LiveIds(slots: seq<Slot>): set<int> {
    set m | 0 <= m < |slots| && slots[m].orderId.Some? :: slots[m].orderId.value
  }

  /** Ids of the map that no slot holds and that are larger than `id`. */
  function NewerExtras(ids: map<int, int>, live: set<int>, id: int): set<int> {
    set j | j in ids && j !in live && j > id
  }

  /** Keep the live ids and the 100 largest of the others. */
  predicate Keeps(ids: map<int, int>, live: set<int>, id: int) {
    id in live || |NewerExtras(ids, live, id)| < ID_MAP_RECENT
  }

  function Trimmed(ids: map<int, int>, live: set<int>): map<int, int> {
    map id | id in ids && Keeps(ids, live, id) :: ids[id]
  }

  function Recorded(ids: map<int, int>, live: set<int>, clientId: int, exchangeId: int): map<int, int> {
    var all := ids[clientId := exchangeId];
    if |all| > ID_MAP_CAP then Trimmed(all, live) else all
  }

  lemma LeastOf(s: set<int>) returns (x: int)
    requires exists y :: y in s
    ensures x in s && forall y :: y in s ==> x <= y
    decreases |s|
  {
    var x0 :| x0 in s;
    var rest := s - {x0};
    assert forall y :: y in s ==> y == x0 || y in rest;
    x := x0;
    if exists y :: y in rest {
      var z := LeastOf(rest);
      x := if z < x0 then z else x0;
    }
  }

  lemma FewNewerFew(s: set<int>, n: nat)
    requires forall x :: x in s ==> |set y | y in s && y > x| < n
    ensures |s| <= n
  {
    if exists x :: x in s {
      var x := LeastOf(s);
      assert (set y | y in s && y > x) == s - {x};
    }
  }

  lemma SubsetSize(a: set<int>, b: set<int>)
    requires a <= b
    ensures |a| <= |b|
  {
    assert b == a + (b - a);
  }

  lemma ExtrasAreFew(ids: map<int, int>, live: set<int>)
    ensures |set id | id in ids && id !in live && Keeps(ids, live, id)| <= ID_MAP_RECENT
  {
    var extras := set id | id in ids && id !in live && Keeps(ids, live, id);
    forall x | x in extras
      ensures |set y | y in extras && y > x| < ID_MAP_RECENT
    {
      var newer := set y | y in extras && y > x;
      SubsetSize(newer, NewerExtras(ids, live, x));
    }
    FewNewerFew(extras, ID_MAP_RECENT);
  }

  /** The id map stays bounded, yet never loses the id of a live slot. */
  lemma IdMapBounded(ids: map<int, int>, live: set<int>, clientId: int, exchangeId: int)
    ensures var r := Recorded(ids, live, clientId, exchangeId);
            && (|r| <= ID_MAP_CAP || |r| <= |live| + ID_MAP_RECENT)
            && (forall id :: id in live && id in ids && id != clientId ==> id in r && r[id] == ids[id])
            && (clientId in live ==> clientId in r && r[clientId] == exchangeId)
            && (|ids[clientId := exchangeId]| <= ID_MAP_CAP ==> r == ids[clientId := exchangeId])
  {
    var all, r := ids[clientId := exchangeId], Recorded(ids, live, clientId, exchangeId);
    if |all| > ID_MAP_CAP {
      var extras := set id | id in all && id !in live && Keeps(all, live, id);
      ExtrasAreFew(all, live);
      SubsetSize(r.Keys, live + extras);
      assert |r| == |r.Keys|;
    }
  }

  /** Trimming drops the oldest ids first: every extra kept is newer than every extra dropped, and a
      map with at most 100 extras loses nothing. */
  lemma TrimDropsOldest(ids: map<int, int>, live: set<int>, kept: int, dropped: int)
    requires kept in ids && kept !in live && dropped in ids && dropped !in live
    ensures kept in Trimmed(ids, live) && dropped !in Trimmed(ids, live) ==> kept > dropped
    ensures |set id | id in ids && id !in live| <= ID_MAP_RECENT ==> kept in Trimmed(ids, live)
  {
    var extras := set id | id in ids && id !in live;
    var aboveKept, aboveDropped := NewerExtras(ids, live, kept), NewerExtras(ids, live, dropped);
    assert aboveKept <= extras - {kept};
    SubsetSize(aboveKept, extras - {kept});
    if kept < dropped {
      assert aboveDropped + {dropped} <= aboveKept;
      SubsetSize(aboveDropped + {dropped}, aboveKept);
    }
  }

  function Record(s: State, clientId: int, exchangeId: int): State {
    s.(ids := Recorded(s.ids, LiveIds(s.slots), clientId, exchangeId))
  }

  // ---- Collecting operations ---------------------------------------------

  function PriceChangeBps(before: real, after: real): real {
    if before <= 0.0 then 1000000000000000000.0 else Abs(after - before) / before * 10000.0
  }

  function SizeTolerance(tick: real): real {
    Max(if tick > 0.0 then tick else EPSILON, EPSILON)
  }

  predicate SizeChanged(tick: real, existing: Option<real>, size: real) {
    existing.None? || Abs(existing.value - size) >= SizeTolerance(tick)
  }

  predicate IsReducingSide(side: Side, position: real) {
    (position > EPSILON && side == Sell) || (position < -EPSILON && side == Buy)
  }

  predicate NeedsModify(tick: real, slot: Slot, price: real, size: real, threshold: real) {
    || slot.price.None?
    || PriceChangeBps(slot.price.value, price) > threshold
    || SizeChanged(tick, slot.size, size)
  }

  /** What one slot needs; a create takes `newId`. */
  function Decide(tick: real, slot: Slot, ids: map<int, int>, c: Cycle, m: nat, newId: int): Option<BatchOp>
    requires m < 2 * |c.prices|
  {
    var side, level, target := SideOf(m), LevelOf(m), Target(c, m);
    var reduce := IsReducingSide(side, c.position);
    match target
    case None =>
      if !c.hold && slot.orderId.Some? && slot.orderId.value in ids
      then Some(BatchOp(side, level, Cancel, 0.0, 0.0, slot.orderId.value, Some(ids[slot.orderId.value]), false))
      else None
    case Some(price) =>
      if c.size <= 0.0 || price <= 0.0 then None
      else if slot.orderId.None? then Some(BatchOp(side, level, Create, price, c.size, newId, None, reduce))
      else if c.hold || slot.orderId.value !in ids || !NeedsModify(tick, slot, price, c.size, c.threshold) then None
      else Some(BatchOp(side, level, Modify, price, c.size, slot.orderId.value, Some(ids[slot.orderId.value]), reduce))
  }

  function Appended(ops: seq<BatchOp>, op: Option<BatchOp>): seq<BatchOp> {
    match op case None => ops case Some(o) => ops + [o]
  }

  /** The operations of the first `n` positions and the last id handed out. */
  function Collect(tick: real, s: State, c: Cycle, n: nat): (seq<BatchOp>, int)
    requires n <= 2 * |c.prices| <= |s.slots|
  {
    if n == 0 then ([], s.lastId)
    else
      var (ops, last) := Collect(tick, s, c, n - 1);
      var newId := NextId(last, c.nowNs);
      var op := Decide(tick, s.slots[n - 1], s.ids, c, n - 1, newId);
      (Appended(ops, op), if op.Some? && op.value.action == Create then newId else last)
  }

  function CollectAll(tick: real, s: State, c: Cycle): (seq<BatchOp>, int)
    requires 2 * |c.prices| <= |s.slots|
  {
    Collect(tick, s, c, 2 * |c.prices|)
  }

  function CancelOp(slot: Slot, ids: map<int, int>, m: nat): Option<BatchOp> {
    if slot.status != Canceling && slot.orderId.Some? && slot.orderId.value in ids then
      var id := slot.orderId.value;
      Some(BatchOp(SideOf(m), LevelOf(m), Cancel, 0.0, 0.0, id, Some(ids[id]), false))
    else None
  }

  /** The cancels that take the whole resolvable ladder down. */
  function CancelOps(s: State, n: nat): seq<BatchOp>
    requires n <= |s.slots|
  {
    if n == 0 then []
    else
      var op := CancelOp(s.slots[n - 1], s.ids, n - 1);
      Appended(CancelOps(s, n - 1), op)
  }

  // ---- Slot updates ------------------------------------------------------

  function IdleSlot(now: int): Slot {
    Slot(Idle, None, None, None, now, 0)
  }

  function Marked(slot: Slot, op: BatchOp, now: int): Slot {
    match op.action
    case Create => Slot(Placing, Some(op.clientId), Some(op.price), Some(op.size), now, 0)
    case Modify =>
      slot.(price := Some(op.price), size := Some(op.size), status := Modifying, updatedAt := now, miss := 0)
    case Cancel => slot.(status := Canceling, updatedAt := now, miss := 0)
  }

  function Bound(clientId: int, price: real, size: real, now: int): Slot {
    Slot(Live, Some(clientId), Some(price), Some(size), now, 0)
  }

  function Mark(s: State, op: BatchOp, now: int): State
    requires OpPos(op) < |s.slots|
  {
    s.(slots := s.slots[OpPos(op) := Marked(s.slots[OpPos(op)], op, now)])
  }

  predicate OpsFit(ops: seq<BatchOp>, n: nat) {
    forall i :: 0 <= i < |ops| ==> OpPos(ops[i]) < n
  }

  function MarkAll(s: State, ops: seq<BatchOp>, now: int): (r: State)
    requires OpsFit(ops, |s.slots|)
    ensures |r.slots| == |s.slots| && r.ids == s.ids && r.lastId == s.lastId
  {
    if ops == [] then s else Mark(MarkAll(s, ops[..|ops| - 1], now), ops[|ops| - 1], now)
  }

  /** The first position in ladder order that holds an id, or |slots|. */
  function FirstHolding(slots: seq<Slot>, clientId: int, from: nat): (m: nat)
    requires from <= |slots|
    ensures from <= m <= |slots|
    ensures m < |slots| ==> slots[m].orderId == Some(clientId)
    ensures forall k :: from <= k < m ==> slots[k].orderId != Some(clientId)
    decreases |slots| - from
  {
    if from == |slots| || slots[from].orderId == Some(clientId) then from
    else FirstHolding(slots, clientId, from + 1)
  }

  /** A partial fill shrinks the tracked size; a full one (or one of unknown size) frees the slot. */
  function Filled(tick: real, slot: Slot, filledSize: real, now: int): Slot {
    if slot.size.Some? && slot.size.value - filledSize > Max(tick, EPSILON)
    then slot.(size := Some(slot.size.value - filledSize), updatedAt := now, miss := 0)
    else IdleSlot(now)
  }

  predicate EventFits(e: OrderEvent, n: nat) {
    (e.BindLive? || e.ClearLive?) ==> Pos(e.side, e.level) < n
  }

  function Handle(tick: real, s: State, e: OrderEvent, now: int): (r: State)
    requires EventFits(e, |s.slots|)
    ensures |r.slots| == |s.slots| && r.lastId == s.lastId
  {
    match e
    case BindLive(side, level, clientId, exchangeId, price, size) =>
      var recorded := if exchangeId.Some? then Record(s, clientId, exchangeId.value) else s;
      recorded.(slots := s.slots[Pos(side, level) := Bound(clientId, price, size, now)])
    case ClearLive(side, level, clientId) =>
      if clientId == 0 || s.slots[Pos(side, level)].orderId == Some(clientId)
      then s.(slots := s.slots[Pos(side, level) := IdleSlot(now)]) else s
    case ClearAll => s.(slots := seq(|s.slots|, m => IdleSlot(now)))
    case IdResolved(clientId, resolvedId) => Record(s, clientId, resolvedId)
    case Fill(clientId, filledSize) =>
      var m := FirstHolding(s.slots, clientId, 0);
      if m < |s.slots| then s.(slots := s.slots[m := Filled(tick, s.slots[m], filledSize, now)]) else s
  }

  predicate EventsFit(es: seq<OrderEvent>, n: nat) {
    forall i :: 0 <= i < |es| ==> EventFits(es[i], n)
  }

  function HandleAll(tick: real, s: State, es: seq<OrderEvent>, now: int): (r: State)
    requires EventsFit(es, |s.slots|)
    ensures |r.slots| == |s.slots| && r.lastId == s.lastId
  {
    if es == [] then s else Handle(tick, HandleAll(tick, s, es[..|es| - 1], now), es[|es| - 1], now)
  }

  // ---- Reconcile ---------------------------------------------------------

  function RecordRemote(s: State, remote: seq<Remote>): (r: State)
    ensures r.slots == s.slots && r.lastId == s.lastId
  {
    if remote == [] then s
    else
      var before, o := RecordRemote(s, remote[..|remote| - 1]), remote[|remote| - 1];
      if o.clientId.Some? && o.orderIndex.Some? then Record(before, o.clientId.value, o.orderIndex.value) else before
  }

  predicate ShownLive(remote: seq<Remote>, id: int) {
    exists i :: 0 <= i < |remote| && remote[i].isLive && remote[i].clientId == Some(id)
  }

  predicate Shown(remote: seq<Remote>, id: int) {
    exists i :: 0 <= i < |remote| && remote[i].clientId == Some(id)
  }

  /** The last row of a snapshot that carries a client id. */
  function RowOf(remote: seq<Remote>, id: int): (o: Option<Remote>)
    ensures o.Some? <==> Shown(remote, id)
  {
    if remote == [] then None
    else if remote[|remote| - 1].clientId == Some(id) then Some(remote[|remote| - 1])
    else
      assert Shown(remote[..|remote| - 1], id) <==> Shown(remote, id) by {
        if Shown(remote, id) {
          var i :| 0 <= i < |remote| && remote[i].clientId == Some(id);
          assert remote[..|remote| - 1][i].clientId == Some(id);
        }
      }
      RowOf(remote[..|remote| - 1], id)
  }

  /** First pass: count a miss, and free the slot on the second one once the grace is over. */
  function Debounced(slot: Slot, remote: seq<Remote>, now: int): Slot {
    if slot.orderId.None? then slot
    else if ShownLive(remote, slot.orderId.value) then slot.(miss := 0)
    else if slot.miss + 1 >= MISSING_DEBOUNCE && now - slot.updatedAt >= GRACE then IdleSlot(now)
    else slot.(miss := slot.miss + 1)
  }

  predicate WrongSide(side: Side, isAsk: Option<bool>) {
    (side == Buy && isAsk == Some(true)) || (side == Sell && isAsk == Some(false))
  }

  /** Second pass: adopt the exchange's price and remaining size. */
  function Refreshed(slot: Slot, side: Side, remote: seq<Remote>, now: int): Slot {
    if slot.orderId.None? then slot
    else
      var row := RowOf(remote, slot.orderId.value);
      if row.None? || WrongSide(side, row.value.isAsk) then slot
      else
        var price, size := OrElse(row.value.price, slot.price), OrElse(row.value.remaining, slot.size);
        if price.Some? && size.Some? then Bound(slot.orderId.value, price.value, size.value, now)
        else slot.(status := Live, updatedAt := now)
  }

  function ReconciledSlot(slot: Slot, side: Side, remote: seq<Remote>, now: int): Slot {
    Refreshed(Debounced(slot, remote, now), side, remote, now)
  }

  function Reconcile(s: State, remote: seq<Remote>, now: int): (r: State)
    ensures |r.slots| == |s.slots| && r.lastId == s.lastId
  {
    RecordRemote(s, remote).(slots :=
      seq(|s.slots|, m requires 0 <= m < |s.slots| => ReconciledSlot(s.slots[m], SideOf(m), remote, now)))
  }
}
