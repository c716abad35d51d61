/**
Whole runs of the order manager: quote cycles (collect, then mark), gated cancels, events and
reconcile snapshots in any order. A slot is freed by reconcile only when its order was missed
twice in a row and the slot was left alone; and then it is freed without fail.
*/
module OrderRuns {
  import opened Common
  import opened Orders
  import opened OrderSlots
  import opened OrderDiff

  datatype Step = Quote(cycle: Cycle) | Gate | Deliver(event: OrderEvent) | Snapshot(remote: seq<Remote>)

  datatype Timed = Timed(now: int, step: Step)

  predicate StepFits(t: Timed, n: nat) {
    match t.step
    case Quote(c) => 2 * |c.prices| <= n
    case Gate => true
    case Deliver(e) => EventFits(e, n)
    case Snapshot(_) => true
  }

  lemma CancelFaithful(s: State, m: nat)
    requires m < |s.slots|
    ensures var op := CancelOp(s.slots[m], s.ids, m);
            op.Some? ==> OpPos(op.value) == m && Faithful(s, op.value)
  {
  }

  lemma {:induction false} CancelShape(s: State, n: nat)
    requires n <= |s.slots|
    ensures Shaped(s, CancelOps(s, n), n)
  {
    if n > 0 {
      CancelShape(s, n - 1);
      CancelFaithful(s, n - 1);
      AppendKeepsShape(s, CancelOps(s, n - 1), CancelOp(s.slots[n - 1], s.ids, n - 1), n - 1);
    }
  }

  /** The operations a step emits. */
  function Emitted(tick: real, s: State, t: Timed): seq<BatchOp>
    requires StepFits(t, |s.slots|)
  {
    match t.step
    case Quote(c) => CollectAll(tick, s, c).0
    case Gate => CancelOps(s, |s.slots|)
    case Deliver(_) => []
    case Snapshot(_) => []
  }

  /** Every batch holds at most one operation per slot. */
  lemma EmittedShape(tick: real, s: State, t: Timed)
    requires StepFits(t, |s.slots|)
    ensures Shaped(s, Emitted(tick, s, t), |s.slots|)
  {
    match t.step
    case Quote(c) => CollectShape(tick, s, c, 2 * |c.prices|);
    case Gate => CancelShape(s, |s.slots|);
    case Deliver(_) =>
    case Snapshot(_) =>
  }

  function Next(tick: real, s: State, t: Timed): (r: State)
    requires StepFits(t, |s.slots|)
    ensures |r.slots| == |s.slots|
  {
    match t.step
    case Quote(c) =>
      EmittedShape(tick, s, t);
      MarkAll(s.(lastId := CollectAll(tick, s, c).1), Emitted(tick, s, t), t.now)
    case Gate =>
      EmittedShape(tick, s, t);
      MarkAll(s, Emitted(tick, s, t), t.now)
    case Deliver(e) => Handle(tick, s, e, t.now)
    case Snapshot(remote) => Reconcile(s, remote, t.now)
  }

  /** `states` are the states before, between and after the steps. */
  ghost predicate Execution(tick: real, states: seq<State>, ts: seq<Timed>, n: nat) {
    && |states| == |ts| + 1
    && (forall i :: 0 <= i <= |ts| ==> |states[i].slots| == n)
    && (forall i :: 0 <= i < |ts| ==> StepFits(ts[i], n) && states[i + 1] == Next(tick, states[i], ts[i]))
  }

  ghost predicate ClockAdvances(ts: seq<Timed>) {
    forall i, j :: 0 <= i <= j < |ts| ==> ts[i].now <= ts[j].now
  }

  // ---- One slot, one step ------------------------------------------------

  /** The step marks, binds, clears or fills the slot. */
  predicate Touches(tick: real, s: State, t: Timed, m: nat)
    requires StepFits(t, |s.slots|)
  {
    match t.step
    case Quote(_) => OpFor(Emitted(tick, s, t), m).Some?
    case Gate => OpFor(Emitted(tick, s, t), m).Some?
    case Deliver(BindLive(side, level, _, _, _, _)) => Pos(side, level) == m
    case Deliver(ClearLive(side, level, id)) =>
      Pos(side, level) == m && (id == 0 || s.slots[Pos(side, level)].orderId == Some(id))
    case Deliver(ClearAll) => true
    case Deliver(IdResolved(_, _)) => false
    case Deliver(Fill(id, _)) => FirstHolding(s.slots, id, 0) == m
    case Snapshot(_) => false
  }

  lemma StepOnSlot(tick: real, s: State, t: Timed, m: nat)
    requires StepFits(t, |s.slots|) && m < |s.slots|
    ensures var before, after := s.slots[m], Next(tick, s, t).slots[m];
            && (Touches(tick, s, t, m) ==> after.miss == 0 && after.updatedAt == t.now)
            && (!Touches(tick, s, t, m) && !t.step.Snapshot? ==> after == before)
            && (t.step.Snapshot? ==> after == ReconciledSlot(before, SideOf(m), t.step.remote, t.now))
  {
    match t.step
    case Quote(c) =>
      EmittedShape(tick, s, t);
      MarkAllAt(s.(lastId := CollectAll(tick, s, c).1), Emitted(tick, s, t), t.now, m);
    case Gate =>
      EmittedShape(tick, s, t);
      MarkAllAt(s, Emitted(tick, s, t), t.now, m);
    case Deliver(_) =>
    case Snapshot(_) =>
  }

  // ---- Reconcile on one slot ---------------------------------------------

  lemma ReconcileFreesIff(slot: Slot, side: Side, remote: seq<Remote>, now: int)
    requires slot.orderId.Some?
    ensures ReconciledSlot(slot, side, remote, now).orderId.None? <==>
              && !ShownLive(remote, slot.orderId.value)
              && slot.miss + 1 >= MISSING_DEBOUNCE
              && now - slot.updatedAt >= GRACE
    ensures var after := ReconciledSlot(slot, side, remote, now);
            after.orderId == slot.orderId || after == IdleSlot(now)
  {
  }

  /** A snapshot leaves a missed slot neither alone nor, unless it missed it again, missed. */
  lemma ReconcileMiss(slot: Slot, side: Side, remote: seq<Remote>, now: int)
    ensures var after := ReconciledSlot(slot, side, remote, now);
            && (after.miss >= 1 && slot.orderId.None? ==> after == slot)
            && (after.miss >= 1 && slot.orderId.Some? ==>
                  && !ShownLive(remote, slot.orderId.value)
                  && after.orderId == slot.orderId && after.miss == slot.miss + 1)
            && (after.updatedAt == slot.updatedAt || after.updatedAt == now)
            && (after.(miss := 0) != slot.(miss := 0) ==> after.updatedAt == now)
  {
  }

  lemma {:induction false} OnlyRow(remote: seq<Remote>, id: int, i: nat)
    requires i < |remote| && remote[i].clientId == Some(id)
    requires forall j :: 0 <= j < |remote| && remote[j].clientId == Some(id) ==> j == i
    ensures RowOf(remote, id) == Some(remote[i])
  {
    if i < |remote| - 1 {
      var before := remote[..|remote| - 1];
      assert forall j :: 0 <= j < |before| ==> before[j] == remote[j];
      OnlyRow(before, id, i);
    }
  }

  /** The exchange's word is adopted: a live row of the slot's order sets its price and remaining size.
      What the row does not tell stays, and if one of the two is not known at all, both stay. */
  lemma LiveRowIsAdopted(slot: Slot, side: Side, remote: seq<Remote>, now: int, i: nat)
    requires slot.orderId.Some? && i < |remote| && remote[i].isLive && remote[i].clientId == slot.orderId
    requires forall j :: 0 <= j < |remote| && remote[j].clientId == slot.orderId ==> j == i
    ensures var row, after := remote[i], ReconciledSlot(slot, side, remote, now);
            && after.orderId == slot.orderId && after.miss == 0
            && (row.isAsk == Some(side == Buy) ==> after == slot.(miss := 0))
            && (row.isAsk != Some(side == Buy) ==>
                  && after.status == Live && after.updatedAt == now
                  && var price, size := OrElse(row.price, slot.price), OrElse(row.remaining, slot.size);
                     if price.Some? && size.Some? then after.price == price && after.size == size
                     else after.price == slot.price && after.size == slot.size)
  {
    assert ShownLive(remote, slot.orderId.value);
    OnlyRow(remote, slot.orderId.value, i);
  }

  lemma LiveIdsHold(slots: seq<Slot>, m: nat)
    requires m < |slots| && slots[m].orderId.Some?
    ensures slots[m].orderId.value in LiveIds(slots)
  {
  }

  /** A snapshot resolves the orders of the slots it shows, and keeps those resolved that it does not. */
  lemma {:induction false} SnapshotResolves(s: State, remote: seq<Remote>, m: nat, i: nat)
    requires m < |s.slots| && s.slots[m].orderId.Some?
    requires i < |remote| && remote[i].clientId == s.slots[m].orderId && remote[i].orderIndex.Some?
    requires forall j :: i < j < |remote| ==> remote[j].clientId != s.slots[m].orderId || remote[j].orderIndex.None?
    ensures var id, ids := s.slots[m].orderId.value, RecordRemote(s, remote).ids;
            id in ids && ids[id] == remote[i].orderIndex.value
  {
    var before, o := remote[..|remote| - 1], remote[|remote| - 1];
    var prior := RecordRemote(s, before);
    LiveIdsHold(s.slots, m);
    if i < |remote| - 1 {
      SnapshotResolves(s, before, m, i);
    }
    if o.clientId.Some? && o.orderIndex.Some? {
      IdMapBounded(prior.ids, LiveIds(s.slots), o.clientId.value, o.orderIndex.value);
    }
  }

  /** An id resolved over the account stream is resolved for the slot that holds it. */
  lemma StreamResolves(tick: real, s: State, m: nat, exchangeId: int, now: int)
    requires m < |s.slots| && s.slots[m].orderId.Some?
    ensures var id := s.slots[m].orderId.value;
            var after := Handle(tick, s, IdResolved(id, exchangeId), now);
            id in after.ids && after.ids[id] == exchangeId && after.slots == s.slots
  {
    LiveIdsHold(s.slots, m);
    IdMapBounded(s.ids, LiveIds(s.slots), s.slots[m].orderId.value, exchangeId);
  }

  /** A fill shrinks the first slot that holds its order by the filled amount, or frees it when no more
      than a tick is left, and touches no other slot. */
  lemma FillShrinks(tick: real, s: State, clientId: int, filled: real, now: int, m: nat)
    requires m < |s.slots| && s.slots[m].orderId == Some(clientId)
    requires forall k :: 0 <= k < m ==> s.slots[k].orderId != Some(clientId)
    ensures var before, after := s.slots[m], Handle(tick, s, Fill(clientId, filled), now).slots;
            && (forall k :: 0 <= k < |s.slots| && k != m ==> after[k] == s.slots[k])
            && if before.size.Some? && before.size.value - filled > tick && before.size.value - filled > EPSILON
               then after[m] == before.(size := Some(before.size.value - filled), updatedAt := now, miss := 0)
               else after[m].orderId.None? && after[m].status == Idle
  {
    var first := FirstHolding(s.slots, clientId, 0);
    assert first == m;
  }

  // ---- Freeing is safe ---------------------------------------------------

  /** Idle slots carry no misses. */
  ghost predicate CleanIdle(s: State) {
    forall m :: 0 <= m < |s.slots| && s.slots[m].orderId.None? ==> s.slots[m].miss == 0
  }

  lemma StepCleanIdle(tick: real, s: State, t: Timed)
    requires StepFits(t, |s.slots|) && CleanIdle(s)
    ensures CleanIdle(Next(tick, s, t))
  {
    forall m | 0 <= m < |s.slots| && Next(tick, s, t).slots[m].orderId.None?
      ensures Next(tick, s, t).slots[m].miss == 0
    {
      StepOnSlot(tick, s, t, m);
      if t.step.Snapshot? {
        ReconcileMiss(s.slots[m], SideOf(m), t.step.remote, t.now);
      }
    }
  }

  /** Step `j` is a snapshot that missed the order of slot `m`, and until step `k` nothing else
      touched the slot and no other snapshot arrived. */
  ghost predicate LastMiss(tick: real, states: seq<State>, ts: seq<Timed>, n: nat, m: nat, j: nat, k: nat)
    requires Execution(tick, states, ts, n) && m < n && j < k <= |ts|
  {
    var id := states[k].slots[m].orderId;
    && ts[j].step.Snapshot? && id.Some? && states[j].slots[m].orderId == id
    && !ShownLive(ts[j].step.remote, id.value)
    && forall i :: j < i < k ==> !ts[i].step.Snapshot? && !Touches(tick, states[i], ts[i], m)
  }

  /** A positive miss count goes back to the last snapshot, which missed the order. */
  lemma {:induction false} MissExplained(tick: real, states: seq<State>, ts: seq<Timed>, n: nat, m: nat, k: nat)
    returns (j: nat)
    requires Execution(tick, states, ts, n) && m < n && k <= |ts|
    requires CleanIdle(states[0]) && states[0].slots[m].miss == 0 && states[k].slots[m].miss >= 1
    ensures j < k && LastMiss(tick, states, ts, n, m, j, k)
    decreases k
  {
    var s, t := states[k - 1], ts[k - 1];
    StepOnSlot(tick, s, t, m);
    assert states[k] == Next(tick, s, t);
    if t.step.Snapshot? {
      AllCleanIdle(tick, states, ts, n, k - 1);
      ReconcileMiss(s.slots[m], SideOf(m), t.step.remote, t.now);
      j := k - 1;
    } else {
      j := MissExplained(tick, states, ts, n, m, k - 1);
    }
  }

  lemma {:induction false} AllCleanIdle(tick: real, states: seq<State>, ts: seq<Timed>, n: nat, k: nat)
    requires Execution(tick, states, ts, n) && k <= |ts| && CleanIdle(states[0])
    ensures CleanIdle(states[k])
  {
    if k > 0 {
      AllCleanIdle(tick, states, ts, n, k - 1);
      StepCleanIdle(tick, states[k - 1], ts[k - 1]);
    }
  }

  /** The step touched the slot, or a snapshot rewrote more than its miss count. */
  ghost predicate Disturbs(tick: real, s: State, t: Timed, m: nat)
    requires StepFits(t, |s.slots|) && m < |s.slots|
  {
    Touches(tick, s, t, m) || Next(tick, s, t).slots[m].(miss := 0) != s.slots[m].(miss := 0)
  }

  lemma DisturbStamps(tick: real, s: State, t: Timed, m: nat)
    requires StepFits(t, |s.slots|) && m < |s.slots|
    ensures var before, after := s.slots[m], Next(tick, s, t).slots[m];
            && (Disturbs(tick, s, t, m) ==> after.updatedAt == t.now)
            && (after.updatedAt == before.updatedAt || after.updatedAt == t.now)
  {
    StepOnSlot(tick, s, t, m);
    if t.step.Snapshot? {
      ReconcileMiss(s.slots[m], SideOf(m), t.step.remote, t.now);
    }
  }

  /** The slot's time stamp is no older than its last disturbance. */
  lemma {:induction false} StampIsLatest(tick: real, states: seq<State>, ts: seq<Timed>, n: nat, m: nat, i: nat, k: nat)
    requires Execution(tick, states, ts, n) && ClockAdvances(ts) && m < n && i < k <= |ts|
    requires Disturbs(tick, states[i], ts[i], m)
    ensures states[k].slots[m].updatedAt >= ts[i].now
    decreases k
  {
    DisturbStamps(tick, states[k - 1], ts[k - 1], m);
    if i < k - 1 {
      StampIsLatest(tick, states, ts, n, m, i, k - 1);
    }
  }

  /** Reconcile frees a slot only if its order was not live in two consecutive snapshots with no
      mark, bind, clear or fill between them, and nothing disturbed the slot for five seconds. */
  lemma FreedOnlyAfterTwoMisses(tick: real, states: seq<State>, ts: seq<Timed>, n: nat, m: nat, k: nat)
    requires Execution(tick, states, ts, n) && ClockAdvances(ts) && m < n && k < |ts|
    requires CleanIdle(states[0]) && states[0].slots[m].miss == 0
    requires ts[k].step.Snapshot?
    requires states[k].slots[m].orderId.Some? && states[k + 1].slots[m].orderId.None?
    ensures !ShownLive(ts[k].step.remote, states[k].slots[m].orderId.value)
    ensures exists j :: 0 <= j < k && LastMiss(tick, states, ts, n, m, j, k)
    ensures forall i :: 0 <= i < k && ts[i].now > ts[k].now - GRACE ==> !Disturbs(tick, states[i], ts[i], m)
  {
    StepOnSlot(tick, states[k], ts[k], m);
    ReconcileFreesIff(states[k].slots[m], SideOf(m), ts[k].step.remote, ts[k].now);
    var j := MissExplained(tick, states, ts, n, m, k);
    forall i | 0 <= i < k && ts[i].now > ts[k].now - GRACE
      ensures !Disturbs(tick, states[i], ts[i], m)
    {
      if Disturbs(tick, states[i], ts[i], m) {
        StampIsLatest(tick, states, ts, n, m, i, k);
      }
    }
  }

  // ---- Freeing is certain ------------------------------------------------

  function Snapshots(ts: seq<Timed>, k: nat): nat
    requires k <= |ts|
  {
    if k == 0 then 0 else Snapshots(ts, k - 1) + (if ts[k - 1].step.Snapshot? then 1 else 0)
  }

  /** No step before `k` touches the slot and no snapshot carries its order. */
  ghost predicate Abandoned(tick: real, states: seq<State>, ts: seq<Timed>, n: nat, m: nat, id: int, k: nat)
    requires Execution(tick, states, ts, n) && m < n && k <= |ts|
  {
    forall i :: 0 <= i < k ==>
      && !Touches(tick, states[i], ts[i], m)
      && (ts[i].step.Snapshot? ==> !Shown(ts[i].step.remote, id))
  }

  /** Snapshot `i` is at least the second miss and the slot's last update is five seconds old. */
  predicate Due(slot: Slot, ts: seq<Timed>, i: nat)
    requires i < |ts|
  {
    && ts[i].step.Snapshot?
    && slot.miss + Snapshots(ts, i + 1) >= MISSING_DEBOUNCE
    && ts[i].now - slot.updatedAt >= GRACE
  }

  lemma NotShownNotLive(remote: seq<Remote>, id: int)
    requires !Shown(remote, id)
    ensures !ShownLive(remote, id) && RowOf(remote, id).None?
  {
  }

  lemma {:induction false} MissesAccumulate(tick: real, states: seq<State>, ts: seq<Timed>, n: nat, m: nat, id: int,
                                            k: nat)
    requires Execution(tick, states, ts, n) && m < n && k <= |ts|
    requires states[0].slots[m].orderId == Some(id) && Abandoned(tick, states, ts, n, m, id, k)
    requires forall i :: 0 <= i < k ==> !Due(states[0].slots[m], ts, i)
    ensures var slot := states[0].slots[m];
            states[k].slots[m] == slot.(miss := slot.miss + Snapshots(ts, k))
  {
    if k > 0 {
      MissesAccumulate(tick, states, ts, n, m, id, k - 1);
      StepOnSlot(tick, states[k - 1], ts[k - 1], m);
      assert !Due(states[0].slots[m], ts, k - 1);
      if ts[k - 1].step.Snapshot? {
        NotShownNotLive(ts[k - 1].step.remote, id);
      }
    }
  }

  /** An abandoned slot stays occupied until the first snapshot that is due, and that one frees it. */
  lemma FreedOnceAbandoned(tick: real, states: seq<State>, ts: seq<Timed>, n: nat, m: nat, id: int, k: nat)
    requires Execution(tick, states, ts, n) && m < n && k < |ts|
    requires states[0].slots[m].orderId == Some(id) && Abandoned(tick, states, ts, n, m, id, k + 1)
    requires forall i :: 0 <= i < k ==> !Due(states[0].slots[m], ts, i)
    ensures states[k].slots[m].orderId == Some(id)
    ensures states[k + 1].slots[m].orderId.None? <==> Due(states[0].slots[m], ts, k)
  {
    MissesAccumulate(tick, states, ts, n, m, id, k);
    StepOnSlot(tick, states[k], ts[k], m);
    if ts[k].step.Snapshot? {
      NotShownNotLive(ts[k].step.remote, id);
      ReconcileFreesIff(states[k].slots[m], SideOf(m), ts[k].step.remote, ts[k].now);
    }
  }

  // ---- Silence about an unresolved order ---------------------------------

  /** Nothing from outside names the order or addresses its slot; what the manager itself does in
      quote cycles and gates is left open. */
  predicate Silent(t: Timed, m: nat, id: int) {
    match t.step
    case Quote(_) => true
    case Gate => true
    case Deliver(BindLive(side, level, clientId, _, _, _)) => Pos(side, level) != m && clientId != id
    case Deliver(ClearLive(side, level, clientId)) => Pos(side, level) != m || (clientId != 0 && clientId != id)
    case Deliver(ClearAll) => false
    case Deliver(IdResolved(clientId, _)) => clientId != id
    case Deliver(Fill(clientId, _)) => clientId != id
    case Snapshot(remote) => !Shown(remote, id)
  }

  lemma CancelStep(s: State, n: nat, m: nat)
    requires m <= n < |s.slots|
    ensures OpFor(CancelOps(s, n + 1), m)
         == if m < n then OpFor(CancelOps(s, n), m) else CancelOp(s.slots[n], s.ids, n)
  {
    var before, op := CancelOps(s, n), CancelOp(s.slots[n], s.ids, n);
    assert OpsFit(before, n) by {
      CancelShape(s, n);
    }
    assert op.Some? ==> OpPos(op.value) == n by {
      CancelFaithful(s, n);
    }
    assert CancelOps(s, n + 1) == Appended(before, op);
    OpForAppended(before, op, n, m);
  }

  lemma {:induction false} CancelOpFor(s: State, n: nat, m: nat)
    requires m < n <= |s.slots|
    ensures OpFor(CancelOps(s, n), m) == CancelOp(s.slots[m], s.ids, m)
  {
    CancelStep(s, n - 1, m);
    if m < n - 1 {
      CancelOpFor(s, n - 1, m);
    }
  }

  /** The gate cancels exactly the resolved slots that are not being cancelled yet. */
  lemma GateCancels(s: State, m: nat)
    requires m < |s.slots|
    ensures var slot := s.slots[m];
            OpFor(CancelOps(s, |s.slots|), m)
            == if slot.orderId.None? || slot.orderId.value !in s.ids || slot.status == Canceling then None
               else
                 var id := slot.orderId.value;
                 Some(BatchOp(if m % 2 == 0 then Buy else Sell, m / 2, Cancel, 0.0, 0.0, id, Some(s.ids[id]), false))
  {
    CancelOpFor(s, |s.slots|, m);
  }

  /** A cycle has nothing to do for a slot whose order is not resolved. */
  lemma UnresolvedIsLeftAlone(tick: real, s: State, t: Timed, m: nat, id: int)
    requires StepFits(t, |s.slots|) && m < |s.slots| && (t.step.Quote? || t.step.Gate?)
    requires s.slots[m].orderId == Some(id) && id !in s.ids
    ensures OpFor(Emitted(tick, s, t), m).None?
  {
    match t.step
    case Quote(c) =>
      var n := 2 * |c.prices|;
      if m < n {
        CollectOpFor(tick, s, c, n, m);
      } else {
        CollectShape(tick, s, c, n);
        NoOpBeyond(Emitted(tick, s, t), m);
      }
    case Gate => CancelOpFor(s, |s.slots|, m);
  }

  lemma {:induction false} RemoteStaysUnresolved(s: State, remote: seq<Remote>, id: int)
    requires id !in s.ids && !Shown(remote, id)
    ensures id !in RecordRemote(s, remote).ids
  {
    if remote != [] {
      var before := remote[..|remote| - 1];
      assert forall i :: 0 <= i < |before| ==> before[i] == remote[i];
      RemoteStaysUnresolved(s, before, id);
      assert remote[|remote| - 1].clientId != Some(id);
    }
  }

  /** A silent step neither touches the slot nor resolves its order. */
  lemma SilentStep(tick: real, s: State, t: Timed, m: nat, id: int)
    requires StepFits(t, |s.slots|) && m < |s.slots| && Silent(t, m, id)
    requires s.slots[m].orderId == Some(id) && id !in s.ids
    ensures !Touches(tick, s, t, m) && id !in Next(tick, s, t).ids
  {
    match t.step
    case Quote(_) =>
      UnresolvedIsLeftAlone(tick, s, t, m, id);
      EmittedShape(tick, s, t);
    case Gate =>
      UnresolvedIsLeftAlone(tick, s, t, m, id);
      EmittedShape(tick, s, t);
    case Deliver(_) =>
    case Snapshot(remote) => RemoteStaysUnresolved(s, remote, id);
  }

  ghost predicate AllSilent(ts: seq<Timed>, m: nat, id: int, k: nat)
    requires k <= |ts|
  {
    forall i :: 0 <= i < k ==> Silent(ts[i], m, id)
  }

  lemma {:induction false} SilenceAbandons(tick: real, states: seq<State>, ts: seq<Timed>, n: nat, m: nat, id: int,
                                           k: nat)
    requires Execution(tick, states, ts, n) && m < n && k <= |ts| && AllSilent(ts, m, id, k)
    requires states[0].slots[m].orderId == Some(id) && id !in states[0].ids
    requires forall i :: 0 <= i < k - 1 ==> !Due(states[0].slots[m], ts, i)
    ensures Abandoned(tick, states, ts, n, m, id, k) && id !in states[k].ids
  {
    if k > 0 {
      SilenceAbandons(tick, states, ts, n, m, id, k - 1);
      MissesAccumulate(tick, states, ts, n, m, id, k - 1);
      assert StepFits(ts[k - 1], n) && states[k] == Next(tick, states[k - 1], ts[k - 1]);
      SilentStep(tick, states[k - 1], ts[k - 1], m, id);
    }
  }

  /** A slot whose order is not resolved and is named by no snapshot and no event, whatever the quote
      cycles and gates do: it stays occupied until the first snapshot that is at least its second
      miss and five seconds after its last update, and that one frees it. */
  lemma FreedByFirstDueSnapshot(tick: real, states: seq<State>, ts: seq<Timed>, n: nat, m: nat, id: int, k: nat)
    requires Execution(tick, states, ts, n) && m < n && k < |ts| && AllSilent(ts, m, id, k + 1)
    requires states[0].slots[m].orderId == Some(id) && id !in states[0].ids
    requires forall i :: 0 <= i < k ==> !Due(states[0].slots[m], ts, i)
    ensures states[k].slots[m].orderId == Some(id)
    ensures states[k + 1].slots[m].orderId.None? <==> Due(states[0].slots[m], ts, k)
  {
    SilenceAbandons(tick, states, ts, n, m, id, k + 1);
    FreedOnceAbandoned(tick, states, ts, n, m, id, k);
  }

  // ---- A resolved order that is repriced ---------------------------------

  /** Between any two snapshots some step touches the slot. */
  ghost predicate TouchedBetweenSnapshots(tick: real, states: seq<State>, ts: seq<Timed>, n: nat, m: nat)
    requires Execution(tick, states, ts, n) && m < n
  {
    forall j, k :: 0 <= j < k < |ts| && ts[j].step.Snapshot? && ts[k].step.Snapshot? ==>
      exists i :: j < i < k && Touches(tick, states[i], ts[i], m)
  }

  /** Over every run, however long: a slot that is touched between any two snapshots is never freed
      by reconcile, even if its order is in none of them. */
  lemma TouchedIsNeverFreed(tick: real, states: seq<State>, ts: seq<Timed>, n: nat, m: nat, k: nat)
    requires Execution(tick, states, ts, n) && ClockAdvances(ts) && m < n && k < |ts|
    requires CleanIdle(states[0]) && states[0].slots[m].miss == 0
    requires TouchedBetweenSnapshots(tick, states, ts, n, m)
    requires ts[k].step.Snapshot? && states[k].slots[m].orderId.Some?
    ensures states[k + 1].slots[m].orderId == states[k].slots[m].orderId
  {
    StepOnSlot(tick, states[k], ts[k], m);
    assert states[k + 1] == Next(tick, states[k], ts[k]);
    ReconcileFreesIff(states[k].slots[m], SideOf(m), ts[k].step.remote, ts[k].now);
    if states[k + 1].slots[m].orderId.None? {
      FreedOnlyAfterTwoMisses(tick, states, ts, n, m, k);
    }
  }

  /** A quote cycle touches the slot of a resolved order whenever the target has moved. */
  lemma MovedTargetTouches(tick: real, s: State, t: Timed, m: nat)
    requires StepFits(t, |s.slots|) && t.step.Quote? && m < 2 * |t.step.cycle.prices|
    requires var c := t.step.cycle;
             && !c.hold && c.size > 0.0 && Target(c, m).Some? && Target(c, m).value > 0.0
             && s.slots[m].orderId.Some? && s.slots[m].orderId.value in s.ids
             && NeedsModify(tick, s.slots[m], Target(c, m).value, c.size, c.threshold)
    ensures Touches(tick, s, t, m)
  {
    CollectOpFor(tick, s, t.step.cycle, 2 * |t.step.cycle.prices|, m);
  }

  /** A dead bid at 100, resolved, requoted at 99 between two empty snapshots: it is still held
      after the second one, however much later that comes. */
  lemma DeadOrderRepricedExample(wait: nat)
    ensures var slot := Slot(Live, Some(7), Some(100.0), Some(1.0), 0, 0);
            var s0 := State([slot, IdleSlot(0)], map[7 := 70], 7);
            var c := Cycle([(Some(99.0), None)], 1.0, 0.0, 8.0, 0, false);
            var s1 := Next(0.1, s0, Timed(GRACE, Snapshot([])));
            var s2 := Next(0.1, s1, Timed(GRACE, Quote(c)));
            var s3 := Next(0.1, s2, Timed(GRACE + wait, Snapshot([])));
            s3.slots[0].orderId == Some(7)
  {
    var slot := Slot(Live, Some(7), Some(100.0), Some(1.0), 0, 0);
    var s0 := State([slot, IdleSlot(0)], map[7 := 70], 7);
    var c := Cycle([(Some(99.0), None)], 1.0, 0.0, 8.0, 0, false);
    var t1, t2, t3 := Timed(GRACE, Snapshot([])), Timed(GRACE, Quote(c)), Timed(GRACE + wait, Snapshot([]));
    var s1 := Next(0.1, s0, t1);
    StepOnSlot(0.1, s0, t1, 0);
    assert s1.slots[0] == slot.(miss := 1) && s1.ids == s0.ids;
    assert PriceChangeBps(100.0, 99.0) == 100.0;
    MovedTargetTouches(0.1, s1, t2, 0);
    var s2 := Next(0.1, s1, t2);
    StepOnSlot(0.1, s1, t2, 0);
    StepOnSlot(0.1, s2, t3, 0);
    KeepsResolvedId(0.1, s1, t2, 0, 7);
  }

  /** Marking a modify or a cancel keeps the slot's order. */
  lemma KeepsResolvedId(tick: real, s: State, t: Timed, m: nat, id: int)
    requires StepFits(t, |s.slots|) && m < |s.slots| && (t.step.Quote? || t.step.Gate?)
    requires s.slots[m].orderId == Some(id)
    ensures Next(tick, s, t).slots[m].orderId == Some(id)
  {
    var ops := Emitted(tick, s, t);
    EmittedShape(tick, s, t);
    if t.step.Quote? {
      MarkAllAt(s.(lastId := CollectAll(tick, s, t.step.cycle).1), ops, t.now, m);
    } else {
      MarkAllAt(s, ops, t.now, m);
    }
    if OpFor(ops, m).Some? {
      OpForMember(s, ops, m);
    }
  }

  lemma ExecutionSuffix(tick: real, states: seq<State>, ts: seq<Timed>, n: nat, j: nat)
    requires Execution(tick, states, ts, n) && j <= |ts|
    ensures Execution(tick, states[j..], ts[j..], n)
  {
    var later, rest := states[j..], ts[j..];
    forall i | 0 <= i < |rest|
      ensures StepFits(rest[i], n) && later[i + 1] == Next(tick, later[i], rest[i])
    {
      assert rest[i] == ts[j + i] && later[i] == states[j + i] && later[i + 1] == states[j + i + 1];
    }
  }

  /** Snapshot `i` is the second miss since step `j`, or a later one, and comes five seconds after it. */
  predicate DueSince(ts: seq<Timed>, j: nat, i: nat)
    requires j < i < |ts|
  {
    && ts[i].step.Snapshot?
    && Snapshots(ts, i + 1) - Snapshots(ts, j + 1) >= MISSING_DEBOUNCE
    && ts[i].now - ts[j].now >= GRACE
  }

  lemma {:induction false} SnapshotsSuffix(ts: seq<Timed>, j: nat, i: nat)
    requires j + i <= |ts|
    ensures Snapshots(ts[j..], i) == Snapshots(ts, j + i) - Snapshots(ts, j)
  {
    if i > 0 {
      SnapshotsSuffix(ts, j, i - 1);
      assert ts[j..][i - 1] == ts[j + i - 1];
    }
  }

  /** From step `j` to step `k` nothing touches the slot and no snapshot carries its order. */
  ghost predicate AbandonedSince(tick: real, states: seq<State>, ts: seq<Timed>, n: nat, m: nat, id: int, j: nat,
                                 k: nat)
    requires Execution(tick, states, ts, n) && m < n && k < |ts|
  {
    forall i :: j < i <= k ==>
      && !Touches(tick, states[i], ts[i], m)
      && (ts[i].step.Snapshot? ==> !Shown(ts[i].step.remote, id))
  }

  lemma AbandonedSuffix(tick: real, states: seq<State>, ts: seq<Timed>, n: nat, m: nat, id: int, j: nat, k: nat)
    requires Execution(tick, states, ts, n) && m < n && j < k < |ts|
    requires AbandonedSince(tick, states, ts, n, m, id, j, k)
    ensures Execution(tick, states[j + 1..], ts[j + 1..], n)
    ensures Abandoned(tick, states[j + 1..], ts[j + 1..], n, m, id, k - j)
  {
    var later, rest := states[j + 1..], ts[j + 1..];
    ExecutionSuffix(tick, states, ts, n, j + 1);
    forall i | 0 <= i < k - j
      ensures !Touches(tick, later[i], rest[i], m) && (rest[i].step.Snapshot? ==> !Shown(rest[i].step.remote, id))
    {
      assert rest[i] == ts[j + 1 + i] && later[i] == states[j + 1 + i];
      assert !Touches(tick, states[j + 1 + i], ts[j + 1 + i], m);
    }
  }

  lemma DueSuffix(ts: seq<Timed>, slot: Slot, j: nat, i: nat)
    requires j + 1 + i < |ts| && slot.miss == 0 && slot.updatedAt == ts[j].now
    ensures Due(slot, ts[j + 1..], i) <==> DueSince(ts, j, j + 1 + i)
  {
    SnapshotsSuffix(ts, j + 1, i + 1);
    assert ts[j + 1..][i] == ts[j + 1 + i];
  }

  lemma NotDueYet(ts: seq<Timed>, rest: seq<Timed>, slot: Slot, j: nat, k: nat)
    requires j < k < |ts| && rest == ts[j + 1..] && slot.miss == 0 && slot.updatedAt == ts[j].now
    requires forall i :: j < i < k ==> !DueSince(ts, j, i)
    ensures forall i :: 0 <= i < k - j - 1 ==> !Due(slot, rest, i)
    ensures Due(slot, rest, k - j - 1) <==> DueSince(ts, j, k)
  {
    forall i | 0 <= i < k - j - 1
      ensures !Due(slot, rest, i)
    {
      DueSuffix(ts, slot, j, i);
      assert !DueSince(ts, j, j + 1 + i);
    }
    DueSuffix(ts, slot, j, k - j - 1);
  }

  lemma TouchStamps(tick: real, states: seq<State>, ts: seq<Timed>, n: nat, m: nat, j: nat)
    requires Execution(tick, states, ts, n) && m < n && j < |ts| && Touches(tick, states[j], ts[j], m)
    ensures states[j + 1].slots[m].miss == 0 && states[j + 1].slots[m].updatedAt == ts[j].now
  {
    assert states[j + 1] == Next(tick, states[j], ts[j]);
    StepOnSlot(tick, states[j], ts[j], m);
  }

  /** Freeing is due counted from the last step that touched the slot: after it, with the order in no
      snapshot, the first snapshot that is the second miss since and five seconds later frees the
      slot, and none before does. */
  lemma FreedAfterLastTouch(tick: real, states: seq<State>, ts: seq<Timed>, n: nat, m: nat, id: int, j: nat, k: nat)
    requires Execution(tick, states, ts, n) && m < n && j < k < |ts|
    requires Touches(tick, states[j], ts[j], m) && states[j + 1].slots[m].orderId == Some(id)
    requires AbandonedSince(tick, states, ts, n, m, id, j, k)
    requires forall i :: j < i < k ==> !DueSince(ts, j, i)
    ensures states[k].slots[m].orderId == Some(id)
    ensures states[k + 1].slots[m].orderId.None? <==> DueSince(ts, j, k)
  {
    TouchStamps(tick, states, ts, n, m, j);
    AbandonedSuffix(tick, states, ts, n, m, id, j, k);
    var later, rest := states[j + 1..], ts[j + 1..];
    NotDueYet(ts, rest, states[j + 1].slots[m], j, k);
    FreedOnceAbandoned(tick, later, rest, n, m, id, k - j - 1);
  }
}
