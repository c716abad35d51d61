/**
Accounting over whole runs of the order manager: creates against clears, and the client ids
handed out by the creates.
*/
module OrderIds {
  import opened Common
  import opened Orders
  import opened OrderSlots
  import opened OrderDiff
  import opened OrderRuns

  // ---- Creates against clears --------------------------------------------

  function Occupied(slot: Slot): nat {
    if slot.orderId.Some? then 1 else 0
  }

  function Creates(tick: real, s: State, t: Timed, m: nat): nat
    requires StepFits(t, |s.slots|)
  {
    var op := OpFor(Emitted(tick, s, t), m);
    if op.Some? && op.value.action == Create then 1 else 0
  }

  /** The step empties the slot. */
  function Clears(tick: real, s: State, t: Timed, m: nat): nat
    requires StepFits(t, |s.slots|) && m < |s.slots|
  {
    if s.slots[m].orderId.Some? && Next(tick, s, t).slots[m].orderId.None? then 1 else 0
  }

  /** A late bind occupies a slot that holds nothing. */
  function StrayBinds(s: State, t: Timed, m: nat): nat
    requires m < |s.slots|
  {
    if t.step.Deliver? && t.step.event.BindLive? && Pos(t.step.event.side, t.step.event.level) == m
      && s.slots[m].orderId.None?
    then 1 else 0
  }

  ghost function TotalCreates(tick: real, states: seq<State>, ts: seq<Timed>, n: nat, m: nat, k: nat): nat
    requires Execution(tick, states, ts, n) && m < n && k <= |ts|
  {
    if k == 0 then 0 else TotalCreates(tick, states, ts, n, m, k - 1) + Creates(tick, states[k - 1], ts[k - 1], m)
  }

  ghost function TotalClears(tick: real, states: seq<State>, ts: seq<Timed>, n: nat, m: nat, k: nat): nat
    requires Execution(tick, states, ts, n) && m < n && k <= |ts|
  {
    if k == 0 then 0 else TotalClears(tick, states, ts, n, m, k - 1) + Clears(tick, states[k - 1], ts[k - 1], m)
  }

  ghost function TotalStrays(tick: real, states: seq<State>, ts: seq<Timed>, n: nat, m: nat, k: nat): nat
    requires Execution(tick, states, ts, n) && m < n && k <= |ts|
  {
    if k == 0 then 0 else TotalStrays(tick, states, ts, n, m, k - 1) + StrayBinds(states[k - 1], ts[k - 1], m)
  }

  /** A quote cycle or a gated cancel occupies exactly the slots it creates in, and empties none. */
  lemma MarkedOccupancy(tick: real, s: State, t: Timed, m: nat)
    requires StepFits(t, |s.slots|) && m < |s.slots| && (t.step.Quote? || t.step.Gate?)
    ensures Creates(tick, s, t, m) + Occupied(s.slots[m]) == Occupied(Next(tick, s, t).slots[m])
    ensures Clears(tick, s, t, m) == 0
  {
    var ops := Emitted(tick, s, t);
    EmittedShape(tick, s, t);
    if t.step.Quote? {
      MarkAllAt(s.(lastId := CollectAll(tick, s, t.step.cycle).1), ops, t.now, m);
    } else {
      MarkAllAt(s, ops, t.now, m);
    }
    if OpFor(ops, m).Some? {
      OpForMember(s, ops, m);
    }
  }

  lemma EventOccupancy(tick: real, s: State, t: Timed, m: nat)
    requires StepFits(t, |s.slots|) && m < |s.slots| && (t.step.Deliver? || t.step.Snapshot?)
    ensures Creates(tick, s, t, m) == 0
    ensures StrayBinds(s, t, m) + Occupied(s.slots[m]) == Clears(tick, s, t, m) + Occupied(Next(tick, s, t).slots[m])
  {
    if t.step.Snapshot? {
      StepOnSlot(tick, s, t, m);
    }
  }

  lemma StepBalance(tick: real, s: State, t: Timed, m: nat)
    requires StepFits(t, |s.slots|) && m < |s.slots|
    ensures Creates(tick, s, t, m) + StrayBinds(s, t, m) + Occupied(s.slots[m])
         == Clears(tick, s, t, m) + Occupied(Next(tick, s, t).slots[m])
  {
    if t.step.Quote? || t.step.Gate? {
      MarkedOccupancy(tick, s, t, m);
    } else {
      EventOccupancy(tick, s, t, m);
    }
  }

  /** Creates, stray binds and what the slot held at first balance clears and what it holds now. */
  ghost predicate Balanced(tick: real, states: seq<State>, ts: seq<Timed>, n: nat, m: nat, k: nat)
    requires Execution(tick, states, ts, n) && m < n && k <= |ts|
  {
    TotalCreates(tick, states, ts, n, m, k) + TotalStrays(tick, states, ts, n, m, k) + Occupied(states[0].slots[m])
    == TotalClears(tick, states, ts, n, m, k) + Occupied(states[k].slots[m])
  }

  lemma BalanceStep(tick: real, states: seq<State>, ts: seq<Timed>, n: nat, m: nat, k: nat)
    requires Execution(tick, states, ts, n) && m < n && k < |ts| && Balanced(tick, states, ts, n, m, k)
    ensures Balanced(tick, states, ts, n, m, k + 1)
  {
    assert StepFits(ts[k], n) && states[k + 1] == Next(tick, states[k], ts[k]);
    StepBalance(tick, states[k], ts[k], m);
    assert TotalCreates(tick, states, ts, n, m, k + 1)
        == TotalCreates(tick, states, ts, n, m, k) + Creates(tick, states[k], ts[k], m);
  }

  lemma AlwaysBalanced(tick: real, states: seq<State>, ts: seq<Timed>, n: nat, m: nat, k: nat)
    requires Execution(tick, states, ts, n) && m < n && k <= |ts|
    ensures Balanced(tick, states, ts, n, m, k)
  {
    var holds := (i: nat) => i <= |ts| && Balanced(tick, states, ts, n, m, i);
    BalanceBounds(tick, states, ts, n, m, 0);
    forall i | 0 <= i < k && holds(i)
      ensures holds(i + 1)
    {
      BalanceStep(tick, states, ts, n, m, i);
    }
    Along(holds, k);
  }

  /** Over every run and for every slot the balance holds, so creates never exceed clears plus one. */
  lemma CreatesBalanceClears(tick: real, states: seq<State>, ts: seq<Timed>, n: nat, m: nat, k: nat)
    requires Execution(tick, states, ts, n) && m < n && k <= |ts|
    ensures Balanced(tick, states, ts, n, m, k)
    ensures TotalCreates(tick, states, ts, n, m, k) <= TotalClears(tick, states, ts, n, m, k) + 1
  {
    AlwaysBalanced(tick, states, ts, n, m, k);
    BalanceBounds(tick, states, ts, n, m, k);
  }

  lemma BalanceBounds(tick: real, states: seq<State>, ts: seq<Timed>, n: nat, m: nat, k: nat)
    requires Execution(tick, states, ts, n) && m < n && k <= |ts|
    ensures Balanced(tick, states, ts, n, m, 0)
    ensures Balanced(tick, states, ts, n, m, k) ==>
              TotalCreates(tick, states, ts, n, m, k) <= TotalClears(tick, states, ts, n, m, k) + 1
  {
  }

  // ---- The ids handed out ------------------------------------------------

  datatype Issue = Issue(pos: nat, id: int, nowNs: int)

  function Prev(last: int, log: seq<Issue>, i: nat): int
    requires i <= |log|
  {
    if i == 0 then last else log[i - 1].id
  }

  /** An id follows from the one before it and the clock. */
  predicate Follows(prev: int, x: Issue) {
    x.id == NextId(prev, x.nowNs)
  }

  ghost predicate Linked(link: (int, Issue) -> bool, last: int, log: seq<Issue>) {
    forall i :: 0 <= i < |log| ==> link(Prev(last, log, i), log[i])
  }

  /** Every id of the log follows from the one before it. */
  ghost predicate Chain(last: int, log: seq<Issue>) {
    Linked(Follows, last, log)
  }

  function Issues(ops: seq<BatchOp>, nowNs: int): seq<Issue> {
    if ops == [] then []
    else
      var op := ops[|ops| - 1];
      Issues(ops[..|ops| - 1], nowNs) + (if op.action == Create then [Issue(OpPos(op), op.clientId, nowNs)] else [])
  }

  ghost predicate LinkedTo(link: (int, Issue) -> bool, first: int, log: seq<Issue>, last: int) {
    Linked(link, first, log) && Prev(first, log, |log|) == last
  }

  /** The log ends in `last` and continues the chain that starts at `first`. */
  ghost predicate ChainTo(first: int, log: seq<Issue>, last: int) {
    LinkedTo(Follows, first, log, last)
  }

  lemma PrevConcat(first: int, a: seq<Issue>, b: seq<Issue>, i: nat)
    requires i <= |a| + |b|
    ensures Prev(first, a + b, i) == if i <= |a| then Prev(first, a, i) else Prev(Prev(first, a, |a|), b, i - |a|)
  {
  }

  lemma LinkedConcat(link: (int, Issue) -> bool, first: int, a: seq<Issue>, mid: int, b: seq<Issue>, last: int)
    requires LinkedTo(link, first, a, mid) && LinkedTo(link, mid, b, last)
    ensures LinkedTo(link, first, a + b, last)
  {
    var all := a + b;
    forall i | 0 <= i < |all|
      ensures link(Prev(first, all, i), all[i])
    {
      PrevConcat(first, a, b, i);
      if i >= |a| {
        assert link(Prev(mid, b, i - |a|), b[i - |a|]);
      }
    }
    PrevConcat(first, a, b, |all|);
  }

  lemma IssuesAppended(ops: seq<BatchOp>, op: Option<BatchOp>, nowNs: int)
    ensures Issues(Appended(ops, op), nowNs)
         == if op.Some? && op.value.action == Create
            then Issues(ops, nowNs) + [Issue(OpPos(op.value), op.value.clientId, nowNs)] else Issues(ops, nowNs)
  {
  }

  lemma DecideCreates(tick: real, slot: Slot, ids: map<int, int>, c: Cycle, m: nat, newId: int)
    requires m < 2 * |c.prices|
    ensures var op := Decide(tick, slot, ids, c, m, newId);
            op.Some? && op.value.action == Create ==> op.value.clientId == newId
  {
  }

  lemma OneLink(prev: int, x: Issue)
    requires x.id == NextId(prev, x.nowNs)
    ensures ChainTo(prev, [x], x.id)
  {
  }

  lemma ChainStep(first: int, ops: seq<BatchOp>, last: int, op: Option<BatchOp>, nowNs: int)
    requires ChainTo(first, Issues(ops, nowNs), last)
    requires op.Some? && op.value.action == Create ==> op.value.clientId == NextId(last, nowNs)
    ensures ChainTo(first, Issues(Appended(ops, op), nowNs),
                    if op.Some? && op.value.action == Create then NextId(last, nowNs) else last)
  {
    IssuesAppended(ops, op, nowNs);
    if op.Some? && op.value.action == Create {
      var x := Issue(OpPos(op.value), op.value.clientId, nowNs);
      OneLink(last, x);
      LinkedConcat(Follows, first, Issues(ops, nowNs), last, [x], x.id);
    }
  }

  /** The creates of one batch continue the chain of ids. */
  lemma {:induction false} CollectChain(tick: real, s: State, c: Cycle, n: nat)
    requires n <= 2 * |c.prices| <= |s.slots|
    ensures var (ops, last) := Collect(tick, s, c, n);
            ChainTo(s.lastId, Issues(ops, c.nowNs), last)
  {
    if n > 0 {
      CollectChain(tick, s, c, n - 1);
      var (ops, last) := Collect(tick, s, c, n - 1);
      var newId := NextId(last, c.nowNs);
      DecideCreates(tick, s.slots[n - 1], s.ids, c, n - 1, newId);
      ChainStep(s.lastId, ops, last, Decide(tick, s.slots[n - 1], s.ids, c, n - 1, newId), c.nowNs);
    }
  }

  function StepIssues(tick: real, s: State, t: Timed): seq<Issue>
    requires StepFits(t, |s.slots|)
  {
    if t.step.Quote? then Issues(Emitted(tick, s, t), t.step.cycle.nowNs) else []
  }

  /** All ids handed out by the creates of the first `k` steps. */
  ghost function Log(tick: real, states: seq<State>, ts: seq<Timed>, n: nat, k: nat): seq<Issue>
    requires Execution(tick, states, ts, n) && k <= |ts|
  {
    if k == 0 then [] else Log(tick, states, ts, n, k - 1) + StepIssues(tick, states[k - 1], ts[k - 1])
  }

  lemma StepChain(tick: real, s: State, t: Timed)
    requires StepFits(t, |s.slots|)
    ensures ChainTo(s.lastId, StepIssues(tick, s, t), Next(tick, s, t).lastId)
  {
    match t.step
    case Quote(c) => CollectChain(tick, s, c, 2 * |c.prices|);
    case Gate => EmittedShape(tick, s, t);
    case Deliver(_) =>
    case Snapshot(_) =>
  }

  /** The issues of step `i` lead from one counter to the next. */
  ghost predicate Links(link: (int, Issue) -> bool, tick: real, states: seq<State>, ts: seq<Timed>, n: nat, i: nat)
    requires Execution(tick, states, ts, n) && i < |ts|
  {
    LinkedTo(link, states[i].lastId, StepIssues(tick, states[i], ts[i]), states[i + 1].lastId)
  }

  lemma {:induction false} LogLinks(link: (int, Issue) -> bool, tick: real, states: seq<State>, ts: seq<Timed>, n: nat,
                                    k: nat)
    requires Execution(tick, states, ts, n) && k <= |ts|
    requires forall i :: 0 <= i < k ==> Links(link, tick, states, ts, n, i)
    ensures LinkedTo(link, states[0].lastId, Log(tick, states, ts, n, k), states[k].lastId)
  {
    if k > 0 {
      LogLinks(link, tick, states, ts, n, k - 1);
      assert Links(link, tick, states, ts, n, k - 1);
      LinkedConcat(link, states[0].lastId, Log(tick, states, ts, n, k - 1), states[k - 1].lastId,
                   StepIssues(tick, states[k - 1], ts[k - 1]), states[k].lastId);
    }
  }

  /** The log of the first `k` steps leads from the first counter to the `k`-th. */
  lemma LogChain(tick: real, states: seq<State>, ts: seq<Timed>, n: nat, k: nat)
    requires Execution(tick, states, ts, n) && k <= |ts|
    ensures ChainTo(states[0].lastId, Log(tick, states, ts, n, k), states[k].lastId)
  {
    forall i | 0 <= i < k
      ensures Links(Follows, tick, states, ts, n, i)
    {
      assert StepFits(ts[i], n) && states[i + 1] == Next(tick, states[i], ts[i]);
      StepChain(tick, states[i], ts[i]);
    }
    LogLinks(Follows, tick, states, ts, n, k);
  }

  /** No id was handed out after the last one of the id space. */
  ghost predicate WithinOneLap(last: int, log: seq<Issue>) {
    forall i :: 0 <= i < |log| ==> Prev(last, log, i) != MAX_CLIENT_ORDER_INDEX
  }

  lemma {:induction false} ChainRange(last: int, log: seq<Issue>, i: nat)
    requires 0 <= last <= MAX_CLIENT_ORDER_INDEX && Chain(last, log) && i < |log|
    ensures 0 <= Prev(last, log, i) <= MAX_CLIENT_ORDER_INDEX && 1 <= log[i].id <= MAX_CLIENT_ORDER_INDEX
  {
  }

  ghost predicate Rising(last: int, log: seq<Issue>) {
    forall i :: 0 <= i < |log| ==> Prev(last, log, i) < log[i].id
  }

  lemma {:induction false} RisingIsSorted(last: int, log: seq<Issue>, i: nat, j: nat)
    requires Rising(last, log) && i < j < |log|
    ensures log[i].id < log[j].id
    decreases j
  {
    assert Prev(last, log, j) < log[j].id;
    if i < j - 1 {
      RisingIsSorted(last, log, i, j - 1);
    }
  }

  lemma ChainRisesIff(last: int, log: seq<Issue>)
    requires 0 <= last <= MAX_CLIENT_ORDER_INDEX && Chain(last, log)
    ensures Rising(last, log) <==> WithinOneLap(last, log)
  {
    forall i | 0 <= i < |log|
      ensures Prev(last, log, i) < log[i].id <==> Prev(last, log, i) != MAX_CLIENT_ORDER_INDEX
    {
      ChainRange(last, log, i);
      NextIdIncreasesIff(Prev(last, log, i), log[i].nowNs);
    }
  }

  /** Over every run: ids are non-zero, and each is larger than its predecessor exactly within one lap. */
  lemma IdsIncreaseIff(tick: real, states: seq<State>, ts: seq<Timed>, n: nat, k: nat)
    requires Execution(tick, states, ts, n) && k <= |ts| && 0 <= states[0].lastId <= MAX_CLIENT_ORDER_INDEX
    ensures var last, log := states[0].lastId, Log(tick, states, ts, n, k);
            && (forall i :: 0 <= i < |log| ==> log[i].id > 0)
            && (Rising(last, log) <==> WithinOneLap(last, log))
            && (WithinOneLap(last, log) ==> forall i, j :: 0 <= i < j < |log| ==> log[i].id < log[j].id)
  {
    LogChain(tick, states, ts, n, k);
    var last, log := states[0].lastId, Log(tick, states, ts, n, k);
    forall i | 0 <= i < |log|
      ensures log[i].id > 0
    {
      ChainRange(last, log, i);
    }
    ChainRisesIff(last, log);
    if WithinOneLap(last, log) {
      forall i, j | 0 <= i < j < |log|
        ensures log[i].id < log[j].id
      {
        RisingIsSorted(last, log, i, j);
      }
    }
  }

  // ---- The ids tracked by the slots --------------------------------------

  ghost predicate IssuedFor(log: seq<Issue>, m: nat, id: int) {
    exists i :: 0 <= i < |log| && log[i].pos == m && log[i].id == id
  }

  /** Every slot holds an id that was handed out for it. */
  ghost predicate Tracked(s: State, log: seq<Issue>) {
    forall m :: 0 <= m < |s.slots| && s.slots[m].orderId.Some? ==> IssuedFor(log, m, s.slots[m].orderId.value)
  }

  /** Binds echo creates that were emitted for the same slot. */
  ghost predicate BindsEcho(tick: real, states: seq<State>, ts: seq<Timed>, n: nat)
    requires Execution(tick, states, ts, n)
  {
    forall k :: 0 <= k < |ts| && ts[k].step.Deliver? && ts[k].step.event.BindLive? ==>
      var e := ts[k].step.event;
      IssuedFor(Log(tick, states, ts, n, k), Pos(e.side, e.level), e.clientId)
  }

  lemma IssuedGrows(log: seq<Issue>, more: seq<Issue>, m: nat, id: int)
    requires IssuedFor(log, m, id)
    ensures IssuedFor(log + more, m, id)
  {
    var i :| 0 <= i < |log| && log[i].pos == m && log[i].id == id;
    assert (log + more)[i] == log[i];
  }

  lemma {:induction false} CreateIsIssued(ops: seq<BatchOp>, nowNs: int, m: nat)
    requires OpFor(ops, m).Some? && OpFor(ops, m).value.action == Create
    ensures IssuedFor(Issues(ops, nowNs), m, OpFor(ops, m).value.clientId)
  {
    var before, op := ops[..|ops| - 1], ops[|ops| - 1];
    var log := Issues(ops, nowNs);
    if OpPos(op) == m {
      assert log[|log| - 1] == Issue(m, op.clientId, nowNs);
    } else {
      CreateIsIssued(before, nowNs, m);
      var more := if op.action == Create then [Issue(OpPos(op), op.clientId, nowNs)] else [];
      IssuedGrows(Issues(before, nowNs), more, m, OpFor(ops, m).value.clientId);
      assert log == Issues(before, nowNs) + more;
    }
  }

  /** Where a slot's id comes from: it held it, it was created, or a bind brought it. */
  lemma IdOrigin(tick: real, s: State, t: Timed, m: nat)
    requires StepFits(t, |s.slots|) && m < |s.slots|
    requires Next(tick, s, t).slots[m].orderId.Some?
    ensures var id := Next(tick, s, t).slots[m].orderId.value;
            || s.slots[m].orderId == Some(id)
            || IssuedFor(StepIssues(tick, s, t), m, id)
            || (t.step.Deliver? && t.step.event.BindLive? && t.step.event.clientId == id
                && Pos(t.step.event.side, t.step.event.level) == m)
  {
    StepOnSlot(tick, s, t, m);
    if t.step.Quote? {
      var ops := Emitted(tick, s, t);
      EmittedShape(tick, s, t);
      MarkAllAt(s.(lastId := CollectAll(tick, s, t.step.cycle).1), ops, t.now, m);
      if OpFor(ops, m).Some? && OpFor(ops, m).value.action == Create {
        CreateIsIssued(ops, t.step.cycle.nowNs, m);
      }
    } else if t.step.Gate? {
      GateKeepsIds(tick, s, t, m);
    } else if t.step.Snapshot? {
      assert Next(tick, s, t).slots[m].orderId == s.slots[m].orderId;
    }
  }

  lemma GateKeepsIds(tick: real, s: State, t: Timed, m: nat)
    requires StepFits(t, |s.slots|) && m < |s.slots| && t.step.Gate?
    ensures Next(tick, s, t).slots[m].orderId == s.slots[m].orderId
  {
    var ops := Emitted(tick, s, t);
    EmittedShape(tick, s, t);
    MarkAllAt(s, ops, t.now, m);
    if OpFor(ops, m).Some? {
      CancelOpsCancel(s, |s.slots|, m);
    }
  }

  lemma {:induction false} CancelOpsCancel(s: State, n: nat, m: nat)
    requires n <= |s.slots| && OpFor(CancelOps(s, n), m).Some?
    ensures OpFor(CancelOps(s, n), m).value.action == Cancel
  {
    if n > 0 {
      var before, op := CancelOps(s, n - 1), CancelOp(s.slots[n - 1], s.ids, n - 1);
      assert CancelOps(s, n) == Appended(before, op);
      if op.Some? {
        assert Appended(before, op)[..|before|] == before;
      }
      if op.None? || OpPos(op.value) != m {
        CancelOpsCancel(s, n - 1, m);
      }
    }
  }

  lemma TrackedNext(tick: real, s: State, t: Timed, log: seq<Issue>)
    requires StepFits(t, |s.slots|) && Tracked(s, log)
    requires t.step.Deliver? && t.step.event.BindLive? ==>
               IssuedFor(log, Pos(t.step.event.side, t.step.event.level), t.step.event.clientId)
    ensures Tracked(Next(tick, s, t), log + StepIssues(tick, s, t))
  {
    var after, all := Next(tick, s, t), log + StepIssues(tick, s, t);
    forall m | 0 <= m < |after.slots| && after.slots[m].orderId.Some?
      ensures IssuedFor(all, m, after.slots[m].orderId.value)
    {
      TrackedStep(tick, s, t, m, log);
    }
  }

  lemma {:induction false} RunTracksIssued(tick: real, states: seq<State>, ts: seq<Timed>, n: nat, k: nat)
    requires Execution(tick, states, ts, n) && BindsEcho(tick, states, ts, n) && k <= |ts|
    requires forall m :: 0 <= m < n ==> states[0].slots[m].orderId.None?
    ensures Tracked(states[k], Log(tick, states, ts, n, k))
  {
    if k > 0 {
      RunTracksIssued(tick, states, ts, n, k - 1);
      assert StepFits(ts[k - 1], n) && states[k] == Next(tick, states[k - 1], ts[k - 1]);
      TrackedNext(tick, states[k - 1], ts[k - 1], Log(tick, states, ts, n, k - 1));
    }
  }

  lemma TrackedStep(tick: real, s: State, t: Timed, m: nat, log: seq<Issue>)
    requires StepFits(t, |s.slots|) && m < |s.slots| && Tracked(s, log)
    requires t.step.Deliver? && t.step.event.BindLive? ==>
               IssuedFor(log, Pos(t.step.event.side, t.step.event.level), t.step.event.clientId)
    requires Next(tick, s, t).slots[m].orderId.Some?
    ensures IssuedFor(log + StepIssues(tick, s, t), m, Next(tick, s, t).slots[m].orderId.value)
  {
    var id, more := Next(tick, s, t).slots[m].orderId.value, StepIssues(tick, s, t);
    IdOrigin(tick, s, t, m);
    if IssuedFor(more, m, id) {
      var i :| 0 <= i < |more| && more[i].pos == m && more[i].id == id;
      assert (log + more)[|log| + i] == more[i];
    } else {
      IssuedGrows(log, more, m, id);
    }
  }

  /** In every run from empty slots whose binds echo emitted creates, within one lap of the id
      space, the ids held by the slots are non-zero and pairwise distinct. */
  lemma TrackedIdsDistinct(tick: real, states: seq<State>, ts: seq<Timed>, n: nat, k: nat)
    requires Execution(tick, states, ts, n) && BindsEcho(tick, states, ts, n) && k <= |ts|
    requires forall m :: 0 <= m < n ==> states[0].slots[m].orderId.None?
    requires 0 <= states[0].lastId <= MAX_CLIENT_ORDER_INDEX
    requires WithinOneLap(states[0].lastId, Log(tick, states, ts, n, k))
    ensures forall m :: 0 <= m < n && states[k].slots[m].orderId.Some? ==> states[k].slots[m].orderId.value > 0
    ensures forall a, b :: 0 <= a < b < n && states[k].slots[a].orderId.Some? ==>
              states[k].slots[a].orderId != states[k].slots[b].orderId
  {
    RunTracksIssued(tick, states, ts, n, k);
    IdsIncreaseIff(tick, states, ts, n, k);
    var s, log := states[k], Log(tick, states, ts, n, k);
    forall a, b | 0 <= a < b < n && s.slots[a].orderId.Some?
      ensures s.slots[a].orderId != s.slots[b].orderId
    {
      if s.slots[a].orderId == s.slots[b].orderId {
        OneSlotPerId(log, a, b, s.slots[a].orderId.value);
      }
    }
  }

  lemma OneSlotPerId(log: seq<Issue>, a: nat, b: nat, id: int)
    requires forall i, j :: 0 <= i < j < |log| ==> log[i].id < log[j].id
    requires IssuedFor(log, a, id) && IssuedFor(log, b, id)
    ensures a == b
  {
  }
}
