/**
The hot task driving the order manager: every schedule of quote cycles, gated cancels, drained
events and reconcile snapshots is an execution in the sense of module OrderRuns, so the run
theorems hold of the running manager.
*/
module OrderLoop {
  import opened Common
  import opened Orders
  import opened OrderSlots
  import opened OrderDiff
  import opened OrderRuns
  import opened OrderIds
  import opened OrderManager

  /** One turn of the hot task. A quote cycle occupies its slots before the batch is handed on. */
  method Perform(om: OrderManager, t: Timed) returns (ops: seq<BatchOp>)
    requires om.Valid() && StepFits(t, 2 * om.numLevels)
    modifies om
    ensures om.Valid() && om.View() == Next(om.amountTick, old(om.View()), t)
    ensures ops == Emitted(om.amountTick, old(om.View()), t)
    ensures Ordered(ops)
  {
    ops := [];
    EmittedShape(om.amountTick, om.View(), t);
    match t.step {
      case Quote(c) =>
        ops := om.CollectOrderOperations(c);
        om.MarkBatch(ops, t.now);
      case Gate =>
        ops := om.CollectCancelOps();
        om.MarkBatch(ops, t.now);
      case Deliver(e) => om.ApplyEvent(e, t.now);
      case Snapshot(remote) => om.ProcessReconcile(remote, t.now);
    }
  }

  lemma ExecutionExtends(tick: real, states: seq<State>, ts: seq<Timed>, n: nat, i: nat, next: State)
    requires i < |ts| && Execution(tick, states, ts[..i], n)
    requires StepFits(ts[i], n) && next == Next(tick, states[i], ts[i])
    ensures Execution(tick, states + [next], ts[..i + 1], n)
  {
    var more, done := states + [next], ts[..i + 1];
    forall k | 0 <= k < |done|
      ensures StepFits(done[k], n) && more[k + 1] == Next(tick, more[k], done[k])
    {
      assert done[k] == ts[k];
      if k < i {
        assert done[k] == ts[..i][k];
      }
    }
  }

  /** Any schedule: the states passed through form an execution, and in each of them every slot's
      creates balance its clears. */
  method Drive(om: OrderManager, ts: seq<Timed>) returns (ghost states: seq<State>)
    requires om.Valid() && forall i :: 0 <= i < |ts| ==> StepFits(ts[i], 2 * om.numLevels)
    modifies om
    ensures om.Valid() && Execution(om.amountTick, states, ts, 2 * om.numLevels)
    ensures states[0] == old(om.View()) && states[|ts|] == om.View()
    ensures forall m :: 0 <= m < 2 * om.numLevels ==>
              TotalCreates(om.amountTick, states, ts, 2 * om.numLevels, m, |ts|)
              <= TotalClears(om.amountTick, states, ts, 2 * om.numLevels, m, |ts|) + 1
  {
    states := [om.View()];
    for i := 0 to |ts|
      invariant om.Valid() && Execution(om.amountTick, states, ts[..i], 2 * om.numLevels)
      invariant states[0] == old(om.View()) && states[i] == om.View()
    {
      var _ := Perform(om, ts[i]);
      ExecutionExtends(om.amountTick, states, ts, 2 * om.numLevels, i, om.View());
      states := states + [om.View()];
    }
    assert ts[..|ts|] == ts;
    forall m | 0 <= m < 2 * om.numLevels
      ensures TotalCreates(om.amountTick, states, ts, 2 * om.numLevels, m, |ts|)
              <= TotalClears(om.amountTick, states, ts, 2 * om.numLevels, m, |ts|) + 1
    {
      CreatesBalanceClears(om.amountTick, states, ts, 2 * om.numLevels, m, |ts|);
    }
  }
}
