/** Order operations and the events that report their fate. */
module Orders {
  import opened Common

  datatype OrderAction = Create | Modify | Cancel

  datatype BatchOp = BatchOp(
    side: Side, level: nat, action: OrderAction, price: real, size: real,
    clientId: int, exchangeId: Option<int>, reduceOnly: bool)

  datatype OrderEvent =
    | BindLive(side: Side, level: nat, clientId: int, exchangeId: Option<int>, price: real, size: real)
    | ClearLive(side: Side, level: nat, clientId: int)
    | ClearAll
    | IdResolved(clientId: int, resolvedId: int)
    | Fill(clientId: int, filledSize: real)

  /** The event an accepted op produces: creates and modifies bind, cancels clear. */
  function AckEvent(op: BatchOp): OrderEvent {
    if op.action == Cancel then ClearLive(op.side, op.level, op.clientId)
    else BindLive(op.side, op.level, op.clientId, op.exchangeId, op.price, op.size)
  }

  function AckEvents(ops: seq<BatchOp>): seq<OrderEvent> {
    if ops == [] then [] else AckEvents(ops[..|ops| - 1]) + [AckEvent(ops[|ops| - 1])]
  }

  /** The events that release the slots of creates that were not sent or were rejected. */
  function FailedCreates(ops: seq<BatchOp>): seq<OrderEvent> {
    if ops == [] then []
    else
      var op := ops[|ops| - 1];
      FailedCreates(ops[..|ops| - 1])
      + (if op.action == Create then [ClearLive(op.side, op.level, op.clientId)] else [])
  }
}
