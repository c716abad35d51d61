/**
The session PnL actor as a state machine: FIFO-bounded dedupe, trades queued with the sync
generation, and re-seeding of the local accounting from exchange snapshots.
*/
module PnlActor {
  import opened Common
  import opened FillAccounting

  const PENDING_LIMIT: nat := 2000
  const ID_SET_CAP: nat := 10000

  // ---- Trades ------------------------------------------------------------

  datatype Payload = Payload(
    tradeId: Option<int>, price: Option<real>, size: Option<real>, usdAmount: Option<real>,
    askAccount: Option<int>, askClient: Option<int>, askPnl: Option<real>,
    bidAccount: Option<int>, bidClient: Option<int>, bidPnl: Option<real>)

  datatype FillView = FillView(trade: Trade, notional: real, clientId: Option<int>, exchangePnl: Option<real>)

  /** Our side of a trade, if we took part in it. */
  function FromTrade(p: Payload, account: int): Option<FillView> {
    if p.price.None? || p.size.None? then None
    else
      var notional := if p.usdAmount.Some? then p.usdAmount.value else p.price.value * p.size.value;
      if p.askAccount == Some(account) then
        Some(FillView(Trade(Sell, p.price.value, p.size.value), notional, p.askClient, p.askPnl))
      else if p.bidAccount == Some(account) then
        Some(FillView(Trade(Buy, p.price.value, p.size.value), notional, p.bidClient, p.bidPnl))
      else None
  }

  /** The trade has an id, is ours, and carries a positive price and size. */
  predicate Bookable(p: Payload, account: int) {
    && p.tradeId.Some?
    && FromTrade(p, account).Some?
    && FromTrade(p, account).value.trade.price > 0.0
    && FromTrade(p, account).value.trade.size > 0.0
  }

  function FillOf(p: Payload, account: int): FillView
    requires Bookable(p, account)
  {
    FromTrade(p, account).value
  }

  // ---- State -------------------------------------------------------------

  datatype Config = Config(account: int, feeRate: real, includeUnattributed: bool)

  datatype Queued = Queued(payload: Payload, generation: nat)

  datatype Booking = Booking(tradeId: int, delta: real)

  /** `booked` and `overflowed` record the session's history. */
  datatype Actor = Actor(
    acct: Acct, strategy: seq<int>, seen: seq<int>, pending: seq<Queued>, generation: nat,
    strategyPnl: real, unattributedPnl: real, fillCount: nat, buyCount: nat, sellCount: nat,
    notional: real, duplicates: nat, unattributed: nat,
    booked: seq<Booking>, overflowed: seq<Queued>)

  datatype Decision = Accepted | PendingClientId | Skipped

  datatype Position = Position(signed: real, vwap: Option<real>)

  datatype Event = RegisterClientIds(ids: seq<int>) | AccountAll(position: Option<Position>, trades: seq<Payload>)

  // ---- Handlers ----------------------------------------------------------

  /** Append to a FIFO of at most ID_SET_CAP distinct ids. */
  function Remember(order: seq<int>, id: int): seq<int> {
    if id in order then order else LastN(order + [id], ID_SET_CAP)
  }

  function Registered(order: seq<int>, ids: seq<int>): seq<int> {
    if ids == [] then order
    else
      var o := Registered(order, ids[..|ids| - 1]);
      var id := ids[|ids| - 1];
      if id > 0 then Remember(o, id) else o
  }

  predicate Attributed(cfg: Config, a: Actor, f: FillView) {
    (f.clientId.Some? && f.clientId.value in a.strategy) || cfg.includeUnattributed
  }

  function LocalDelta(a: Actor, f: FillView, superseded: bool): real {
    if superseded then (if f.exchangePnl.Some? then f.exchangePnl.value else 0.0)
    else RealizedDelta(a.acct, f.trade)
  }

  /** Book a fill: a superseded one is attributed but never applied to the position. */
  function Booked(cfg: Config, a: Actor, id: int, f: FillView, generation: nat): Actor {
    var superseded := generation < a.generation;
    var delta := if f.exchangePnl.Some? then f.exchangePnl.value else LocalDelta(a, f, superseded);
    var own := Attributed(cfg, a, f);
    a.(acct := if superseded then a.acct else Applied(a.acct, f.trade),
       seen := Remember(a.seen, id),
       strategyPnl := a.strategyPnl + (if own then delta else 0.0),
       unattributedPnl := a.unattributedPnl + (if own then 0.0 else delta),
       unattributed := a.unattributed + (if own then 0 else 1),
       fillCount := a.fillCount + 1,
       buyCount := a.buyCount + (if f.trade.side == Buy then 1 else 0),
       sellCount := a.sellCount + (if f.trade.side == Sell then 1 else 0),
       notional := a.notional + f.notional,
       booked := a.booked + [Booking(id, delta)])
  }

  function TryAccept(cfg: Config, a: Actor, p: Payload, generation: nat): (Actor, Decision) {
    if p.tradeId.None? then (a, Skipped)
    else if p.tradeId.value in a.seen then (a.(duplicates := a.duplicates + 1), Accepted)
    else if !Bookable(p, cfg.account) then (a, Skipped)
    else
      var f := FillOf(p, cfg.account);
      if !Attributed(cfg, a, f) && f.clientId.Some? then (a, PendingClientId)
      else (Booked(cfg, a, p.tradeId.value, f, generation), Accepted)
  }

  predicate IsPending(pending: seq<Queued>, id: int) {
    exists i :: 0 <= i < |pending| && pending[i].payload.tradeId == Some(id)
  }

  /** Queue a trade; the oldest ones fall off a queue longer than PENDING_LIMIT. */
  function Enqueued(a: Actor, q: Queued): Actor {
    var all := a.pending + [q];
    var over := if |all| > PENDING_LIMIT then |all| - PENDING_LIMIT else 0;
    a.(pending := all[over..], overflowed := a.overflowed + all[..over], unattributed := a.unattributed + over)
  }

  function ProcessOrQueue(cfg: Config, a: Actor, p: Payload): Actor {
    if p.tradeId.None? then a.(unattributed := a.unattributed + 1)
    else if p.tradeId.value in a.seen then a.(duplicates := a.duplicates + 1)
    else if IsPending(a.pending, p.tradeId.value) then a
    else
      var (a', d) := TryAccept(cfg, a, p, a.generation);
      match d
      case Accepted => a'
      case PendingClientId => Enqueued(a', Queued(p, a.generation))
      case Skipped => a'.(unattributed := a'.unattributed + 1)
  }

  function ProcessAll(cfg: Config, a: Actor, ps: seq<Payload>): Actor {
    if ps == [] then a else ProcessOrQueue(cfg, ProcessAll(cfg, a, ps[..|ps| - 1]), ps[|ps| - 1])
  }

  /** Retry one queued trade that has been taken off the queue; `kept` collects what stays. */
  function RetryOne(cfg: Config, a: Actor, kept: seq<Queued>, q: Queued): (Actor, seq<Queued>) {
    var (a', d) := TryAccept(cfg, a, q.payload, q.generation);
    match d
    case Accepted => (a', kept)
    case PendingClientId => (a', kept + [q])
    case Skipped => (a'.(unattributed := a'.unattributed + 1), kept)
  }

  function RetryAll(cfg: Config, a: Actor, qs: seq<Queued>): (Actor, seq<Queued>) {
    if qs == [] then (a, [])
    else
      var (a', kept) := RetryAll(cfg, a, qs[..|qs| - 1]);
      RetryOne(cfg, a', kept, qs[|qs| - 1])
  }

  function RetryPending(cfg: Config, a: Actor): Actor {
    var (a', kept) := RetryAll(cfg, a, a.pending);
    a'.(pending := kept)
  }

  predicate Reseeds(p: Position) {
    Abs(p.signed) < EPSILON || p.vwap.Some?
  }

  function UpdatePosition(cfg: Config, a: Actor, p: Position): Actor {
    if Reseeds(p) then
      a.(acct := FromSnapshot(cfg.feeRate, p.signed, if p.vwap.Some? then p.vwap.value else 0.0, a.strategyPnl),
         generation := a.generation + 1)
    else a
  }

  function HandleEvent(cfg: Config, a: Actor, e: Event): Actor {
    match e
    case RegisterClientIds(ids) => RetryPending(cfg, a.(strategy := Registered(a.strategy, ids)))
    case AccountAll(position, trades) =>
      var a1 := RetryPending(cfg, ProcessAll(cfg, a, trades));
      if position.Some? then UpdatePosition(cfg, a1, position.value) else a1
  }

  function Run(cfg: Config, a: Actor, es: seq<Event>): Actor {
    if es == [] then a else HandleEvent(cfg, Run(cfg, a, es[..|es| - 1]), es[|es| - 1])
  }

  /** A session starting from restored cumulative figures. */
  predicate Fresh(a: Actor) {
    && a.strategy == [] && a.seen == [] && a.pending == [] && a.generation == 0
    && a.unattributedPnl == 0.0 && a.buyCount == 0 && a.sellCount == 0
    && a.booked == [] && a.overflowed == []
  }

  // ---- First in, first out -----------------------------------------------

  /** Queueing keeps the order of arrival: what was lost, what waits and the new trade, in that order. */
  lemma QueueIsFifo(a: Actor, q: Queued)
    ensures var b := Enqueued(a, q);
            b.overflowed + b.pending == a.overflowed + a.pending + [q] && |b.pending| <= PENDING_LIMIT
    ensures |a.pending| < PENDING_LIMIT ==> Enqueued(a, q).overflowed == a.overflowed
  {
    var all := a.pending + [q];
    var over := if |all| > PENDING_LIMIT then |all| - PENDING_LIMIT else 0;
    CutAndJoin(a.overflowed, a.pending, q, all, over);
  }

  lemma CutAndJoin<T>(lost: seq<T>, waiting: seq<T>, q: T, all: seq<T>, k: nat)
    requires all == waiting + [q] && k <= |all|
    ensures lost + all[..k] + all[k..] == lost + waiting + [q]
    ensures k == 0 ==> lost + all[..k] == lost
  {
    assert all == all[..k] + all[k..];
    assert lost + (all[..k] + all[k..]) == lost + all[..k] + all[k..];
  }

  /** Until the set is full, the registered ids are exactly the positive ones announced. */
  lemma {:induction false} RegisteredIs(order: seq<int>, ids: seq<int>, id: int)
    requires |order| + |ids| <= ID_SET_CAP
    ensures |Registered(order, ids)| <= |order| + |ids|
    ensures id in Registered(order, ids) <==> id in order || (id > 0 && id in ids)
  {
    if ids != [] {
      var before, last := ids[..|ids| - 1], ids[|ids| - 1];
      RegisteredIs(order, before, id);
      assert id in ids <==> id in before || id == last;
      assert id in Registered(order, before) + [last] <==> id in Registered(order, before) || id == last;
    }
  }

  // ---- Dedupe and exactly-once booking -----------------------------------

  ghost predicate Distinct(s: seq<int>) {
    forall i, j :: 0 <= i < j < |s| ==> s[i] != s[j]
  }

  /** Equal ids at least 10,000 other bookings apart. */
  ghost predicate Separated(booked: seq<Booking>) {
    forall i, j :: 0 <= i < j < |booked| && booked[i].tradeId == booked[j].tradeId ==> j - i > ID_SET_CAP
  }

  function BookedIds(booked: seq<Booking>): seq<int> {
    seq(|booked|, i requires 0 <= i < |booked| => booked[i].tradeId)
  }

  function BookedSum(booked: seq<Booking>): real {
    if booked == [] then 0.0 else BookedSum(booked[..|booked| - 1]) + booked[|booked| - 1].delta
  }

  /** The seen queue is the tail of the booking log; no id in it is also queued as pending. */
  ghost predicate Deduped(a: Actor) {
    && a.seen == LastN(BookedIds(a.booked), ID_SET_CAP)
    && Distinct(a.seen)
    && Separated(a.booked)
  }

  ghost predicate QueueSound(cfg: Config, a: Actor, pending: seq<Queued>) {
    && (forall i :: 0 <= i < |pending| ==>
          && Bookable(pending[i].payload, cfg.account)
          && pending[i].payload.tradeId.value !in a.seen
          && pending[i].generation <= a.generation)
    && (forall i, j :: 0 <= i < j < |pending| ==> pending[i].payload.tradeId != pending[j].payload.tradeId)
  }

  /** Realized figures against the booking log, relative to the figures at start. */
  ghost predicate Balanced(start: Actor, a: Actor) {
    && a.strategyPnl + a.unattributedPnl == start.strategyPnl + start.unattributedPnl + BookedSum(a.booked)
    && a.fillCount == start.fillCount + a.buyCount + a.sellCount
    && a.buyCount + a.sellCount == |a.booked|
  }

  ghost predicate Sound(cfg: Config, start: Actor, a: Actor) {
    Deduped(a) && QueueSound(cfg, a, a.pending) && Balanced(start, a) && |a.pending| <= PENDING_LIMIT
  }

  /** Every id among the last ID_SET_CAP bookings is remembered. */
  lemma RecentIsSeen(a: Actor, i: nat)
    requires a.seen == LastN(BookedIds(a.booked), ID_SET_CAP)
    requires i < |a.booked| <= i + ID_SET_CAP
    ensures a.booked[i].tradeId in a.seen
  {
    assert a.seen[i - (|a.booked| - |a.seen|)] == a.booked[i].tradeId;
  }

  lemma BookingSeparates(a: Actor, id: int, delta: real)
    requires Deduped(a) && id !in a.seen
    ensures Separated(a.booked + [Booking(id, delta)])
  {
    var booked := a.booked + [Booking(id, delta)];
    forall i, j | 0 <= i < j < |booked| && booked[i].tradeId == booked[j].tradeId
      ensures j - i > ID_SET_CAP
    {
      if j == |a.booked| && j - i <= ID_SET_CAP {
        RecentIsSeen(a, i);
      }
    }
  }

  lemma BookingKeepsDedupe(a: Actor, id: int, delta: real)
    requires Deduped(a) && id !in a.seen
    ensures var booked := a.booked + [Booking(id, delta)];
            && Remember(a.seen, id) == LastN(BookedIds(booked), ID_SET_CAP)
            && Distinct(Remember(a.seen, id)) && Separated(booked)
            && BookedSum(booked) == BookedSum(a.booked) + delta
  {
    var booked := a.booked + [Booking(id, delta)];
    BookingSeparates(a, id, delta);
    assert BookedIds(booked) == BookedIds(a.booked) + [id];
    assert booked[..|a.booked|] == a.booked;
    LastNAppend(BookedIds(a.booked), id, ID_SET_CAP);
  }

  lemma RememberedIds(seen: seq<int>, id: int, other: int)
    requires other !in seen && other != id
    ensures other !in Remember(seen, id)
  {
  }

  /** Trying a trade that is not pending keeps the books, and never forgets a queued trade. */
  lemma AcceptKeepsBooks(cfg: Config, start: Actor, a: Actor, p: Payload, generation: nat)
    requires Deduped(a) && Balanced(start, a)
    ensures var (a', d) := TryAccept(cfg, a, p, generation);
            && Deduped(a') && Balanced(start, a')
            && a'.pending == a.pending && a'.generation == a.generation && a'.overflowed == a.overflowed
            && a'.strategy == a.strategy
  {
    if p.tradeId.Some? && p.tradeId.value !in a.seen && Bookable(p, cfg.account) {
      var f := FillOf(p, cfg.account);
      var b := Booked(cfg, a, p.tradeId.value, f, generation);
      BookingKeepsDedupe(a, p.tradeId.value, b.booked[|a.booked|].delta);
    }
  }

  lemma AcceptKeepsQueue(cfg: Config, a: Actor, p: Payload, generation: nat, qs: seq<Queued>)
    requires QueueSound(cfg, a, qs)
    requires forall i :: 0 <= i < |qs| ==> qs[i].payload.tradeId != p.tradeId
    ensures QueueSound(cfg, TryAccept(cfg, a, p, generation).0, qs)
  {
    var a' := TryAccept(cfg, a, p, generation).0;
    forall i | 0 <= i < |qs|
      ensures qs[i].payload.tradeId.value !in a'.seen
    {
      if p.tradeId.Some? {
        RememberedIds(a.seen, p.tradeId.value, qs[i].payload.tradeId.value);
      }
    }
  }

  lemma ProcessKeepsSound(cfg: Config, start: Actor, a: Actor, p: Payload)
    requires Sound(cfg, start, a)
    ensures Sound(cfg, start, ProcessOrQueue(cfg, a, p))
  {
    if p.tradeId.Some? && p.tradeId.value !in a.seen && !IsPending(a.pending, p.tradeId.value) {
      AcceptKeepsBooks(cfg, start, a, p, a.generation);
      AcceptKeepsQueue(cfg, a, p, a.generation, a.pending);
      if Bookable(p, cfg.account) {
        EnqueueKeepsSound(cfg, start, a, p);
      }
    }
  }

  lemma EnqueueKeepsSound(cfg: Config, start: Actor, a: Actor, p: Payload)
    requires Sound(cfg, start, a) && Bookable(p, cfg.account)
    requires p.tradeId.value !in a.seen && !IsPending(a.pending, p.tradeId.value)
    ensures Sound(cfg, start, Enqueued(a, Queued(p, a.generation)))
  {
  }

  lemma {:induction false} ProcessAllKeepsSound(cfg: Config, start: Actor, a: Actor, ps: seq<Payload>)
    requires Sound(cfg, start, a)
    ensures Sound(cfg, start, ProcessAll(cfg, a, ps))
  {
    if ps != [] {
      ProcessAllKeepsSound(cfg, start, a, ps[..|ps| - 1]);
      ProcessKeepsSound(cfg, start, ProcessAll(cfg, a, ps[..|ps| - 1]), ps[|ps| - 1]);
    }
  }

  /** While the queue is being retried, what is kept and what is still to come stay sound. */
  ghost predicate Retrying(cfg: Config, start: Actor, a: Actor, kept: seq<Queued>, rest: seq<Queued>) {
    Deduped(a) && Balanced(start, a) && QueueSound(cfg, a, kept + rest)
  }

  lemma RetryOneKeeps(cfg: Config, start: Actor, a: Actor, kept: seq<Queued>, q: Queued, rest: seq<Queued>)
    requires Retrying(cfg, start, a, kept, [q] + rest)
    ensures var (a', kept') := RetryOne(cfg, a, kept, q);
            && Retrying(cfg, start, a', kept', rest) && |kept'| <= |kept| + 1
            && a'.generation == a.generation && a'.overflowed == a.overflowed
  {
    var all := kept + ([q] + rest);
    assert all[|kept|] == q;
    var others := kept + rest;
    forall i | 0 <= i < |others|
      ensures others[i] == all[if i < |kept| then i else i + 1]
    {
    }
    assert QueueSound(cfg, a, others);
    AcceptKeepsBooks(cfg, start, a, q.payload, q.generation);
    AcceptKeepsQueue(cfg, a, q.payload, q.generation, others);
    assert (kept + [q]) + rest == all;
  }

  lemma {:induction false} RetryAllKeeps(cfg: Config, start: Actor, a: Actor, qs: seq<Queued>, rest: seq<Queued>)
    requires Retrying(cfg, start, a, [], qs + rest)
    ensures var (a', kept) := RetryAll(cfg, a, qs);
            && Retrying(cfg, start, a', kept, rest) && |kept| <= |qs|
            && a'.generation == a.generation && a'.overflowed == a.overflowed
    decreases |qs|
  {
    if qs == [] {
      assert [] + (qs + rest) == [] + rest;
    } else {
      var before, q := qs[..|qs| - 1], qs[|qs| - 1];
      assert qs + rest == before + ([q] + rest);
      RetryAllKeeps(cfg, start, a, before, [q] + rest);
      var (a', kept) := RetryAll(cfg, a, before);
      RetryOneKeeps(cfg, start, a', kept, q, rest);
    }
  }

  lemma RetryKeepsSound(cfg: Config, start: Actor, a: Actor)
    requires Sound(cfg, start, a)
    ensures Sound(cfg, start, RetryPending(cfg, a)) && RetryPending(cfg, a).generation == a.generation
  {
    assert [] + (a.pending + []) == a.pending;
    RetryAllKeeps(cfg, start, a, a.pending, []);
    var (a', kept) := RetryAll(cfg, a, a.pending);
    assert kept + [] == kept;
  }

  /** Over every event sequence: seen and pending ids stay distinct and disjoint, two bookings of
      one id are more than 10,000 bookings apart, realized PnL grows by exactly the booked deltas
      and the fills of the session are its buys plus its sells. */
  lemma {:induction false} RunIsSound(cfg: Config, start: Actor, es: seq<Event>)
    requires Fresh(start)
    ensures Sound(cfg, start, Run(cfg, start, es))
  {
    if es != [] {
      var before, e := Run(cfg, start, es[..|es| - 1]), es[|es| - 1];
      RunIsSound(cfg, start, es[..|es| - 1]);
      match e
      case RegisterClientIds(ids) =>
        RetryKeepsSound(cfg, start, before.(strategy := Registered(before.strategy, ids)));
      case AccountAll(_, trades) =>
        ProcessAllKeepsSound(cfg, start, before, trades);
        RetryKeepsSound(cfg, start, ProcessAll(cfg, before, trades));
    }
  }
}
