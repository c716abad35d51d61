/**
The actor's local position against the venue's: whatever the races between fills, id
registration and position snapshots, no trade is applied twice.
*/
module PnlPosition {
  import opened Common
  import opened FillAccounting
  import opened PnlActor

  /** The venue's position and the ids of the trades it has delivered. */
  datatype Venue = Venue(pos: real, known: set<int>)

  /** A complete report of a trade in which the account was the seller or the buyer. */
  predicate IsOurs(cfg: Config, p: Payload) {
    && p.tradeId.Some? && p.price.Some? && p.price.value > 0.0 && p.size.Some? && p.size.value > 0.0
    && (p.askAccount == Some(cfg.account) || p.bidAccount == Some(cfg.account))
  }

  /** What a trade does to the account at the venue: the ask side sells, the bid side buys. */
  function SignedOf(cfg: Config, p: Payload): real {
    if !IsOurs(cfg, p) then 0.0
    else if p.askAccount == Some(cfg.account) then -p.size.value
    else p.size.value
  }

  /** The actor books exactly the account's trades, on the account's own side. */
  lemma BooksOwnSide(cfg: Config, p: Payload)
    ensures Bookable(p, cfg.account) <==> IsOurs(cfg, p)
    ensures Bookable(p, cfg.account) ==>
              && FillOf(p, cfg.account).trade.price == p.price.value
              && FillOf(p, cfg.account).trade.size == p.size.value
              && Signed(FillOf(p, cfg.account).trade) == SignedOf(cfg, p)
  {
  }

  /** What becomes of one trade, read off its report: queued while its client id is unknown to the
      strategy, otherwise booked once, on its own side, at the exchange's PnL if given and at the
      local one if not, and applied to the position unless a snapshot already counts it. */
  lemma TradeTable(cfg: Config, a: Actor, p: Payload, g: nat)
    requires IsOurs(cfg, p) && p.tradeId.value !in a.seen
    ensures var sells := p.askAccount == Some(cfg.account);
            var client, told := if sells then p.askClient else p.bidClient, if sells then p.askPnl else p.bidPnl;
            var ours := (client.Some? && client.value in a.strategy) || cfg.includeUnattributed;
            var trade := Trade(if sells then Sell else Buy, p.price.value, p.size.value);
            var local := if g < a.generation then 0.0 else RealizedDelta(a.acct, trade);
            var delta := if told.Some? then told.value else local;
            var (b, d) := TryAccept(cfg, a, p, g);
            if !ours && client.Some? then d == PendingClientId && b == a
            else
              && d == Accepted && b.booked == a.booked + [Booking(p.tradeId.value, delta)]
              && b.sellCount == a.sellCount + (if sells then 1 else 0)
              && b.buyCount == a.buyCount + (if sells then 0 else 1)
              && b.fillCount == a.fillCount + 1
              && b.notional - a.notional
                 == (if p.usdAmount.Some? then p.usdAmount.value else p.price.value * p.size.value)
              && b.strategyPnl == a.strategyPnl + (if ours then delta else 0.0)
              && b.unattributedPnl == a.unattributedPnl + (if ours then 0.0 else delta)
              && b.acct == (if g < a.generation then a.acct else Applied(a.acct, trade))
  {
  }

  /** What becomes of a trade that is not booked: without an id or not the account's it counts as
      unattributed, a booked one as a duplicate, and one that is queued already is ignored. */
  lemma SkipTable(cfg: Config, a: Actor, p: Payload)
    ensures var b := ProcessOrQueue(cfg, a, p);
            && (p.tradeId.None? ==> b == a.(unattributed := a.unattributed + 1))
            && (p.tradeId.Some? && p.tradeId.value in a.seen ==> b == a.(duplicates := a.duplicates + 1))
            && (p.tradeId.Some? && p.tradeId.value !in a.seen && IsPending(a.pending, p.tradeId.value) ==> b == a)
            && (p.tradeId.Some? && p.tradeId.value !in a.seen && !IsPending(a.pending, p.tradeId.value) ==>
                  !IsOurs(cfg, p) ==> b == a.(unattributed := a.unattributed + 1))
  {
    BooksOwnSide(cfg, p);
  }

  /** A redelivered trade does not move the venue's position again. */
  function Delivered(cfg: Config, v: Venue, p: Payload): Venue {
    if IsOurs(cfg, p) && p.tradeId.value !in v.known
    then Venue(v.pos + SignedOf(cfg, p), v.known + {p.tradeId.value}) else v
  }

  function DeliveredAll(cfg: Config, v: Venue, ps: seq<Payload>): Venue {
    if ps == [] then v else Delivered(cfg, DeliveredAll(cfg, v, ps[..|ps| - 1]), ps[|ps| - 1])
  }

  /** Position owed by the queued trades of one generation. */
  function Owed(cfg: Config, qs: seq<Queued>, generation: nat): real {
    if qs == [] then 0.0
    else
      var q := qs[|qs| - 1];
      Owed(cfg, qs[..|qs| - 1], generation) + (if q.generation == generation then SignedOf(cfg, q.payload) else 0.0)
  }

  // ---- What the venue promises -------------------------------------------

  ghost predicate GridPayload(cfg: Config, p: Payload, tick: real) {
    IsOurs(cfg, p) ==> OnGrid(p.size.value, tick)
  }

  ghost predicate GridTrades(cfg: Config, tick: real, ps: seq<Payload>) {
    forall i :: 0 <= i < |ps| ==> GridPayload(cfg, ps[i], tick)
  }

  /** A position snapshot counts exactly the trades delivered with it or before it. */
  ghost predicate HonestEvent(cfg: Config, tick: real, v: Venue, e: Event) {
    e.AccountAll? ==>
      && GridTrades(cfg, tick, e.trades)
      && (e.position.Some? ==> e.position.value.signed == DeliveredAll(cfg, v, e.trades).pos)
  }

  function VenueStep(cfg: Config, v: Venue, e: Event): Venue {
    if e.AccountAll? then DeliveredAll(cfg, v, e.trades) else v
  }

  function VenueAfter(cfg: Config, v: Venue, es: seq<Event>): Venue {
    if es == [] then v else VenueStep(cfg, VenueAfter(cfg, v, es[..|es| - 1]), es[|es| - 1])
  }

  ghost predicate HonestRun(cfg: Config, tick: real, v: Venue, es: seq<Event>) {
    es == [] ||
      (var before := es[..|es| - 1];
       HonestRun(cfg, tick, v, before) && HonestEvent(cfg, tick, VenueAfter(cfg, v, before), es[|es| - 1]))
  }

  // ---- Trades taken for new a second time --------------------------------

  /** A known trade that the actor no longer remembers, as booked or as pending, is processed again. */
  function Repeat(cfg: Config, a: Actor, v: Venue, p: Payload): seq<Queued> {
    if IsOurs(cfg, p) && p.tradeId.value in v.known
      && p.tradeId.value !in a.seen && !IsPending(a.pending, p.tradeId.value)
    then [Queued(p, a.generation)] else []
  }

  function RepeatsIn(cfg: Config, a: Actor, v: Venue, ps: seq<Payload>): seq<Queued> {
    if ps == [] then []
    else
      var before := ps[..|ps| - 1];
      RepeatsIn(cfg, a, v, before)
      + Repeat(cfg, ProcessAll(cfg, a, before), DeliveredAll(cfg, v, before), ps[|ps| - 1])
  }

  function EventRepeats(cfg: Config, a: Actor, v: Venue, e: Event): seq<Queued> {
    if e.AccountAll? then RepeatsIn(cfg, a, v, e.trades) else []
  }

  /** The trades processed a second time in a run, with the generation in which that happened. */
  function Repeats(cfg: Config, start: Actor, v: Venue, es: seq<Event>): seq<Queued> {
    if es == [] then []
    else
      var before := es[..|es| - 1];
      Repeats(cfg, start, v, before)
      + EventRepeats(cfg, PnlActor.Run(cfg, start, before), VenueAfter(cfg, v, before), es[|es| - 1])
  }

  // ---- The invariant -----------------------------------------------------

  ghost predicate GridQueue(cfg: Config, qs: seq<Queued>, tick: real) {
    forall i :: 0 <= i < |qs| ==> GridPayload(cfg, qs[i].payload, tick)
  }

  ghost predicate KnownIds(a: Actor, v: Venue, qs: seq<Queued>) {
    && (forall id :: id in a.seen ==> id in v.known)
    && (forall i :: 0 <= i < |qs| ==> qs[i].payload.tradeId.Some? && qs[i].payload.tradeId.value in v.known)
  }

  ghost predicate Past(a: Actor, qs: seq<Queued>) {
    forall i :: 0 <= i < |qs| ==> qs[i].generation <= a.generation
  }

  predicate IsBooked(a: Actor, id: int) {
    exists i :: 0 <= i < |a.booked| && a.booked[i].tradeId == id
  }

  /** Every delivered trade was booked, is queued, or was pushed off the queue. */
  ghost predicate Accounted(a: Actor, v: Venue, qs: seq<Queued>) {
    forall id :: id in v.known ==> IsBooked(a, id) || IsPending(qs, id) || IsPending(a.overflowed, id)
  }

  /** What holds of the queue, whatever the position. */
  ghost predicate Ordered(cfg: Config, tick: real, a: Actor, v: Venue, qs: seq<Queued>) {
    && OnGrid(a.acct.pos, tick) && OnGrid(v.pos, tick)
    && GridQueue(cfg, qs, tick) && KnownIds(a, v, qs) && Past(a, a.overflowed) && Accounted(a, v, qs)
  }

  /** The local position lags the venue's by `gap` and by the current-generation trades that are
      still queued or were pushed off a full queue. */
  ghost predicate TracksWith(cfg: Config, tick: real, a: Actor, v: Venue, qs: seq<Queued>, gap: real) {
    && a.acct.pos == v.pos - Owed(cfg, qs, a.generation) - Owed(cfg, a.overflowed, a.generation) - gap
    && Ordered(cfg, tick, a, v, qs)
  }

  ghost predicate Tracks(cfg: Config, tick: real, a: Actor, v: Venue, gap: real) {
    TracksWith(cfg, tick, a, v, a.pending, gap)
  }

  lemma {:induction false} OwedConcat(cfg: Config, a: seq<Queued>, b: seq<Queued>, g: nat)
    ensures Owed(cfg, a + b, g) == Owed(cfg, a, g) + Owed(cfg, b, g)
  {
    if b == [] {
      assert a + b == a;
    } else {
      assert (a + b)[..|a + b| - 1] == a + b[..|b| - 1];
      OwedConcat(cfg, a, b[..|b| - 1], g);
    }
  }

  lemma {:induction false} NothingOwedToTheFuture(cfg: Config, qs: seq<Queued>, g: nat)
    requires forall i :: 0 <= i < |qs| ==> qs[i].generation < g
    ensures Owed(cfg, qs, g) == 0.0
  {
    if qs != [] {
      NothingOwedToTheFuture(cfg, qs[..|qs| - 1], g);
    }
  }

  lemma SignedGrid(cfg: Config, p: Payload, tick: real)
    requires GridPayload(cfg, p, tick)
    ensures OnGrid(SignedOf(cfg, p), tick)
  {
    BooksOwnSide(cfg, p);
    if IsOurs(cfg, p) {
      SignedOnGrid(FillOf(p, cfg.account).trade, tick);
    } else {
      ZeroOnGrid(tick);
    }
  }

  lemma DeliveredGrid(cfg: Config, v: Venue, p: Payload, tick: real)
    requires OnGrid(v.pos, tick) && GridPayload(cfg, p, tick)
    ensures OnGrid(Delivered(cfg, v, p).pos, tick)
  {
    SignedGrid(cfg, p, tick);
    GridSum(v.pos, SignedOf(cfg, p), tick);
  }

  /** Booking moves the local position exactly when the trade is of the current generation. */
  lemma BookedPosition(cfg: Config, a: Actor, p: Payload, g: nat, tick: real)
    requires tick >= EPSILON && OnGrid(a.acct.pos, tick) && GridPayload(cfg, p, tick)
    requires Bookable(p, cfg.account) && g <= a.generation
    ensures var b := Booked(cfg, a, p.tradeId.value, FillOf(p, cfg.account), g);
            && b.acct.pos == a.acct.pos + (if g == a.generation then SignedOf(cfg, p) else 0.0)
            && OnGrid(b.acct.pos, tick)
  {
    BooksOwnSide(cfg, p);
    AppliedPosition(a.acct, FillOf(p, cfg.account).trade, tick);
  }

  /** A trade is delivered again only while its booking is among the last 10,000, and not after it
      was pushed off a full queue. */
  ghost predicate RedeliveredSoon(cfg: Config, a: Actor, v: Venue, p: Payload) {
    IsOurs(cfg, p) && p.tradeId.value in v.known ==>
      && !IsPending(a.overflowed, p.tradeId.value)
      && forall i :: 0 <= i && i + ID_SET_CAP < |a.booked| ==> a.booked[i].tradeId != p.tradeId.value
  }

  /** The actor remembers every trade that is delivered again soon. */
  lemma FreshTrade(cfg: Config, start: Actor, a: Actor, v: Venue, p: Payload)
    requires Sound(cfg, start, a) && KnownIds(a, v, a.pending) && Accounted(a, v, a.pending)
    requires RedeliveredSoon(cfg, a, v, p) && Bookable(p, cfg.account)
    ensures p.tradeId.value in v.known <==> p.tradeId.value in a.seen || IsPending(a.pending, p.tradeId.value)
  {
    var id := p.tradeId.value;
    if IsPending(a.pending, id) {
      var i :| 0 <= i < |a.pending| && a.pending[i].payload.tradeId == Some(id);
      assert a.pending[i].payload.tradeId.value in v.known;
    }
    if id in v.known && IsBooked(a, id) {
      var i :| 0 <= i < |a.booked| && a.booked[i].tradeId == id;
      RecentIsSeen(a, i);
    }
  }

  lemma StillPending(qs: seq<Queued>, qs': seq<Queued>, id: int)
    requires IsPending(qs, id) && forall i :: 0 <= i < |qs| ==> qs[i] in qs'
    ensures IsPending(qs', id)
  {
    var i :| 0 <= i < |qs| && qs[i].payload.tradeId == Some(id);
    var j :| 0 <= j < |qs'| && qs'[j] == qs[i];
  }

  lemma StillBooked(a: Actor, a': Actor, id: int)
    requires IsBooked(a, id) && |a.booked| <= |a'.booked| && a'.booked[..|a.booked|] == a.booked
    ensures IsBooked(a', id)
  {
    var i :| 0 <= i < |a.booked| && a.booked[i].tradeId == id;
    assert a'.booked[i] == a.booked[i];
  }

  /** Booking accounts for the booked id and forgets no other. */
  lemma BookingAccounts(cfg: Config, a: Actor, v: Venue, v': Venue, id: int, f: FillView, g: nat,
                        qs: seq<Queued>, qs': seq<Queued>)
    requires Accounted(a, v, qs) && v'.known <= v.known + {id}
    requires forall i :: 0 <= i < |qs| ==> qs[i] in qs' || qs[i].payload.tradeId == Some(id)
    ensures Accounted(Booked(cfg, a, id, f, g), v', qs')
  {
    var b := Booked(cfg, a, id, f, g);
    assert b.booked[|a.booked|].tradeId == id;
    forall x | x in v'.known && x != id
      ensures IsBooked(b, x) || IsPending(qs', x) || IsPending(b.overflowed, x)
    {
      if IsBooked(a, x) {
        StillBooked(a, b, x);
      } else if IsPending(qs, x) {
        var i :| 0 <= i < |qs| && qs[i].payload.tradeId == Some(x);
        var j :| 0 <= j < |qs'| && qs'[j] == qs[i];
      }
    }
  }

  lemma KnownGrows(a: Actor, a': Actor, v: Venue, v': Venue, qs: seq<Queued>, id: int)
    requires KnownIds(a, v, qs) && v'.known == v.known + {id}
    requires a'.seen == a.seen || a'.seen == Remember(a.seen, id)
    ensures KnownIds(a', v', qs)
  {
  }

  /** One delivered trade: booked, queued, known, or taken for new a second time. */
  lemma ProcessTracks(cfg: Config, tick: real, start: Actor, a: Actor, v: Venue, p: Payload, gap: real)
    requires tick >= EPSILON && Sound(cfg, start, a) && Tracks(cfg, tick, a, v, gap) && GridPayload(cfg, p, tick)
    ensures Tracks(cfg, tick, ProcessOrQueue(cfg, a, p), Delivered(cfg, v, p),
                   gap - Owed(cfg, Repeat(cfg, a, v, p), a.generation))
  {
    if Bookable(p, cfg.account) && p.tradeId.value !in a.seen && !IsPending(a.pending, p.tradeId.value) {
      if p.tradeId.value in v.known {
        OwedOne(cfg, p, a.generation);
        RepeatTracks(cfg, tick, a, v, p, gap);
      } else {
        NewTradeTracks(cfg, tick, a, v, p, gap);
      }
    } else if Bookable(p, cfg.account) {
      RememberedIsKnown(a, v, p.tradeId.value);
    }
  }

  lemma RememberedIsKnown(a: Actor, v: Venue, id: int)
    requires KnownIds(a, v, a.pending) && (id in a.seen || IsPending(a.pending, id))
    ensures id in v.known
  {
    if IsPending(a.pending, id) {
      var i :| 0 <= i < |a.pending| && a.pending[i].payload.tradeId == Some(id);
      assert a.pending[i].payload.tradeId.value in v.known;
    }
  }

  /** Processing a known trade again is like its first delivery to a venue that had not had it. */
  lemma RepeatTracks(cfg: Config, tick: real, a: Actor, v: Venue, p: Payload, gap: real)
    requires tick >= EPSILON && Tracks(cfg, tick, a, v, gap) && Past(a, a.pending)
    requires GridPayload(cfg, p, tick) && Bookable(p, cfg.account) && p.tradeId.value in v.known
    requires p.tradeId.value !in a.seen && !IsPending(a.pending, p.tradeId.value)
    ensures Tracks(cfg, tick, ProcessOrQueue(cfg, a, p), v, gap - SignedOf(cfg, p))
  {
    var id, s := p.tradeId.value, SignedOf(cfg, p);
    var u := Venue(v.pos - s, v.known - {id});
    SignedGrid(cfg, p, tick);
    GridSum(s, s, tick);
    GridSum(v.pos, -s, tick);
    WithoutId(a, v, u, id);
    assert Delivered(cfg, u, p).known == v.known by {
      assert forall x :: x in u.known + {id} <==> x in v.known;
    }
    NewTradeTracks(cfg, tick, a, u, p, gap - s);
    assert Delivered(cfg, u, p) == v;
  }

  lemma WithoutId(a: Actor, v: Venue, u: Venue, id: int)
    requires KnownIds(a, v, a.pending) && Accounted(a, v, a.pending) && u.known == v.known - {id}
    requires id !in a.seen && !IsPending(a.pending, id)
    ensures KnownIds(a, u, a.pending) && Accounted(a, u, a.pending)
  {
    forall i | 0 <= i < |a.pending|
      ensures a.pending[i].payload.tradeId.Some? && a.pending[i].payload.tradeId.value in u.known
    {
      assert a.pending[i].payload.tradeId != Some(id);
    }
  }

  lemma NewTradeTracks(cfg: Config, tick: real, a: Actor, v: Venue, p: Payload, gap: real)
    requires tick >= EPSILON && Tracks(cfg, tick, a, v, gap) && Past(a, a.pending)
    requires GridPayload(cfg, p, tick) && Bookable(p, cfg.account) && p.tradeId.value !in v.known
    requires p.tradeId.value !in a.seen && !IsPending(a.pending, p.tradeId.value)
    ensures Tracks(cfg, tick, ProcessOrQueue(cfg, a, p), Delivered(cfg, v, p), gap)
  {
    var v' := Delivered(cfg, v, p);
    var (a', d) := TryAccept(cfg, a, p, a.generation);
    DeliveredGrid(cfg, v, p, tick);
    if d == Accepted {
      KnownGrows(a, a', v, v', a.pending, p.tradeId.value);
      BookedPosition(cfg, a, p, a.generation, tick);
      BookingAccounts(cfg, a, v, v', p.tradeId.value, FillOf(p, cfg.account), a.generation, a.pending, a.pending);
    } else {
      EnqueueTracks(cfg, tick, a, v, p, gap);
    }
  }

  /** Queueing moves one trade's worth from delivered to owed, whether or not the queue overflows. */
  lemma EnqueueOwes(cfg: Config, a: Actor, q: Queued, g: nat)
    ensures var b := Enqueued(a, q);
            Owed(cfg, b.pending, g) + Owed(cfg, b.overflowed, g)
            == Owed(cfg, a.pending, g) + Owed(cfg, a.overflowed, g) + Owed(cfg, [q], g)
  {
    var all := a.pending + [q];
    var over := if |all| > PENDING_LIMIT then |all| - PENDING_LIMIT else 0;
    OwedConcat(cfg, a.pending, [q], g);
    assert all == all[..over] + all[over..];
    OwedConcat(cfg, all[..over], all[over..], g);
    OwedConcat(cfg, a.overflowed, all[..over], g);
  }

  lemma EnqueueShape(cfg: Config, tick: real, a: Actor, v: Venue, q: Queued)
    requires GridQueue(cfg, a.pending, tick) && KnownIds(a, v, a.pending)
    requires Past(a, a.pending) && Past(a, a.overflowed) && q.generation <= a.generation
    requires GridPayload(cfg, q.payload, tick) && q.payload.tradeId.Some? && q.payload.tradeId.value in v.known
    ensures var b := Enqueued(a, q);
            GridQueue(cfg, b.pending, tick) && KnownIds(b, v, b.pending) && Past(b, b.overflowed)
  {
    var all := a.pending + [q];
    assert GridQueue(cfg, all, tick) && KnownIds(a, v, all) && Past(a, all);
  }

  lemma OwedOne(cfg: Config, p: Payload, g: nat)
    ensures Owed(cfg, [Queued(p, g)], g) == SignedOf(cfg, p)
  {
  }

  lemma EnqueueAccounts(a: Actor, v: Venue, v': Venue, q: Queued)
    requires Accounted(a, v, a.pending) && q.payload.tradeId.Some? && v'.known == v.known + {q.payload.tradeId.value}
    ensures Accounted(Enqueued(a, q), v', Enqueued(a, q).pending)
  {
    var b, all := Enqueued(a, q), a.pending + [q];
    forall i | 0 <= i < |all|
      ensures all[i] in b.pending || all[i] in b.overflowed
    {
      var over := if |all| > PENDING_LIMIT then |all| - PENDING_LIMIT else 0;
      if i < over {
        assert b.overflowed[|a.overflowed| + i] == all[i];
      } else {
        assert b.pending[i - over] == all[i];
      }
    }
    forall x | x in v'.known
      ensures IsBooked(b, x) || IsPending(b.pending, x) || IsPending(b.overflowed, x)
    {
      if x == q.payload.tradeId.value {
        assert all[|a.pending|] == q;
        Kept(all, b.pending, b.overflowed, x);
      } else if IsPending(a.pending, x) {
        StillPending(a.pending, all, x);
        Kept(all, b.pending, b.overflowed, x);
      } else if IsPending(a.overflowed, x) {
        StillPending(a.overflowed, b.overflowed, x);
      }
    }
  }

  lemma Kept(all: seq<Queued>, kept: seq<Queued>, lost: seq<Queued>, id: int)
    requires IsPending(all, id) && forall i :: 0 <= i < |all| ==> all[i] in kept || all[i] in lost
    ensures IsPending(kept, id) || IsPending(lost, id)
  {
    var i :| 0 <= i < |all| && all[i].payload.tradeId == Some(id);
    if all[i] in kept {
      var j :| 0 <= j < |kept| && kept[j] == all[i];
    } else {
      var j :| 0 <= j < |lost| && lost[j] == all[i];
    }
  }

  lemma EnqueueTracks(cfg: Config, tick: real, a: Actor, v: Venue, p: Payload, gap: real)
    requires Tracks(cfg, tick, a, v, gap) && Past(a, a.pending)
    requires GridPayload(cfg, p, tick) && Bookable(p, cfg.account) && p.tradeId.value !in v.known
    ensures Tracks(cfg, tick, Enqueued(a, Queued(p, a.generation)), Delivered(cfg, v, p), gap)
  {
    var q, v' := Queued(p, a.generation), Delivered(cfg, v, p);
    DeliveredGrid(cfg, v, p, tick);
    KnownGrows(a, a, v, v', a.pending, p.tradeId.value);
    EnqueueOwes(cfg, a, q, a.generation);
    OwedOne(cfg, p, a.generation);
    EnqueueShape(cfg, tick, a, v', q);
    EnqueueAccounts(a, v, v', q);
  }

  lemma ProcessKeepsGeneration(cfg: Config, a: Actor, p: Payload)
    ensures ProcessOrQueue(cfg, a, p).generation == a.generation
  {
  }

  lemma {:induction false} ProcessAllTracks(cfg: Config, tick: real, start: Actor, a: Actor, v: Venue,
                                            ps: seq<Payload>, gap: real)
    requires tick >= EPSILON && Sound(cfg, start, a) && Tracks(cfg, tick, a, v, gap) && GridTrades(cfg, tick, ps)
    ensures ProcessAll(cfg, a, ps).generation == a.generation
    ensures Tracks(cfg, tick, ProcessAll(cfg, a, ps), DeliveredAll(cfg, v, ps),
                   gap - Owed(cfg, RepeatsIn(cfg, a, v, ps), a.generation))
    ensures Past(a, RepeatsIn(cfg, a, v, ps))
  {
    if ps != [] {
      var before, p := ps[..|ps| - 1], ps[|ps| - 1];
      ProcessAllTracks(cfg, tick, start, a, v, before, gap);
      ProcessAllKeepsSound(cfg, start, a, before);
      var b, u := ProcessAll(cfg, a, before), DeliveredAll(cfg, v, before);
      ProcessTracks(cfg, tick, start, b, u, p, gap - Owed(cfg, RepeatsIn(cfg, a, v, before), a.generation));
      ProcessKeepsGeneration(cfg, b, p);
      OwedConcat(cfg, RepeatsIn(cfg, a, v, before), Repeat(cfg, b, u, p), a.generation);
    }
  }

  // ---- Retrying the queue ------------------------------------------------

  lemma OwedSplit(cfg: Config, kept: seq<Queued>, q: Queued, rest: seq<Queued>, g: nat)
    ensures Owed(cfg, kept + ([q] + rest), g)
         == Owed(cfg, kept + rest, g) + (if q.generation == g then SignedOf(cfg, q.payload) else 0.0)
  {
    OwedConcat(cfg, kept, [q] + rest, g);
    OwedConcat(cfg, [q], rest, g);
    OwedConcat(cfg, kept, rest, g);
    assert [q][..0] == [];
  }

  lemma DropQueued(cfg: Config, tick: real, a: Actor, v: Venue, kept: seq<Queued>, q: Queued, rest: seq<Queued>)
    requires GridQueue(cfg, kept + ([q] + rest), tick) && KnownIds(a, v, kept + ([q] + rest))
    ensures GridQueue(cfg, kept + rest, tick) && KnownIds(a, v, kept + rest)
    ensures GridPayload(cfg, q.payload, tick) && q.payload.tradeId.Some? && q.payload.tradeId.value in v.known
  {
    var all, fewer := kept + ([q] + rest), kept + rest;
    assert all[|kept|] == q;
    assert forall i :: 0 <= i < |fewer| ==> fewer[i] == all[if i < |kept| then i else i + 1];
  }

  lemma RetryOneTracks(cfg: Config, tick: real, start: Actor, a: Actor, v: Venue,
                       kept: seq<Queued>, q: Queued, rest: seq<Queued>, gap: real)
    requires tick >= EPSILON && Retrying(cfg, start, a, kept, [q] + rest)
    requires TracksWith(cfg, tick, a, v, kept + ([q] + rest), gap)
    ensures var (a', kept') := RetryOne(cfg, a, kept, q);
            TracksWith(cfg, tick, a', v, kept' + rest, gap)
  {
    var all := kept + ([q] + rest);
    assert all[|kept|] == q;
    OwedSplit(cfg, kept, q, rest, a.generation);
    DropQueued(cfg, tick, a, v, kept, q, rest);
    var (a', d) := TryAccept(cfg, a, q.payload, q.generation);
    if d == PendingClientId {
      assert (kept + [q]) + rest == all;
    } else {
      assert d == Accepted;
      BookedPosition(cfg, a, q.payload, q.generation, tick);
      assert forall id :: id in a'.seen ==> id in v.known;
      RetryAccounts(cfg, a, v, kept, q, rest);
    }
  }

  lemma RetryAccounts(cfg: Config, a: Actor, v: Venue, kept: seq<Queued>, q: Queued, rest: seq<Queued>)
    requires Accounted(a, v, kept + ([q] + rest)) && Bookable(q.payload, cfg.account)
    ensures var b := Booked(cfg, a, q.payload.tradeId.value, FillOf(q.payload, cfg.account), q.generation);
            Accounted(b, v, kept + rest)
  {
    var all, fewer := kept + ([q] + rest), kept + rest;
    forall i | 0 <= i < |all|
      ensures all[i] in fewer || all[i].payload.tradeId == Some(q.payload.tradeId.value)
    {
      if i < |kept| {
        assert fewer[i] == all[i];
      } else if i > |kept| {
        assert fewer[i - 1] == all[i];
      }
    }
    BookingAccounts(cfg, a, v, v, q.payload.tradeId.value, FillOf(q.payload, cfg.account), q.generation, all, fewer);
  }

  lemma {:induction false} RetryAllTracks(cfg: Config, tick: real, start: Actor, a: Actor, v: Venue,
                                          qs: seq<Queued>, rest: seq<Queued>, gap: real)
    requires tick >= EPSILON && Retrying(cfg, start, a, [], qs + rest)
    requires TracksWith(cfg, tick, a, v, qs + rest, gap)
    ensures var (a', kept) := RetryAll(cfg, a, qs);
            TracksWith(cfg, tick, a', v, kept + rest, gap)
    decreases |qs|
  {
    if qs == [] {
      assert qs + rest == [] + rest;
    } else {
      var before, q := qs[..|qs| - 1], qs[|qs| - 1];
      assert qs + rest == before + ([q] + rest);
      RetryAllTracks(cfg, tick, start, a, v, before, [q] + rest, gap);
      RetryAllKeeps(cfg, start, a, before, [q] + rest);
      var (a', kept) := RetryAll(cfg, a, before);
      RetryOneTracks(cfg, tick, start, a', v, kept, q, rest, gap);
    }
  }

  lemma RetryTracks(cfg: Config, tick: real, start: Actor, a: Actor, v: Venue, gap: real)
    requires tick >= EPSILON && Sound(cfg, start, a) && Tracks(cfg, tick, a, v, gap)
    ensures Tracks(cfg, tick, RetryPending(cfg, a), v, gap)
  {
    assert [] + (a.pending + []) == a.pending && a.pending + [] == a.pending;
    RetryAllTracks(cfg, tick, start, a, v, a.pending, [], gap);
    var (a', kept) := RetryAll(cfg, a, a.pending);
    assert kept + [] == kept;
  }

  // ---- Re-seeding --------------------------------------------------------

  /** Which snapshots re-seed: a flat one always, an open one exactly when it tells the entry price. Any
      other changes nothing. */
  lemma ReseedTable(cfg: Config, a: Actor, p: Position)
    ensures var b := UpdatePosition(cfg, a, p);
            if -EPSILON < p.signed < EPSILON || p.vwap.Some?
            then b.generation == a.generation + 1 && b.acct.pos == p.signed && b.pending == a.pending
            else b == a
  {
  }

  /** A re-seed closes whatever gap there was, and nothing queued earlier is owed any more. */
  lemma ReseedTracks(cfg: Config, tick: real, start: Actor, a: Actor, v: Venue, p: Position)
    requires Sound(cfg, start, a) && Ordered(cfg, tick, a, v, a.pending) && p.signed == v.pos && Reseeds(p)
    ensures Tracks(cfg, tick, UpdatePosition(cfg, a, p), v, 0.0)
    ensures UpdatePosition(cfg, a, p).acct.realized == a.strategyPnl
    ensures p.vwap.Some? ==> UpdatePosition(cfg, a, p).acct.vwap == p.vwap.value
  {
    NothingOwedToTheFuture(cfg, a.pending, a.generation + 1);
    NothingOwedToTheFuture(cfg, a.overflowed, a.generation + 1);
  }

  predicate ReseedsIn(e: Event) {
    e.AccountAll? && e.position.Some? && Reseeds(e.position.value)
  }

  /** What the session's starting position was wrong by, until the first re-seeding snapshot. */
  function Gap(initial: real, es: seq<Event>): real {
    if es == [] then initial
    else if ReseedsIn(es[|es| - 1]) then 0.0
    else Gap(initial, es[..|es| - 1])
  }

  /** From the first re-seed on there is no gap. */
  lemma {:induction false} GapCloses(initial: real, es: seq<Event>, k: nat)
    requires k < |es| && ReseedsIn(es[k])
    ensures Gap(initial, es) == 0.0
  {
    if k < |es| - 1 {
      GapCloses(initial, es[..|es| - 1], k);
    }
  }

  lemma EventTracks(cfg: Config, tick: real, start: Actor, a: Actor, v: Venue, e: Event, gap: real)
    requires tick >= EPSILON && Sound(cfg, start, a) && Tracks(cfg, tick, a, v, gap) && HonestEvent(cfg, tick, v, e)
    ensures var b, more := HandleEvent(cfg, a, e), EventRepeats(cfg, a, v, e);
            && b.generation == (if ReseedsIn(e) then a.generation + 1 else a.generation)
            && Past(a, more)
            && Tracks(cfg, tick, b, VenueStep(cfg, v, e),
                      if ReseedsIn(e) then 0.0 else gap - Owed(cfg, more, a.generation))
  {
    match e
    case RegisterClientIds(ids) =>
      var b := a.(strategy := Registered(a.strategy, ids));
      RetryTracks(cfg, tick, start, b, v, gap);
      RetryKeepsSound(cfg, start, b);
    case AccountAll(position, trades) =>
      ProcessAllTracks(cfg, tick, start, a, v, trades, gap);
      ProcessAllKeepsSound(cfg, start, a, trades);
      var b, u := ProcessAll(cfg, a, trades), DeliveredAll(cfg, v, trades);
      RetryTracks(cfg, tick, start, b, u, gap - Owed(cfg, RepeatsIn(cfg, a, v, trades), a.generation));
      RetryKeepsSound(cfg, start, b);
      if ReseedsIn(e) {
        ReseedTracks(cfg, tick, start, RetryPending(cfg, b), u, position.value);
      }
  }

  /** How far the local position is off, besides what the queue still owes: the initial difference
      until the first re-seed, less the current-generation trades applied a second time. */
  function Off(cfg: Config, start: Actor, v: Venue, es: seq<Event>): real {
    Gap(v.pos - start.acct.pos, es)
    - Owed(cfg, Repeats(cfg, start, v, es), PnlActor.Run(cfg, start, es).generation)
  }

  /** In every honest run from any starting position, the local position is the venue's minus the
      current-generation trades still pending or lost to a full queue, plus those of the current
      generation that were delivered again after the actor had forgotten them, minus the initial
      difference; the first re-seed closes that difference for good, and nothing queued or repeated
      before a re-seed counts after it. */
  lemma {:induction false} RunTracks(cfg: Config, tick: real, start: Actor, v: Venue, es: seq<Event>)
    requires tick >= EPSILON && Fresh(start) && v.known == {}
    requires OnGrid(start.acct.pos, tick) && OnGrid(v.pos, tick) && HonestRun(cfg, tick, v, es)
    ensures var a := PnlActor.Run(cfg, start, es);
            && a.acct.pos == VenueAfter(cfg, v, es).pos
                             - Owed(cfg, a.pending, a.generation) - Owed(cfg, a.overflowed, a.generation)
                             + Owed(cfg, Repeats(cfg, start, v, es), a.generation)
                             - Gap(v.pos - start.acct.pos, es)
            && Tracks(cfg, tick, a, VenueAfter(cfg, v, es), Off(cfg, start, v, es))
            && Past(a, Repeats(cfg, start, v, es))
  {
    if es != [] {
      var before, e := es[..|es| - 1], es[|es| - 1];
      var a, u := PnlActor.Run(cfg, start, before), VenueAfter(cfg, v, before);
      RunTracks(cfg, tick, start, v, before);
      RunIsSound(cfg, start, before);
      EventTracks(cfg, tick, start, a, u, e, Off(cfg, start, v, before));
      OffStep(cfg, start, v, es);
    }
  }

  lemma OffStep(cfg: Config, start: Actor, v: Venue, es: seq<Event>)
    requires es != []
    requires var before, e := es[..|es| - 1], es[|es| - 1];
             var a := PnlActor.Run(cfg, start, before);
             && Past(a, Repeats(cfg, start, v, before))
             && Past(a, EventRepeats(cfg, a, VenueAfter(cfg, v, before), e))
             && HandleEvent(cfg, a, e).generation == (if ReseedsIn(e) then a.generation + 1 else a.generation)
    ensures var before, e := es[..|es| - 1], es[|es| - 1];
            var a := PnlActor.Run(cfg, start, before);
            var more := EventRepeats(cfg, a, VenueAfter(cfg, v, before), e);
            && Past(PnlActor.Run(cfg, start, es), Repeats(cfg, start, v, es))
            && Off(cfg, start, v, es)
               == if ReseedsIn(e) then 0.0 else Off(cfg, start, v, before) - Owed(cfg, more, a.generation)
  {
    var before, e := es[..|es| - 1], es[|es| - 1];
    var a := PnlActor.Run(cfg, start, before);
    var old', more := Repeats(cfg, start, v, before), EventRepeats(cfg, a, VenueAfter(cfg, v, before), e);
    OwedConcat(cfg, old', more, a.generation);
    if ReseedsIn(e) {
      NothingOwedToTheFuture(cfg, old' + more, a.generation + 1);
    }
  }

  // ---- When nothing is repeated ------------------------------------------

  ghost predicate SoonTrades(cfg: Config, a: Actor, v: Venue, ps: seq<Payload>) {
    ps == [] ||
      (var before := ps[..|ps| - 1];
       && SoonTrades(cfg, a, v, before)
       && RedeliveredSoon(cfg, ProcessAll(cfg, a, before), DeliveredAll(cfg, v, before), ps[|ps| - 1]))
  }

  ghost predicate SoonRun(cfg: Config, start: Actor, v: Venue, es: seq<Event>) {
    es == [] ||
      (var before, e := es[..|es| - 1], es[|es| - 1];
       && SoonRun(cfg, start, v, before)
       && (e.AccountAll? ==>
             SoonTrades(cfg, PnlActor.Run(cfg, start, before), VenueAfter(cfg, v, before), e.trades)))
  }

  lemma {:induction false} SoonTradesNotRepeated(cfg: Config, tick: real, start: Actor, a: Actor, v: Venue,
                                                 ps: seq<Payload>, gap: real)
    requires tick >= EPSILON && Sound(cfg, start, a) && Tracks(cfg, tick, a, v, gap)
    requires GridTrades(cfg, tick, ps) && SoonTrades(cfg, a, v, ps)
    ensures RepeatsIn(cfg, a, v, ps) == []
  {
    if ps != [] {
      var before, p := ps[..|ps| - 1], ps[|ps| - 1];
      SoonTradesNotRepeated(cfg, tick, start, a, v, before, gap);
      ProcessAllTracks(cfg, tick, start, a, v, before, gap);
      ProcessAllKeepsSound(cfg, start, a, before);
      if Bookable(p, cfg.account) {
        FreshTrade(cfg, start, ProcessAll(cfg, a, before), DeliveredAll(cfg, v, before), p);
      }
    }
  }

  /** Trades delivered again within 10,000 bookings, and not after they fell off the queue, are never
      processed twice. */
  lemma {:induction false} SoonIsNotRepeated(cfg: Config, tick: real, start: Actor, v: Venue, es: seq<Event>)
    requires tick >= EPSILON && Fresh(start) && v.known == {}
    requires OnGrid(start.acct.pos, tick) && OnGrid(v.pos, tick)
    requires HonestRun(cfg, tick, v, es) && SoonRun(cfg, start, v, es)
    ensures Repeats(cfg, start, v, es) == []
  {
    if es != [] {
      var before, e := es[..|es| - 1], es[|es| - 1];
      SoonIsNotRepeated(cfg, tick, start, v, before);
      RunTracks(cfg, tick, start, v, before);
      RunIsSound(cfg, start, before);
      if e.AccountAll? {
        SoonTradesNotRepeated(cfg, tick, start, PnlActor.Run(cfg, start, before), VenueAfter(cfg, v, before),
                              e.trades, Off(cfg, start, v, before));
      }
    }
  }
}
