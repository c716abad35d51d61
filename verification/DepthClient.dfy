/**
The running Binance client: sorted vectors, rolling imbalance statistics and the
resync / live loop, proved against the state machine of DepthSync.
*/
module DepthClient {
  import opened Common
  import opened Book
  import opened Rolling
  import opened VenueLog
  import opened DepthSync

  const MAX_RESYNC_ATTEMPTS := 5

  // ---- Imbalance of a book -----------------------------------------------

  /** `bid` and `ask` are the touch of an uncrossed two-sided book with positive mid. */
  ghost predicate Touch(b: TwoSided, bid: real, ask: real) {
    IsHighest(b.bids, bid) && IsLowest(b.asks, ask) && bid < ask && bid + ask > 0.0
  }

  ghost predicate Quotable(b: TwoSided) {
    exists bid, ask :: Touch(b, bid, ask)
  }

  ghost predicate IsMid(b: TwoSided, mid: real) {
    exists bid, ask :: Touch(b, bid, ask) && mid == (bid + ask) * 0.5
  }

  /** The imbalance within `depth` of the mid of an uncrossed two-sided book. */
  ghost predicate IsImbalance(b: TwoSided, depth: real, imbalance: real) {
    exists mid :: IsMid(b, mid) && imbalance == ImbalanceAround(b, mid, depth)
  }

  /** No imbalance is defined when a side is empty or the best quotes cross or are not positive. */
  lemma NoTouch(b: TwoSided, bid: real, ask: real)
    requires IsHighest(b.bids, bid) && IsLowest(b.asks, ask) && !Touch(b, bid, ask)
    ensures !Quotable(b)
  {
  }

  // ---- BinanceObi --------------------------------------------------------

  class BinanceObi {
    const book: LocalBook
    const stats: RollingStats
    const lookingDepth: real
    var lastUpdateId: int
    var prevU: int
    var alpha: real          // the published alpha
    var sampleCount: nat     // publications since the last reset
    ghost var outbox: seq<real>   // every alpha ever published

    ghost predicate Valid()
      reads this, book, book.bids, book.asks, stats, stats.buffer
    {
      book.Valid() && stats.Valid()
    }

    ghost function View(synced: bool): Client
      requires Valid()
      reads this, book, book.bids, book.asks, stats, stats.buffer
    {
      Client(book.View(), lastUpdateId, prevU, synced)
    }

    /** The configuration, fixed at construction. */
    ghost function Config(): Settings {
      Settings(lookingDepth, stats.capacity, stats.root)
    }

    constructor (window: nat, lookingDepth: real, root: real -> real)
      requires window > 0
      ensures Valid() && View(false) == FRESH && stats.Window() == []
      ensures this.lookingDepth == lookingDepth && stats.capacity == window && stats.root == root
      ensures fresh(book) && fresh(book.bids) && fresh(book.asks) && fresh(stats) && fresh(stats.buffer)
    {
      book := new LocalBook();
      stats := new RollingStats(window, root);
      this.lookingDepth := lookingDepth;
      lastUpdateId, prevU, alpha, sampleCount := 0, 0, 0.0, 0;
      outbox := [];
    }

    method ResetAll()
      requires Valid()
      modifies this, book, book.bids, book.asks, stats
      ensures Valid() && View(false) == FRESH && stats.Window() == [] && alpha == 0.0 && sampleCount == 0
      ensures outbox == old(outbox)
    {
      book.Reset();
      stats.Clear();
      lastUpdateId, prevU := 0, 0;
      alpha, sampleCount := 0.0, 0;
    }

    /** A snapshot that repeats a price breaks the book; otherwise the book becomes the snapshot. */
    method ApplySnapshot(s: Snapshot)
      requires Valid()
      modifies this`lastUpdateId, this`prevU, book, book.bids, book.asks
      ensures stats.Window() == old(stats.Window()) && lastUpdateId == s.lastUpdateId && prevU == 0
      ensures Valid() <==> DistinctPrices(NonZero(s.bids)) && DistinctPrices(NonZero(s.asks))
      ensures DistinctPrices(s.bids) && DistinctPrices(s.asks) ==> Valid() && View(false) == WithSnapshot(s)
    {
      book.ApplySnapshot(s.bids, s.asks);
      lastUpdateId := s.lastUpdateId;
      prevU := 0;
    }

    method ApplyDiff(e: Event, synced: bool)
      requires Valid()
      modifies this`prevU, book.bids, book.asks
      ensures Valid() && View(synced) == WithDiff(old(View(synced)), e) && stats.Window() == old(stats.Window())
    {
      book.ApplyDelta(e.bids, e.asks);
      prevU := e.lastId;
    }

    /** Imbalance around the mid; None for a one-sided, crossed or non-positive book. */
    method CurrentImbalance() returns (imbalance: Option<real>)
      requires book.Valid()
      ensures imbalance.Some? <==> Quotable(book.View())
      ensures imbalance.Some? ==> IsImbalance(book.View(), lookingDepth, imbalance.value)
    {
      var best := book.BestQuotes();
      if best.None? {
        return None;
      }
      var bestBid, bestAsk := best.value.0, best.value.1;
      var mid := (bestBid + bestAsk) * 0.5;
      if mid <= 0.0 || bestAsk <= bestBid {
        NoTouch(book.View(), bestBid, bestAsk);
        return None;
      }
      var i := book.ImbalanceBetween(LowerBound(mid, lookingDepth), UpperBound(mid, lookingDepth));
      assert Touch(book.View(), bestBid, bestAsk);
      assert IsMid(book.View(), mid);
      assert i == ImbalanceAround(book.View(), mid, lookingDepth);
      imbalance := Some(i);
    }

    method Publish(imbalance: real)
      requires Valid()
      modifies this`alpha, this`sampleCount, this`outbox, stats, stats.buffer
      ensures Valid() && book.View() == old(book.View()) && sampleCount == old(sampleCount) + 1
      ensures stats.Window() == LastN(old(stats.Window()) + [imbalance], stats.capacity)
      ensures alpha == Score(imbalance, stats.Window(), stats.root) && outbox == old(outbox) + [alpha]
    {
      alpha := stats.PushAndScore(imbalance);
      sampleCount := sampleCount + 1;
      outbox := outbox + [alpha];
    }

    /** Publish the imbalance z-score; a book without an imbalance publishes nothing. */
    method UpdateAlpha() returns (published: Option<real>)
      requires Valid()
      modifies this`alpha, this`sampleCount, this`outbox, stats, stats.buffer
      ensures Valid() && book.View() == old(book.View())
      ensures published.Some? <==> Quotable(old(book.View()))
      ensures published.None? ==>
                && alpha == old(alpha) && sampleCount == old(sampleCount) && outbox == old(outbox)
                && stats.Window() == old(stats.Window())
      ensures published.Some? ==>
                && IsImbalance(old(book.View()), lookingDepth, published.value)
                && stats.Window() == LastN(old(stats.Window()) + [published.value], stats.capacity)
                && alpha == Score(published.value, stats.Window(), stats.root)
                && sampleCount == old(sampleCount) + 1 && outbox == old(outbox) + [alpha]
    {
      published := CurrentImbalance();
      if published.Some? {
        Publish(published.value);
      }
    }
  }

  // ---- The published alpha -----------------------------------------------

  datatype Publication = Publication(at: int, imbalance: real, alpha: real)

  function Imbalances(ps: seq<Publication>): seq<real> {
    seq(|ps|, i requires 0 <= i < |ps| => ps[i].imbalance)
  }

  /** What turns a window of imbalances into an alpha. */
  datatype Settings = Settings(depth: real, capacity: nat, root: real -> real)

  /** The k-th publication since a reset: the z-score, within the window of imbalances published
      so far, of the imbalance of the venue's own book at the publication's update id. */
  ghost predicate TruePublication(log: seq<Change>, cfg: Settings, ps: seq<Publication>, k: nat)
    requires k < |ps|
  {
    && 0 <= ps[k].at <= |log|
    && IsImbalance(At(log, ps[k].at), cfg.depth, ps[k].imbalance)
    && ps[k].alpha == Score(ps[k].imbalance, LastN(Imbalances(ps)[..k + 1], cfg.capacity), cfg.root)
  }

  ghost predicate TruePublications(log: seq<Change>, cfg: Settings, ps: seq<Publication>) {
    forall k :: 0 <= k < |ps| ==> TruePublication(log, cfg, ps, k)
  }

  lemma PublicationsGrow(log: seq<Change>, cfg: Settings, ps: seq<Publication>, p: Publication)
    requires TruePublications(log, cfg, ps)
    requires 0 <= p.at <= |log| && IsImbalance(At(log, p.at), cfg.depth, p.imbalance)
    requires p.alpha == Score(p.imbalance, LastN(Imbalances(ps) + [p.imbalance], cfg.capacity), cfg.root)
    ensures Imbalances(ps + [p]) == Imbalances(ps) + [p.imbalance]
    ensures TruePublications(log, cfg, ps + [p])
  {
    var ps' := ps + [p];
    assert Imbalances(ps') == Imbalances(ps) + [p.imbalance];
    forall k | 0 <= k < |ps'|
      ensures TruePublication(log, cfg, ps', k)
    {
      if k < |ps| {
        assert TruePublication(log, cfg, ps, k);
        assert Imbalances(ps')[..k + 1] == Imbalances(ps)[..k + 1];
      } else {
        assert Imbalances(ps')[..k + 1] == Imbalances(ps');
      }
    }
  }

  function Ats(ps: seq<Publication>): seq<int> {
    seq(|ps|, i requires 0 <= i < |ps| => ps[i].at)
  }

  function Alphas(ps: seq<Publication>): seq<real> {
    seq(|ps|, i requires 0 <= i < |ps| => ps[i].alpha)
  }

  /** The update ids at which a client that starts in `c` publishes on the stream `es`: those of the
      applied events that leave the venue's book quotable, up to the first sequence break. */
  ghost function PublishesAt(log: seq<Change>, c: Client, es: seq<Event>): seq<int> {
    if es == [] then []
    else
      var before, e := es[..|es| - 1], es[|es| - 1];
      var state := Drain(c, before);
      var applied := state.Some? && Classify(state.value, e) in {ApplyFirst, Apply};
      PublishesAt(log, c, before) + if applied then QuotableId(log, e) else []
  }

  /** The event's last id if the venue's book is quotable there. */
  ghost function QuotableId(log: seq<Change>, e: Event): seq<int> {
    if 0 <= e.lastId <= |log| && Quotable(At(log, e.lastId)) then [e.lastId] else []
  }

  lemma {:induction false} PublishingStops(log: seq<Change>, c: Client, es: seq<Event>, k: nat)
    requires k < |es| && Drain(c, es[..k]).Some? && Drain(c, es[..k + 1]).None?
    ensures PublishesAt(log, c, es) == PublishesAt(log, c, es[..k])
    decreases |es|
  {
    var before := es[..|es| - 1];
    if k == |es| - 1 {
      assert es[..k + 1] == es;
    } else {
      assert before[..k] == es[..k] && before[..k + 1] == es[..k + 1];
      PublishingStops(log, c, before, k);
      DrainStops(c, before, k + 1);
    }
  }

  // ---- The session -------------------------------------------------------

  lemma {:induction false} DrainStops(c: Client, es: seq<Event>, k: nat)
    requires k <= |es| && Drain(c, es[..k]).None?
    ensures Drain(c, es).None?
    decreases |es|
  {
    if k < |es| {
      assert es[..|es| - 1][..k] == es[..k];
      DrainStops(c, es[..|es| - 1], k);
    } else {
      assert es[..k] == es;
    }
  }

  /** Apply the snapshot and run the buffer; None requests a re-snapshot. */
  method ApplySnapshotAndDrain(obi: BinanceObi, s: Snapshot, buffer: seq<Event>) returns (r: Option<bool>)
    requires obi.Valid() && DistinctPrices(s.bids) && DistinctPrices(s.asks)
    modifies obi`lastUpdateId, obi`prevU, obi.book, obi.book.bids, obi.book.asks
    ensures obi.Valid() && obi.stats.Window() == old(obi.stats.Window())
    ensures r.None? ==> Drain(WithSnapshot(s), buffer) == None
    ensures r.Some? ==> Drain(WithSnapshot(s), buffer) == Some(obi.View(r.value))
  {
    obi.ApplySnapshot(s);
    var synced := false;
    for i := 0 to |buffer|
      invariant obi.Valid() && obi.stats.Window() == old(obi.stats.Window())
      invariant Drain(WithSnapshot(s), buffer[..i]) == Some(obi.View(synced))
    {
      assert buffer[..i + 1][..i] == buffer[..i];
      match ClassifyEvent(synced, obi.lastUpdateId, obi.prevU, buffer[i])
      case Drop =>
      case ApplyFirst =>
        obi.ApplyDiff(buffer[i], synced);
        synced := true;
      case Apply => obi.ApplyDiff(buffer[i], synced);
      case Resync =>
        DrainStops(WithSnapshot(s), buffer, i + 1);
        return None;
    }
    assert buffer[..|buffer|] == buffer;
    r := Some(synced);
  }

  /** The ids of a stream's events that leave the venue's book quotable. */
  ghost function QuotableIds(log: seq<Change>, es: seq<Event>): seq<int> {
    if es == [] then []
    else
      QuotableIds(log, es[..|es| - 1]) + QuotableId(log, es[|es| - 1])
  }

  lemma {:induction false} PublishesInStep(log: seq<Change>, c: Client, es: seq<Event>)
    requires c.synced && Continues(c.prevU, es)
    ensures PublishesAt(log, c, es) == QuotableIds(log, es)
  {
    if es != [] {
      var k := |es| - 1;
      ContinuesStep(c.prevU, es);
      PublishesInStep(log, c, es[..k]);
      InStepIff(c, es[..k]);
      assert Expected(c.prevU, es[..k], k) == Expected(c.prevU, es, k);
    }
  }

  /** A stream counts up to its first break. */
  lemma CutAtBreak(log: seq<Change>, c: Client, es: seq<Event>, n: nat)
    requires n <= |es| && Drain(c, es[..n]).Some?
    requires n < |es| ==> Drain(c, es[..n + 1]).None?
    ensures PublishesAt(log, c, es) == PublishesAt(log, c, es[..n])
    ensures Drain(c, es).None? <==> n < |es|
  {
    if n < |es| {
      PublishingStops(log, c, es, n);
      DrainStops(c, es, n + 1);
    } else {
      assert es[..n] == es;
    }
  }

  /** A client in step publishes on exactly the events before the first sequence break, and a break
      ends the stream. */
  lemma PublishesUntilBreak(log: seq<Change>, c: Client, es: seq<Event>)
    requires c.synced
    ensures var n := InStep(c.prevU, es);
            && PublishesAt(log, c, es) == QuotableIds(log, es[..n])
            && (Drain(c, es).None? <==> n < |es|)
  {
    var n := InStep(c.prevU, es);
    PublishesInStep(log, c, es[..n]);
    BreakEndsStream(c, es, n);
    CutAtBreak(log, c, es, n);
  }

  lemma {:induction false} StalePublishesNothing(log: seq<Change>, c: Client, es: seq<Event>)
    requires !c.synced && AllStale(es, c.lastUpdateId)
    ensures PublishesAt(log, c, es) == []
  {
    if es != [] {
      StalePublishesNothing(log, c, es[..|es| - 1]);
      StaleDrain(c, es[..|es| - 1]);
    }
  }

  /** The last event of a stream that was caught up with is applied. */
  lemma LastIsApplied(log: seq<Change>, c: Client, es: seq<Event>, k: nat)
    requires !c.synced && k < |es| && AllStale(es[..k], c.lastUpdateId)
    requires Brackets(es[k], c.lastUpdateId) && ContinuesFrom(es, k)
    ensures var state := Drain(c, es[..|es| - 1]);
            state.Some? && Classify(state.value, es[|es| - 1]) in {ApplyFirst, Apply}
    ensures PublishesAt(log, c, es) == PublishesAt(log, c, es[..|es| - 1]) + QuotableId(log, es[|es| - 1])
  {
    var last := |es| - 1;
    if k == last {
      StaleDrain(c, es[..k]);
    } else {
      assert es[..last][..k] == es[..k] && es[..last][k] == es[k];
      OutOfStepIff(c, es[..last], k);
    }
  }

  lemma QuotableSuffix(log: seq<Change>, es: seq<Event>, k: nat)
    requires k < |es|
    ensures QuotableIds(log, es[k..]) == QuotableIds(log, es[..|es| - 1][k..]) + QuotableId(log, es[|es| - 1])
  {
    assert es[k..][..|es[k..]| - 1] == es[..|es| - 1][k..];
  }

  lemma {:induction false} PublishesOnceInStep(log: seq<Change>, c: Client, es: seq<Event>, k: nat)
    requires !c.synced && k < |es| && AllStale(es[..k], c.lastUpdateId)
    requires Brackets(es[k], c.lastUpdateId) && ContinuesFrom(es, k)
    ensures PublishesAt(log, c, es) == QuotableIds(log, es[k..])
    decreases |es|
  {
    var last := |es| - 1;
    LastIsApplied(log, c, es, k);
    QuotableSuffix(log, es, k);
    if k == last {
      StalePublishesNothing(log, c, es[..k]);
    } else {
      assert es[..last][..k] == es[..k] && es[..last][k] == es[k];
      PublishesOnceInStep(log, c, es[..last], k);
    }
  }

  /** From the ids alone: a client out of step skips the stale events, publishes from the bracketing
      event on, and asks for a new snapshot exactly at the first event that breaks the sequence. */
  ghost predicate CatchesUp(log: seq<Change>, lastUpdateId: int, live: seq<Event>, at: seq<int>, resync: bool) {
    var k := StaleCount(live, lastUpdateId);
    if k < |live| && Brackets(live[k], lastUpdateId) then
      var n := FollowedTo(live, k);
      (resync <==> n < |live|) && at == QuotableIds(log, live[k..n])
    else (resync <==> k < |live|) && at == []
  }

  lemma CaughtUp(log: seq<Change>, c: Client, es: seq<Event>, k: nat, n: nat)
    requires !c.synced && k == StaleCount(es, c.lastUpdateId) && k < |es| && n == FollowedTo(es, k)
    requires Brackets(es[k], c.lastUpdateId)
    ensures PublishesAt(log, c, es) == QuotableIds(log, es[k..n])
    ensures Drain(c, es).None? <==> n < |es|
  {
    CatchUpEndsAtBreak(c, es, k, n);
    CutAtBreak(log, c, es, n);
    var followed := es[..n];
    assert followed[..k] == es[..k] && followed[k] == es[k] && followed[k..] == es[k..n];
    PublishesOnceInStep(log, c, followed, k);
  }

  lemma NeverCaughtUp(log: seq<Change>, c: Client, es: seq<Event>, k: nat)
    requires !c.synced && k == StaleCount(es, c.lastUpdateId)
    requires k < |es| ==> !Brackets(es[k], c.lastUpdateId)
    ensures PublishesAt(log, c, es) == []
    ensures Drain(c, es).None? <==> k < |es|
  {
    StalePublishesNothing(log, c, es[..k]);
    MissedBracketEndsStream(c, es, k);
    CutAtBreak(log, c, es, k);
  }

  lemma PublishesFromSync(log: seq<Change>, c: Client, es: seq<Event>)
    requires !c.synced
    ensures CatchesUp(log, c.lastUpdateId, es, PublishesAt(log, c, es), Drain(c, es).None?)
  {
    var k := StaleCount(es, c.lastUpdateId);
    if k < |es| && Brackets(es[k], c.lastUpdateId) {
      CaughtUp(log, c, es, k, FollowedTo(es, k));
    } else {
      NeverCaughtUp(log, c, es, k);
    }
  }

  /** The published list is what the client has shown since its last reset. */
  ghost predicate Shown(obi: BinanceObi, base: seq<real>, published: seq<Publication>)
    reads obi
  {
    && obi.sampleCount == |published| && obi.outbox == base + Alphas(published)
    && obi.alpha == if published == [] then 0.0 else published[|published| - 1].alpha
  }

  lemma AppendedAlpha(base: seq<real>, ps: seq<Publication>, p: Publication)
    ensures base + Alphas(ps) + [p.alpha] == base + Alphas(ps + [p]) && Ats(ps + [p]) == Ats(ps) + [p.at]
  {
  }

  /** Publish the alpha of a book that is the venue's. */
  method PublishBook(obi: BinanceObi, published: seq<Publication>, ghost log: seq<Change>, ghost base: seq<real>)
    returns (published': seq<Publication>)
    requires obi.Valid() && 0 <= obi.prevU <= |log| && obi.book.View() == At(log, obi.prevU)
    requires obi.stats.Window() == LastN(Imbalances(published), obi.stats.capacity)
    requires TruePublications(log, obi.Config(), published) && Shown(obi, base, published)
    modifies obi`alpha, obi`sampleCount, obi`outbox, obi.stats, obi.stats.buffer
    ensures obi.Valid() && obi.book.View() == old(obi.book.View())
    ensures obi.stats.Window() == LastN(Imbalances(published'), obi.stats.capacity)
    ensures TruePublications(log, obi.Config(), published') && Shown(obi, base, published')
    ensures Ats(published') == Ats(published) + if Quotable(At(log, obi.prevU)) then [obi.prevU] else []
  {
    var p := obi.UpdateAlpha();
    published' := published;
    if p.Some? {
      LastNAppend(Imbalances(published), p.value, obi.stats.capacity);
      var entry := Publication(obi.prevU, p.value, obi.alpha);
      PublicationsGrow(log, obi.Config(), published, entry);
      AppendedAlpha(base, published, entry);
      published' := published + [entry];
    }
  }

  /** Apply one in-sequence live event and publish the alpha of the resulting book. */
  method ApplyAndPublish(obi: BinanceObi, synced: bool, e: Event, published: seq<Publication>,
                         ghost log: seq<Change>, ghost base: seq<real>)
    returns (published': seq<Publication>)
    requires obi.Valid() && HonestEvent(log, e) && Faithful(log, obi.View(synced))
    requires Classify(obi.View(synced), e) in {ApplyFirst, Apply}
    requires obi.stats.Window() == LastN(Imbalances(published), obi.stats.capacity)
    requires TruePublications(log, obi.Config(), published) && Shown(obi, base, published)
    modifies obi`prevU, obi`alpha, obi`sampleCount, obi`outbox
    modifies obi.book.bids, obi.book.asks, obi.stats, obi.stats.buffer
    ensures obi.Valid() && Handle(old(obi.View(synced)), e) == Some(obi.View(true))
    ensures Faithful(log, obi.View(true))
    ensures obi.stats.Window() == LastN(Imbalances(published'), obi.stats.capacity)
    ensures TruePublications(log, obi.Config(), published') && Shown(obi, base, published')
    ensures Ats(published') == Ats(published) + if Quotable(At(log, e.lastId)) then [e.lastId] else []
  {
    HandleFaithful(log, obi.View(synced), e);
    obi.ApplyDiff(e, synced);
    ghost var c := obi.View(true);
    assert c.book == At(log, c.prevU);
    published' := PublishBook(obi, published, log, base);
    assert obi.View(true) == c;
  }

  /** The last state before a sequence break, or the final one. */
  function LastGood(c: Client, es: seq<Event>): Client {
    if es == [] then c
    else
      var r := Drain(c, es);
      if r.Some? then r.value else LastGood(c, es[..|es| - 1])
  }

  lemma {:induction false} LastGoodAt(c: Client, es: seq<Event>, k: nat)
    requires k < |es| && Drain(c, es[..k]).Some? && Drain(c, es[..k + 1]).None?
    ensures LastGood(c, es) == Drain(c, es[..k]).value
    decreases |es|
  {
    DrainStops(c, es, k + 1);
    var before := es[..|es| - 1];
    if k < |es| - 1 {
      assert before[..k] == es[..k] && before[..k + 1] == es[..k + 1];
      LastGoodAt(c, before, k);
    } else {
      assert before == es[..k];
    }
  }

  /** From the ids alone: the loop ends in a resync exactly at the first event that does not continue,
      and publishes on the events before it and on no other. */
  ghost predicate EndsAtBreak(log: seq<Change>, prevU: int, live: seq<Event>, published: seq<Publication>,
                              resync: bool)
  {
    var n := InStep(prevU, live);
    (resync <==> n < |live|) && Ats(published) == QuotableIds(log, live[..n])
  }

  /** The loop over the live events, against the state machine. */
  method FollowStream(obi: BinanceObi, synced0: bool, live: seq<Event>, ghost log: seq<Change>)
    returns (published: seq<Publication>, resync: bool, everSynced: bool)
    requires obi.Valid() && obi.stats.Window() == [] && obi.sampleCount == 0 && obi.alpha == 0.0
    requires HonestEvents(log, live) && Faithful(log, obi.View(synced0))
    modifies obi`prevU, obi`alpha, obi`sampleCount, obi`outbox
    modifies obi.book.bids, obi.book.asks, obi.stats, obi.stats.buffer
    ensures obi.Valid() && TruePublications(log, obi.Config(), published)
    ensures Shown(obi, old(obi.outbox), published)
    ensures Ats(published) == PublishesAt(log, old(obi.View(synced0)), live)
    ensures resync <==> Drain(old(obi.View(synced0)), live) == None
    ensures !resync ==> Drain(old(obi.View(synced0)), live) == Some(obi.View(everSynced))
    ensures everSynced == LastGood(old(obi.View(synced0)), live).synced
  {
    published, resync := [], false;
    everSynced := synced0;
    ghost var start, base := obi.View(synced0), obi.outbox;
    for i := 0 to |live|
      invariant obi.Valid() && Faithful(log, obi.View(everSynced))
      invariant Drain(start, live[..i]) == Some(obi.View(everSynced))
      invariant obi.stats.Window() == LastN(Imbalances(published), obi.stats.capacity)
      invariant TruePublications(log, obi.Config(), published) && Shown(obi, base, published)
      invariant Ats(published) == PublishesAt(log, start, live[..i])
    {
      assert live[..i + 1][..i] == live[..i];
      var action := ClassifyEvent(everSynced, obi.lastUpdateId, obi.prevU, live[i]);
      if action == Resync {
        DrainStops(start, live, i + 1);
        PublishingStops(log, start, live, i);
        LastGoodAt(start, live, i);
        resync := true;
        return;
      }
      if action != Drop {
        published := ApplyAndPublish(obi, everSynced, live[i], published, log, base);
        everSynced := true;
      }
    }
    assert live[..|live|] == live;
  }

  /** The live loop of one round: ends at a sequence break or when the stream closes. */
  method LiveLoop(obi: BinanceObi, synced0: bool, live: seq<Event>, ghost log: seq<Change>)
    returns (published: seq<Publication>, resync: bool, everSynced: bool)
    requires obi.Valid() && obi.stats.Window() == [] && obi.sampleCount == 0 && obi.alpha == 0.0
    requires HonestEvents(log, live) && Faithful(log, obi.View(synced0))
    modifies obi`prevU, obi`alpha, obi`sampleCount, obi`outbox
    modifies obi.book.bids, obi.book.asks, obi.stats, obi.stats.buffer
    ensures obi.Valid() && TruePublications(log, obi.Config(), published)
    ensures Shown(obi, old(obi.outbox), published)
    ensures Ats(published) == PublishesAt(log, old(obi.View(synced0)), live)
    ensures resync <==> Drain(old(obi.View(synced0)), live) == None
    ensures !resync ==> Drain(old(obi.View(synced0)), live) == Some(obi.View(everSynced))
    ensures everSynced == LastGood(old(obi.View(synced0)), live).synced
    ensures synced0 ==> EndsAtBreak(log, old(obi.prevU), live, published, resync)
    ensures !synced0 ==> CatchesUp(log, obi.lastUpdateId, live, Ats(published), resync)
  {
    ghost var start := obi.View(synced0);
    published, resync, everSynced := FollowStream(obi, synced0, live, log);
    if synced0 {
      PublishesUntilBreak(log, start, live);
    } else {
      PublishesFromSync(log, start, live);
    }
  }

  // ---- Rounds and sessions -----------------------------------------------

  /** What the network delivers between two snapshot requests. */
  datatype Round = Round(snapshot: Snapshot, buffer: seq<Event>, live: seq<Event>)

  ghost predicate HonestRound(log: seq<Change>, r: Round) {
    HonestSnap(log, r.snapshot) && HonestEvents(log, r.buffer) && HonestEvents(log, r.live)
  }

  function Drained(r: Round): Option<Client> {
    Drain(WithSnapshot(r.snapshot), r.buffer)
  }

  /** The round ends in a sequence break and asks for another snapshot. */
  predicate Breaks(r: Round) {
    Drained(r).None? || Drain(Drained(r).value, r.live).None?
  }

  /** The round got in step with the stream before it ended. */
  predicate Syncs(r: Round) {
    Drained(r).Some? && LastGood(Drained(r).value, r.live).synced
  }

  ghost function RoundPublishesAt(log: seq<Change>, r: Round): seq<int> {
    if Drained(r).None? then [] else PublishesAt(log, Drained(r).value, r.live)
  }

  /** One snapshot, its buffer and the live stream after it. */
  method PlayRound(obi: BinanceObi, round: Round, ghost log: seq<Change>)
    returns (published: seq<Publication>, resync: bool, synced: bool)
    requires obi.Valid() && HonestRound(log, round)
    modifies obi, obi.book, obi.book.bids, obi.book.asks, obi.stats, obi.stats.buffer
    ensures obi.Valid() && TruePublications(log, obi.Config(), published)
    ensures Shown(obi, old(obi.outbox), published)
    ensures Ats(published) == RoundPublishesAt(log, round)
    ensures resync == Breaks(round) && synced == Syncs(round)
  {
    published, resync, synced := [], true, false;
    obi.ResetAll();
    var drained := ApplySnapshotAndDrain(obi, round.snapshot, round.buffer);
    if drained.Some? {
      DrainFaithful(log, WithSnapshot(round.snapshot), round.buffer);
      published, resync, synced := LiveLoop(obi, drained.value, round.live, log);
    }
  }

  /** Consecutive failed resyncs after `k` rounds that all broke; getting in step starts over. */
  function Attempts(rounds: seq<Round>, k: nat): nat
    requires k <= |rounds|
  {
    if k == 0 then 0 else if Syncs(rounds[k - 1]) then 1 else Attempts(rounds, k - 1) + 1
  }

  /** More than `j` attempts: there were more than `j` rounds, and the last `j` never got in step. */
  lemma {:induction false} AttemptsMean(rounds: seq<Round>, k: nat, j: nat)
    requires k <= |rounds|
    ensures Attempts(rounds, k) > j <==> k > j && forall i :: k - j <= i < k ==> !Syncs(rounds[i])
    decreases j
  {
    if j > 0 && k > 0 {
      AttemptsMean(rounds, k - 1, j - 1);
    }
  }

  /** The session goes on to another snapshot after its first `k` rounds. */
  predicate GoesOn(rounds: seq<Round>, k: nat)
    requires 0 < k <= |rounds|
  {
    Breaks(rounds[k - 1]) && Attempts(rounds, k) < MAX_RESYNC_ATTEMPTS
  }

  ghost predicate AllGoOn(rounds: seq<Round>, n: nat)
    requires n <= |rounds|
  {
    forall k :: 0 < k <= n ==> GoesOn(rounds, k)
  }

  lemma OneMoreGoesOn(rounds: seq<Round>, n: nat)
    requires n < |rounds| && AllGoOn(rounds, n) && GoesOn(rounds, n + 1)
    ensures AllGoOn(rounds, n + 1)
  {
  }

  function AllAlphas(traces: seq<seq<Publication>>): seq<real> {
    if traces == [] then [] else AllAlphas(traces[..|traces| - 1]) + Alphas(traces[|traces| - 1])
  }

  ghost predicate TrueTraces(log: seq<Change>, cfg: Settings, rounds: seq<Round>, traces: seq<seq<Publication>>) {
    && |traces| <= |rounds|
    && forall i :: 0 <= i < |traces| ==>
         TruePublications(log, cfg, traces[i]) && Ats(traces[i]) == RoundPublishesAt(log, rounds[i])
  }

  lemma TraceAppended(base: seq<real>, traces: seq<seq<Publication>>, published: seq<Publication>)
    ensures base + AllAlphas(traces) + Alphas(published) == base + AllAlphas(traces + [published])
  {
    assert (traces + [published])[..|traces|] == traces;
  }

  lemma TracesGrow(log: seq<Change>, cfg: Settings, rounds: seq<Round>, traces: seq<seq<Publication>>,
                   published: seq<Publication>)
    requires TrueTraces(log, cfg, rounds, traces) && |traces| < |rounds|
    requires TruePublications(log, cfg, published) && Ats(published) == RoundPublishesAt(log, rounds[|traces|])
    ensures TrueTraces(log, cfg, rounds, traces + [published])
  {
  }

  /** The alpha on show is the last one of the last round, or zero if that round published none. */
  ghost predicate OnShow(obi: BinanceObi, trace: seq<Publication>)
    reads obi
  {
    obi.sampleCount == |trace| && obi.alpha == if trace == [] then 0.0 else trace[|trace| - 1].alpha
  }

  /** Play the next round and add its trace. */
  method PlayNext(obi: BinanceObi, rounds: seq<Round>, traces: seq<seq<Publication>>,
                  ghost log: seq<Change>, ghost base: seq<real>)
    returns (traces': seq<seq<Publication>>, resync: bool, synced: bool)
    requires obi.Valid() && |traces| < |rounds| && HonestRound(log, rounds[|traces|])
    requires TrueTraces(log, obi.Config(), rounds, traces) && obi.outbox == base + AllAlphas(traces)
    modifies obi, obi.book, obi.book.bids, obi.book.asks, obi.stats, obi.stats.buffer
    ensures obi.Valid() && |traces'| == |traces| + 1 && OnShow(obi, traces'[|traces|])
    ensures TrueTraces(log, obi.Config(), rounds, traces') && obi.outbox == base + AllAlphas(traces')
    ensures resync == Breaks(rounds[|traces|]) && synced == Syncs(rounds[|traces|])
  {
    var published;
    published, resync, synced := PlayRound(obi, rounds[|traces|], log);
    TraceAppended(base, traces, published);
    TracesGrow(log, obi.Config(), rounds, traces, published);
    traces' := traces + [published];
  }

  /** One connection: re-snapshot in session until the stream closes or five consecutive resyncs
      fail.  There is one trace per round played; together they are everything that was published,
      each alpha is that of the venue's own book, and none that was due is missing. */
  method Session(obi: BinanceObi, rounds: seq<Round>, ghost log: seq<Change>)
    returns (traces: seq<seq<Publication>>, gaveUp: bool)
    requires obi.Valid()
    requires forall i :: 0 <= i < |rounds| ==> HonestRound(log, rounds[i])
    modifies obi, obi.book, obi.book.bids, obi.book.asks, obi.stats, obi.stats.buffer
    ensures obi.Valid() && TrueTraces(log, obi.Config(), rounds, traces)
    ensures obi.outbox == old(obi.outbox) + AllAlphas(traces)
    ensures if traces == [] then obi.alpha == old(obi.alpha) else OnShow(obi, traces[|traces| - 1])
    ensures |traces| > 0 ==> AllGoOn(rounds, |traces| - 1)
    ensures |traces| < |rounds| ==> |traces| > 0 && !GoesOn(rounds, |traces|)
    ensures gaveUp <==> |traces| > 0 && GivesUp(rounds, |traces|)
  {
    traces, gaveUp := [], false;
    var attempts := 0;
    ghost var base := obi.outbox;
    for r := 0 to |rounds|
      invariant obi.Valid() && |traces| == r && attempts == Attempts(rounds, r) < MAX_RESYNC_ATTEMPTS
      invariant TrueTraces(log, obi.Config(), rounds, traces) && obi.outbox == base + AllAlphas(traces)
      invariant if traces == [] then obi.alpha == old(obi.alpha) else OnShow(obi, traces[|traces| - 1])
      invariant AllGoOn(rounds, r)
    {
      var more, resync, synced := PlayNext(obi, rounds, traces, log, base);
      traces := more;
      if !resync {
        return;
      }
      attempts := if synced then 1 else attempts + 1;
      assert attempts == Attempts(rounds, r + 1);
      if attempts >= MAX_RESYNC_ATTEMPTS {
        gaveUp := true;
        return;
      }
      OneMoreGoesOn(rounds, r);
    }
  }

  /** The session reconnects: the fifth failure in a row. */
  predicate GivesUp(rounds: seq<Round>, k: nat)
    requires 0 < k <= |rounds|
  {
    Breaks(rounds[k - 1]) && Attempts(rounds, k) >= MAX_RESYNC_ATTEMPTS
  }

  /** The session gives up exactly on a break after at least five rounds of which the last four never got
      in step with the stream. */
  lemma GivingUpMeans(rounds: seq<Round>, k: nat)
    requires 0 < k <= |rounds|
    ensures GivesUp(rounds, k) <==>
              Breaks(rounds[k - 1]) && k >= 5 && forall i :: k - 4 <= i < k ==> !Syncs(rounds[i])
  {
    AttemptsMean(rounds, k, 4);
  }
}
