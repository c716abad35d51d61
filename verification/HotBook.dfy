/**
The hot task's Lighter book: snapshots, deltas chained by begin_nonce / nonce, the stale
offset guard, and the resnapshot request that stops quoting on a missed update.
*/
module HotBook {
  import opened Common
  import opened Book
  import opened VenueLog

  datatype Message = Message(
    isSnapshot: bool, offset: Option<int>, beginNonce: Option<int>, nonce: Option<int>,
    bids: seq<Level>, asks: seq<Level>)

  datatype Hot = Hot(
    book: TwoSided, initialized: bool, lastOffset: Option<int>, lastNonce: Option<int>,
    awaiting: bool, resetFlag: bool)

  const START := Hot(EMPTY, false, None, None, false, false)

  /** `diverged` is the answer of the ticker cross-check, consulted only when the book has a mid. */
  datatype Input = Disconnect | BookMsg(msg: Message, diverged: bool)

  // ---- One message -------------------------------------------------------

  function Discarded(h: Hot): Hot {
    if h.resetFlag then START else h
  }

  predicate StaleOffset(h: Hot, m: Message) {
    m.offset.Some? && h.lastOffset.Some? && h.initialized && m.offset.value <= h.lastOffset.value
  }

  predicate NonceGap(h: Hot, m: Message) {
    h.initialized && m.beginNonce.Some? && h.lastNonce.Some? && m.beginNonce.value != h.lastNonce.value
  }

  /** Write the message's levels into the book: everything, or the listed prices only. */
  function Written(h: Hot, m: Message): Hot {
    var b := if m.isSnapshot || !h.initialized then EMPTY else h.book;
    h.(book := TwoSided(PutAll(b.bids, m.bids), PutAll(b.asks, m.asks)), initialized := true,
       lastOffset := OrElse(m.offset, h.lastOffset), lastNonce := OrElse(m.nonce, h.lastNonce))
  }

  predicate HasMid(b: TwoSided) {
    b.bids != map[] && b.asks != map[]
  }

  /** The new state and whether the message led to a quote decision. */
  function OnOrderBook(h: Hot, m: Message, diverged: bool): (Hot, bool) {
    var h0 := Discarded(h);
    if !m.isSnapshot && (h0.awaiting || StaleOffset(h0, m)) then (h0, false)
    else if !m.isSnapshot && NonceGap(h0, m) then (h0.(awaiting := true), false)
    else
      var h1 := Written(h0.(awaiting := false), m);
      if HasMid(h1.book) && diverged then (h1.(awaiting := true), false)
      else (h1, HasMid(h1.book))
  }

  function Step(h: Hot, i: Input): (Hot, bool) {
    match i
    case Disconnect => (h.(resetFlag := true), false)
    case BookMsg(m, diverged) => OnOrderBook(h, m, diverged)
  }

  function Run(inputs: seq<Input>): Hot {
    if inputs == [] then START else Step(Run(inputs[..|inputs| - 1]), inputs[|inputs| - 1]).0
  }

  /** Whether input `j` of the run leads to a quote decision. */
  predicate QuotesAt(inputs: seq<Input>, j: nat)
    requires j < |inputs|
  {
    Step(Run(inputs[..j]), inputs[j]).1
  }

  // ---- What the venue promises -------------------------------------------

  ghost predicate HonestMessage(log: seq<Change>, m: Message) {
    && m.nonce.Some?
    && if m.isSnapshot then HonestSnapshot(log, m.nonce.value, m.bids, m.asks)
       else m.beginNonce.Some? && HonestDiff(log, m.beginNonce.value, m.nonce.value, m.bids, m.asks)
  }

  /** A book message has arrived since the last disconnect. */
  predicate Open(inputs: seq<Input>) {
    inputs != [] && inputs[|inputs| - 1].BookMsg?
  }

  /** Honest messages, and the first book message of each connection is a snapshot. */
  ghost predicate Disciplined(log: seq<Change>, inputs: seq<Input>) {
    forall i :: 0 <= i < |inputs| && inputs[i].BookMsg? ==>
      HonestMessage(log, inputs[i].msg) && (Open(inputs[..i]) || inputs[i].msg.isSnapshot)
  }

  // ---- Quotes are made on the venue's book -------------------------------

  ghost predicate TrueBook(log: seq<Change>, h: Hot) {
    h.lastNonce.Some? && 0 <= h.lastNonce.value <= |log| && h.book == At(log, h.lastNonce.value)
  }

  /** What holds between messages: an initialised book that will not be discarded is true. */
  ghost predicate Invariant(log: seq<Change>, inputs: seq<Input>, h: Hot) {
    && (Open(inputs) ==> h.initialized && !h.resetFlag)
    && (h.initialized && !h.resetFlag ==> TrueBook(log, h))
    && (!h.resetFlag && h.awaiting ==> h.initialized)
  }

  lemma WrittenIsTrue(log: seq<Change>, h: Hot, m: Message)
    requires HonestMessage(log, m)
    requires !m.isSnapshot ==> h.initialized && TrueBook(log, h) && m.beginNonce == h.lastNonce
    ensures TrueBook(log, Written(h, m))
  {
    if !m.isSnapshot {
      DiffAdvances(log, m.beginNonce.value, m.beginNonce.value, m.nonce.value, m.bids, m.asks);
    }
  }

  lemma StepKeepsInvariant(log: seq<Change>, inputs: seq<Input>, h: Hot, i: Input)
    requires Invariant(log, inputs, h)
    requires i.BookMsg? ==> HonestMessage(log, i.msg) && (Open(inputs) || i.msg.isSnapshot)
    ensures Invariant(log, inputs + [i], Step(h, i).0)
    ensures Step(h, i).1 ==> TrueBook(log, Step(h, i).0) && !Step(h, i).0.awaiting
    ensures Step(h, i).1 ==> i.msg.isSnapshot || h.lastNonce == i.msg.beginNonce
  {
    if i.BookMsg? {
      var h0, m := Discarded(h), i.msg;
      if m.isSnapshot || !(h0.awaiting || StaleOffset(h0, m) || NonceGap(h0, m)) {
        WrittenIsTrue(log, h0.(awaiting := false), m);
      }
    }
  }

  lemma {:induction false} RunKeepsInvariant(log: seq<Change>, inputs: seq<Input>)
    requires Disciplined(log, inputs)
    ensures Invariant(log, inputs, Run(inputs))
  {
    if inputs != [] {
      var before, last := inputs[..|inputs| - 1], inputs[|inputs| - 1];
      PrefixDisciplined(log, inputs, |inputs| - 1);
      RunKeepsInvariant(log, before);
      StepKeepsInvariant(log, before, Run(before), last);
      assert inputs == before + [last];
    }
  }

  lemma PrefixDisciplined(log: seq<Change>, inputs: seq<Input>, n: nat)
    requires Disciplined(log, inputs) && n <= |inputs|
    ensures Disciplined(log, inputs[..n])
  {
  }

  lemma RunStep(inputs: seq<Input>, j: nat)
    requires j < |inputs|
    ensures Run(inputs[..j + 1]) == Step(Run(inputs[..j]), inputs[j]).0
  {
    assert inputs[..j + 1][..j] == inputs[..j];
  }

  /** In every run each quote decision sees the venue's book at `lastNonce`, and a delta is
      priced only when it starts where the book stood. */
  lemma QuotesSeeVenueBook(log: seq<Change>, inputs: seq<Input>, j: nat)
    requires Disciplined(log, inputs) && j < |inputs| && QuotesAt(inputs, j)
    ensures TrueBook(log, Run(inputs[..j + 1]))
    ensures inputs[j].msg.isSnapshot || Run(inputs[..j]).lastNonce == inputs[j].msg.beginNonce
  {
    PrefixDisciplined(log, inputs, j);
    RunKeepsInvariant(log, inputs[..j]);
    StepKeepsInvariant(log, inputs[..j], Run(inputs[..j]), inputs[j]);
    RunStep(inputs, j);
  }

  /** From the message and the state before it: which messages reach the book. A snapshot always does; a
      delta does when no snapshot is awaited, it is newer than the last offset and starts at the last
      nonce. */
  predicate Reaches(h: Hot, m: Message) {
    || m.isSnapshot
    || (&& !h.awaiting
        && !(h.initialized && m.offset.Some? && h.lastOffset.Some? && m.offset.value <= h.lastOffset.value)
        && !(h.initialized && m.beginNonce.Some? && h.lastNonce.Some? && m.beginNonce.value != h.lastNonce.value))
  }

  predicate TwoSidedAfter(h: Hot, m: Message) {
    HasMid(Written(h, m).book)
  }

  /** A message is priced exactly when it reaches the book, leaves it two-sided and the ticker agrees;
      what reaches the book is written, and what does not leaves it alone. */
  lemma PricedIff(h: Hot, m: Message, diverged: bool)
    requires !h.resetFlag
    ensures var (h', quotes) := OnOrderBook(h, m, diverged);
            && (quotes <==> Reaches(h, m) && TwoSidedAfter(h, m) && !diverged)
            && (Reaches(h, m) ==> h'.book == Written(h, m).book && h'.lastNonce == OrElse(m.nonce, h.lastNonce)
                                  && h'.lastOffset == OrElse(m.offset, h.lastOffset))
            && (!Reaches(h, m) ==> h'.book == h.book && h'.lastNonce == h.lastNonce && h'.lastOffset == h.lastOffset)
            && (h'.awaiting <==> if Reaches(h, m) then TwoSidedAfter(h, m) && diverged
                                 else h.awaiting || !StaleOffset(h, m))
  {
  }

  /** After a disconnect the next message meets an empty book, whatever was there before. */
  lemma ReconnectStartsOver(h: Hot, m: Message, diverged: bool)
    requires h.resetFlag
    ensures OnOrderBook(h, m, diverged) == OnOrderBook(START, m, diverged) && START.book == EMPTY
  {
  }

  /** In every disciplined run, a delta that is fresh and continues the book, while no snapshot is
      awaited, brings the book to the venue's at its nonce, and is priced if that book is two-sided and
      the ticker agrees. */
  lemma ContinuingDeltaIsPriced(log: seq<Change>, inputs: seq<Input>, j: nat)
    requires Disciplined(log, inputs) && j < |inputs| && inputs[j].BookMsg? && !inputs[j].msg.isSnapshot
    requires var h, m := Run(inputs[..j]), inputs[j].msg;
             !h.awaiting && !StaleOffset(h, m) && m.beginNonce == h.lastNonce
    ensures var m, after := inputs[j].msg, Run(inputs[..j + 1]);
            && 0 <= m.nonce.value <= |log| && after.lastNonce == m.nonce && after.book == At(log, m.nonce.value)
            && (QuotesAt(inputs, j) <==> HasMid(At(log, m.nonce.value)) && !inputs[j].diverged)
  {
    PrefixDisciplined(log, inputs, j);
    RunKeepsInvariant(log, inputs[..j]);
    RunStep(inputs, j);
    var h, m := Run(inputs[..j]), inputs[j].msg;
    WrittenIsTrue(log, h.(awaiting := false), m);
  }

  // ---- A missed update forces a snapshot ---------------------------------

  ghost predicate SnapshotBetween(inputs: seq<Input>, i: nat, j: nat) {
    exists k :: i <= k < j && k < |inputs| && inputs[k].BookMsg? && inputs[k].msg.isSnapshot
  }

  lemma {:induction false} AwaitingPersists(log: seq<Change>, inputs: seq<Input>, i: nat, j: nat)
    requires Disciplined(log, inputs) && i <= j <= |inputs|
    requires Run(inputs[..i]).awaiting && !SnapshotBetween(inputs, i, j)
    ensures Run(inputs[..j]).awaiting
    ensures Open(inputs[..j]) ==> !Run(inputs[..j]).resetFlag
    decreases j - i
  {
    PrefixDisciplined(log, inputs, j);
    RunKeepsInvariant(log, inputs[..j]);
    if i < j {
      if SnapshotBetween(inputs, i, j - 1) {
        assert false;
      }
      AwaitingPersists(log, inputs, i, j - 1);
      RunStep(inputs, j - 1);
      if inputs[j - 1].BookMsg? {
        assert Open(inputs[..j - 1]);
      }
    }
  }

  /** Once a gap or a divergence has been flagged, nothing is priced before a fresh snapshot. */
  lemma NoQuoteBeforeSnapshot(log: seq<Change>, inputs: seq<Input>, i: nat, j: nat)
    requires Disciplined(log, inputs) && i <= j < |inputs|
    requires Run(inputs[..i]).awaiting && QuotesAt(inputs, j)
    ensures SnapshotBetween(inputs, i, j + 1)
  {
    if !SnapshotBetween(inputs, i, j) && !inputs[j].msg.isSnapshot {
      AwaitingPersists(log, inputs, i, j);
      assert false;
    }
    if SnapshotBetween(inputs, i, j) {
      var k :| i <= k < j && k < |inputs| && inputs[k].BookMsg? && inputs[k].msg.isSnapshot;
    }
  }

  /** A fresh delta that does not continue the book flags it and prices nothing. */
  lemma GapIsFlagged(log: seq<Change>, inputs: seq<Input>, j: nat)
    requires Disciplined(log, inputs) && j < |inputs| && inputs[j].BookMsg? && !inputs[j].msg.isSnapshot
    requires !StaleOffset(Run(inputs[..j]), inputs[j].msg)
    requires inputs[j].msg.beginNonce != Run(inputs[..j]).lastNonce
    ensures Run(inputs[..j + 1]).awaiting && !QuotesAt(inputs, j)
  {
    PrefixDisciplined(log, inputs, j);
    RunKeepsInvariant(log, inputs[..j]);
    RunStep(inputs, j);
  }

  // ---- Why the first message must be a snapshot --------------------------

  /** On an uninitialised book a delta is taken for a snapshot; the result is the venue's book
      exactly when every resting price happens to be listed in it. */
  lemma FirstDeltaExact(log: seq<Change>, h: Hot, m: Message)
    requires HonestMessage(log, m) && !m.isSnapshot && !h.initialized
    ensures TrueBook(log, Written(h, m))
       <==> && (forall p :: p in At(log, m.nonce.value).bids ==> Listed(m.bids, p))
            && (forall p :: p in At(log, m.nonce.value).asks ==> Listed(m.asks, p))
  {
    ReplayExact(log, m.nonce.value, Buy, m.bids);
    ReplayExact(log, m.nonce.value, Sell, m.asks);
  }

  /** Two bids rest at the venue; a first delta that lists one of them leaves a book without the other. */
  lemma FirstDeltaExample()
    ensures var log := [Change(Buy, 1.0, 1.0), Change(Buy, 2.0, 1.0)];
            var m := Message(false, None, Some(1), Some(2), [(2.0, 1.0)], []);
            HonestMessage(log, m) && !TrueBook(log, Written(START, m))
  {
    var log := [Change(Buy, 1.0, 1.0), Change(Buy, 2.0, 1.0)];
    var m := Message(false, None, Some(1), Some(2), [(2.0, 1.0)], []);
    assert At(log, 1) == Changed(EMPTY, log[0]) && At(log, 2) == Changed(At(log, 1), log[1]);
    assert 1.0 in At(log, 2).bids && At(log, 2).bids[2.0] == 1.0;
    assert m.bids[0].0 == 2.0 && Listed(m.bids, 2.0);
    FirstDeltaExact(log, START, m);
  }

  lemma ReplayExact(log: seq<Change>, n: nat, side: Side, levels: seq<Level>)
    requires n <= |log| && FinalSizes(log, n, n, side, levels)
    ensures PutAll(map[], levels) == SideOf(At(log, n), side)
       <==> forall p :: p in SideOf(At(log, n), side) ==> Listed(levels, p)
  {
    var venue, local := SideOf(At(log, n), side), PutAll(map[], levels);
    AtNoZeroSizes(log, n, side);
    PutAllNoZeroSizes(map[], levels);
    forall p: real
      ensures SizeAt(local, p) == if Listed(levels, p) then SizeAt(venue, p) else 0.0
    {
      PutAllLookup(map[], levels, p, SizeAt(venue, p));
    }
    if forall p :: p in venue ==> Listed(levels, p) {
      SameSizesSameMap(local, venue);
    }
    if local == venue {
      forall p | p in venue
        ensures Listed(levels, p)
      {
        assert SizeAt(local, p) == venue[p] != 0.0;
      }
    }
  }

  // ---- The hot task ----------------------------------------------------------

  class HotTask {
    const book: LocalBook
    var awaitingResnapshot: bool
    var resetFlag: bool

    ghost predicate Valid()
      reads this, book, book.bids, book.asks
    {
      book.Valid() && (!book.initialized ==> book.View() == EMPTY)
    }

    ghost function View(): Hot
      requires Valid()
      reads this, book, book.bids, book.asks
    {
      Hot(book.View(), book.initialized, book.lastOffset, book.lastNonce, awaitingResnapshot, resetFlag)
    }

    constructor ()
      ensures Valid() && View() == START && fresh(book) && fresh(book.bids) && fresh(book.asks)
    {
      book := new LocalBook();
      awaitingResnapshot, resetFlag := false, false;
    }

    method OnDisconnect()
      requires Valid()
      modifies this`resetFlag
      ensures Valid() && View() == Step(old(View()), Disconnect).0
    {
      resetFlag := true;
    }

    /** The guards of a delta: whether to go on to the book. */
    method CheckDelta(m: Message) returns (proceed: bool)
      requires Valid()
      modifies this`awaitingResnapshot
      ensures Valid()
      ensures View() == if !old(awaitingResnapshot) && !StaleOffset(old(View()), m) && NonceGap(old(View()), m)
                        then old(View()).(awaiting := true) else old(View())
      ensures proceed <==> !old(awaitingResnapshot) && !StaleOffset(old(View()), m) && !NonceGap(old(View()), m)
    {
      if awaitingResnapshot {
        return false;
      }
      if m.offset.Some? && book.lastOffset.Some? && book.initialized && m.offset.value <= book.lastOffset.value {
        return false;
      }
      if book.initialized && m.beginNonce.Some? && book.lastNonce.Some? && m.beginNonce.value != book.lastNonce.value {
        awaitingResnapshot := true;
        return false;
      }
      proceed := true;
    }

    /** A full write that repeats a price breaks the book; any other write is the specified one. */
    method WriteBook(m: Message)
      requires Valid()
      modifies book, book.bids, book.asks
      ensures m.isSnapshot || !old(book.initialized) ==>
                (Valid() <==> DistinctPrices(NonZero(m.bids)) && DistinctPrices(NonZero(m.asks)))
      ensures (m.isSnapshot || !old(book.initialized) ==> DistinctPrices(m.bids) && DistinctPrices(m.asks)) ==>
                Valid() && View() == Written(old(View()), m)
    {
      if m.isSnapshot || !book.initialized {
        book.ApplySnapshot(m.bids, m.asks);
      } else {
        book.ApplyDelta(m.bids, m.asks);
      }
      if m.offset.Some? {
        book.lastOffset := m.offset;
      }
      if m.nonce.Some? {
        book.lastNonce := m.nonce;
      }
    }

    /** After a reconnect the stale book is thrown away. */
    method DiscardStale()
      requires Valid()
      modifies this, book, book.bids, book.asks
      ensures Valid() && View() == Discarded(old(View()))
    {
      if resetFlag {
        resetFlag := false;
        book.Reset();
        awaitingResnapshot := false;
      }
    }

    method OnOrderBookMessage(m: Message, diverged: bool) returns (quote: bool)
      requires Valid()
      requires m.isSnapshot || !book.initialized || resetFlag ==> DistinctPrices(m.bids) && DistinctPrices(m.asks)
      modifies this, book, book.bids, book.asks
      ensures Valid() && (View(), quote) == OnOrderBook(old(View()), m, diverged)
    {
      DiscardStale();
      if m.isSnapshot {
        awaitingResnapshot := false;
      } else {
        var proceed := CheckDelta(m);
        if !proceed {
          return false;
        }
      }
      WriteBook(m);
      var best := book.BestQuotes();
      quote := best.Some? && !diverged;
      if best.Some? && diverged {
        awaitingResnapshot := true;
      }
    }
  }
}
