/**
The venue's side of a feed: a log of absolute-size changes, the book after each
prefix of the log, and what it means for a snapshot or a diff to be honest.
*/
module VenueLog {
  import opened Common
  import opened Book

  datatype Change = Change(side: Side, price: real, size: real)

  function SideOf(b: TwoSided, side: Side): PriceMap {
    if side == Buy then b.bids else b.asks
  }

  function Changed(b: TwoSided, c: Change): TwoSided {
    if c.side == Buy then b.(bids := Put(b.bids, c.price, c.size))
    else b.(asks := Put(b.asks, c.price, c.size))
  }

  /** The venue's book after update id `n`. */
  function At(log: seq<Change>, n: nat): TwoSided
    requires n <= |log|
  {
    if n == 0 then EMPTY else Changed(At(log, n - 1), log[n - 1])
  }

  ghost predicate Listed(levels: seq<Level>, price: real) {
    exists j :: 0 <= j < |levels| && levels[j].0 == price
  }

  /** One side of a diff over updates (lo, hi]: final sizes, for every price touched in between. */
  ghost predicate FinalSizes(log: seq<Change>, lo: nat, hi: nat, side: Side, levels: seq<Level>)
    requires lo <= hi <= |log|
  {
    && (forall j :: 0 <= j < |levels| ==> levels[j].1 == SizeAt(SideOf(At(log, hi), side), levels[j].0))
    && (forall i :: lo <= i < hi && log[i].side == side ==> Listed(levels, log[i].price))
  }

  ghost predicate HonestDiff(log: seq<Change>, lo: int, hi: int, bids: seq<Level>, asks: seq<Level>) {
    && 0 <= lo <= hi <= |log|
    && FinalSizes(log, lo, hi, Buy, bids)
    && FinalSizes(log, lo, hi, Sell, asks)
  }

  ghost predicate HonestSnapshot(log: seq<Change>, n: int, bids: seq<Level>, asks: seq<Level>) {
    && 0 <= n <= |log|
    && DistinctPrices(bids) && DistinctPrices(asks)
    && At(log, n) == TwoSided(PutAll(map[], bids), PutAll(map[], asks))
  }

  lemma {:induction false} AtNoZeroSizes(log: seq<Change>, n: nat, side: Side)
    requires n <= |log|
    ensures NoZeroSizes(SideOf(At(log, n), side))
  {
    if n > 0 {
      AtNoZeroSizes(log, n - 1, side);
    }
  }

  /** A price nobody touched keeps its size. */
  lemma {:induction false} UntouchedKeepsSize(log: seq<Change>, lo: nat, hi: nat, side: Side, price: real)
    requires lo <= hi <= |log|
    requires forall i :: lo <= i < hi && log[i].side == side ==> log[i].price != price
    ensures SizeAt(SideOf(At(log, lo), side), price) == SizeAt(SideOf(At(log, hi), side), price)
    decreases hi
  {
    if lo < hi {
      UntouchedKeepsSize(log, lo, hi - 1, side, price);
    }
  }

  /** A diff over (lo, hi] carries the book from ANY update in [lo, hi] to update hi. */
  lemma DiffCatchesUp(log: seq<Change>, lo: nat, from: nat, hi: nat, side: Side, levels: seq<Level>)
    requires lo <= from <= hi <= |log|
    requires FinalSizes(log, lo, hi, side, levels)
    ensures PutAll(SideOf(At(log, from), side), levels) == SideOf(At(log, hi), side)
  {
    var start, end := SideOf(At(log, from), side), SideOf(At(log, hi), side);
    AtNoZeroSizes(log, from, side);
    AtNoZeroSizes(log, hi, side);
    PutAllNoZeroSizes(start, levels);
    forall p: real
      ensures SizeAt(PutAll(start, levels), p) == SizeAt(end, p)
    {
      PutAllLookup(start, levels, p, SizeAt(end, p));
      if !Listed(levels, p) {
        UntouchedKeepsSize(log, from, hi, side, p);
      }
    }
    SameSizesSameMap(PutAll(start, levels), end);
  }

  lemma DiffAdvances(log: seq<Change>, lo: int, from: int, hi: int, bids: seq<Level>, asks: seq<Level>)
    requires HonestDiff(log, lo, hi, bids, asks) && lo <= from <= hi
    ensures TwoSided(PutAll(At(log, from).bids, bids), PutAll(At(log, from).asks, asks)) == At(log, hi)
  {
    DiffCatchesUp(log, lo, from, hi, Buy, bids);
    DiffCatchesUp(log, lo, from, hi, Sell, asks);
  }
}
