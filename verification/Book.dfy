/**
The local order book: each side is two parallel vectors sorted by ascending price.
Every operation is specified through the price -> size map the vectors represent.
*/
module Book {
  import opened Common

  type Level = (real, real)
  type PriceMap = map<real, real>

  // ---- The price -> size map ---------------------------------------------

  /** Set an absolute size; size zero removes the price. */
  function Put(m: PriceMap, price: real, size: real): PriceMap {
    if size == 0.0 then m - {price} else m[price := size]
  }

  function PutAll(m: PriceMap, levels: seq<Level>): PriceMap {
    if levels == [] then m
    else
      var l := levels[|levels| - 1];
      Put(PutAll(m, levels[..|levels| - 1]), l.0, l.1)
  }

  /** Resting size at a price, zero when the price is absent. */
  function SizeAt(m: PriceMap, price: real): real {
    if price in m then m[price] else 0.0
  }

  ghost predicate NoZeroSizes(m: PriceMap) {
    forall p :: p in m ==> m[p] != 0.0
  }

  lemma {:induction false} PutAllNoZeroSizes(m: PriceMap, levels: seq<Level>)
    requires NoZeroSizes(m)
    ensures NoZeroSizes(PutAll(m, levels))
  {
    if levels != [] {
      PutAllNoZeroSizes(m, levels[..|levels| - 1]);
    }
  }

  lemma SameSizesSameMap(a: PriceMap, b: PriceMap)
    requires NoZeroSizes(a) && NoZeroSizes(b)
    requires forall p: real :: SizeAt(a, p) == SizeAt(b, p)
    ensures a == b
  {
    forall p: real
      ensures (p in a <==> p in b) && (p in a ==> a[p] == b[p])
    {
      assert SizeAt(a, p) == SizeAt(b, p);
    }
    assert a.Keys == b.Keys;
  }

  /** Total size over a set of prices. */
  ghost function SumOver(m: PriceMap, s: set<real>): real
    requires s <= m.Keys
  {
    if !exists p :: p in s then 0.0 else
      var p :| p in s;
      m[p] + SumOver(m, s - {p})
  }

  lemma {:induction false} SumOverRemove(m: PriceMap, s: set<real>, p: real)
    requires s <= m.Keys && p in s
    ensures SumOver(m, s) == m[p] + SumOver(m, s - {p})
    decreases |s|
  {
    var q :| q in s && SumOver(m, s) == m[q] + SumOver(m, s - {q});
    if p != q {
      SumOverRemove(m, s - {q}, p);
      SumOverRemove(m, s - {p}, q);
      assert s - {q} - {p} == s - {p} - {q};
    }
  }

  ghost function PricesFrom(m: PriceMap, lower: real): set<real> {
    set p | p in m && p >= lower
  }

  ghost function PricesTo(m: PriceMap, upper: real): set<real> {
    set p | p in m && p <= upper
  }

  // ---- Sorted parallel vectors -------------------------------------------

  ghost predicate Ascending(prices: seq<real>) {
    forall i, j :: 0 <= i < j < |prices| ==> prices[i] < prices[j]
  }

  ghost predicate ValidSide(prices: seq<real>, sizes: seq<real>) {
    && |prices| == |sizes|
    && Ascending(prices)
    && forall i :: 0 <= i < |sizes| ==> sizes[i] != 0.0
  }

  /** The vectors list exactly the entries of `m`. */
  ghost predicate Represents(prices: seq<real>, sizes: seq<real>, m: PriceMap) {
    && |prices| == |sizes|
    && (forall i :: 0 <= i < |prices| ==> prices[i] in m && m[prices[i]] == sizes[i])
    && (forall p :: p in m ==> p in prices)
  }

  /** The map represented by two parallel vectors. */
  ghost function Represented(prices: seq<real>, sizes: seq<real>): (m: PriceMap)
    requires |prices| == |sizes| && Ascending(prices)
    ensures Represents(prices, sizes, m)
  {
    map i | 0 <= i < |prices| :: prices[i] := sizes[i]
  }

  lemma RepresentedUnique(prices: seq<real>, sizes: seq<real>, m: PriceMap)
    requires Ascending(prices) && Represents(prices, sizes, m)
    ensures Represented(prices, sizes) == m
  {
    var r := Represented(prices, sizes);
    assert forall p :: p in r <==> p in m;
    assert forall p :: p in r ==> r[p] == m[p];
  }

  /** `k` splits an ascending vector into prices below and prices not below `price`. */
  ghost predicate SplitsAt(prices: seq<real>, k: nat, price: real) {
    && k <= |prices|
    && (forall i :: 0 <= i < k ==> prices[i] < price)
    && (forall i :: k <= i < |prices| ==> prices[i] >= price)
  }

  function InsertAt<T>(s: seq<T>, k: nat, v: T): seq<T>
    requires k <= |s|
  {
    s[..k] + [v] + s[k..]
  }

  function RemoveAt<T>(s: seq<T>, k: nat): seq<T>
    requires k < |s|
  {
    s[..k] + s[k + 1..]
  }

  lemma InsertKeepsValid(prices: seq<real>, sizes: seq<real>, k: nat, price: real, size: real)
    requires ValidSide(prices, sizes) && SplitsAt(prices, k, price) && size != 0.0
    requires k < |prices| ==> prices[k] != price
    ensures ValidSide(InsertAt(prices, k, price), InsertAt(sizes, k, size))
  {
  }

  lemma InsertRepresents(prices: seq<real>, sizes: seq<real>, k: nat, price: real, size: real, m: PriceMap)
    requires Represents(prices, sizes, m) && k <= |prices| && price !in prices && size != 0.0
    ensures Represents(InsertAt(prices, k, price), InsertAt(sizes, k, size), Put(m, price, size))
  {
  }

  lemma InsertKeepsSide(prices: seq<real>, sizes: seq<real>, k: nat, price: real, size: real)
    requires ValidSide(prices, sizes) && SplitsAt(prices, k, price) && size != 0.0
    requires k < |prices| ==> prices[k] != price
    ensures ValidSide(InsertAt(prices, k, price), InsertAt(sizes, k, size))
    ensures Represented(InsertAt(prices, k, price), InsertAt(sizes, k, size))
         == Put(Represented(prices, sizes), price, size)
  {
    InsertKeepsValid(prices, sizes, k, price, size);
    InsertRepresents(prices, sizes, k, price, size, Represented(prices, sizes));
    var m := Put(Represented(prices, sizes), price, size);
    RepresentedUnique(InsertAt(prices, k, price), InsertAt(sizes, k, size), m);
  }

  lemma RemoveKeepsValid(prices: seq<real>, sizes: seq<real>, k: nat)
    requires ValidSide(prices, sizes) && k < |prices|
    ensures ValidSide(RemoveAt(prices, k), RemoveAt(sizes, k))
  {
  }

  lemma RemoveRepresents(prices: seq<real>, sizes: seq<real>, k: nat, m: PriceMap)
    requires Ascending(prices) && Represents(prices, sizes, m) && k < |prices|
    ensures Represents(RemoveAt(prices, k), RemoveAt(sizes, k), Put(m, prices[k], 0.0))
  {
  }

  lemma RemoveKeepsSide(prices: seq<real>, sizes: seq<real>, k: nat)
    requires ValidSide(prices, sizes) && k < |prices|
    ensures ValidSide(RemoveAt(prices, k), RemoveAt(sizes, k))
    ensures Represented(RemoveAt(prices, k), RemoveAt(sizes, k)) == Put(Represented(prices, sizes), prices[k], 0.0)
  {
    RemoveKeepsValid(prices, sizes, k);
    RemoveRepresents(prices, sizes, k, Represented(prices, sizes));
    RepresentedUnique(RemoveAt(prices, k), RemoveAt(sizes, k), Put(Represented(prices, sizes), prices[k], 0.0));
  }

  lemma ReplaceKeepsSide(prices: seq<real>, sizes: seq<real>, k: nat, size: real)
    requires ValidSide(prices, sizes) && k < |prices| && size != 0.0
    ensures ValidSide(prices, sizes[k := size])
    ensures Represented(prices, sizes[k := size]) == Put(Represented(prices, sizes), prices[k], size)
  {
    RepresentedUnique(prices, sizes[k := size], Put(Represented(prices, sizes), prices[k], size));
  }

  // ---- Range sums over the vectors ---------------------------------------

  ghost function Total(sizes: seq<real>, lo: nat, hi: nat): real
    requires lo <= hi <= |sizes|
  {
    if lo == hi then 0.0 else Total(sizes, lo, hi - 1) + sizes[hi - 1]
  }

  ghost function Slice(prices: seq<real>, lo: nat, hi: nat): set<real>
    requires lo <= hi <= |prices|
  {
    var sub := prices[lo..hi];
    set p | p in sub
  }

  lemma SliceShrink(prices: seq<real>, lo: nat, hi: nat)
    requires Ascending(prices) && lo < hi <= |prices|
    ensures prices[hi - 1] in Slice(prices, lo, hi)
    ensures Slice(prices, lo, hi) - {prices[hi - 1]} == Slice(prices, lo, hi - 1)
  {
  }

  lemma SliceSum(prices: seq<real>, sizes: seq<real>, m: PriceMap, lo: nat, hi: nat)
    requires Represents(prices, sizes, m) && Ascending(prices) && lo < hi <= |prices|
    ensures Slice(prices, lo, hi) <= m.Keys && Slice(prices, lo, hi - 1) <= m.Keys
    ensures SumOver(m, Slice(prices, lo, hi)) == SumOver(m, Slice(prices, lo, hi - 1)) + sizes[hi - 1]
  {
    SliceListed(prices, sizes, m, lo, hi);
    SliceListed(prices, sizes, m, lo, hi - 1);
    SliceShrink(prices, lo, hi);
    SumOverRemove(m, Slice(prices, lo, hi), prices[hi - 1]);
  }

  /** What `RangeSum` claims of the range [lo, hi). */
  ghost predicate RangeSums(prices: seq<real>, sizes: seq<real>, m: PriceMap, lo: nat, hi: nat)
    requires lo <= hi <= |prices| && hi <= |sizes|
  {
    var range := Slice(prices, lo, hi);
    range <= m.Keys && Total(sizes, lo, hi) == SumOver(m, range)
  }

  lemma NoRangeSums(prices: seq<real>, sizes: seq<real>, m: PriceMap, lo: nat)
    requires lo <= |prices| && lo <= |sizes|
    ensures RangeSums(prices, sizes, m, lo, lo)
  {
    assert Slice(prices, lo, lo) == {};
  }

  lemma RangeSumsStep(prices: seq<real>, sizes: seq<real>, m: PriceMap, lo: nat, hi: nat)
    requires Represents(prices, sizes, m) && Ascending(prices) && lo < hi <= |prices|
    requires RangeSums(prices, sizes, m, lo, hi - 1)
    ensures RangeSums(prices, sizes, m, lo, hi)
  {
    SliceSum(prices, sizes, m, lo, hi);
    assert Total(sizes, lo, hi) == Total(sizes, lo, hi - 1) + sizes[hi - 1];
  }

  /** A contiguous range of the size vector sums exactly the represented prices in that range. */
  lemma {:induction false} RangeSum(prices: seq<real>, sizes: seq<real>, m: PriceMap, lo: nat, hi: nat)
    requires Represents(prices, sizes, m) && Ascending(prices) && lo <= hi <= |prices|
    ensures RangeSums(prices, sizes, m, lo, hi)
    decreases hi - lo
  {
    if lo == hi {
      NoRangeSums(prices, sizes, m, lo);
    } else {
      RangeSum(prices, sizes, m, lo, hi - 1);
      RangeSumsStep(prices, sizes, m, lo, hi);
    }
  }

  lemma SliceListed(prices: seq<real>, sizes: seq<real>, m: PriceMap, lo: nat, hi: nat)
    requires Represents(prices, sizes, m) && lo <= hi <= |prices|
    ensures Slice(prices, lo, hi) <= m.Keys
  {
  }

  lemma SliceFrom(prices: seq<real>, sizes: seq<real>, m: PriceMap, k: nat, lower: real)
    requires Represents(prices, sizes, m) && SplitsAt(prices, k, lower)
    ensures Slice(prices, k, |prices|) == PricesFrom(m, lower)
  {
  }

  lemma SliceTo(prices: seq<real>, sizes: seq<real>, m: PriceMap, k: nat, upper: real)
    requires Represents(prices, sizes, m) && k <= |prices|
    requires forall i :: 0 <= i < k ==> prices[i] <= upper
    requires forall i :: k <= i < |prices| ==> prices[i] > upper
    ensures Slice(prices, 0, k) == PricesTo(m, upper)
  {
  }

  // ---- Snapshot levels ---------------------------------------------------

  function NonZero(levels: seq<Level>): seq<Level> {
    if levels == [] then []
    else
      var l := levels[|levels| - 1];
      NonZero(levels[..|levels| - 1]) + (if l.1 != 0.0 then [l] else [])
  }

  ghost predicate DistinctPrices(levels: seq<Level>) {
    forall i, j :: 0 <= i < j < |levels| ==> levels[i].0 != levels[j].0
  }

  ghost predicate SortedByPrice(levels: seq<Level>) {
    forall i, j :: 0 <= i < j < |levels| ==> levels[i].0 <= levels[j].0
  }

  /** Stable insertion: after every level whose price is not larger. */
  function Insert(l: Level, sorted: seq<Level>): seq<Level> {
    if sorted == [] || sorted[|sorted| - 1].0 <= l.0 then sorted + [l]
    else Insert(l, sorted[..|sorted| - 1]) + [sorted[|sorted| - 1]]
  }

  /** Stable sort by price. */
  function Sort(levels: seq<Level>): seq<Level> {
    if levels == [] then [] else Insert(levels[|levels| - 1], Sort(levels[..|levels| - 1]))
  }

  lemma {:induction false} InsertSorts(l: Level, sorted: seq<Level>)
    requires SortedByPrice(sorted)
    ensures SortedByPrice(Insert(l, sorted))
    ensures multiset(Insert(l, sorted)) == multiset(sorted) + multiset{l}
  {
    if !(sorted == [] || sorted[|sorted| - 1].0 <= l.0) {
      var rest, last := sorted[..|sorted| - 1], sorted[|sorted| - 1];
      assert sorted == rest + [last];
      InsertSorts(l, rest);
      var r := Insert(l, rest);
      forall i | 0 <= i < |r|
        ensures r[i].0 <= last.0
      {
        assert r[i] in multiset(r);
        assert r[i] in multiset(rest) + multiset{l};
        assert r[i] in rest || r[i] == l;
      }
    }
  }

  lemma {:induction false} SortSorts(levels: seq<Level>)
    ensures SortedByPrice(Sort(levels)) && multiset(Sort(levels)) == multiset(levels)
  {
    if levels != [] {
      var rest := levels[..|levels| - 1];
      SortSorts(rest);
      InsertSorts(levels[|levels| - 1], Sort(rest));
      assert levels == rest + [levels[|levels| - 1]];
    }
  }

  lemma RemoveOne(a: seq<Level>, x: nat)
    requires x < |a|
    ensures multiset(RemoveAt(a, x)) == multiset(a) - multiset{a[x]}
  {
    assert a == a[..x] + ([a[x]] + a[x + 1..]);
  }

  /** Two positions of a sequence have two distinct counterparts in any permutation of it. */
  lemma Counterparts(a: seq<Level>, b: seq<Level>, i: nat, j: nat) returns (x: nat, y: nat)
    requires multiset(a) == multiset(b) && i < j < |b|
    ensures x < |a| && y < |a| && x != y && a[x] == b[i] && a[y] == b[j]
  {
    assert b[i] in multiset(a);
    x :| x < |a| && a[x] == b[i];
    RemoveOne(a, x);
    RemoveOne(b, i);
    assert RemoveAt(b, i)[j - 1] == b[j];
    assert b[j] in multiset(RemoveAt(a, x));
    var k :| 0 <= k < |RemoveAt(a, x)| && RemoveAt(a, x)[k] == b[j];
    y := if k < x then k else k + 1;
  }

  /** Prices of a permutation are distinct when the original's are. */
  lemma DistinctUnderPermutation(a: seq<Level>, b: seq<Level>)
    requires multiset(a) == multiset(b) && DistinctPrices(a)
    ensures DistinctPrices(b)
  {
    forall i, j | 0 <= i < j < |b|
      ensures b[i].0 != b[j].0
    {
      var x, y := Counterparts(a, b, i, j);
      assert a[x].0 != a[y].0;
    }
  }

  ghost function Prices(levels: seq<Level>): seq<real> {
    seq(|levels|, i requires 0 <= i < |levels| => levels[i].0)
  }

  ghost function Sizes(levels: seq<Level>): seq<real> {
    seq(|levels|, i requires 0 <= i < |levels| => levels[i].1)
  }

  /** What a snapshot's levels mean, one lookup at a time. */
  lemma {:induction false} PutAllLookup(m: PriceMap, levels: seq<Level>, price: real, size: real)
    requires forall i :: 0 <= i < |levels| && levels[i].0 == price ==> levels[i].1 == size
    ensures SizeAt(PutAll(m, levels), price)
         == if exists i :: 0 <= i < |levels| && levels[i].0 == price then size else SizeAt(m, price)
  {
    if levels != [] {
      var rest, l := levels[..|levels| - 1], levels[|levels| - 1];
      PutAllLookup(m, rest, price, size);
      if l.0 == price {
        assert levels[|levels| - 1].0 == price;
      } else if i :| 0 <= i < |levels| && levels[i].0 == price {
        assert rest[i].0 == price;
      }
    }
  }

  lemma {:induction false} NonZeroContents(levels: seq<Level>, l: Level)
    ensures l in NonZero(levels) <==> l in levels && l.1 != 0.0
  {
    if levels != [] {
      NonZeroContents(levels[..|levels| - 1], l);
      assert levels == levels[..|levels| - 1] + [levels[|levels| - 1]];
    }
  }

  lemma {:induction false} NonZeroDistinct(levels: seq<Level>)
    requires DistinctPrices(levels)
    ensures DistinctPrices(NonZero(levels))
  {
    if levels != [] {
      var rest, l := levels[..|levels| - 1], levels[|levels| - 1];
      NonZeroDistinct(rest);
      forall i | 0 <= i < |NonZero(rest)|
        ensures NonZero(rest)[i].0 != l.0
      {
        NonZeroContents(rest, NonZero(rest)[i]);
      }
    }
  }

  lemma KeptAreNonZero(levels: seq<Level>)
    ensures var kept := Sort(NonZero(levels)); forall i :: 0 <= i < |kept| ==> kept[i].1 != 0.0
  {
    var nz := NonZero(levels);
    SortSorts(nz);
    forall i | 0 <= i < |Sort(nz)|
      ensures Sort(nz)[i].1 != 0.0
    {
      assert Sort(nz)[i] in multiset(Sort(nz));
      assert Sort(nz)[i] in nz;
      NonZeroContents(levels, Sort(nz)[i]);
    }
  }

  lemma AscendingIffDistinct(sorted: seq<Level>)
    requires SortedByPrice(sorted)
    ensures Ascending(Prices(sorted)) <==> DistinctPrices(sorted)
  {
    if Ascending(Prices(sorted)) {
      forall i, j | 0 <= i < j < |sorted|
        ensures sorted[i].0 != sorted[j].0
      {
        assert Prices(sorted)[i] < Prices(sorted)[j];
      }
    }
  }

  /** The sorted vectors are a valid side exactly when the non-zero levels have distinct prices. */
  lemma SortedSnapshotValid(levels: seq<Level>)
    ensures var kept := Sort(NonZero(levels));
            ValidSide(Prices(kept), Sizes(kept)) <==> DistinctPrices(NonZero(levels))
  {
    var nz := NonZero(levels);
    SortSorts(nz);
    KeptAreNonZero(levels);
    AscendingIffDistinct(Sort(nz));
    if DistinctPrices(nz) {
      DistinctUnderPermutation(nz, Sort(nz));
    }
    if DistinctPrices(Sort(nz)) {
      DistinctUnderPermutation(Sort(nz), nz);
    }
  }

  /** A price listed twice leaves vectors that are not ascending. */
  lemma RepeatedPriceExample()
    ensures var kept := Sort(NonZero([(1.0, 1.0), (1.0, 2.0)]));
            !ValidSide(Prices(kept), Sizes(kept))
  {
    var levels: seq<Level> := [(1.0, 1.0), (1.0, 2.0)];
    assert levels[..1] == [levels[0]] && levels[..1][..0] == [];
    assert NonZero(levels[..1]) == [levels[0]];
    assert NonZero(levels) == [levels[0]] + [levels[1]];
    SortedSnapshotValid(levels);
    assert NonZero(levels)[0].0 == NonZero(levels)[1].0;
  }

  /** A snapshot with distinct prices leaves the same book as upserting its levels into an empty one. */
  lemma SnapshotIsReplay(levels: seq<Level>)
    requires DistinctPrices(levels)
    ensures var kept := Sort(NonZero(levels));
            ValidSide(Prices(kept), Sizes(kept))
            && Represented(Prices(kept), Sizes(kept)) == PutAll(map[], levels)
  {
    var nz := NonZero(levels);
    var kept := Sort(nz);
    NonZeroDistinct(levels);
    SortedSnapshotValid(levels);
    SortSorts(nz);
    var m := Represented(Prices(kept), Sizes(kept));
    PutAllNoZeroSizes(map[], levels);
    forall p: real
      ensures SizeAt(m, p) == SizeAt(PutAll(map[], levels), p)
    {
      SnapshotLookup(levels, p);
    }
    SameSizesSameMap(m, PutAll(map[], levels));
  }

  lemma SnapshotLookup(levels: seq<Level>, p: real)
    requires DistinctPrices(levels)
    requires var kept := Sort(NonZero(levels)); ValidSide(Prices(kept), Sizes(kept))
    ensures var kept := Sort(NonZero(levels));
            SizeAt(Represented(Prices(kept), Sizes(kept)), p) == SizeAt(PutAll(map[], levels), p)
  {
    var kept := Sort(NonZero(levels));
    var m := Represented(Prices(kept), Sizes(kept));
    if k :| 0 <= k < |levels| && levels[k].0 == p {
      PutAllLookup(map[], levels, p, levels[k].1);
      if levels[k].1 != 0.0 {
        var j := ListedLevelKept(levels, k);
        assert Prices(kept)[j] == p && Sizes(kept)[j] == levels[k].1;
      } else if p in m {
        KeptLevelListed(levels, p);
        assert false;
      }
    } else {
      PutAllLookup(map[], levels, p, 0.0);
      if p in m {
        KeptLevelListed(levels, p);
        assert false;
      }
    }
  }

  lemma ListedLevelKept(levels: seq<Level>, k: nat) returns (j: nat)
    requires k < |levels| && levels[k].1 != 0.0
    ensures j < |Sort(NonZero(levels))| && Sort(NonZero(levels))[j] == levels[k]
  {
    NonZeroContents(levels, levels[k]);
    SortSorts(NonZero(levels));
    assert levels[k] in multiset(NonZero(levels));
    assert levels[k] in multiset(Sort(NonZero(levels)));
    j :| j < |Sort(NonZero(levels))| && Sort(NonZero(levels))[j] == levels[k];
  }

  lemma KeptLevelListed(levels: seq<Level>, p: real)
    requires p in Prices(Sort(NonZero(levels)))
    ensures exists k :: 0 <= k < |levels| && levels[k].0 == p && levels[k].1 != 0.0
  {
    var kept := Sort(NonZero(levels));
    SortSorts(NonZero(levels));
    var j :| 0 <= j < |kept| && Prices(kept)[j] == p;
    assert kept[j] in multiset(kept);
    assert kept[j] in NonZero(levels);
    NonZeroContents(levels, kept[j]);
    var k :| 0 <= k < |levels| && levels[k] == kept[j];
  }

  // ---- One side of the book ----------------------------------------------

  class BookSide {
    var prices: seq<real>
    var sizes: seq<real>

    ghost predicate Valid()
      reads this
    {
      ValidSide(prices, sizes)
    }

    ghost function View(): PriceMap
      requires Valid()
      reads this
    {
      Represented(prices, sizes)
    }

    constructor ()
      ensures Valid() && View() == map[]
    {
      prices, sizes := [], [];
    }

    method Clear()
      modifies this
      ensures Valid() && View() == map[]
    {
      prices, sizes := [], [];
    }

    /** First index whose price is not below `price`, by binary search. */
    method BisectLeft(price: real) returns (k: nat)
      requires Valid()
      ensures SplitsAt(prices, k, price)
    {
      var hi := |prices|;
      k := 0;
      while k < hi
        invariant k <= hi <= |prices|
        invariant forall i :: 0 <= i < k ==> prices[i] < price
        invariant forall i :: hi <= i < |prices| ==> prices[i] >= price
      {
        var mid := (k + hi) / 2;
        if prices[mid] < price {
          k := mid + 1;
        } else {
          hi := mid;
        }
      }
    }

    /** First index whose price is above `price`, by binary search. */
    method BisectRight(price: real) returns (k: nat)
      requires Valid()
      ensures k <= |prices|
      ensures forall i :: 0 <= i < k ==> prices[i] <= price
      ensures forall i :: k <= i < |prices| ==> prices[i] > price
    {
      var hi := |prices|;
      k := 0;
      while k < hi
        invariant k <= hi <= |prices|
        invariant forall i :: 0 <= i < k ==> prices[i] <= price
        invariant forall i :: hi <= i < |prices| ==> prices[i] > price
      {
        var mid := (k + hi) / 2;
        if prices[mid] <= price {
          k := mid + 1;
        } else {
          hi := mid;
        }
      }
    }

    /** Insert, update or (size zero) remove one level. */
    method Upsert(price: real, size: real)
      requires Valid()
      modifies this
      ensures Valid() && View() == Put(old(View()), price, size)
    {
      var idx := BisectLeft(price);
      var present := idx < |prices| && prices[idx] == price;
      if present {
        if size == 0.0 {
          RemoveKeepsSide(prices, sizes, idx);
          prices, sizes := RemoveAt(prices, idx), RemoveAt(sizes, idx);
        } else {
          ReplaceKeepsSide(prices, sizes, idx, size);
          sizes := sizes[idx := size];
        }
      } else if size != 0.0 {
        InsertKeepsSide(prices, sizes, idx, price, size);
        prices, sizes := InsertAt(prices, idx, price), InsertAt(sizes, idx, size);
      } else {
        assert price !in prices;
      }
    }

    method ApplyDelta(levels: seq<Level>)
      requires Valid()
      modifies this
      ensures Valid() && View() == PutAll(old(View()), levels)
    {
      for i := 0 to |levels|
        invariant Valid() && View() == PutAll(old(View()), levels[..i])
      {
        assert levels[..i + 1][..i] == levels[..i];
        Upsert(levels[i].0, levels[i].1);
      }
      assert levels[..|levels|] == levels;
    }

    /** Replace the side: drop empty levels, sort by price, copy into the vectors. */
    method ApplySnapshot(levels: seq<Level>)
      modifies this
      ensures Valid() <==> DistinctPrices(NonZero(levels))
      ensures DistinctPrices(levels) ==> Valid() && View() == PutAll(map[], levels)
    {
      prices, sizes := [], [];
      var kept := Sort(NonZero(levels));
      for i := 0 to |kept|
        invariant prices == Prices(kept)[..i] && sizes == Sizes(kept)[..i]
      {
        prices, sizes := prices + [kept[i].0], sizes + [kept[i].1];
      }
      assert prices == Prices(kept) && sizes == Sizes(kept);
      SortedSnapshotValid(levels);
      if DistinctPrices(levels) {
        SnapshotIsReplay(levels);
      }
    }

    method SumSizesFrom(minPrice: real) returns (total: real)
      requires Valid()
      ensures total == SumOver(View(), PricesFrom(View(), minPrice))
    {
      var start := BisectLeft(minPrice);
      total := 0.0;
      for i := start to |sizes|
        invariant total == Total(sizes, start, i)
      {
        total := total + sizes[i];
      }
      RangeSum(prices, sizes, View(), start, |prices|);
      SliceFrom(prices, sizes, View(), start, minPrice);
    }

    method SumSizesTo(maxPrice: real) returns (total: real)
      requires Valid()
      ensures total == SumOver(View(), PricesTo(View(), maxPrice))
    {
      var end := BisectRight(maxPrice);
      total := 0.0;
      for i := 0 to end
        invariant total == Total(sizes, 0, i)
      {
        total := total + sizes[i];
      }
      RangeSum(prices, sizes, View(), 0, end);
      SliceTo(prices, sizes, View(), end, maxPrice);
    }

    /** Lowest resting price. */
    method Lowest() returns (p: Option<real>)
      requires Valid()
      ensures p.None? <==> View() == map[]
      ensures p.Some? ==> IsLowest(View(), p.value)
    {
      if |prices| == 0 {
        return None;
      }
      assert prices[0] in View();
      p := Some(prices[0]);
    }

    /** Highest resting price. */
    method Highest() returns (p: Option<real>)
      requires Valid()
      ensures p.None? <==> View() == map[]
      ensures p.Some? ==> IsHighest(View(), p.value)
    {
      if |prices| == 0 {
        return None;
      }
      assert prices[|prices| - 1] in View();
      p := Some(prices[|prices| - 1]);
    }
  }

  ghost predicate IsLowest(m: PriceMap, p: real) {
    p in m && forall q :: q in m ==> p <= q
  }

  ghost predicate IsHighest(m: PriceMap, p: real) {
    p in m && forall q :: q in m ==> q <= p
  }

  // ---- Both sides --------------------------------------------------------

  datatype TwoSided = TwoSided(bids: PriceMap, asks: PriceMap)

  const EMPTY := TwoSided(map[], map[])

  class LocalBook {
    const bids: BookSide
    const asks: BookSide
    var initialized: bool
    var lastOffset: Option<int>
    var lastNonce: Option<int>

    ghost predicate Valid()
      reads this, bids, asks
    {
      bids != asks && bids.Valid() && asks.Valid()
    }

    ghost function View(): TwoSided
      requires Valid()
      reads this, bids, asks
    {
      TwoSided(bids.View(), asks.View())
    }

    constructor ()
      ensures Valid() && View() == EMPTY && fresh(bids) && fresh(asks)
      ensures !initialized && lastOffset == None && lastNonce == None
    {
      bids := new BookSide();
      asks := new BookSide();
      initialized, lastOffset, lastNonce := false, None, None;
    }

    method Reset()
      requires Valid()
      modifies this, bids, asks
      ensures Valid() && View() == EMPTY
      ensures !initialized && lastOffset == None && lastNonce == None
    {
      bids.Clear();
      asks.Clear();
      initialized, lastOffset, lastNonce := false, None, None;
    }

    method ApplySnapshot(newBids: seq<Level>, newAsks: seq<Level>)
      requires Valid()
      modifies this`initialized, bids, asks
      ensures initialized && (Valid() <==> DistinctPrices(NonZero(newBids)) && DistinctPrices(NonZero(newAsks)))
      ensures DistinctPrices(newBids) && DistinctPrices(newAsks) ==>
                Valid() && View() == TwoSided(PutAll(map[], newBids), PutAll(map[], newAsks))
    {
      bids.ApplySnapshot(newBids);
      asks.ApplySnapshot(newAsks);
      initialized := true;
    }

    method ApplyDelta(dBids: seq<Level>, dAsks: seq<Level>)
      requires Valid()
      modifies bids, asks
      ensures Valid()
      ensures View() == TwoSided(PutAll(old(View()).bids, dBids), PutAll(old(View()).asks, dAsks))
    {
      bids.ApplyDelta(dBids);
      asks.ApplyDelta(dAsks);
    }

    /** Best bid and ask of a two-sided book. */
    method BestQuotes() returns (q: Option<(real, real)>)
      requires Valid()
      ensures q.None? <==> View().bids == map[] || View().asks == map[]
      ensures q.Some? ==> IsHighest(View().bids, q.value.0) && IsLowest(View().asks, q.value.1)
    {
      var b := bids.Highest();
      var a := asks.Lowest();
      q := if b.Some? && a.Some? then Some((b.value, a.value)) else None;
    }

    method ImbalanceBetween(lower: real, upper: real) returns (imbalance: real)
      requires Valid()
      ensures imbalance == Imbalance(View(), lower, upper)
    {
      var bidSum := bids.SumSizesFrom(lower);
      var askSum := asks.SumSizesTo(upper);
      imbalance := bidSum - askSum;
    }
  }

  /** Bid size at or above the lower bound minus ask size at or below the upper bound. */
  ghost function Imbalance(b: TwoSided, lower: real, upper: real): real {
    SumOver(b.bids, PricesFrom(b.bids, lower)) - SumOver(b.asks, PricesTo(b.asks, upper))
  }

  ghost function ImbalanceAround(b: TwoSided, mid: real, depth: real): real {
    Imbalance(b, LowerBound(mid, depth), UpperBound(mid, depth))
  }

  function LowerBound(mid: real, depth: real): real {
    mid * (1.0 - depth)
  }

  function UpperBound(mid: real, depth: real): real {
    mid * (1.0 + depth)
  }

  /** The band around mid is symmetric and as wide as the depth says. */
  lemma DepthBand(mid: real, depth: real)
    ensures mid - LowerBound(mid, depth) == mid * depth == UpperBound(mid, depth) - mid
  {
  }

  lemma SumOverOne(m: PriceMap, p: real)
    requires p in m
    ensures SumOver(m, {p}) == m[p]
  {
    SumOverRemove(m, {p}, p);
    assert {p} - {p} == {};
  }

  /** A bid of 3 and an ask of 1 in the band: the imbalance is 2, on the bid side. */
  lemma ImbalanceExample()
    ensures ImbalanceAround(TwoSided(map[99.0 := 3.0], map[101.0 := 1.0]), 100.0, 0.02) == 2.0
  {
    var b := TwoSided(map[99.0 := 3.0], map[101.0 := 1.0]);
    DepthBand(100.0, 0.02);
    assert forall p :: p in PricesFrom(b.bids, LowerBound(100.0, 0.02)) <==> p in {99.0};
    assert PricesFrom(b.bids, LowerBound(100.0, 0.02)) == {99.0};
    assert forall p :: p in PricesTo(b.asks, UpperBound(100.0, 0.02)) <==> p in {101.0};
    assert PricesTo(b.asks, UpperBound(100.0, 0.02)) == {101.0};
    SumOverOne(b.bids, 99.0);
    SumOverOne(b.asks, 101.0);
  }
}
