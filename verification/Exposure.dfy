/**
The position cap reserves margin for the resting ladder: whatever part of one side of the ladder
fills, the position's value stays within the leverage budget or does not grow.
*/
module Exposure {
  import opened Common
  import opened Quotes
  import opened OrderSlots

  /** `n` orders of one size. */
  function SideTotal(n: nat, size: real): real {
    (n as real) * size
  }

  /** The ladder's notional on one side. */
  function Reserve(numLevels: nat, size: real, mid: real): real {
    SideTotal(numLevels, size) * mid
  }

  function DynamicMaxPosition(mid: real, capital: real, leverage: int, size: real, numLevels: nat): real {
    if capital <= 0.0 || mid <= 0.0 then 0.0
    else
      var raw := capital * (leverage as real) - (if size > 0.0 then 2.0 * Reserve(numLevels, size, mid) else 0.0);
      if raw < 0.0 then 0.0 else raw * 0.9
  }

  // ---- Filling one side of the ladder ------------------------------------

  function Quoted(level: Level, side: Side): Option<real> {
    match side case Buy => level.0 case Sell => level.1
  }

  /** The level carries an order: the diff places none at a price of zero or less. */
  predicate IsPlaced(level: Level, side: Side) {
    Quoted(level, side).Some? && Quoted(level, side).value > 0.0
  }

  function Placed(ladder: seq<Level>, side: Side): nat {
    if ladder == [] then 0
    else Placed(ladder[..|ladder| - 1], side) + (if IsPlaced(ladder[|ladder| - 1], side) then 1 else 0)
  }

  /** Any part of each order on one side may fill; levels without an order do not. */
  ghost predicate Fillable(ladder: seq<Level>, side: Side, fills: seq<real>, size: real) {
    && |fills| == |ladder|
    && forall i :: 0 <= i < |fills| ==>
         0.0 <= fills[i] && (fills[i] > 0.0 ==> IsPlaced(ladder[i], side) && fills[i] <= size)
  }

  /** One fill; a reduce-only order never takes the position through flat. */
  function AfterFill(position: real, side: Side, x: real, reduceOnly: bool): real {
    match side
    case Buy => if !reduceOnly then position + x else if position >= 0.0 then position else Min(position + x, 0.0)
    case Sell => if !reduceOnly then position - x else if position <= 0.0 then position else Max(position - x, 0.0)
  }

  function AfterFills(position: real, side: Side, fills: seq<real>, reduceOnly: bool): real {
    if fills == [] then position
    else AfterFill(AfterFills(position, side, fills[..|fills| - 1], reduceOnly), side, fills[|fills| - 1], reduceOnly)
  }

  lemma FillablePrefix(ladder: seq<Level>, side: Side, fills: seq<real>, size: real)
    requires ladder != [] && Fillable(ladder, side, fills, size)
    ensures Fillable(ladder[..|ladder| - 1], side, fills[..|fills| - 1], size)
  {
  }

  lemma OneMore(n: nat, size: real)
    ensures SideTotal(n + 1, size) == SideTotal(n, size) + size
  {
  }

  /** A side fills at most as many orders as it has. */
  lemma {:induction false} FillsBounded(ladder: seq<Level>, side: Side, fills: seq<real>, size: real)
    requires Fillable(ladder, side, fills, size) && size > 0.0
    ensures 0.0 <= Sum(fills) <= SideTotal(Placed(ladder, side), size)
  {
    if ladder != [] {
      var n := Placed(ladder[..|ladder| - 1], side);
      FillablePrefix(ladder, side, fills, size);
      FillsBounded(ladder[..|ladder| - 1], side, fills[..|fills| - 1], size);
      OneMore(n, size);
    }
  }

  /** Every order of a side filled completely. */
  function WholeSide(ladder: seq<Level>, side: Side, size: real): seq<real> {
    seq(|ladder|, i requires 0 <= i < |ladder| => if IsPlaced(ladder[i], side) then size else 0.0)
  }

  lemma {:induction false} WholeSideSum(ladder: seq<Level>, side: Side, size: real)
    ensures Sum(WholeSide(ladder, side, size)) == SideTotal(Placed(ladder, side), size)
  {
    if ladder != [] {
      var before := ladder[..|ladder| - 1];
      var all := WholeSide(ladder, side, size);
      assert all[..|all| - 1] == WholeSide(before, side, size);
      WholeSideSum(before, side, size);
      OneMore(Placed(before, side), size);
    }
  }

  lemma {:induction false} PlacedAtMost(ladder: seq<Level>, side: Side)
    ensures Placed(ladder, side) <= |ladder|
  {
    if ladder != [] {
      PlacedAtMost(ladder[..|ladder| - 1], side);
    }
  }

  lemma {:induction false} PlacedSome(ladder: seq<Level>, side: Side, i: nat)
    requires i < |ladder| && IsPlaced(ladder[i], side)
    ensures Placed(ladder, side) > 0
  {
    if i < |ladder| - 1 {
      PlacedSome(ladder[..|ladder| - 1], side, i);
    }
  }

  lemma {:induction false} PlainFillsAdd(position: real, side: Side, fills: seq<real>)
    ensures AfterFills(position, side, fills, false)
         == if side == Buy then position + Sum(fills) else position - Sum(fills)
  {
    if fills != [] {
      PlainFillsAdd(position, side, fills[..|fills| - 1]);
    }
  }

  lemma {:induction false} ReducingFillsShrink(position: real, side: Side, fills: seq<real>)
    requires forall i :: 0 <= i < |fills| ==> fills[i] >= 0.0
    ensures Abs(AfterFills(position, side, fills, true)) <= Abs(position)
    ensures position >= 0.0 ==> AfterFills(position, side, fills, true) >= 0.0
    ensures position <= 0.0 ==> AfterFills(position, side, fills, true) <= 0.0
  {
    if fills != [] {
      ReducingFillsShrink(position, side, fills[..|fills| - 1]);
    }
  }

  lemma {:induction false} NothingFills(fills: seq<real>)
    requires forall i :: 0 <= i < |fills| ==> fills[i] == 0.0
    ensures Sum(fills) == 0.0
  {
    if fills != [] {
      NothingFills(fills[..|fills| - 1]);
    }
  }

  /** Only level 0 can fill. */
  lemma {:induction false} FirstLevelFills(fills: seq<real>)
    requires |fills| >= 1 && forall i :: 1 <= i < |fills| ==> fills[i] == 0.0
    ensures Sum(fills) == fills[0]
  {
    if |fills| > 1 {
      FirstLevelFills(fills[..|fills| - 1]);
    } else {
      assert fills[..0] == [];
    }
  }

  // ---- The bound ---------------------------------------------------------

  /** The account's budget: nine tenths of its leveraged capital. */
  function Budget(capital: real, leverage: int): real {
    0.9 * (capital * (leverage as real))
  }

  ghost predicate Within(position: real, after: real, mid: real, budget: real) {
    Abs(after) * mid <= Max(Abs(position) * mid, budget)
  }

  lemma ValueMono(x: real, y: real, mid: real)
    requires 0.0 <= x <= y && mid > 0.0
    ensures x * mid <= y * mid
  {
  }

  lemma ShrunkWithin(position: real, after: real, mid: real, budget: real)
    requires Abs(after) <= Abs(position) && mid > 0.0
    ensures Within(position, after, mid, budget)
  {
  }

  /** A positive cap leaves room for a whole side of the ladder on top of it. */
  lemma CapReserves(mid: real, capital: real, leverage: int, size: real, numLevels: nat)
    requires mid > 0.0 && size > 0.0 && DynamicMaxPosition(mid, capital, leverage, size, numLevels) > 0.0
    ensures var r := Reserve(numLevels, size, mid);
            && 0.0 <= r <= Budget(capital, leverage)
            && DynamicMaxPosition(mid, capital, leverage, size, numLevels) + r <= Budget(capital, leverage)
  {
  }

  /** The cap is nine tenths of what the leveraged capital leaves after margin for both sides of the
      ladder, and zero when nothing is left. */
  lemma CapExact(mid: real, capital: real, leverage: int, size: real, numLevels: nat)
    requires mid > 0.0 && capital > 0.0 && size > 0.0
    ensures var cap := DynamicMaxPosition(mid, capital, leverage, size, numLevels);
            var reserve := Reserve(numLevels, size, mid);
            && (Budget(capital, leverage) >= 1.8 * reserve ==> cap == Budget(capital, leverage) - 1.8 * reserve)
            && (Budget(capital, leverage) < 1.8 * reserve ==> cap == 0.0)
  {
  }

  /** Ten units of capital at leverage one, two levels of one unit at a mid of one: the cap is 5.4. */
  lemma CapExample()
    ensures DynamicMaxPosition(1.0, 10.0, 1, 1.0, 2) == 5.4 && DynamicMaxPosition(1.0, 10.0, 1, 0.0, 2) == 9.0
  {
    assert Reserve(2, 1.0, 1.0) == 2.0;
  }

  lemma SumValue(s: real, numLevels: nat, size: real, mid: real)
    requires 0.0 <= s <= SideTotal(numLevels, size) && mid > 0.0
    ensures s * mid <= Reserve(numLevels, size, mid)
  {
  }

  /** Filling towards more exposure where a whole side still fits. */
  lemma AddingWithin(position: real, s: real, mid: real, reserve: real, budget: real)
    requires mid > 0.0 && s >= 0.0 && s * mid <= reserve && Abs(position) * mid + reserve <= budget
    ensures Within(position, position + s, mid, budget) && Within(position, position - s, mid, budget)
  {
    var a := Abs(position);
    assert (a + s) * mid == a * mid + s * mid;
    ShrunkTo(position, position + s, a + s, mid, budget);
    ShrunkTo(position, position - s, a + s, mid, budget);
  }

  lemma ShrunkTo(position: real, after: real, x: real, mid: real, budget: real)
    requires Abs(after) <= x && x * mid <= budget && mid > 0.0
    ensures Within(position, after, mid, budget)
  {
    ValueMono(Abs(after), x, mid);
  }

  /** Filling against the position, past flat if it is small. */
  lemma OpposingWithin(position: real, s: real, mid: real, reserve: real, budget: real)
    requires mid > 0.0 && s >= 0.0 && s * mid <= reserve && reserve <= budget
    ensures position >= 0.0 ==> Within(position, position - s, mid, budget)
    ensures position <= 0.0 ==> Within(position, position + s, mid, budget)
  {
    if position >= 0.0 {
      ValueMono(Abs(position - s), Max(position, s), mid);
    }
    if position <= 0.0 {
      ValueMono(Abs(position + s), Max(-position, s), mid);
    }
  }

  /** `raw` is the account's position, `position` the one quoted on: the same, or flat for dust. */
  ghost predicate Bounded(ladder: seq<Level>, raw: real, position: real, mid: real, size: real, budget: real) {
    forall side, fills :: Fillable(ladder, side, fills, size) ==>
      Within(raw, AfterFills(raw, side, fills, IsReducingSide(side, position)), mid, budget)
  }

  lemma ReducingSideWithin(raw: real, side: Side, fills: seq<real>, mid: real, budget: real)
    requires mid > 0.0 && forall i :: 0 <= i < |fills| ==> fills[i] >= 0.0
    ensures Within(raw, AfterFills(raw, side, fills, true), mid, budget)
  {
    ReducingFillsShrink(raw, side, fills);
    ShrunkWithin(raw, AfterFills(raw, side, fills, true), mid, budget);
  }

  lemma StillWithin(raw: real, side: Side, fills: seq<real>, mid: real, budget: real)
    requires mid > 0.0 && forall i :: 0 <= i < |fills| ==> fills[i] == 0.0
    ensures Within(raw, AfterFills(raw, side, fills, false), mid, budget)
  {
    PlainFillsAdd(raw, side, fills);
    NothingFills(fills);
    ShrunkWithin(raw, AfterFills(raw, side, fills, false), mid, budget);
  }

  // ---- The fallback: an exit on level 0 ----------------------------------

  function ExitSide(position: real): Side {
    if position > 0.0 then Sell else Buy
  }

  predicate QuotesExit(level: Level, position: real) {
    && (level.0.Some? <==> Abs(position) >= EPSILON && ExitSide(position) == Buy)
    && (level.1.Some? <==> Abs(position) >= EPSILON && ExitSide(position) == Sell)
  }

  ghost predicate ExitOnly(ladder: seq<Level>, position: real) {
    && |ladder| >= 1 && QuotesExit(ladder[0], position)
    && forall i :: 1 <= i < |ladder| ==> ladder[i] == (None, None)
  }

  /** A position of exactly EPSILON: large enough for the fallback to quote an exit, too small for
      the exit to be reduce-only, and the order placed is larger than the budget allows. */
  predicate DustExit(ladder: seq<Level>, position: real, mid: real, size: real, budget: real) {
    && Abs(position) == EPSILON && size > 0.0
    && |ladder| >= 1 && IsPlaced(ladder[0], ExitSide(position))
    && Abs(EPSILON - size) * mid > Max(EPSILON * mid, budget)
  }

  lemma DustExitWithin(position: real, x: real, size: real, mid: real, budget: real)
    requires mid > 0.0 && 0.0 <= x <= size && Abs(position) == EPSILON
    requires Abs(EPSILON - size) * mid <= Max(EPSILON * mid, budget)
    ensures position > 0.0 ==> Within(position, position - x, mid, budget)
    ensures position < 0.0 ==> Within(position, position + x, mid, budget)
  {
  }

  lemma ExitFillWithin(ladder: seq<Level>, raw: real, position: real, mid: real, size: real, budget: real,
                       side: Side, fills: seq<real>)
    requires ExitOnly(ladder, position) && mid > 0.0 && (position == raw || position == 0.0)
    requires !DustExit(ladder, position, mid, size, budget) && Fillable(ladder, side, fills, size)
    ensures Within(raw, AfterFills(raw, side, fills, IsReducingSide(side, position)), mid, budget)
  {
    if IsReducingSide(side, position) {
      ReducingSideWithin(raw, side, fills, mid, budget);
    } else if forall i :: 0 <= i < |fills| ==> fills[i] == 0.0 {
      StillWithin(raw, side, fills, mid, budget);
    } else {
      FirstLevelFills(fills);
      PlainFillsAdd(raw, side, fills);
      DustExitWithin(position, fills[0], size, mid, budget);
    }
  }

  lemma DustExitEscapes(ladder: seq<Level>, position: real, mid: real, size: real, budget: real)
    requires ExitOnly(ladder, position) && mid > 0.0 && DustExit(ladder, position, mid, size, budget)
    ensures !Bounded(ladder, position, position, mid, size, budget)
  {
    var side := ExitSide(position);
    var fills := seq(|ladder|, i => if i == 0 then size else 0.0);
    assert Fillable(ladder, side, fills, size);
    FirstLevelFills(fills);
    PlainFillsAdd(position, side, fills);
    var after := AfterFills(position, side, fills, IsReducingSide(side, position));
    NotWithin(position, EPSILON, after, Abs(EPSILON - size), mid, budget);
  }

  lemma NotWithin(position: real, value: real, after: real, x: real, mid: real, budget: real)
    requires Abs(position) == value && Abs(after) == x && x * mid > Max(value * mid, budget)
    ensures !Within(position, after, mid, budget)
  {
  }

  lemma ExitBoundedIff(ladder: seq<Level>, raw: real, position: real, mid: real, size: real, budget: real)
    requires ExitOnly(ladder, position) && mid > 0.0 && (position == raw || position == 0.0)
    ensures Bounded(ladder, raw, position, mid, size, budget) <==> !DustExit(ladder, position, mid, size, budget)
  {
    if DustExit(ladder, position, mid, size, budget) {
      DustExitEscapes(ladder, position, mid, size, budget);
    } else {
      forall side, fills | Fillable(ladder, side, fills, size)
        ensures Within(raw, AfterFills(raw, side, fills, IsReducingSide(side, position)), mid, budget)
      {
        ExitFillWithin(ladder, raw, position, mid, size, budget, side, fills);
      }
    }
  }

  // ---- The full ladder ---------------------------------------------------

  /** A fill on this side takes the position further from flat. */
  predicate Adds(side: Side, position: real) {
    (position > 0.0 && side == Buy) || (position < 0.0 && side == Sell)
  }

  predicate QuotesUnlessFull(level: Level, position: real, mid: real, cap: real) {
    && (level.0.Some? <==> !(AtLimit(position, mid, cap) && Adds(Buy, position)))
    && (level.1.Some? <==> !(AtLimit(position, mid, cap) && Adds(Sell, position)))
  }

  /** Both sides on every level, less the one the position limit suppresses. */
  ghost predicate TwoSidedLadder(ladder: seq<Level>, position: real, mid: real, cap: real) {
    |ladder| >= 1 && forall i :: 0 <= i < |ladder| ==> QuotesUnlessFull(ladder[i], position, mid, cap)
  }

  function AddingSide(position: real): Side {
    if position > 0.0 then Buy else Sell
  }

  /** Dust quoted as flat: the ladder adds the orders of a side to a position the quotes do not
      see, and the two together exceed the budget. */
  predicate HiddenDust(ladder: seq<Level>, raw: real, position: real, mid: real, size: real, budget: real) {
    var n := Placed(ladder, AddingSide(raw));
    position != raw && size > 0.0 && n > 0 && Abs(raw) * mid + Reserve(n, size, mid) > budget
  }

  lemma ReserveMono(m: nat, n: nat, size: real, mid: real)
    requires m <= n && size > 0.0 && mid > 0.0
    ensures Reserve(m, size, mid) <= Reserve(n, size, mid)
  {
    assert SideTotal(m, size) <= SideTotal(n, size);
  }

  /** A whole side of plain orders: against the position, or where it still fits. */
  lemma PlainSideWithin(raw: real, side: Side, fills: seq<real>, mid: real, size: real, numLevels: nat, budget: real)
    requires mid > 0.0 && 0.0 <= Sum(fills) <= SideTotal(numLevels, size)
    requires SideFits(raw, side, mid, size, numLevels, budget)
    ensures Within(raw, AfterFills(raw, side, fills, false), mid, budget)
  {
    var reserve, s := Reserve(numLevels, size, mid), Sum(fills);
    SumValue(s, numLevels, size, mid);
    PlainFillsAdd(raw, side, fills);
    if Adds(side, raw) {
      AddingWithin(raw, s, mid, reserve, budget);
    } else {
      OpposingWithin(raw, s, mid, reserve, budget);
    }
  }

  /** Where an order rests on the adding side, that side still fits on top of the position. */
  lemma AddingFits(ladder: seq<Level>, raw: real, position: real, mid: real, capital: real, leverage: int,
                   size: real, side: Side, i: nat)
    requires mid > 0.0 && size > 0.0 && (position == raw || position == 0.0) && Adds(side, raw)
    requires var cap := DynamicMaxPosition(mid, capital, leverage, size, |ladder|);
             cap > 0.0 && TwoSidedLadder(ladder, position, mid, cap)
    requires !HiddenDust(ladder, raw, position, mid, size, Budget(capital, leverage))
    requires i < |ladder| && IsPlaced(ladder[i], side)
    ensures Abs(raw) * mid + Reserve(Placed(ladder, side), size, mid) <= Budget(capital, leverage)
  {
    var cap := DynamicMaxPosition(mid, capital, leverage, size, |ladder|);
    PlacedSome(ladder, side, i);
    if position == raw {
      assert QuotesUnlessFull(ladder[i], position, mid, cap);
      PlacedAtMost(ladder, side);
      BelowCapFits(raw, mid, capital, leverage, size, |ladder|, Placed(ladder, side));
    }
  }

  lemma BelowCapFits(raw: real, mid: real, capital: real, leverage: int, size: real, numLevels: nat, n: nat)
    requires mid > 0.0 && size > 0.0 && n <= numLevels
    requires Abs(raw) * mid < DynamicMaxPosition(mid, capital, leverage, size, numLevels)
    ensures Abs(raw) * mid + Reserve(n, size, mid) <= Budget(capital, leverage)
  {
    ValueMono(0.0, Abs(raw), mid);
    CapReserves(mid, capital, leverage, size, numLevels);
    ReserveMono(n, numLevels, size, mid);
  }

  lemma PlacedReserve(ladder: seq<Level>, side: Side, mid: real, capital: real, leverage: int, size: real)
    requires mid > 0.0 && size > 0.0 && DynamicMaxPosition(mid, capital, leverage, size, |ladder|) > 0.0
    ensures Reserve(Placed(ladder, side), size, mid) <= Budget(capital, leverage)
  {
    PlacedAtMost(ladder, side);
    CapReserves(mid, capital, leverage, size, |ladder|);
    ReserveMono(Placed(ladder, side), |ladder|, size, mid);
  }

  lemma LadderFillWithin(ladder: seq<Level>, raw: real, position: real, mid: real, capital: real, leverage: int,
                         size: real, side: Side, fills: seq<real>)
    requires mid > 0.0 && (position == raw || position == 0.0)
    requires var cap := DynamicMaxPosition(mid, capital, leverage, size, |ladder|);
             cap > 0.0 && TwoSidedLadder(ladder, position, mid, cap)
    requires !HiddenDust(ladder, raw, position, mid, size, Budget(capital, leverage))
    requires Fillable(ladder, side, fills, size)
    ensures Within(raw, AfterFills(raw, side, fills, IsReducingSide(side, position)), mid, Budget(capital, leverage))
  {
    var budget := Budget(capital, leverage);
    if IsReducingSide(side, position) {
      ReducingSideWithin(raw, side, fills, mid, budget);
    } else if i :| 0 <= i < |fills| && fills[i] > 0.0 {
      FillsBounded(ladder, side, fills, size);
      LadderFits(ladder, raw, position, mid, capital, leverage, size, side, i);
      PlainSideWithin(raw, side, fills, mid, size, Placed(ladder, side), budget);
    } else {
      StillWithin(raw, side, fills, mid, budget);
    }
  }

  lemma Overshoots(raw: real, after: real, s: real, mid: real, reserve: real, budget: real)
    requires mid > 0.0 && s > 0.0 && s * mid == reserve && Abs(after) == Abs(raw) + s
    requires Abs(raw) * mid + reserve > budget
    ensures !Within(raw, after, mid, budget)
  {
    assert Abs(after) * mid == Abs(raw) * mid + s * mid && s * mid > 0.0;
  }

  lemma WholeSideAfter(raw: real, fills: seq<real>, n: nat, size: real, mid: real, budget: real)
    requires mid > 0.0 && size > 0.0 && n > 0 && Sum(fills) == SideTotal(n, size)
    requires Abs(raw) * mid + Reserve(n, size, mid) > budget
    ensures !Within(raw, AfterFills(raw, AddingSide(raw), fills, false), mid, budget)
  {
    PlainFillsAdd(raw, AddingSide(raw), fills);
    Overshoots(raw, AfterFills(raw, AddingSide(raw), fills, false), Sum(fills), mid, Reserve(n, size, mid), budget);
  }

  lemma HiddenDustEscapes(ladder: seq<Level>, raw: real, mid: real, size: real, budget: real)
    requires mid > 0.0 && HiddenDust(ladder, raw, 0.0, mid, size, budget)
    ensures !Bounded(ladder, raw, 0.0, mid, size, budget)
  {
    var side := AddingSide(raw);
    var fills, n := WholeSide(ladder, side, size), Placed(ladder, side);
    assert Fillable(ladder, side, fills, size);
    WholeSideSum(ladder, side, size);
    WholeSideAfter(raw, fills, n, size, mid, budget);
    assert !Within(raw, AfterFills(raw, side, fills, IsReducingSide(side, 0.0)), mid, budget);
  }

  lemma LadderBoundedIff(ladder: seq<Level>, raw: real, position: real, mid: real, capital: real, leverage: int,
                         size: real)
    requires mid > 0.0 && (position == raw || position == 0.0)
    requires var cap := DynamicMaxPosition(mid, capital, leverage, size, |ladder|);
             cap > 0.0 && TwoSidedLadder(ladder, position, mid, cap)
    ensures var budget := Budget(capital, leverage);
            Bounded(ladder, raw, position, mid, size, budget)
            <==> !HiddenDust(ladder, raw, position, mid, size, budget)
  {
    var budget := Budget(capital, leverage);
    if HiddenDust(ladder, raw, position, mid, size, budget) {
      HiddenDustEscapes(ladder, raw, mid, size, budget);
    } else {
      forall side, fills | Fillable(ladder, side, fills, size)
        ensures Within(raw, AfterFills(raw, side, fills, IsReducingSide(side, position)), mid, budget)
      {
        LadderFillWithin(ladder, raw, position, mid, capital, leverage, size, side, fills);
      }
    }
  }

  // ---- The quoted ladder -------------------------------------------------

  ghost predicate SameSides(a: seq<Level>, b: seq<Level>) {
    |a| == |b| && forall i :: 0 <= i < |a| ==> (a[i].0.Some? <==> b[i].0.Some?) && (a[i].1.Some? <==> b[i].1.Some?)
  }

  /** The transformations suppress no quote and add none. */
  lemma PipelineSides(e: Engine, d: Desk)
    requires e.tick > 0.0
    ensures var built := BuiltLevels(EngineQuote(e, d.mid, Position(d)), d.mid, Position(d), d.maxPosUsd, e.tick,
                                     d.numLevels, SpreadFactors(d.spreadFactor, d.numLevels), d.fallbackBps);
            SameSides(built, Pipeline(e, d))
  {
  }

  /** The engine withholds its quote or the cap is exhausted. */
  predicate FallsBack(e: Engine, d: Desk)
    requires e.tick > 0.0
  {
    EngineQuote(e, d.mid, Position(d)).None? || d.maxPosUsd <= 0.0
  }

  lemma FallbackSides(e: Engine, d: Desk)
    requires e.tick > 0.0 && FallsBack(e, d) && d.numLevels >= 1 && d.mid > 0.0
    ensures |Pipeline(e, d)| == d.numLevels && ExitOnly(Pipeline(e, d), Position(d))
  {
    PipelineSides(e, d);
  }

  /** Every level of the built ladder quotes both sides, less the one the limit suppresses. */
  lemma BuiltSides(q: (real, real), mid: real, position: real, maxPosUsd: real, tick: real,
                   numLevels: nat, factors: seq<real>, bps: real)
    requires maxPosUsd > 0.0 && numLevels >= 1
    ensures var built := BuiltLevels(Some(q), mid, position, maxPosUsd, tick, numLevels, factors, bps);
            |built| == numLevels && TwoSidedLadder(built, position, mid, maxPosUsd)
  {
  }

  lemma LadderSides(e: Engine, d: Desk)
    requires e.tick > 0.0 && !FallsBack(e, d) && d.numLevels >= 1
    ensures |Pipeline(e, d)| == d.numLevels && TwoSidedLadder(Pipeline(e, d), Position(d), d.mid, d.maxPosUsd)
  {
    var q, factors := EngineQuote(e, d.mid, Position(d)), SpreadFactors(d.spreadFactor, d.numLevels);
    PipelineSides(e, d);
    BuiltSides(q.value, d.mid, Position(d), d.maxPosUsd, e.tick, d.numLevels, factors, d.fallbackBps);
  }

  /** The two ways past the bound: the dust exit of the fallback, dust hidden from the ladder. */
  predicate Escapes(e: Engine, d: Desk, size: real, budget: real)
    requires e.tick > 0.0
  {
    if FallsBack(e, d) then DustExit(Pipeline(e, d), Position(d), d.mid, size, budget)
    else HiddenDust(Pipeline(e, d), d.rawPosition, Position(d), d.mid, size, budget)
  }

  /** With the cap computed from the same mid, capital and order size: filling any part of either
      side of the ladder leaves the account's position within the budget or worth no more than
      before, exactly unless one of the two escapes applies. */
  lemma ExposureBoundedIff(e: Engine, d: Desk, capital: real, leverage: int, size: real)
    requires e.tick > 0.0 && d.mid > 0.0 && d.numLevels >= 1
    requires d.maxPosUsd == DynamicMaxPosition(d.mid, capital, leverage, size, d.numLevels)
    ensures var budget := Budget(capital, leverage);
            Bounded(Pipeline(e, d), d.rawPosition, Position(d), d.mid, size, budget) <==> !Escapes(e, d, size, budget)
  {
    if FallsBack(e, d) {
      FallbackSides(e, d);
      ExitBoundedIff(Pipeline(e, d), d.rawPosition, Position(d), d.mid, size, Budget(capital, leverage));
    } else {
      LadderSides(e, d);
      LadderBoundedIff(Pipeline(e, d), d.rawPosition, Position(d), d.mid, capital, leverage, size);
    }
  }

  lemma SmallDustFits(ladder: seq<Level>, raw: real, position: real, mid: real, dust: real, capital: real,
                      leverage: int, size: real)
    requires mid > 0.0 && (position != raw ==> Abs(raw) * mid < dust)
    requires dust <= DynamicMaxPosition(mid, capital, leverage, size, |ladder|)
    ensures !HiddenDust(ladder, raw, position, mid, size, Budget(capital, leverage))
  {
    if position != raw && size > 0.0 {
      var side := AddingSide(raw);
      PlacedAtMost(ladder, side);
      BelowCapFits(raw, mid, capital, leverage, size, |ladder|, Placed(ladder, side));
    }
  }

  /** A dust threshold no larger than the cap hides nothing that matters. */
  lemma NoHiddenDustBelowCap(e: Engine, d: Desk, capital: real, leverage: int, size: real)
    requires e.tick > 0.0 && d.mid > 0.0 && d.numLevels >= 1 && !FallsBack(e, d) && d.dustUsd <= d.maxPosUsd
    requires d.maxPosUsd == DynamicMaxPosition(d.mid, capital, leverage, size, d.numLevels)
    ensures !Escapes(e, d, size, Budget(capital, leverage))
  {
    LadderSides(e, d);
    SmallDustFits(Pipeline(e, d), d.rawPosition, Position(d), d.mid, d.dustUsd, capital, leverage, size);
  }

  /** One unit of capital, a mid of 100 and a position of exactly EPSILON, with a dust threshold
      that does not cover it: the exit order sells a whole unit. */
  lemma DustExitExample(e: Engine, d: Desk)
    requires e.tick > 0.0 && e.minHalfSpreadBps > 0.0 && d.spreadFactor >= 1.0
    requires d.mid == 100.0 && d.numLevels == 1 && d.rawPosition == EPSILON && d.dustUsd <= 0.0000001
    requires d.maxPosUsd == DynamicMaxPosition(100.0, 1.0, 1, 1.0, 1)
    ensures !Bounded(Pipeline(e, d), EPSILON, Position(d), 100.0, 1.0, Budget(1.0, 1))
  {
    assert Reserve(1, 1.0, 100.0) == 100.0;
    FallbackSides(e, d);
    PipelineSafe(e, d);
    ExposureBoundedIff(e, d, 1.0, 1, 1.0);
  }

  lemma PlacedBoth(ladder: seq<Level>, side: Side)
    requires |ladder| == 2 && IsPlaced(ladder[0], side) && IsPlaced(ladder[1], side)
    ensures Placed(ladder, side) == 2
  {
    assert ladder[..1][..0] == [];
    assert Placed(ladder[..1], side) == 1;
  }

  const EXAMPLE := Engine(true, 0.0, 0.0, 0.5, 1.0, 5000.0, 0.0, 0.0, 0.0)

  lemma ExampleRaw()
    ensures RawBid(EXAMPLE, 1.0, 0.0) == 0.5 && RawAsk(EXAMPLE, 1.0, 0.0) == 1.5
  {
    QuietQuote(EXAMPLE, 1.0, 0.0);
    assert Fair(EXAMPLE, 1.0) == 1.0;
    assert MinSpreadBid(1.0, 5000.0) == 0.5 && MinSpreadAsk(1.0, 5000.0) == 1.5;
  }

  lemma ExampleGrid()
    ensures FloorTick(0.5, 0.5) == 0.5 && CeilTick(1.5, 0.5) == 1.5
  {
    assert 0.5 == Multiple(1, 0.5) && 1.5 == Multiple(3, 0.5);
    GridIsFixed(0.5, 0.5);
    GridIsFixed(1.5, 0.5);
  }

  lemma ExampleQuote()
    ensures EngineQuote(EXAMPLE, 1.0, 0.0) == Some((0.5, 1.5))
  {
    ExampleRaw();
    ExampleGrid();
    assert EXAMPLE.tick == 0.5 && EXAMPLE.warmedUp;
  }

  lemma ExampleDeeper()
    ensures DeeperBid(1.0, 0.5, 1.0, 0.5) == 0.5
  {
    assert 1.0 - (1.0 - 0.5) * 1.0 == 0.5;
    assert FloorTick(0.5, 0.5) == 0.5;
  }

  lemma SecondLevel(q: (real, real), mid: real, maxPosUsd: real, tick: real, factors: seq<real>, bps: real)
    requires maxPosUsd > 0.0 && |factors| == 2
    ensures var built := BuiltLevels(Some(q), mid, 0.0, maxPosUsd, tick, 2, factors, bps);
            |built| == 2 && built[0].0 == Some(q.0) && built[1].0 == Some(DeeperBid(mid, q.0, factors[1], tick))
  {
    assert !AtLimit(0.0, mid, maxPosUsd);
  }

  lemma ExampleBuilt(maxPosUsd: real, bps: real)
    requires maxPosUsd > 0.0
    ensures var built := BuiltLevels(Some((0.5, 1.5)), 1.0, 0.0, maxPosUsd, 0.5, 2, SpreadFactors(1.0, 2), bps);
            |built| == 2 && built[0].0 == Some(0.5) && built[1].0 == Some(0.5)
  {
    PowGrows(1.0, 1, 1);
    assert Pow(1.0, 0) == 1.0;
    SecondLevel((0.5, 1.5), 1.0, maxPosUsd, 0.5, SpreadFactors(1.0, 2), bps);
    ExampleDeeper();
  }

  lemma ExampleLadder(d: Desk)
    requires d.mid == 1.0 && d.numLevels == 2 && d.spreadFactor == 1.0 && d.multiplier == 1.0
    requires Position(d) == 0.0 && d.maxPosUsd > 0.0
    ensures var ladder := Pipeline(EXAMPLE, d);
            |ladder| == 2 && IsPlaced(ladder[0], Buy) && IsPlaced(ladder[1], Buy)
  {
    ExampleQuote();
    ExampleBuilt(d.maxPosUsd, d.fallbackBps);
  }

  /** A position of 8 hidden by a threshold of 11, ten units of capital and two levels of one unit
      at a mid of 1: both buys take the account to 10, past its budget of 9. */
  lemma HiddenDustExample(d: Desk)
    requires d.mid == 1.0 && d.numLevels == 2 && d.spreadFactor == 1.0 && d.multiplier == 1.0
    requires d.rawPosition == 8.0 && d.dustUsd == 11.0
    requires d.maxPosUsd == DynamicMaxPosition(1.0, 10.0, 1, 1.0, 2)
    ensures Position(d) == 0.0 && !Bounded(Pipeline(EXAMPLE, d), 8.0, 0.0, 1.0, 1.0, Budget(10.0, 1))
  {
    assert Reserve(2, 1.0, 1.0) == 2.0;
    ExampleLadder(d);
    PlacedBoth(Pipeline(EXAMPLE, d), Buy);
    HiddenDustEscapes(Pipeline(EXAMPLE, d), 8.0, 1.0, 1.0, Budget(10.0, 1));
  }

  /** While warming up only the fallback is quoted, on the same quoting position and at any exit
      size: the bound holds exactly unless the dust exit applies. */
  lemma WarmupExitIff(d: Desk, tick: real, size: real, budget: real)
    requires d.mid > 0.0 && d.numLevels >= 1
    ensures var ladder := FallbackReduceOnly(d.mid, Position(d), tick, d.fallbackBps, d.numLevels);
            Bounded(ladder, d.rawPosition, Position(d), d.mid, size, budget)
            <==> !DustExit(ladder, Position(d), d.mid, size, budget)
  {
    ExitBoundedIff(FallbackReduceOnly(d.mid, Position(d), tick, d.fallbackBps, d.numLevels),
                   d.rawPosition, Position(d), d.mid, size, budget);
  }

  // ---- Orders that keep the flag they were placed with -------------------

  /** A modify does not set the reduce-only flag, so a resting order may carry any earlier one. */
  function AfterFlagged(position: real, side: Side, fills: seq<real>, flags: seq<bool>): real
    requires |flags| == |fills|
  {
    if fills == [] then position
    else
      var k := |fills| - 1;
      AfterFill(AfterFlagged(position, side, fills[..k], flags[..k]), side, fills[k], flags[k])
  }

  ghost predicate BoundedForAnyFlags(ladder: seq<Level>, raw: real, mid: real, size: real, budget: real) {
    forall side, fills, flags :: Fillable(ladder, side, fills, size) && |flags| == |fills| ==>
      Within(raw, AfterFlagged(raw, side, fills, flags), mid, budget)
  }

  /** A side moves the position its own way and by no more than `s`. */
  predicate Moves(raw: real, side: Side, after: real, s: real) {
    match side case Buy => raw <= after <= raw + s case Sell => raw - s <= after <= raw
  }

  /** Whatever the flags, a side moves the position its own way and by no more than it fills. */
  lemma {:induction false} FlaggedMoves(raw: real, side: Side, fills: seq<real>, flags: seq<bool>)
    requires |flags| == |fills| && forall i :: 0 <= i < |fills| ==> fills[i] >= 0.0
    ensures Moves(raw, side, AfterFlagged(raw, side, fills, flags), Sum(fills))
  {
    if fills != [] {
      FlaggedMoves(raw, side, fills[..|fills| - 1], flags[..|fills| - 1]);
    }
  }

  lemma {:induction false} PlainFlags(raw: real, side: Side, fills: seq<real>)
    ensures AfterFlagged(raw, side, fills, seq(|fills|, _ => false)) == AfterFills(raw, side, fills, false)
  {
    if fills != [] {
      var k := |fills| - 1;
      assert seq(|fills|, _ => false)[..k] == seq(k, _ => false);
      PlainFlags(raw, side, fills[..k]);
    }
  }

  /** An exit that is plain, because it was placed while flat, fills past flat and past the budget. */
  predicate PlainExit(ladder: seq<Level>, position: real, mid: real, size: real, budget: real) {
    && Abs(position) >= EPSILON && size > 0.0
    && |ladder| >= 1 && IsPlaced(ladder[0], ExitSide(position))
    && Abs(Abs(position) - size) * mid > Max(Abs(position) * mid, budget)
  }

  /** Moving at most `size` towards and past flat. */
  lemma PartialExitWithin(position: real, after: real, x: real, size: real, mid: real, budget: real)
    requires mid > 0.0 && x <= size && position != 0.0 && Moves(position, ExitSide(position), after, x)
    requires Abs(Abs(position) - size) * mid <= Max(Abs(position) * mid, budget)
    ensures Within(position, after, mid, budget)
  {
    if Abs(after) <= Abs(position) {
      ShrunkWithin(position, after, mid, budget);
    } else {
      ValueMono(Abs(after), Abs(Abs(position) - size), mid);
    }
  }

  lemma NoMoveWithin(raw: real, side: Side, after: real, mid: real, budget: real)
    requires mid > 0.0 && Moves(raw, side, after, 0.0)
    ensures Within(raw, after, mid, budget)
  {
    ShrunkWithin(raw, after, mid, budget);
  }

  lemma FlaggedExitWithin(ladder: seq<Level>, raw: real, position: real, mid: real, size: real, budget: real,
                          side: Side, fills: seq<real>, flags: seq<bool>)
    requires ExitOnly(ladder, position) && mid > 0.0 && (position == raw || position == 0.0)
    requires !PlainExit(ladder, position, mid, size, budget)
    requires Fillable(ladder, side, fills, size) && |flags| == |fills|
    ensures Within(raw, AfterFlagged(raw, side, fills, flags), mid, budget)
  {
    FlaggedMoves(raw, side, fills, flags);
    var after := AfterFlagged(raw, side, fills, flags);
    FirstLevelFills(fills);
    if fills[0] == 0.0 {
      NoMoveWithin(raw, side, after, mid, budget);
    } else {
      assert IsPlaced(ladder[0], side) && QuotesExit(ladder[0], position);
      assert side == ExitSide(position) && position == raw;
      PartialExitWithin(raw, after, fills[0], size, mid, budget);
    }
  }

  lemma PlainExitEscapes(ladder: seq<Level>, position: real, mid: real, size: real, budget: real)
    requires ExitOnly(ladder, position) && mid > 0.0 && PlainExit(ladder, position, mid, size, budget)
    ensures !BoundedForAnyFlags(ladder, position, mid, size, budget)
  {
    var side := ExitSide(position);
    var fills := seq(|ladder|, i => if i == 0 then size else 0.0);
    var flags := seq(|fills|, _ => false);
    assert Fillable(ladder, side, fills, size);
    FirstLevelFills(fills);
    PlainFlags(position, side, fills);
    PlainFillsAdd(position, side, fills);
    assert |flags| == |fills|;
    var after := AfterFlagged(position, side, fills, flags);
    NotWithin(position, Abs(position), after, Abs(Abs(position) - size), mid, budget);
  }

  /** The orders of a side fit the budget, on top of the position where they add to it. */
  predicate SideFits(raw: real, side: Side, mid: real, size: real, n: nat, budget: real) {
    && Reserve(n, size, mid) <= budget
    && (Adds(side, raw) ==> Abs(raw) * mid + Reserve(n, size, mid) <= budget)
  }

  lemma LadderFits(ladder: seq<Level>, raw: real, position: real, mid: real, capital: real, leverage: int,
                   size: real, side: Side, i: nat)
    requires mid > 0.0 && size > 0.0 && (position == raw || position == 0.0)
    requires var cap := DynamicMaxPosition(mid, capital, leverage, size, |ladder|);
             cap > 0.0 && TwoSidedLadder(ladder, position, mid, cap)
    requires !HiddenDust(ladder, raw, position, mid, size, Budget(capital, leverage))
    requires i < |ladder| && IsPlaced(ladder[i], side)
    ensures SideFits(raw, side, mid, size, Placed(ladder, side), Budget(capital, leverage))
  {
    PlacedReserve(ladder, side, mid, capital, leverage, size);
    if Adds(side, raw) {
      AddingFits(ladder, raw, position, mid, capital, leverage, size, side, i);
    }
  }

  lemma QuietWithin(raw: real, side: Side, fills: seq<real>, flags: seq<bool>, mid: real, budget: real)
    requires mid > 0.0 && |flags| == |fills| && forall i :: 0 <= i < |fills| ==> fills[i] == 0.0
    ensures Within(raw, AfterFlagged(raw, side, fills, flags), mid, budget)
  {
    FlaggedMoves(raw, side, fills, flags);
    NothingFills(fills);
    NoMoveWithin(raw, side, AfterFlagged(raw, side, fills, flags), mid, budget);
  }

  lemma FlaggedFillWithin(ladder: seq<Level>, raw: real, side: Side, fills: seq<real>, flags: seq<bool>, mid: real,
                          size: real, budget: real)
    requires Fillable(ladder, side, fills, size) && |flags| == |fills| && size > 0.0 && mid > 0.0
    requires SideFits(raw, side, mid, size, Placed(ladder, side), budget)
    ensures Within(raw, AfterFlagged(raw, side, fills, flags), mid, budget)
  {
    var after, most, n := AfterFlagged(raw, side, fills, flags), Sum(fills), Placed(ladder, side);
    assert Moves(raw, side, after, most) by {
      FlaggedMoves(raw, side, fills, flags);
    }
    assert most <= SideTotal(n, size) by {
      FillsBounded(ladder, side, fills, size);
    }
    NetSideWithin(raw, side, after, most, mid, size, n, budget);
  }

  lemma FlaggedLadderWithin(ladder: seq<Level>, raw: real, position: real, mid: real, capital: real, leverage: int,
                            size: real, side: Side, fills: seq<real>, flags: seq<bool>)
    requires mid > 0.0 && (position == raw || position == 0.0)
    requires var cap := DynamicMaxPosition(mid, capital, leverage, size, |ladder|);
             cap > 0.0 && TwoSidedLadder(ladder, position, mid, cap)
    requires !HiddenDust(ladder, raw, position, mid, size, Budget(capital, leverage))
    requires Fillable(ladder, side, fills, size) && |flags| == |fills|
    ensures Within(raw, AfterFlagged(raw, side, fills, flags), mid, Budget(capital, leverage))
  {
    if i :| 0 <= i < |fills| && fills[i] > 0.0 {
      LadderFits(ladder, raw, position, mid, capital, leverage, size, side, i);
      FlaggedFillWithin(ladder, raw, side, fills, flags, mid, size, Budget(capital, leverage));
    } else {
      QuietWithin(raw, side, fills, flags, mid, Budget(capital, leverage));
    }
  }

  /** A net move of at most a side's orders: against the position, or where it still fits. */
  lemma NetSideWithin(raw: real, side: Side, after: real, most: real, mid: real, size: real, n: nat, budget: real)
    requires mid > 0.0 && SideFits(raw, side, mid, size, n, budget)
    requires most <= SideTotal(n, size) && Moves(raw, side, after, most)
    ensures Within(raw, after, mid, budget)
  {
    var s := if side == Buy then after - raw else raw - after;
    SumValue(s, n, size, mid);
    if Adds(side, raw) {
      AddingWithin(raw, s, mid, Reserve(n, size, mid), budget);
    } else {
      OpposingWithin(raw, s, mid, Reserve(n, size, mid), budget);
    }
  }

  lemma HiddenDustEscapesPlain(ladder: seq<Level>, raw: real, mid: real, size: real, budget: real)
    requires mid > 0.0 && HiddenDust(ladder, raw, 0.0, mid, size, budget)
    ensures !BoundedForAnyFlags(ladder, raw, mid, size, budget)
  {
    var side := AddingSide(raw);
    var fills, n := WholeSide(ladder, side, size), Placed(ladder, side);
    var flags := seq(|fills|, _ => false);
    assert Fillable(ladder, side, fills, size);
    WholeSideSum(ladder, side, size);
    WholeSideAfter(raw, fills, n, size, mid, budget);
    PlainFlags(raw, side, fills);
    assert !Within(raw, AfterFlagged(raw, side, fills, flags), mid, budget);
  }

  /** What can go past the bound when resting orders may carry any flag. */
  predicate EscapesWithAnyFlags(e: Engine, d: Desk, size: real, budget: real)
    requires e.tick > 0.0
  {
    if FallsBack(e, d) then PlainExit(Pipeline(e, d), Position(d), d.mid, size, budget)
    else HiddenDust(Pipeline(e, d), d.rawPosition, Position(d), d.mid, size, budget)
  }

  lemma ExitAnyFlagsIff(ladder: seq<Level>, raw: real, position: real, mid: real, size: real, budget: real)
    requires ExitOnly(ladder, position) && mid > 0.0 && (position == raw || position == 0.0)
    ensures BoundedForAnyFlags(ladder, raw, mid, size, budget) <==> !PlainExit(ladder, position, mid, size, budget)
  {
    if PlainExit(ladder, position, mid, size, budget) {
      PlainExitEscapes(ladder, position, mid, size, budget);
    } else {
      forall side, fills, flags | Fillable(ladder, side, fills, size) && |flags| == |fills|
        ensures Within(raw, AfterFlagged(raw, side, fills, flags), mid, budget)
      {
        FlaggedExitWithin(ladder, raw, position, mid, size, budget, side, fills, flags);
      }
    }
  }

  lemma LadderAnyFlagsIff(ladder: seq<Level>, raw: real, position: real, mid: real, capital: real, leverage: int,
                          size: real)
    requires mid > 0.0 && (position == raw || position == 0.0)
    requires var cap := DynamicMaxPosition(mid, capital, leverage, size, |ladder|);
             cap > 0.0 && TwoSidedLadder(ladder, position, mid, cap)
    ensures var budget := Budget(capital, leverage);
            BoundedForAnyFlags(ladder, raw, mid, size, budget)
            <==> !HiddenDust(ladder, raw, position, mid, size, budget)
  {
    var budget := Budget(capital, leverage);
    if HiddenDust(ladder, raw, position, mid, size, budget) {
      HiddenDustEscapesPlain(ladder, raw, mid, size, budget);
    } else {
      forall side, fills, flags | Fillable(ladder, side, fills, size) && |flags| == |fills|
        ensures Within(raw, AfterFlagged(raw, side, fills, flags), mid, budget)
      {
        FlaggedLadderWithin(ladder, raw, position, mid, capital, leverage, size, side, fills, flags);
      }
    }
  }

  /** Whatever flag each resting order carries: on the full ladder the bound fails only through hidden
      dust, as before; on the fallback a plain exit larger than the position may overshoot, and that
      is the only other way. */
  lemma ExposureAnyFlagsIff(e: Engine, d: Desk, capital: real, leverage: int, size: real)
    requires e.tick > 0.0 && d.mid > 0.0 && d.numLevels >= 1
    requires d.maxPosUsd == DynamicMaxPosition(d.mid, capital, leverage, size, d.numLevels)
    ensures var budget := Budget(capital, leverage);
            BoundedForAnyFlags(Pipeline(e, d), d.rawPosition, d.mid, size, budget)
            <==> !EscapesWithAnyFlags(e, d, size, budget)
  {
    if FallsBack(e, d) {
      FallbackSides(e, d);
      ExitAnyFlagsIff(Pipeline(e, d), d.rawPosition, Position(d), d.mid, size, Budget(capital, leverage));
    } else {
      LadderSides(e, d);
      LadderAnyFlagsIff(Pipeline(e, d), d.rawPosition, Position(d), d.mid, capital, leverage, size);
    }
  }

  /** A long position of 1 at a mid of 100, one unit of capital and an ask of 5 placed while flat: the
      fallback reuses it as the exit, it is not reduce-only, and the account ends short 4. */
  lemma StaleFlagExample(e: Engine, d: Desk)
    requires e.tick > 0.0 && e.minHalfSpreadBps > 0.0 && d.spreadFactor >= 1.0
    requires d.mid == 100.0 && d.numLevels == 1 && d.rawPosition == 1.0 && d.dustUsd <= 11.0
    requires d.maxPosUsd == DynamicMaxPosition(100.0, 1.0, 1, 5.0, 1)
    ensures !BoundedForAnyFlags(Pipeline(e, d), 1.0, 100.0, 5.0, Budget(1.0, 1))
    ensures Bounded(Pipeline(e, d), 1.0, Position(d), 100.0, 5.0, Budget(1.0, 1))
  {
    assert Reserve(1, 5.0, 100.0) == 500.0;
    FallbackSides(e, d);
    PipelineSafe(e, d);
    ExposureAnyFlagsIff(e, d, 1.0, 1, 5.0);
    ExposureBoundedIff(e, d, 1.0, 1, 5.0);
  }
}
