/**
The quote ladder: the engine's level-0 quote, the deeper levels built from it, and the two
transformations applied in place, down to the fallback that only reduces a position.
*/
module Quotes {
  import opened Common

  /** One quote level (bid, ask); either side may be suppressed. */
  type Level = (Option<real>, Option<real>)

  // ---- Snapping to the tick grid -----------------------------------------

  function FloorTick(p: real, tick: real): real {
    if tick > 0.0 then Multiple((p / tick).Floor, tick) else p
  }

  function CeilTick(p: real, tick: real): real {
    if tick > 0.0 then Multiple(-(-(p / tick)).Floor, tick) else p
  }

  function Scaled(depth: real, factor: real): real {
    depth * factor
  }

  /** The bid at a scaled depth below mid, and its mirror image above. */
  function BidBelow(mid: real, depth: real, factor: real, tick: real): real {
    FloorTick(mid - Scaled(depth, factor), tick)
  }

  function AskAbove(mid: real, depth: real, factor: real, tick: real): real {
    CeilTick(mid + Scaled(depth, factor), tick)
  }

  lemma ScaleMono(a: real, b: real, tick: real)
    requires a <= b && tick > 0.0
    ensures a * tick <= b * tick
  {
  }

  lemma ScaleStrict(a: real, b: real, tick: real)
    requires a < b && tick > 0.0
    ensures a * tick < b * tick
  {
  }

  lemma QuotientMono(a: real, b: real, tick: real)
    requires a <= b && tick > 0.0
    ensures a / tick <= b / tick
  {
  }

  lemma Rescaled(p: real, tick: real)
    requires tick > 0.0
    ensures p / tick * tick == p
  {
  }

  lemma FloorTickIs(p: real, tick: real)
    requires tick > 0.0
    ensures OnGrid(FloorTick(p, tick), tick) && p - tick < FloorTick(p, tick) <= p
  {
    var x, k := p / tick, (p / tick).Floor;
    Rescaled(p, tick);
    ScaleMono(k as real, x, tick);
    ScaleStrict(x, k as real + 1.0, tick);
    assert FloorTick(p, tick) == Multiple(k, tick);
    assert (k as real + 1.0) * tick == Multiple(k, tick) + tick;
  }

  lemma FloorTickMono(p: real, q: real, tick: real)
    requires tick > 0.0 && p <= q
    ensures FloorTick(p, tick) <= FloorTick(q, tick)
  {
    QuotientMono(p, q, tick);
    ScaleMono((p / tick).Floor as real, (q / tick).Floor as real, tick);
  }

  lemma CeilTickIs(p: real, tick: real)
    requires tick > 0.0
    ensures OnGrid(CeilTick(p, tick), tick) && p <= CeilTick(p, tick) < p + tick
  {
    var x, k := p / tick, -(-(p / tick)).Floor;
    Rescaled(p, tick);
    WithinOneTick(p, x, k as real, tick);
    assert CeilTick(p, tick) == Multiple(k, tick);
  }

  lemma WithinOneTick(p: real, x: real, r: real, tick: real)
    requires x * tick == p && x <= r < x + 1.0 && tick > 0.0
    ensures p <= r * tick < p + tick
  {
    ScaleMono(x, r, tick);
    ScaleStrict(r, x + 1.0, tick);
    assert (x + 1.0) * tick == x * tick + tick;
  }

  lemma CeilTickMono(p: real, q: real, tick: real)
    requires tick > 0.0 && p <= q
    ensures CeilTick(p, tick) <= CeilTick(q, tick)
  {
    QuotientMono(p, q, tick);
    ScaleMono((-(-(p / tick)).Floor) as real, (-(-(q / tick)).Floor) as real, tick);
  }

  // ---- What a ladder must look like --------------------------------------

  /** Bids on the tick grid, below mid, and no deeper level above a shallower one. */
  ghost predicate SafeBids(levels: seq<Level>, mid: real, tick: real) {
    && (forall i :: 0 <= i < |levels| && levels[i].0.Some? ==>
          OnGrid(levels[i].0.value, tick) && levels[i].0.value < mid)
    && (forall i, j :: 0 <= i < j < |levels| && levels[i].0.Some? && levels[j].0.Some? ==>
          levels[j].0.value <= levels[i].0.value)
  }

  ghost predicate SafeAsks(levels: seq<Level>, mid: real, tick: real) {
    && (forall i :: 0 <= i < |levels| && levels[i].1.Some? ==>
          OnGrid(levels[i].1.value, tick) && mid < levels[i].1.value)
    && (forall i, j :: 0 <= i < j < |levels| && levels[i].1.Some? && levels[j].1.Some? ==>
          levels[i].1.value <= levels[j].1.value)
  }

  ghost predicate Safe(levels: seq<Level>, mid: real, tick: real) {
    SafeBids(levels, mid, tick) && SafeAsks(levels, mid, tick)
  }

  function Mapped(x: Option<real>, f: real -> real): Option<real> {
    if x.Some? then Some(f(x.value)) else None
  }

  /** A monotone price map that keeps prices on the grid and on their side of mid keeps the ladder safe. */
  lemma MapKeepsBids(before: seq<Level>, after: seq<Level>, mid: real, tick: real, f: real -> real)
    requires SafeBids(before, mid, tick) && |after| == |before|
    requires forall i :: 0 <= i < |before| ==> after[i].0 == Mapped(before[i].0, f)
    requires forall b :: b < mid ==> OnGrid(f(b), tick) && f(b) < mid
    requires forall b, c :: b <= c < mid ==> f(b) <= f(c)
    ensures SafeBids(after, mid, tick)
  {
  }

  lemma MapKeepsAsks(before: seq<Level>, after: seq<Level>, mid: real, tick: real, f: real -> real)
    requires SafeAsks(before, mid, tick) && |after| == |before|
    requires forall i :: 0 <= i < |before| ==> after[i].1 == Mapped(before[i].1, f)
    requires forall a :: mid < a ==> OnGrid(f(a), tick) && mid < f(a)
    requires forall a, b :: mid < a <= b ==> f(a) <= f(b)
    ensures SafeAsks(after, mid, tick)
  {
  }

  // ---- The engine's level-0 quote ----------------------------------------

  datatype Engine = Engine(
    warmedUp: bool, volatility: real, alpha: real, tick: real, volToHalfSpread: real,
    minHalfSpreadBps: real, c1: real, skew: real, maxPosition: real)

  function Clamp(x: real, lo: real, hi: real): real {
    if x < lo then lo else if x > hi then hi else x
  }

  function NormalisedPosition(e: Engine, mid: real, position: real): real {
    if e.maxPosition > 0.0 then Clamp(position * mid / e.maxPosition, -1.0, 1.0) else 0.0
  }

  function HalfSpread(e: Engine): real {
    e.volatility * e.volToHalfSpread
  }

  function Signal(c1: real, alpha: real): real {
    c1 * alpha
  }

  function Fair(e: Engine, mid: real): real {
    mid + Signal(e.c1, e.alpha)
  }

  function Lean(e: Engine, mid: real, position: real): real {
    e.skew * NormalisedPosition(e, mid, position)
  }

  /** A tilted half-spread, never negative. */
  function Tilted(half: real, tilt: real): real {
    Max(0.0, half * tilt)
  }

  /** The same computed in ticks and taken back to dollars. */
  function Depth(ticks: real, tilt: real, tick: real): real {
    Tilted(ticks, tilt) * tick
  }

  function MinSpreadBid(mid: real, bps: real): real {
    mid * (1.0 - bps / 10000.0)
  }

  function MinSpreadAsk(mid: real, bps: real): real {
    mid * (1.0 + bps / 10000.0)
  }

  function CappedBid(e: Engine, mid: real, raw: real): real {
    if e.minHalfSpreadBps > 0.0 then Min(raw, MinSpreadBid(mid, e.minHalfSpreadBps)) else raw
  }

  function CappedAsk(e: Engine, mid: real, raw: real): real {
    if e.minHalfSpreadBps > 0.0 then Max(raw, MinSpreadAsk(mid, e.minHalfSpreadBps)) else raw
  }

  function RawBid(e: Engine, mid: real, position: real): real
    requires e.tick > 0.0
  {
    CappedBid(e, mid, Fair(e, mid) - Depth(HalfSpread(e) / e.tick, 1.0 + Lean(e, mid, position), e.tick))
  }

  function RawAsk(e: Engine, mid: real, position: real): real
    requires e.tick > 0.0
  {
    CappedAsk(e, mid, Fair(e, mid) + Depth(HalfSpread(e) / e.tick, 1.0 - Lean(e, mid, position), e.tick))
  }

  /** The tightest two-sided quote, or none while warming up or when it would cross. */
  function EngineQuote(e: Engine, mid: real, position: real): Option<(real, real)>
    requires e.tick > 0.0
  {
    if !e.warmedUp then None
    else
      var bid, ask := FloorTick(RawBid(e, mid, position), e.tick), CeilTick(RawAsk(e, mid, position), e.tick);
      if bid >= ask then None else Some((bid, ask))
  }

  lemma HalfSpreadApart(mid: real, bps: real)
    requires mid > 0.0 && bps > 0.0
    ensures mid * (1.0 - bps / 10000.0) < mid < mid * (1.0 + bps / 10000.0)
  {
  }

  lemma EngineQuoteSafe(e: Engine, mid: real, position: real)
    requires e.tick > 0.0 && mid > 0.0 && e.minHalfSpreadBps > 0.0
    ensures var q := EngineQuote(e, mid, position);
            q.Some? ==> && OnGrid(q.value.0, e.tick) && q.value.0 < mid
                        && OnGrid(q.value.1, e.tick) && mid < q.value.1
  {
    HalfSpreadApart(mid, e.minHalfSpreadBps);
    FloorTickIs(RawBid(e, mid, position), e.tick);
    CeilTickIs(RawAsk(e, mid, position), e.tick);
  }

  // ---- What volatility, alpha and inventory do to the quote --------------

  lemma DepthMono(ticks: real, a: real, b: real, tick: real)
    requires ticks >= 0.0 && a <= b && tick > 0.0
    ensures 0.0 <= Depth(ticks, a, tick) <= Depth(ticks, b, tick)
  {
    assert ticks * a <= ticks * b;
    ScaleMono(Max(0.0, ticks * a), Max(0.0, ticks * b), tick);
    ScaleMono(0.0, Max(0.0, ticks * a), tick);
  }

  lemma DepthInDollars(half: real, tilt: real, tick: real)
    requires tick > 0.0
    ensures Depth(half / tick, tilt, tick) == Tilted(half, tilt)
  {
    var t := half / tick * tilt;
    assert half / tick * tick == half;
    assert t * tick == half * tilt;
    if t >= 0.0 {
      ScaleMono(0.0, t, tick);
    } else {
      ScaleStrict(t, 0.0, tick);
    }
  }

  lemma NormalisedMono(e: Engine, mid: real, p: real, q: real)
    requires mid > 0.0 && p <= q
    ensures -1.0 <= NormalisedPosition(e, mid, p) <= NormalisedPosition(e, mid, q) <= 1.0
  {
    if e.maxPosition > 0.0 {
      ScaleMono(p, q, mid);
      QuotientMono(p * mid, q * mid, e.maxPosition);
    }
  }

  lemma ProductOrder(k: real, a: real, b: real)
    requires k >= 0.0 && a <= b
    ensures k * a <= k * b
  {
  }

  lemma HalfSpreadNonNegative(e: Engine)
    requires e.tick > 0.0 && e.volatility >= 0.0 && e.volToHalfSpread >= 0.0
    ensures HalfSpread(e) >= 0.0 && HalfSpread(e) / e.tick >= 0.0
  {
    ProductNonNegative(e.volatility, e.volToHalfSpread);
    QuotientNonNegative(HalfSpread(e), e.tick);
  }

  lemma LeanMono(e: Engine, mid: real, p: real, q: real)
    requires mid > 0.0 && e.skew >= 0.0 && p <= q
    ensures Lean(e, mid, p) <= Lean(e, mid, q)
  {
    NormalisedMono(e, mid, p, q);
    ProductOrder(e.skew, NormalisedPosition(e, mid, p), NormalisedPosition(e, mid, q));
  }

  lemma RawQuoteLeans(e: Engine, mid: real, p: real, q: real)
    requires e.tick > 0.0 && mid > 0.0 && e.skew >= 0.0 && e.volatility >= 0.0 && e.volToHalfSpread >= 0.0 && p <= q
    ensures RawBid(e, mid, q) <= RawBid(e, mid, p) && RawAsk(e, mid, q) <= RawAsk(e, mid, p)
  {
    var ticks := HalfSpread(e) / e.tick;
    LeanMono(e, mid, p, q);
    HalfSpreadNonNegative(e);
    DepthMono(ticks, 1.0 + Lean(e, mid, p), 1.0 + Lean(e, mid, q), e.tick);
    DepthMono(ticks, 1.0 - Lean(e, mid, q), 1.0 - Lean(e, mid, p), e.tick);
  }

  /** The larger the position, the lower both quotes: a long desk bids lower and offers lower. */
  lemma QuoteLeansAgainstInventory(e: Engine, mid: real, p: real, q: real)
    requires e.tick > 0.0 && mid > 0.0 && e.skew >= 0.0 && e.volatility >= 0.0 && e.volToHalfSpread >= 0.0 && p <= q
    requires EngineQuote(e, mid, p).Some? && EngineQuote(e, mid, q).Some?
    ensures EngineQuote(e, mid, q).value.0 <= EngineQuote(e, mid, p).value.0
    ensures EngineQuote(e, mid, q).value.1 <= EngineQuote(e, mid, p).value.1
  {
    RawQuoteLeans(e, mid, p, q);
    FloorTickMono(RawBid(e, mid, q), RawBid(e, mid, p), e.tick);
    CeilTickMono(RawAsk(e, mid, q), RawAsk(e, mid, p), e.tick);
  }

  /** The larger alpha, the higher both quotes. */
  lemma QuoteFollowsAlpha(e: Engine, higher: Engine, mid: real, position: real)
    requires e.tick > 0.0 && e.c1 >= 0.0 && higher == e.(alpha := higher.alpha) && e.alpha <= higher.alpha
    requires EngineQuote(e, mid, position).Some? && EngineQuote(higher, mid, position).Some?
    ensures EngineQuote(e, mid, position).value.0 <= EngineQuote(higher, mid, position).value.0
    ensures EngineQuote(e, mid, position).value.1 <= EngineQuote(higher, mid, position).value.1
  {
    RawFollowsAlpha(e, higher, mid, position);
    FloorTickMono(RawBid(e, mid, position), RawBid(higher, mid, position), e.tick);
    CeilTickMono(RawAsk(e, mid, position), RawAsk(higher, mid, position), e.tick);
  }

  lemma FairFollowsAlpha(e: Engine, higher: Engine, mid: real)
    requires e.c1 >= 0.0 && higher == e.(alpha := higher.alpha) && e.alpha <= higher.alpha
    ensures Fair(e, mid) <= Fair(higher, mid)
  {
    ProductOrder(e.c1, e.alpha, higher.alpha);
    assert Signal(e.c1, e.alpha) <= Signal(higher.c1, higher.alpha);
  }

  lemma RawFollowsAlpha(e: Engine, higher: Engine, mid: real, position: real)
    requires e.tick > 0.0 && e.c1 >= 0.0 && higher == e.(alpha := higher.alpha) && e.alpha <= higher.alpha
    ensures RawBid(e, mid, position) <= RawBid(higher, mid, position)
    ensures RawAsk(e, mid, position) <= RawAsk(higher, mid, position)
  {
    FairFollowsAlpha(e, higher, mid);
    SameCaps(e, higher, mid);
    var ticks, lean := HalfSpread(e) / e.tick, Lean(e, mid, position);
    assert HalfSpread(higher) / higher.tick == ticks && Lean(higher, mid, position) == lean;
    var below, above := Depth(ticks, 1.0 + lean, e.tick), Depth(ticks, 1.0 - lean, e.tick);
    CappedMono(e, mid, Fair(e, mid) - below, Fair(higher, mid) - below);
    CappedMono(e, mid, Fair(e, mid) + above, Fair(higher, mid) + above);
  }

  lemma CappedMono(e: Engine, mid: real, x: real, y: real)
    requires x <= y
    ensures CappedBid(e, mid, x) <= CappedBid(e, mid, y) && CappedAsk(e, mid, x) <= CappedAsk(e, mid, y)
  {
  }

  lemma SameCaps(e: Engine, f: Engine, mid: real)
    requires e.minHalfSpreadBps == f.minHalfSpreadBps
    ensures forall x :: CappedBid(e, mid, x) == CappedBid(f, mid, x) && CappedAsk(e, mid, x) == CappedAsk(f, mid, x)
  {
  }

  /** The quote in dollars: the half-spread is volatility times its factor, leaned by the share of the
      position limit in use, around the fair price; never inside the minimum spread, and less than a
      tick wider than that. */
  lemma QuoteInDollars(e: Engine, mid: real, position: real)
    requires e.tick > 0.0 && EngineQuote(e, mid, position).Some?
    ensures var (bid, ask) := EngineQuote(e, mid, position).value;
            var low := CappedBid(e, mid, Fair(e, mid) - Tilted(HalfSpread(e), 1.0 + Lean(e, mid, position)));
            var high := CappedAsk(e, mid, Fair(e, mid) + Tilted(HalfSpread(e), 1.0 - Lean(e, mid, position)));
            low - e.tick < bid <= low && high <= ask < high + e.tick
  {
    RawInDollars(e, mid, position);
    FloorTickIs(RawBid(e, mid, position), e.tick);
    CeilTickIs(RawAsk(e, mid, position), e.tick);
  }

  lemma RawInDollars(e: Engine, mid: real, position: real)
    requires e.tick > 0.0
    ensures RawBid(e, mid, position)
         == CappedBid(e, mid, Fair(e, mid) - Tilted(HalfSpread(e), 1.0 + Lean(e, mid, position)))
    ensures RawAsk(e, mid, position)
         == CappedAsk(e, mid, Fair(e, mid) + Tilted(HalfSpread(e), 1.0 - Lean(e, mid, position)))
  {
    DepthInDollars(HalfSpread(e), 1.0 + Lean(e, mid, position), e.tick);
    DepthInDollars(HalfSpread(e), 1.0 - Lean(e, mid, position), e.tick);
  }

  /** With a minimum spread the quote never crosses: it is there exactly once the engine is warm. */
  lemma QuoteExistsIff(e: Engine, mid: real, position: real)
    requires e.tick > 0.0 && mid > 0.0 && e.minHalfSpreadBps > 0.0
    ensures EngineQuote(e, mid, position).Some? <==> e.warmedUp
  {
    HalfSpreadApart(mid, e.minHalfSpreadBps);
    FloorTickIs(RawBid(e, mid, position), e.tick);
    CeilTickIs(RawAsk(e, mid, position), e.tick);
    assert RawBid(e, mid, position) <= MinSpreadBid(mid, e.minHalfSpreadBps);
    assert RawAsk(e, mid, position) >= MinSpreadAsk(mid, e.minHalfSpreadBps);
  }

  /** Without volatility only the minimum spread is left. */
  lemma QuietQuote(e: Engine, mid: real, position: real)
    requires e.tick > 0.0 && e.volatility == 0.0
    ensures RawBid(e, mid, position) == CappedBid(e, mid, Fair(e, mid))
    ensures RawAsk(e, mid, position) == CappedAsk(e, mid, Fair(e, mid))
  {
    assert HalfSpread(e) == 0.0;
    RawInDollars(e, mid, position);
  }

  /** Flat and without a signal the quote is the plain half-spread on both sides. */
  lemma FlatQuoteSpread(e: Engine, mid: real)
    requires e.tick > 0.0 && e.minHalfSpreadBps > 0.0 && e.alpha == 0.0 && EngineQuote(e, mid, 0.0).Some?
    requires e.volatility >= 0.0 && e.volToHalfSpread >= 0.0
    ensures var half, (bid, ask) := HalfSpread(e), EngineQuote(e, mid, 0.0).value;
            && bid <= mid - half && mid + half <= ask
            && bid > Min(mid - half, MinSpreadBid(mid, e.minHalfSpreadBps)) - e.tick
            && ask < Max(mid + half, MinSpreadAsk(mid, e.minHalfSpreadBps)) + e.tick
  {
    FlatLean(e, mid);
    HalfSpreadNonNegative(e);
    assert Tilted(HalfSpread(e), 1.0) == HalfSpread(e);
    QuoteInDollars(e, mid, 0.0);
  }

  lemma FlatLean(e: Engine, mid: real)
    requires e.alpha == 0.0
    ensures Lean(e, mid, 0.0) == 0.0 && Fair(e, mid) == mid
  {
    assert NormalisedPosition(e, mid, 0.0) == 0.0;
  }

  const LEANING := Engine(true, 1.0, 0.0, 0.1, 1.0, 4.0, 0.0, 0.1, 2000.0)

  lemma LeaningRaw()
    ensures RawBid(LEANING, 100.0, 10.0) == 98.95 && RawAsk(LEANING, 100.0, 10.0) == 100.95
    ensures RawBid(LEANING, 100.0, -10.0) == 99.05 && RawAsk(LEANING, 100.0, -10.0) == 101.05
  {
    assert NormalisedPosition(LEANING, 100.0, 10.0) == 0.5 && NormalisedPosition(LEANING, 100.0, -10.0) == -0.5;
    assert HalfSpread(LEANING) / 0.1 == 10.0;
  }

  /** A mid of 100 and a spread of a dollar: ten long quotes 98.9 / 101.0, ten short 99.0 / 101.1. */
  lemma LeaningExample()
    ensures EngineQuote(LEANING, 100.0, 10.0) == Some((98.9, 101.0))
    ensures EngineQuote(LEANING, 100.0, -10.0) == Some((99.0, 101.1))
  {
    LeaningRaw();
    assert FloorTick(98.95, 0.1) == 98.9 && CeilTick(100.95, 0.1) == 101.0;
    assert FloorTick(99.05, 0.1) == 99.0 && CeilTick(101.05, 0.1) == 101.1;
  }

  // ---- The fallback ------------------------------------------------------

  function MinDepth(mid: real, tick: real): real {
    if tick > 0.0 then tick else Max(mid * 0.000001, EPSILON)
  }

  function FallbackDepth(mid: real, tick: real, bps: real): real {
    Max(mid * Max(bps, 1.0) / 10000.0, MinDepth(mid, tick))
  }

  function FallbackLevel(mid: real, position: real, tick: real, bps: real): Level {
    if Abs(position) < EPSILON || mid <= 0.0 then (None, None)
    else if position > 0.0 then
      var ask := CeilTick(mid + FallbackDepth(mid, tick, bps), tick);
      (None, Some(if ask <= mid then mid + MinDepth(mid, tick) else ask))
    else
      var bid := FloorTick(mid - FallbackDepth(mid, tick, bps), tick);
      (Some(if bid >= mid then mid - MinDepth(mid, tick) else bid), None)
  }

  /** A single passive reducing quote on level 0. */
  function FallbackReduceOnly(mid: real, position: real, tick: real, bps: real, numLevels: nat): seq<Level> {
    seq(numLevels, i => if i == 0 then FallbackLevel(mid, position, tick, bps) else (None, None))
  }

  lemma FallbackSafe(mid: real, position: real, tick: real, bps: real, numLevels: nat)
    requires tick > 0.0
    ensures Safe(FallbackReduceOnly(mid, position, tick, bps, numLevels), mid, tick)
  {
    var depth := FallbackDepth(mid, tick, bps);
    CeilTickIs(mid + depth, tick);
    FloorTickIs(mid - depth, tick);
  }

  // ---- The ladder --------------------------------------------------------

  function Pow(x: real, n: nat): real {
    if n == 0 then 1.0 else Pow(x, n - 1) * x
  }

  function SpreadFactors(f: real, numLevels: nat): seq<real> {
    seq(numLevels, l requires l >= 0 => Pow(f, l))
  }

  lemma {:induction false} PowGrows(f: real, a: nat, b: nat)
    requires f >= 1.0 && a <= b
    ensures 1.0 <= Pow(f, a) <= Pow(f, b)
    decreases b
  {
    if a == b {
      if a > 0 {
        PowGrows(f, a - 1, a - 1);
        assert Pow(f, a - 1) * f >= Pow(f, a - 1);
      }
    } else {
      PowGrows(f, a, b - 1);
      assert Pow(f, b - 1) * f >= Pow(f, b - 1);
    }
  }

  function FactorAt(factors: seq<real>, i: nat): real {
    if i < |factors| then factors[i] else 1.0
  }

  function DeeperBid(mid: real, b: real, factor: real, tick: real): real {
    BidBelow(mid, mid - b, factor, tick)
  }

  function DeeperAsk(mid: real, a: real, factor: real, tick: real): real {
    AskAbove(mid, a - mid, factor, tick)
  }

  function LevelAt(l0: Level, mid: real, tick: real, factors: seq<real>, i: nat): Level {
    if i == 0 then l0
    else
      var factor := FactorAt(factors, i);
      (Mapped(l0.0, b => DeeperBid(mid, b, factor, tick)), Mapped(l0.1, a => DeeperAsk(mid, a, factor, tick)))
  }

  /** Level 0 and the levels spread out behind it. */
  function Ladder(l0: Level, mid: real, tick: real, factors: seq<real>, numLevels: nat): seq<Level> {
    seq(if numLevels == 0 then 1 else numLevels, i requires i >= 0 => LevelAt(l0, mid, tick, factors, i))
  }

  predicate AtLimit(position: real, mid: real, maxPosUsd: real) {
    Abs(position) * mid >= maxPosUsd
  }

  /** At the position limit, suppress the side that would add to the position. */
  function Limited(q: (real, real), mid: real, position: real, maxPosUsd: real): Level {
    var full := AtLimit(position, mid, maxPosUsd);
    (if full && position > 0.0 then None else Some(q.0), if full && position < 0.0 then None else Some(q.1))
  }

  function BuiltLevels(l0: Option<(real, real)>, mid: real, position: real, maxPosUsd: real, tick: real,
                       numLevels: nat, factors: seq<real>, bps: real): seq<Level>
  {
    if l0.None? || maxPosUsd <= 0.0 then
      if Abs(position) >= EPSILON then FallbackReduceOnly(mid, position, tick, bps, numLevels)
      else seq(numLevels, i => (None, None))
    else Ladder(Limited(l0.value, mid, position, maxPosUsd), mid, tick, factors, numLevels)
  }

  lemma DepthScales(d: real, f: real, g: real)
    requires d > 0.0 && 1.0 <= f <= g
    ensures d <= Scaled(d, f) <= Scaled(d, g)
  {
  }

  lemma DeeperBidSafe(mid: real, b: real, f: real, g: real, tick: real)
    requires tick > 0.0 && b < mid && 1.0 <= f <= g
    ensures OnGrid(DeeperBid(mid, b, f, tick), tick) && DeeperBid(mid, b, g, tick) <= DeeperBid(mid, b, f, tick) <= b
  {
    DepthScales(mid - b, f, g);
    FloorTickIs(mid - Scaled(mid - b, f), tick);
    FloorTickMono(mid - Scaled(mid - b, g), mid - Scaled(mid - b, f), tick);
  }

  lemma DeeperAskSafe(mid: real, a: real, f: real, g: real, tick: real)
    requires tick > 0.0 && mid < a && 1.0 <= f <= g
    ensures OnGrid(DeeperAsk(mid, a, f, tick), tick) && a <= DeeperAsk(mid, a, f, tick) <= DeeperAsk(mid, a, g, tick)
  {
    DepthScales(a - mid, f, g);
    CeilTickIs(mid + Scaled(a - mid, f), tick);
    CeilTickMono(mid + Scaled(a - mid, f), mid + Scaled(a - mid, g), tick);
  }

  lemma LadderBidsSafe(l0: Level, mid: real, tick: real, f: real, numLevels: nat)
    requires tick > 0.0 && f >= 1.0 && (l0.0.Some? ==> OnGrid(l0.0.value, tick) && l0.0.value < mid)
    ensures SafeBids(Ladder(l0, mid, tick, SpreadFactors(f, numLevels), numLevels), mid, tick)
  {
    var levels := Ladder(l0, mid, tick, SpreadFactors(f, numLevels), numLevels);
    if l0.0.Some? {
      forall i, j | 0 <= i <= j < |levels|
        ensures OnGrid(levels[j].0.value, tick) && levels[j].0.value < mid && levels[j].0.value <= levels[i].0.value
      {
        PowGrows(f, i, j);
        DeeperBidSafe(mid, l0.0.value, Pow(f, i), Pow(f, j), tick);
        DeeperBidSafe(mid, l0.0.value, Pow(f, j), Pow(f, j), tick);
      }
    }
  }

  lemma LadderAsksSafe(l0: Level, mid: real, tick: real, f: real, numLevels: nat)
    requires tick > 0.0 && f >= 1.0 && (l0.1.Some? ==> OnGrid(l0.1.value, tick) && mid < l0.1.value)
    ensures SafeAsks(Ladder(l0, mid, tick, SpreadFactors(f, numLevels), numLevels), mid, tick)
  {
    var levels := Ladder(l0, mid, tick, SpreadFactors(f, numLevels), numLevels);
    if l0.1.Some? {
      forall i, j | 0 <= i <= j < |levels|
        ensures OnGrid(levels[j].1.value, tick) && mid < levels[j].1.value && levels[i].1.value <= levels[j].1.value
      {
        PowGrows(f, i, j);
        DeeperAskSafe(mid, l0.1.value, Pow(f, i), Pow(f, j), tick);
        DeeperAskSafe(mid, l0.1.value, Pow(f, j), Pow(f, j), tick);
      }
    }
  }

  lemma BuiltSafe(e: Engine, mid: real, position: real, maxPosUsd: real, numLevels: nat, f: real, bps: real)
    requires e.tick > 0.0 && mid > 0.0 && e.minHalfSpreadBps > 0.0 && f >= 1.0
    ensures Safe(BuiltLevels(EngineQuote(e, mid, position), mid, position, maxPosUsd, e.tick, numLevels,
                             SpreadFactors(f, numLevels), bps), mid, e.tick)
  {
    var q := EngineQuote(e, mid, position);
    EngineQuoteSafe(e, mid, position);
    FallbackSafe(mid, position, e.tick, bps, numLevels);
    if q.Some? {
      LadderBidsSafe(Limited(q.value, mid, position, maxPosUsd), mid, e.tick, f, numLevels);
      LadderAsksSafe(Limited(q.value, mid, position, maxPosUsd), mid, e.tick, f, numLevels);
    }
  }

  // ---- The quality multiplier --------------------------------------------

  function WidenedBid(mid: real, b: real, multiplier: real, tick: real): real {
    BidBelow(mid, Max(mid - b, 0.0), multiplier, tick)
  }

  function WidenedAsk(mid: real, a: real, multiplier: real, tick: real): real {
    AskAbove(mid, Max(a - mid, 0.0), multiplier, tick)
  }

  function WidenedLevel(l: Level, mid: real, multiplier: real, tick: real): Level {
    (Mapped(l.0, b => WidenedBid(mid, b, multiplier, tick)), Mapped(l.1, a => WidenedAsk(mid, a, multiplier, tick)))
  }

  predicate Widens(mid: real, multiplier: real) {
    multiplier > 1.0001 && mid > 0.0
  }

  function QualityWidened(levels: seq<Level>, mid: real, multiplier: real, tick: real): seq<Level> {
    if Widens(mid, multiplier)
    then seq(|levels|, i requires 0 <= i < |levels| => WidenedLevel(levels[i], mid, multiplier, tick))
    else levels
  }

  lemma ProductMono(d: real, e: real, k: real)
    requires 0.0 < d <= e && k > 0.0
    ensures 0.0 < Scaled(d, k) <= Scaled(e, k)
  {
  }

  lemma BelowSafe(mid: real, d: real, e: real, factor: real, tick: real)
    requires tick > 0.0 && factor > 0.0 && 0.0 < d <= e
    ensures OnGrid(BidBelow(mid, d, factor, tick), tick)
    ensures BidBelow(mid, e, factor, tick) <= BidBelow(mid, d, factor, tick) < mid
  {
    ProductMono(d, e, factor);
    FloorTickIs(mid - Scaled(d, factor), tick);
    FloorTickMono(mid - Scaled(e, factor), mid - Scaled(d, factor), tick);
  }

  lemma AboveSafe(mid: real, d: real, e: real, factor: real, tick: real)
    requires tick > 0.0 && factor > 0.0 && 0.0 < d <= e
    ensures OnGrid(AskAbove(mid, d, factor, tick), tick)
    ensures mid < AskAbove(mid, d, factor, tick) <= AskAbove(mid, e, factor, tick)
  {
    ProductMono(d, e, factor);
    CeilTickIs(mid + Scaled(d, factor), tick);
    CeilTickMono(mid + Scaled(d, factor), mid + Scaled(e, factor), tick);
  }

  lemma WidenedBidSafe(mid: real, b: real, c: real, multiplier: real, tick: real)
    requires tick > 0.0 && multiplier > 0.0 && b <= c < mid
    ensures OnGrid(WidenedBid(mid, c, multiplier, tick), tick)
    ensures WidenedBid(mid, b, multiplier, tick) <= WidenedBid(mid, c, multiplier, tick) < mid
  {
    BelowSafe(mid, Max(mid - c, 0.0), Max(mid - b, 0.0), multiplier, tick);
  }

  lemma WidenedAskSafe(mid: real, a: real, b: real, multiplier: real, tick: real)
    requires tick > 0.0 && multiplier > 0.0 && mid < a <= b
    ensures OnGrid(WidenedAsk(mid, a, multiplier, tick), tick)
    ensures mid < WidenedAsk(mid, a, multiplier, tick) <= WidenedAsk(mid, b, multiplier, tick)
  {
    AboveSafe(mid, Max(a - mid, 0.0), Max(b - mid, 0.0), multiplier, tick);
  }

  lemma QualityKeepsBids(levels: seq<Level>, mid: real, multiplier: real, tick: real)
    requires tick > 0.0 && Widens(mid, multiplier) && SafeBids(levels, mid, tick)
    ensures SafeBids(QualityWidened(levels, mid, multiplier, tick), mid, tick)
  {
    forall b, c | b <= c < mid
      ensures WidenedBid(mid, b, multiplier, tick) <= WidenedBid(mid, c, multiplier, tick) < mid
      ensures OnGrid(WidenedBid(mid, c, multiplier, tick), tick)
    {
      WidenedBidSafe(mid, b, c, multiplier, tick);
    }
    var bid := (b: real) => WidenedBid(mid, b, multiplier, tick);
    MapKeepsBids(levels, QualityWidened(levels, mid, multiplier, tick), mid, tick, bid);
  }

  lemma QualityKeepsAsks(levels: seq<Level>, mid: real, multiplier: real, tick: real)
    requires tick > 0.0 && Widens(mid, multiplier) && SafeAsks(levels, mid, tick)
    ensures SafeAsks(QualityWidened(levels, mid, multiplier, tick), mid, tick)
  {
    forall a, b | mid < a <= b
      ensures mid < WidenedAsk(mid, a, multiplier, tick) <= WidenedAsk(mid, b, multiplier, tick)
      ensures OnGrid(WidenedAsk(mid, a, multiplier, tick), tick)
    {
      WidenedAskSafe(mid, a, b, multiplier, tick);
    }
    var ask := (a: real) => WidenedAsk(mid, a, multiplier, tick);
    MapKeepsAsks(levels, QualityWidened(levels, mid, multiplier, tick), mid, tick, ask);
  }

  lemma QualityKeepsSafe(levels: seq<Level>, mid: real, multiplier: real, tick: real)
    requires tick > 0.0 && Safe(levels, mid, tick)
    ensures Safe(QualityWidened(levels, mid, multiplier, tick), mid, tick)
  {
    if Widens(mid, multiplier) {
      QualityKeepsBids(levels, mid, multiplier, tick);
      QualityKeepsAsks(levels, mid, multiplier, tick);
    }
  }

  // ---- The inventory exit bias -------------------------------------------

  datatype BiasCfg = BiasCfg(
    enabled: bool, minRatio: real, exitTightenPerRatio: real, addWidenPerRatio: real,
    maxExitTighten: real, maxAddWiden: real, adverseBoostPerBps: real)

  function Boost(cfg: BiasCfg, adverseExcess: real): real {
    1.0 + Min(Max(adverseExcess, 0.0) * Max(cfg.adverseBoostPerBps, 0.0), 0.5)
  }

  function ExitTighten(cfg: BiasCfg, ratio: real, boost: real): real {
    Min(Max(cfg.exitTightenPerRatio, 0.0) * ratio * boost, Max(cfg.maxExitTighten, 0.0))
  }

  function AddWiden(cfg: BiasCfg, ratio: real, boost: real): real {
    Min(Max(cfg.addWidenPerRatio, 0.0) * ratio * boost, Max(cfg.maxAddWiden, 0.0))
  }

  function Ratio(mid: real, position: real, maxPosUsd: real): real
    requires maxPosUsd > 0.0
  {
    Abs(position) * mid / maxPosUsd
  }

  /** The depth factors for bids and asks, when the bias applies at all. */
  function BiasFactors(mid: real, position: real, maxPosUsd: real, adverseExcess: real, cfg: BiasCfg)
    : Option<(real, real)>
  {
    if !cfg.enabled || mid <= 0.0 || maxPosUsd <= 0.0 || Abs(position) < EPSILON then None
    else
      var ratio := Ratio(mid, position, maxPosUsd);
      var boost := Boost(cfg, adverseExcess);
      var tighten, widen := ExitTighten(cfg, ratio, boost), AddWiden(cfg, ratio, boost);
      if ratio < cfg.minRatio || (tighten <= 0.0 && widen <= 0.0) then None
      else
        var exit, add := Max(1.0 - tighten, 0.05), 1.0 + widen;
        Some((if position < 0.0 then exit else add, if position > 0.0 then exit else add))
  }

  function BiasedBid(mid: real, b: real, factor: real, tick: real): real {
    var nb := BidBelow(mid, Max(mid - b, MinDepth(mid, tick)), factor, tick);
    if nb >= mid then FloorTick(mid - MinDepth(mid, tick), tick) else nb
  }

  function BiasedAsk(mid: real, a: real, factor: real, tick: real): real {
    var na := AskAbove(mid, Max(a - mid, MinDepth(mid, tick)), factor, tick);
    if na <= mid then CeilTick(mid + MinDepth(mid, tick), tick) else na
  }

  function BiasedLevel(l: Level, mid: real, factors: (real, real), tick: real): Level {
    (Mapped(l.0, b => BiasedBid(mid, b, factors.0, tick)), Mapped(l.1, a => BiasedAsk(mid, a, factors.1, tick)))
  }

  function Biased(levels: seq<Level>, mid: real, factors: Option<(real, real)>, tick: real): seq<Level> {
    if factors.None? then levels
    else seq(|levels|, i requires 0 <= i < |levels| => BiasedLevel(levels[i], mid, factors.value, tick))
  }

  lemma ProductNonNegative(a: real, b: real)
    requires a >= 0.0 && b >= 0.0
    ensures a * b >= 0.0
  {
  }

  lemma QuotientNonNegative(a: real, b: real)
    requires a >= 0.0 && b > 0.0
    ensures a / b >= 0.0
  {
  }

  lemma BiasFactorsPositive(mid: real, position: real, maxPosUsd: real, adverseExcess: real, cfg: BiasCfg)
    ensures var fs := BiasFactors(mid, position, maxPosUsd, adverseExcess, cfg);
            fs.Some? ==> fs.value.0 > 0.0 && fs.value.1 > 0.0
  {
    if mid > 0.0 && maxPosUsd > 0.0 {
      var ratio, boost := Ratio(mid, position, maxPosUsd), Boost(cfg, adverseExcess);
      ProductNonNegative(Abs(position), mid);
      QuotientNonNegative(Abs(position) * mid, maxPosUsd);
      ProductNonNegative(Max(adverseExcess, 0.0), Max(cfg.adverseBoostPerBps, 0.0));
      ProductNonNegative(Max(cfg.addWidenPerRatio, 0.0), ratio);
      ProductNonNegative(Max(cfg.addWidenPerRatio, 0.0) * ratio, boost);
      assert AddWiden(cfg, ratio, boost) >= 0.0;
    }
  }

  lemma BiasedBidSafe(mid: real, b: real, c: real, factor: real, tick: real)
    requires tick > 0.0 && factor > 0.0 && b <= c < mid
    ensures OnGrid(BiasedBid(mid, c, factor, tick), tick)
    ensures BiasedBid(mid, b, factor, tick) <= BiasedBid(mid, c, factor, tick) < mid
  {
    BelowSafe(mid, Max(mid - c, tick), Max(mid - b, tick), factor, tick);
  }

  lemma BiasedAskSafe(mid: real, a: real, b: real, factor: real, tick: real)
    requires tick > 0.0 && factor > 0.0 && mid < a <= b
    ensures OnGrid(BiasedAsk(mid, a, factor, tick), tick)
    ensures mid < BiasedAsk(mid, a, factor, tick) <= BiasedAsk(mid, b, factor, tick)
  {
    AboveSafe(mid, Max(a - mid, tick), Max(b - mid, tick), factor, tick);
  }

  lemma BiasKeepsBids(levels: seq<Level>, mid: real, factors: (real, real), tick: real)
    requires tick > 0.0 && factors.0 > 0.0 && SafeBids(levels, mid, tick)
    ensures SafeBids(Biased(levels, mid, Some(factors), tick), mid, tick)
  {
    forall b, c | b <= c < mid
      ensures BiasedBid(mid, b, factors.0, tick) <= BiasedBid(mid, c, factors.0, tick) < mid
      ensures OnGrid(BiasedBid(mid, c, factors.0, tick), tick)
    {
      BiasedBidSafe(mid, b, c, factors.0, tick);
    }
    var bid := (b: real) => BiasedBid(mid, b, factors.0, tick);
    MapKeepsBids(levels, Biased(levels, mid, Some(factors), tick), mid, tick, bid);
  }

  lemma BiasKeepsAsks(levels: seq<Level>, mid: real, factors: (real, real), tick: real)
    requires tick > 0.0 && factors.1 > 0.0 && SafeAsks(levels, mid, tick)
    ensures SafeAsks(Biased(levels, mid, Some(factors), tick), mid, tick)
  {
    forall a, b | mid < a <= b
      ensures mid < BiasedAsk(mid, a, factors.1, tick) <= BiasedAsk(mid, b, factors.1, tick)
      ensures OnGrid(BiasedAsk(mid, a, factors.1, tick), tick)
    {
      BiasedAskSafe(mid, a, b, factors.1, tick);
    }
    var ask := (a: real) => BiasedAsk(mid, a, factors.1, tick);
    MapKeepsAsks(levels, Biased(levels, mid, Some(factors), tick), mid, tick, ask);
  }

  /** Tightening the reducing side never lets a quote reach mid. */
  lemma BiasKeepsSafe(levels: seq<Level>, mid: real, factors: Option<(real, real)>, tick: real)
    requires tick > 0.0 && Safe(levels, mid, tick)
    requires factors.Some? ==> factors.value.0 > 0.0 && factors.value.1 > 0.0
    ensures Safe(Biased(levels, mid, factors, tick), mid, tick)
  {
    if factors.Some? {
      BiasKeepsBids(levels, mid, factors.value, tick);
      BiasKeepsAsks(levels, mid, factors.value, tick);
    }
  }

  // ---- How far the quotes are from mid -----------------------------------

  lemma BelowIs(mid: real, d: real, factor: real, tick: real)
    requires tick > 0.0
    ensures mid - Scaled(d, factor) - tick < BidBelow(mid, d, factor, tick) <= mid - Scaled(d, factor)
  {
    FloorTickIs(mid - Scaled(d, factor), tick);
  }

  lemma AboveIs(mid: real, d: real, factor: real, tick: real)
    requires tick > 0.0
    ensures mid + Scaled(d, factor) <= AskAbove(mid, d, factor, tick) < mid + Scaled(d, factor) + tick
  {
    CeilTickIs(mid + Scaled(d, factor), tick);
  }

  /** The fallback quotes the first tick at or beyond the fallback distance, at least a tick from mid,
      on the side that reduces the position. */
  lemma FallbackDistance(mid: real, position: real, tick: real, bps: real)
    requires tick > 0.0 && mid > 0.0 && Abs(position) >= EPSILON
    ensures var depth := Max(mid * Max(bps, 1.0) / 10000.0, tick);
            var (bid, ask) := FallbackLevel(mid, position, tick, bps);
            if position > 0.0 then bid.None? && ask.Some? && mid + depth <= ask.value < mid + depth + tick
            else ask.None? && bid.Some? && mid - depth - tick < bid.value <= mid - depth
  {
    var depth := FallbackDepth(mid, tick, bps);
    CeilTickIs(mid + depth, tick);
    FloorTickIs(mid - depth, tick);
  }

  /** Level `i` lies at the level-0 distance times the `i`-th power of the spread factor, rounded away
      from mid by less than a tick. */
  lemma LevelDistance(l0: Level, mid: real, tick: real, f: real, numLevels: nat, i: nat)
    requires tick > 0.0 && 0 < i < numLevels
    ensures var levels := Ladder(l0, mid, tick, SpreadFactors(f, numLevels), numLevels);
            && levels[0] == l0
            && levels[i].0.Some? == l0.0.Some? && levels[i].1.Some? == l0.1.Some?
            && (l0.0.Some? ==>
                  var low := mid - Scaled(mid - l0.0.value, Pow(f, i));
                  low - tick < levels[i].0.value <= low)
            && (l0.1.Some? ==>
                  var high := mid + Scaled(l0.1.value - mid, Pow(f, i));
                  high <= levels[i].1.value < high + tick)
  {
    if l0.0.Some? {
      BelowIs(mid, mid - l0.0.value, Pow(f, i), tick);
    }
    if l0.1.Some? {
      AboveIs(mid, l0.1.value - mid, Pow(f, i), tick);
    }
  }

  /** A multiplier above 1.0001 widens every level by exactly that factor, up to a tick; any other leaves
      the ladder as it is. */
  lemma WidenedDistance(levels: seq<Level>, mid: real, multiplier: real, tick: real, i: nat)
    requires tick > 0.0 && mid > 0.0 && i < |levels|
    ensures multiplier <= 1.0001 ==> QualityWidened(levels, mid, multiplier, tick) == levels
    ensures multiplier > 1.0001 ==>
              var l, w := levels[i], QualityWidened(levels, mid, multiplier, tick)[i];
              && w.0.Some? == l.0.Some? && w.1.Some? == l.1.Some?
              && (l.0.Some? && l.0.value < mid ==>
                    var low := mid - Scaled(mid - l.0.value, multiplier);
                    low - tick < w.0.value <= low)
              && (l.1.Some? && l.1.value > mid ==>
                    var high := mid + Scaled(l.1.value - mid, multiplier);
                    high <= w.1.value < high + tick)
  {
    var l := levels[i];
    if l.0.Some? && l.0.value < mid {
      BelowIs(mid, mid - l.0.value, multiplier, tick);
    }
    if l.1.Some? && l.1.value > mid {
      AboveIs(mid, l.1.value - mid, multiplier, tick);
    }
  }

  /** The bias tightens the side that reduces the position, by no more than its cap and never below a
      twentieth, and widens the side that adds to it, by no more than its cap. */
  lemma BiasSides(mid: real, position: real, maxPosUsd: real, adverseExcess: real, cfg: BiasCfg)
    requires BiasFactors(mid, position, maxPosUsd, adverseExcess, cfg).Some?
    ensures var (bid, ask) := BiasFactors(mid, position, maxPosUsd, adverseExcess, cfg).value;
            var exit, add := if position < 0.0 then bid else ask, if position < 0.0 then ask else bid;
            && Max(1.0 - Max(cfg.maxExitTighten, 0.0), 0.05) <= exit <= 1.0
            && 1.0 <= add <= 1.0 + Max(cfg.maxAddWiden, 0.0)
  {
    var ratio, boost := Ratio(mid, position, maxPosUsd), Boost(cfg, adverseExcess);
    ProductNonNegative(Abs(position), mid);
    QuotientNonNegative(Abs(position) * mid, maxPosUsd);
    ProductNonNegative(Max(adverseExcess, 0.0), Max(cfg.adverseBoostPerBps, 0.0));
    ProductNonNegative(Max(cfg.exitTightenPerRatio, 0.0), ratio);
    ProductNonNegative(Max(cfg.exitTightenPerRatio, 0.0) * ratio, boost);
    ProductNonNegative(Max(cfg.addWidenPerRatio, 0.0), ratio);
    ProductNonNegative(Max(cfg.addWidenPerRatio, 0.0) * ratio, boost);
    assert ExitTighten(cfg, ratio, boost) >= 0.0 && AddWiden(cfg, ratio, boost) >= 0.0;
  }

  const DEFAULT_BIAS := BiasCfg(true, 0.05, 0.45, 0.75, 0.35, 0.65, 0.03)

  /** Long half of the limit under the default settings: asks at 0.775 of their distance and bids at
      1.375; more so when the market moves against us, and not at all for a fortieth of the limit. */
  lemma BiasExample()
    ensures BiasFactors(100.0, 10.0, 2000.0, 0.0, DEFAULT_BIAS) == Some((1.375, 0.775))
    ensures BiasFactors(100.0, 10.0, 2000.0, 10.0, DEFAULT_BIAS) == Some((1.4875, 0.7075))
    ensures BiasFactors(100.0, 0.5, 2000.0, 0.0, DEFAULT_BIAS) == None
  {
    assert Ratio(100.0, 10.0, 2000.0) == 0.5 && Ratio(100.0, 0.5, 2000.0) == 0.025;
    assert Boost(DEFAULT_BIAS, 0.0) == 1.0 && Boost(DEFAULT_BIAS, 10.0) == 1.3;
    assert ExitTighten(DEFAULT_BIAS, 0.5, 1.0) == 0.225 && AddWiden(DEFAULT_BIAS, 0.5, 1.0) == 0.375;
    assert ExitTighten(DEFAULT_BIAS, 0.5, 1.3) == 0.2925 && AddWiden(DEFAULT_BIAS, 0.5, 1.3) == 0.4875;
  }

  /** The adding side never comes closer to mid. */
  lemma AddingSideNoCloser(mid: real, b: real, a: real, factor: real, tick: real)
    requires tick > 0.0 && factor >= 1.0 && b < mid < a
    ensures BiasedBid(mid, b, factor, tick) <= b && a <= BiasedAsk(mid, a, factor, tick)
  {
    var below, above := Max(mid - b, tick), Max(a - mid, tick);
    DepthScales(below, factor, factor);
    DepthScales(above, factor, factor);
    BelowIs(mid, below, factor, tick);
    AboveIs(mid, above, factor, tick);
    BelowSafe(mid, below, below, factor, tick);
    AboveSafe(mid, above, above, factor, tick);
  }

  lemma GridQuotient(k: int, tick: real)
    requires tick > 0.0
    ensures Multiple(k, tick) / tick == k as real
  {
  }

  lemma GridIsFixed(a: real, tick: real)
    requires tick > 0.0 && OnGrid(a, tick)
    ensures CeilTick(a, tick) == a && FloorTick(a, tick) == a
  {
    var k: int :| a == Multiple(k, tick);
    GridQuotient(k, tick);
    assert (a / tick).Floor == k && (-(a / tick)).Floor == -k;
  }

  /** Rounding to the grid never passes a price that is on it. */
  lemma RoundsWithin(x: real, a: real, tick: real)
    requires tick > 0.0 && OnGrid(a, tick)
    ensures CeilTick(x, tick) <= a <==> x <= a
    ensures FloorTick(x, tick) >= a <==> x >= a
  {
    GridIsFixed(a, tick);
    CeilTickIs(x, tick);
    FloorTickIs(x, tick);
    if x <= a {
      CeilTickMono(x, a, tick);
    }
    if x >= a {
      FloorTickMono(a, x, tick);
    }
  }

  /** The exit side moves no further from mid exactly when it is at least a tick away or its tightened
      minimum distance of one tick is no more than its distance. */
  lemma ExitSideNoFurtherIff(mid: real, b: real, a: real, factor: real, tick: real)
    requires tick > 0.0 && 0.0 < factor <= 1.0 && b < mid < a && OnGrid(a, tick) && OnGrid(b, tick)
    ensures BiasedAsk(mid, a, factor, tick) <= a <==> a - mid >= tick || Scaled(tick, factor) <= a - mid
    ensures BiasedBid(mid, b, factor, tick) >= b <==> mid - b >= tick || Scaled(tick, factor) <= mid - b
  {
    var below, above := Max(mid - b, tick), Max(a - mid, tick);
    ShrinksIff(mid - b, factor, tick);
    ShrinksIff(a - mid, factor, tick);
    RoundsWithin(mid + Scaled(above, factor), a, tick);
    RoundsWithin(mid - Scaled(below, factor), b, tick);
    AboveSafe(mid, above, above, factor, tick);
    BelowSafe(mid, below, below, factor, tick);
  }

  lemma ShrinksIff(d: real, factor: real, tick: real)
    requires 0.0 < factor <= 1.0 && tick > 0.0 && d > 0.0
    ensures Scaled(Max(d, tick), factor) <= d <==> d >= tick || Scaled(tick, factor) <= d
  {
    if d >= tick {
      assert Max(d, tick) == d;
      assert Scaled(d, factor) <= d by {
        ProductOrder(d, factor, 1.0);
      }
    }
  }

  /** A mid of 100.05 and an ask one half tick above it: biasing by nothing moves the ask out by a tick. */
  lemma ExitMovesOutExample()
    ensures BiasedAsk(100.05, 100.1, 1.0, 0.1) == 100.2
  {
    assert Max(100.1 - 100.05, 0.1) == 0.1;
    assert CeilTick(100.15, 0.1) == 100.2;
  }

  // ---- The whole pipeline ------------------------------------------------

  datatype Desk = Desk(
    mid: real, rawPosition: real, dustUsd: real, maxPosUsd: real, numLevels: nat, spreadFactor: real,
    fallbackBps: real, multiplier: real, adverseExcess: real, bias: BiasCfg)

  /** A position worth less than the dust threshold is quoted as flat. */
  predicate Dusted(d: Desk) {
    Abs(d.rawPosition) * d.mid < d.dustUsd
  }

  function Position(d: Desk): real {
    if Dusted(d) then 0.0 else d.rawPosition
  }

  /** What leaves the pipeline: engine, ladder, quality multiplier, inventory bias. */
  function Pipeline(e: Engine, d: Desk): seq<Level>
    requires e.tick > 0.0
  {
    var built := BuiltLevels(EngineQuote(e, d.mid, Position(d)), d.mid, Position(d), d.maxPosUsd, e.tick,
                             d.numLevels, SpreadFactors(d.spreadFactor, d.numLevels), d.fallbackBps);
    var widened := QualityWidened(built, d.mid, d.multiplier, e.tick);
    Biased(widened, d.mid, BiasFactors(d.mid, Position(d), d.maxPosUsd, d.adverseExcess, d.bias), e.tick)
  }

  /** For every volatility, alpha, position, limit, multiplier and bias setting: every quote is a
      whole number of ticks, bids are below mid and asks above it, and deeper levels are never
      closer to mid. */
  lemma PipelineSafe(e: Engine, d: Desk)
    requires e.tick > 0.0 && d.mid > 0.0 && e.minHalfSpreadBps > 0.0 && d.spreadFactor >= 1.0
    ensures Safe(Pipeline(e, d), d.mid, e.tick)
  {
    var built := BuiltLevels(EngineQuote(e, d.mid, Position(d)), d.mid, Position(d), d.maxPosUsd, e.tick,
                             d.numLevels, SpreadFactors(d.spreadFactor, d.numLevels), d.fallbackBps);
    BuiltSafe(e, d.mid, Position(d), d.maxPosUsd, d.numLevels, d.spreadFactor, d.fallbackBps);
    QualityKeepsSafe(built, d.mid, d.multiplier, e.tick);
    BiasFactorsPositive(d.mid, Position(d), d.maxPosUsd, d.adverseExcess, d.bias);
    BiasKeepsSafe(QualityWidened(built, d.mid, d.multiplier, e.tick), d.mid,
                  BiasFactors(d.mid, Position(d), d.maxPosUsd, d.adverseExcess, d.bias), e.tick);
  }

  const LONG_DESK := Desk(100.0, 10.0, 0.0, 2000.0, 1, 1.5, 4.0, 2.0, 0.0, DEFAULT_BIAS)

  lemma ExampleBuilt(bid: real, ask: real)
    ensures BuiltLevels(Some((bid, ask)), 100.0, 10.0, 2000.0, 0.1, 1, SpreadFactors(1.5, 1), 4.0)
         == [(Some(bid), Some(ask))]
  {
    assert !AtLimit(10.0, 100.0, 2000.0);
  }

  lemma ExampleWidened()
    ensures QualityWidened([(Some(98.9), Some(101.0))], 100.0, 2.0, 0.1) == [(Some(97.8), Some(102.0))]
  {
    assert Scaled(Max(100.0 - 98.9, 0.0), 2.0) == 2.2 && Scaled(Max(101.0 - 100.0, 0.0), 2.0) == 2.0;
    assert 97.8 == Multiple(978, 0.1) && 102.0 == Multiple(1020, 0.1);
    GridIsFixed(97.8, 0.1);
    GridIsFixed(102.0, 0.1);
  }

  lemma ExampleBiased()
    ensures Biased([(Some(97.8), Some(102.0))], 100.0, Some((1.375, 0.775)), 0.1) == [(Some(96.9), Some(101.6))]
  {
    assert Scaled(Max(100.0 - 97.8, 0.1), 1.375) == 3.025 && Scaled(Max(102.0 - 100.0, 0.1), 0.775) == 1.55;
    assert FloorTick(96.975, 0.1) == 96.9 && CeilTick(101.55, 0.1) == 101.6;
  }

  /** End to end: ten long at a mid of 100 and half of the limit, doubled for quality and biased to get
      out: the engine's 98.9 / 101.0 becomes 97.8 / 102.0 and then 96.9 / 101.6. */
  lemma PipelineExample()
    ensures Pipeline(LEANING, LONG_DESK) == [(Some(96.9), Some(101.6))]
  {
    assert Position(LONG_DESK) == 10.0;
    LeaningExample();
    BiasExample();
    ExampleBuilt(98.9, 101.0);
    ExampleWidened();
    ExampleBiased();
  }

  // ---- The code that builds and rewrites the ladder ----------------------

  method FallbackLevels(mid: real, position: real, tick: real, bps: real, numLevels: nat) returns (levels: seq<Level>)
    requires numLevels >= 1
    ensures levels == FallbackReduceOnly(mid, position, tick, bps, numLevels)
  {
    levels := seq(numLevels, i => (None, None));
    if Abs(position) < EPSILON || mid <= 0.0 {
      return;
    }
    var depth := Max(mid * Max(bps, 1.0) / 10000.0, MinDepth(mid, tick));
    if position > 0.0 {
      var ask := CeilTick(mid + depth, tick);
      if ask <= mid {
        ask := mid + MinDepth(mid, tick);
      }
      levels := levels[0 := (None, Some(ask))];
    } else {
      var bid := FloorTick(mid - depth, tick);
      if bid >= mid {
        bid := mid - MinDepth(mid, tick);
      }
      levels := levels[0 := (Some(bid), None)];
    }
  }

  method BuildQuoteLevels(l0: Option<(real, real)>, mid: real, position: real, maxPosUsd: real, tick: real,
                          numLevels: nat, factors: seq<real>, bps: real) returns (levels: seq<Level>)
    requires numLevels >= 1
    ensures levels == BuiltLevels(l0, mid, position, maxPosUsd, tick, numLevels, factors, bps)
  {
    if l0.None? || maxPosUsd <= 0.0 {
      if Abs(position) >= EPSILON {
        levels := FallbackLevels(mid, position, tick, bps, numLevels);
      } else {
        levels := seq(numLevels, i => (None, None));
      }
      return;
    }
    var buy, sell := Some(l0.value.0), Some(l0.value.1);
    if AtLimit(position, mid, maxPosUsd) {
      if position > 0.0 {
        buy := None;
      } else if position < 0.0 {
        sell := None;
      }
    }
    levels := [(buy, sell)];
    for lvl := 1 to numLevels
      invariant |levels| == lvl
      invariant forall i :: 0 <= i < lvl ==> levels[i] == LevelAt((buy, sell), mid, tick, factors, i)
    {
      var factor := if lvl < |factors| then factors[lvl] else 1.0;
      var bid := if buy.Some? then Some(DeeperBid(mid, buy.value, factor, tick)) else None;
      var ask := if sell.Some? then Some(DeeperAsk(mid, sell.value, factor, tick)) else None;
      levels := levels + [(bid, ask)];
    }
    assert (buy, sell) == Limited(l0.value, mid, position, maxPosUsd);
  }

  /** Widen every level's depth in place. */
  method ApplyQualitySpreadMultiplier(levels: array<Level>, mid: real, multiplier: real, tick: real)
    modifies levels
    ensures levels[..] == QualityWidened(old(levels[..]), mid, multiplier, tick)
  {
    if multiplier <= 1.0001 || mid <= 0.0 {
      return;
    }
    for i := 0 to levels.Length
      invariant forall k :: 0 <= k < i ==> levels[k] == WidenedLevel(old(levels[k]), mid, multiplier, tick)
      invariant forall k :: i <= k < levels.Length ==> levels[k] == old(levels[k])
    {
      var (bid, ask) := levels[i];
      if bid.Some? {
        bid := Some(WidenedBid(mid, bid.value, multiplier, tick));
      }
      if ask.Some? {
        ask := Some(WidenedAsk(mid, ask.value, multiplier, tick));
      }
      levels[i] := (bid, ask);
    }
  }

  /** Tighten the reducing side and widen the adding side in place. */
  method ApplyInventoryExitBias(levels: array<Level>, mid: real, position: real, maxPosUsd: real,
                                adverseExcess: real, cfg: BiasCfg, tick: real)
    modifies levels
    ensures levels[..] == Biased(old(levels[..]), mid, BiasFactors(mid, position, maxPosUsd, adverseExcess, cfg), tick)
  {
    var factors := BiasFactors(mid, position, maxPosUsd, adverseExcess, cfg);
    if factors.None? {
      return;
    }
    for i := 0 to levels.Length
      invariant forall k :: 0 <= k < i ==> levels[k] == BiasedLevel(old(levels[k]), mid, factors.value, tick)
      invariant forall k :: i <= k < levels.Length ==> levels[k] == old(levels[k])
    {
      var (bid, ask) := levels[i];
      if bid.Some? {
        bid := Some(BiasedBid(mid, bid.value, factors.value.0, tick));
      }
      if ask.Some? {
        ask := Some(BiasedAsk(mid, ask.value, factors.value.1, tick));
      }
      levels[i] := (bid, ask);
    }
  }

  /** One quote cycle's ladder, ready for the order diff. */
  method QuoteLadder(e: Engine, d: Desk) returns (ladder: seq<Level>)
    requires e.tick > 0.0 && d.numLevels >= 1
    ensures ladder == Pipeline(e, d)
    ensures d.mid > 0.0 && e.minHalfSpreadBps > 0.0 && d.spreadFactor >= 1.0 ==> Safe(ladder, d.mid, e.tick)
  {
    var factors := SpreadFactors(d.spreadFactor, d.numLevels);
    var built := BuildQuoteLevels(EngineQuote(e, d.mid, Position(d)), d.mid, Position(d), d.maxPosUsd, e.tick,
                                  d.numLevels, factors, d.fallbackBps);
    var levels := new Level[|built|](i requires 0 <= i < |built| => built[i]);
    assert levels[..] == built;
    ApplyQualitySpreadMultiplier(levels, d.mid, d.multiplier, e.tick);
    ApplyInventoryExitBias(levels, d.mid, Position(d), d.maxPosUsd, d.adverseExcess, d.bias, e.tick);
    ladder := levels[..];
    if d.mid > 0.0 && e.minHalfSpreadBps > 0.0 && d.spreadFactor >= 1.0 {
      PipelineSafe(e, d);
    }
  }
}
