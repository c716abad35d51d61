/**
Live fill accounting: signed position, entry VWAP and realized PnL, and the conservation law
that ties them to the cash that changed hands.
*/
module FillAccounting {
  import opened Common

  /** Persistable accounting state plus the session counters. */
  datatype Acct = Acct(feeRate: real, pos: real, vwap: real, realized: real, fills: nat, volume: real)

  datatype Trade = Trade(side: Side, price: real, size: real)

  function FromSnapshot(feeRate: real, pos: real, vwap: real, realized: real): Acct {
    Acct(feeRate, pos, vwap, realized, 0, 0.0)
  }

  function Signed(t: Trade): real {
    if t.side == Buy then t.size else -t.size
  }

  function Fee(t: Trade, rate: real): real {
    Abs(t.price * t.size * rate)
  }

  // ---- The four position branches ----------------------------------------

  predicate SameSide(x: real, y: real) {
    x * y > 0.0
  }

  /** Size-weighted average of the old entry and the fill. */
  function Averaged(pos: real, vwap: real, s: real, price: real): real
    requires pos != 0.0
  {
    Weighted(Abs(pos), vwap, Abs(s), price)
  }

  function Weighted(a: real, v: real, b: real, p: real): real
    requires a + b != 0.0
  {
    (a * v + b * p) / (a + b)
  }

  /** Profit on `size` units bought at `from` and sold at `to`. */
  function Gain(from: real, to: real, size: real): real {
    (to - from) * size
  }

  function Notional(t: Trade): real {
    Abs(t.price * t.size)
  }

  datatype Branch = Open | Add | Close | Reduce | Flip

  function Classify(pos: real, s: real): Branch {
    if Abs(pos) < EPSILON then Open
    else if SameSide(pos, s) then Add
    else if Abs(pos + s) < EPSILON then Close
    else if SameSide(pos, pos + s) then Reduce
    else Flip
  }

  /** PnL of the leg closed by a fill against the position. */
  function ClosedLeg(a: Acct, t: Trade): real {
    var closing := Min(Abs(a.pos), Abs(Signed(t)));
    if a.pos > 0.0 && t.side == Sell then Gain(a.vwap, t.price, closing)
    else if a.pos < 0.0 && t.side == Buy then Gain(t.price, a.vwap, closing)
    else 0.0
  }

  function NewPosition(a: Acct, t: Trade): real {
    var s := Signed(t);
    match Classify(a.pos, s)
    case Open => s
    case Close => 0.0
    case _ => a.pos + s
  }

  function NewVwap(a: Acct, t: Trade): real {
    var s := Signed(t);
    match Classify(a.pos, s)
    case Open => if Abs(s) >= EPSILON then t.price else 0.0
    case Add => Averaged(a.pos, a.vwap, s, t.price)
    case Close => 0.0
    case Reduce => a.vwap
    case Flip => t.price
  }

  function RealizedDelta(a: Acct, t: Trade): real {
    -Fee(t, a.feeRate) + if Classify(a.pos, Signed(t)) in {Open, Add} then 0.0 else ClosedLeg(a, t)
  }

  function Applied(a: Acct, t: Trade): Acct {
    a.(pos := NewPosition(a, t), vwap := NewVwap(a, t), realized := a.realized + RealizedDelta(a, t),
       fills := a.fills + 1, volume := a.volume + Notional(t))
  }

  // ---- The tick grid -----------------------------------------------------

  /** On a grid no finer than EPSILON, dust is zero. */
  lemma GridDust(x: real, tick: real)
    requires tick >= EPSILON && OnGrid(x, tick) && Abs(x) < EPSILON
    ensures x == 0.0
  {
    var k: int :| x == Multiple(k, tick);
    NonZeroMultiple(k, tick);
  }

  lemma NonZeroMultiple(k: int, tick: real)
    requires tick > 0.0
    ensures k != 0 ==> Abs(Multiple(k, tick)) >= tick
  {
    if k >= 1 {
      assert (k as real - 1.0) * tick >= 0.0;
    } else if k <= -1 {
      assert (-(k as real) - 1.0) * tick >= 0.0;
    }
  }

  lemma GridSum(x: real, y: real, tick: real)
    requires OnGrid(x, tick) && OnGrid(y, tick)
    ensures OnGrid(x + y, tick) && OnGrid(-x, tick)
  {
    var j: int :| x == Multiple(j, tick);
    var k: int :| y == Multiple(k, tick);
    assert x + y == Multiple(j + k, tick);
    assert -x == Multiple(-j, tick);
  }

  lemma ZeroOnGrid(tick: real)
    ensures OnGrid(0.0, tick)
  {
    assert 0.0 == Multiple(0, tick);
  }

  lemma SignedOnGrid(t: Trade, tick: real)
    requires OnGrid(t.size, tick)
    ensures OnGrid(Signed(t), tick)
  {
    GridSum(t.size, t.size, tick);
  }

  /** On the grid a fill moves the position by exactly its signed size. */
  lemma AppliedPosition(a: Acct, t: Trade, tick: real)
    requires tick >= EPSILON && OnGrid(a.pos, tick) && OnGrid(t.size, tick)
    ensures Applied(a, t).pos == a.pos + Signed(t) && OnGrid(Applied(a, t).pos, tick)
  {
    SignedOnGrid(t, tick);
    GridSum(a.pos, Signed(t), tick);
    match Classify(a.pos, Signed(t))
    case Open => GridDust(a.pos, tick);
    case Close =>
      GridDust(a.pos + Signed(t), tick);
      ZeroOnGrid(tick);
    case _ =>
  }

  // ---- Conservation ------------------------------------------------------

  /** Cash received for a fill, before fees. */
  function Cash(t: Trade): real {
    -Signed(t) * t.price
  }

  /** Entry value of the open position. */
  function Basis(a: Acct): real {
    a.pos * a.vwap
  }

  /** The realized PnL of one fill is its cash plus the change of the position's entry value,
      less the fee. */
  predicate Conserves(a: Acct, t: Trade) {
    RealizedDelta(a, t) == Cash(t) + Basis(Applied(a, t)) - Basis(a) - Fee(t, a.feeRate)
  }

  /** The fills the closed-leg branch misreads: a negative size against the position. */
  predicate Misread(a: Acct, t: Trade) {
    t.size < 0.0 && a.pos * Signed(t) < 0.0 && t.price != a.vwap
  }

  lemma AddBasis(pos: real, vwap: real, s: real, price: real, v': real)
    requires pos != 0.0 && SameSide(pos, s) && v' == Averaged(pos, vwap, s, price)
    ensures (pos + s) * v' == pos * vwap + s * price
  {
  }

  lemma SameSign(x: real, y: real)
    ensures x * y > 0.0 <==> (x > 0.0 && y > 0.0) || (x < 0.0 && y < 0.0)
    ensures x * y < 0.0 <==> (x > 0.0 && y < 0.0) || (x < 0.0 && y > 0.0)
  {
  }

  /** The PnL of closing `closing` units of a position entered at `vwap`. */
  function FullLeg(pos: real, vwap: real, price: real, closing: real): real {
    if pos > 0.0 then Gain(vwap, price, closing) else Gain(price, vwap, closing)
  }

  /** Entry value after a fill against the position. */
  function Remaining(pos: real, vwap: real, s: real, price: real): real {
    if Abs(s) <= Abs(pos) then (pos + s) * vwap else (pos + s) * price
  }

  /** How large a fill against the position is, by branch. */
  lemma ExitSizes(pos: real, s: real)
    requires Classify(pos, s) in {Close, Reduce, Flip}
    ensures pos != 0.0 && pos * s <= 0.0
    ensures Classify(pos, s) == Reduce ==> Abs(s) <= Abs(pos)
    ensures Classify(pos, s) == Flip ==> Abs(s) > Abs(pos)
  {
  }

  /** The entry value left by a fill that is not an open or an add. */
  lemma OpposedBasis(a: Acct, t: Trade, tick: real)
    requires tick >= EPSILON && OnGrid(a.pos, tick) && OnGrid(t.size, tick)
    requires Classify(a.pos, Signed(t)) in {Close, Reduce, Flip}
    ensures Basis(Applied(a, t)) == Remaining(a.pos, a.vwap, Signed(t), t.price)
  {
    ExitSizes(a.pos, Signed(t));
    AppliedPosition(a, t, tick);
  }

  /** Without a closed leg, value is conserved when the entry value grows by what was paid. */
  lemma EntryConserves(a: Acct, t: Trade)
    requires Classify(a.pos, Signed(t)) in {Open, Add}
    ensures Conserves(a, t) <==> Basis(Applied(a, t)) == Basis(a) - Cash(t)
  {
  }

  /** With a closed leg, value is conserved when the leg makes up the difference. */
  lemma ExitConserves(a: Acct, t: Trade)
    requires Classify(a.pos, Signed(t)) !in {Open, Add}
    ensures Conserves(a, t) <==> ClosedLeg(a, t) == Cash(t) + Basis(Applied(a, t)) - Basis(a)
  {
  }

  lemma OpenBasis(a: Acct, t: Trade, tick: real)
    requires tick >= EPSILON && OnGrid(a.pos, tick) && OnGrid(t.size, tick)
    requires Classify(a.pos, Signed(t)) == Open
    ensures a.pos == 0.0 && Basis(a) == 0.0 && Basis(Applied(a, t)) == -Cash(t)
  {
    GridDust(a.pos, tick);
    SignedOnGrid(t, tick);
    if Abs(Signed(t)) < EPSILON {
      GridDust(Signed(t), tick);
    }
  }

  lemma ExitValue(a: Acct, t: Trade, tick: real, closing: real)
    requires tick >= EPSILON && OnGrid(a.pos, tick) && OnGrid(t.size, tick)
    requires Classify(a.pos, Signed(t)) in {Close, Reduce, Flip}
    requires closing == Min(Abs(a.pos), Abs(Signed(t)))
    ensures a.pos != 0.0 && a.pos * Signed(t) <= 0.0
    ensures Cash(t) + Basis(Applied(a, t)) - Basis(a) == FullLeg(a.pos, a.vwap, t.price, closing)
  {
    ExitSizes(a.pos, Signed(t));
    OpposedBasis(a, t, tick);
    LegValue(a, t, closing);
  }

  lemma LegValue(a: Acct, t: Trade, closing: real)
    requires a.pos != 0.0 && a.pos * Signed(t) <= 0.0 && closing == Min(Abs(a.pos), Abs(Signed(t)))
    ensures Cash(t) + Remaining(a.pos, a.vwap, Signed(t), t.price) - Basis(a)
         == FullLeg(a.pos, a.vwap, t.price, closing)
  {
  }

  lemma ExitLeg(a: Acct, t: Trade, tick: real)
    requires tick >= EPSILON && OnGrid(a.pos, tick) && OnGrid(t.size, tick)
    requires Classify(a.pos, Signed(t)) in {Close, Reduce, Flip}
    ensures ClosedLeg(a, t) == Cash(t) + Basis(Applied(a, t)) - Basis(a) <==> !Misread(a, t)
  {
    var closing := Min(Abs(a.pos), Abs(Signed(t)));
    ExitValue(a, t, tick, closing);
    MissingLeg(a, t, closing);
  }

  /** On the grid one fill conserves value exactly when it is not misread. */
  lemma ConservesIff(a: Acct, t: Trade, tick: real)
    requires tick >= EPSILON && OnGrid(a.pos, tick) && OnGrid(t.size, tick)
    ensures Conserves(a, t) <==> !Misread(a, t)
  {
    SameSign(a.pos, Signed(t));
    match Classify(a.pos, Signed(t))
    case Open =>
      EntryConserves(a, t);
      OpenBasis(a, t, tick);
    case Add =>
      EntryConserves(a, t);
      AddBasis(a.pos, a.vwap, Signed(t), t.price, NewVwap(a, t));
    case _ =>
      ExitConserves(a, t);
      ExitLeg(a, t, tick);
  }

  /** A buy of minus one against a long position of one realizes nothing, though it closes it. */
  lemma NegativeSizeExample()
    ensures !Conserves(Acct(0.0, 1.0, 10.0, 0.0, 0, 0.0), Trade(Buy, 12.0, -1.0))
  {
    assert 1.0 == Multiple(1, 1.0) && -1.0 == Multiple(-1, 1.0);
    ConservesIff(Acct(0.0, 1.0, 10.0, 0.0, 0, 0.0), Trade(Buy, 12.0, -1.0), 1.0);
  }

  /** The closed-leg branches cover every fill but one of negative size against the position. */
  lemma MissingLeg(a: Acct, t: Trade, closing: real)
    requires a.pos != 0.0 && a.pos * Signed(t) <= 0.0 && closing == Min(Abs(a.pos), Abs(Signed(t)))
    ensures ClosedLeg(a, t) == FullLeg(a.pos, a.vwap, t.price, closing) <==> !Misread(a, t)
  {
    SameSign(a.pos, Signed(t));
    NonZeroProduct(t.price - a.vwap, closing);
    NonZeroProduct(a.vwap - t.price, closing);
  }

  lemma NonZeroProduct(x: real, y: real)
    ensures x * y == 0.0 <==> x == 0.0 || y == 0.0
  {
  }

  /** Below EPSILON the position is thrown away: opening over dust conserves value exactly when
      the dust had no entry value. */
  lemma DustOpenExact(a: Acct, t: Trade)
    requires Abs(a.pos) < EPSILON && Abs(t.size) >= EPSILON
    ensures Conserves(a, t) <==> Basis(a) == 0.0
  {
  }

  /** Off the grid a close may leave a remainder below EPSILON, which is thrown away: value is
      conserved exactly when that remainder had no entry value. */
  lemma CloseExact(a: Acct, t: Trade)
    requires Classify(a.pos, Signed(t)) == Close && t.size >= 0.0
    ensures Conserves(a, t) <==> Remaining(a.pos, a.vwap, Signed(t), t.price) == 0.0
  {
    var closing := Min(Abs(a.pos), Abs(Signed(t)));
    ExitSizes(a.pos, Signed(t));
    ExitConserves(a, t);
    LegValue(a, t, closing);
    MissingLeg(a, t, closing);
  }

  // ---- Whole runs --------------------------------------------------------

  function Run(a: Acct, ts: seq<Trade>): Acct {
    if ts == [] then a else Applied(Run(a, ts[..|ts| - 1]), ts[|ts| - 1])
  }

  function TotalCash(ts: seq<Trade>): real {
    if ts == [] then 0.0 else TotalCash(ts[..|ts| - 1]) + Cash(ts[|ts| - 1])
  }

  /** The traded notional, always counted positive. */
  function Turnover(ts: seq<Trade>): real {
    if ts == [] then 0.0 else Turnover(ts[..|ts| - 1]) + Abs(ts[|ts| - 1].price * ts[|ts| - 1].size)
  }

  /** The fee rate on everything traded. */
  function TotalFees(ts: seq<Trade>, rate: real): real {
    Turnover(ts) * Abs(rate)
  }

  lemma FeeOnNotional(t: Trade, rate: real)
    ensures Fee(t, rate) == Abs(t.price * t.size) * Abs(rate)
  {
    var n := t.price * t.size;
    assert t.price * t.size * rate == n * rate;
    AbsProduct(n, rate);
  }

  lemma AbsProduct(x: real, y: real)
    ensures Abs(x * y) == Abs(x) * Abs(y)
  {
    SameSign(x, y);
  }

  lemma FeesStep(ts: seq<Trade>, rate: real)
    requires ts != []
    ensures TotalFees(ts, rate) == TotalFees(ts[..|ts| - 1], rate) + Fee(ts[|ts| - 1], rate)
  {
    FeeOnNotional(ts[|ts| - 1], rate);
    Distributes(Turnover(ts[..|ts| - 1]), Abs(ts[|ts| - 1].price * ts[|ts| - 1].size), Abs(rate));
  }

  lemma Distributes(x: real, y: real, z: real)
    ensures (x + y) * z == x * z + y * z
  {
  }

  /** The session counters: one per fill, and the turnover. */
  lemma {:induction false} RunCounts(a: Acct, ts: seq<Trade>)
    ensures Run(a, ts).fills == a.fills + |ts| && Run(a, ts).volume == a.volume + Turnover(ts)
  {
    if ts != [] {
      RunCounts(a, ts[..|ts| - 1]);
    }
  }

  function TotalSigned(ts: seq<Trade>): real {
    if ts == [] then 0.0 else TotalSigned(ts[..|ts| - 1]) + Signed(ts[|ts| - 1])
  }

  ghost predicate GridTrades(ts: seq<Trade>, tick: real) {
    forall i :: 0 <= i < |ts| ==> OnGrid(ts[i].size, tick) && ts[i].size >= 0.0
  }

  /** Through opens, adds, partial closes, exact closes and flips, cumulative realized PnL is
      cash flow plus the change in entry value minus fees, relative to the starting snapshot. */
  lemma {:induction false} RunConserves(a: Acct, ts: seq<Trade>, tick: real)
    requires tick >= EPSILON && OnGrid(a.pos, tick) && GridTrades(ts, tick)
    ensures Run(a, ts).pos == a.pos + TotalSigned(ts) && OnGrid(Run(a, ts).pos, tick)
    ensures Run(a, ts).feeRate == a.feeRate
    ensures Run(a, ts).realized - a.realized
         == TotalCash(ts) + Basis(Run(a, ts)) - Basis(a) - TotalFees(ts, a.feeRate)
  {
    if ts != [] {
      var before, t := ts[..|ts| - 1], ts[|ts| - 1];
      RunConserves(a, before, tick);
      AppliedPosition(Run(a, before), t, tick);
      ConservesIff(Run(a, before), t, tick);
      FeesStep(ts, a.feeRate);
    }
  }

  // ---- The entry VWAP ----------------------------------------------------

  /** Prices of the fills that built the open position: since it was last opened or flipped,
      those that added to it. */
  function EntryPrices(a: Acct, ts: seq<Trade>): seq<real> {
    if ts == [] then []
    else
      var before, t := ts[..|ts| - 1], ts[|ts| - 1];
      match Classify(Run(a, before).pos, Signed(t))
      case Open => [t.price]
      case Add => EntryPrices(a, before) + [t.price]
      case Close => []
      case Reduce => EntryPrices(a, before)
      case Flip => [t.price]
  }

  ghost predicate Between(v: real, prices: seq<real>) {
    exists i, j :: 0 <= i < |prices| && 0 <= j < |prices| && prices[i] <= v <= prices[j]
  }

  lemma WeightedMean(a: real, v: real, b: real, p: real)
    requires a > 0.0 && b > 0.0
    ensures Min(v, p) <= Weighted(a, v, b, p) <= Max(v, p)
  {
    var q := Weighted(a, v, b, p);
    assert q * (a + b) == a * v + b * p;
    if v <= p {
      assert b * v <= b * p && a * v <= a * p;
      assert v * (a + b) <= q * (a + b) <= p * (a + b);
    } else {
      assert b * p <= b * v && a * p <= a * v;
      assert p * (a + b) <= q * (a + b) <= v * (a + b);
    }
  }

  lemma AveragedBetween(pos: real, vwap: real, s: real, price: real)
    requires pos != 0.0 && s != 0.0
    ensures Min(vwap, price) <= Averaged(pos, vwap, s, price) <= Max(vwap, price)
  {
    WeightedMean(Abs(pos), vwap, Abs(s), price);
  }

  lemma BetweenGrows(v: real, prices: seq<real>, p: real, v': real)
    requires Between(v, prices) && Min(v, p) <= v' <= Max(v, p)
    ensures Between(v', prices + [p])
  {
    var i, j :| 0 <= i < |prices| && 0 <= j < |prices| && prices[i] <= v <= prices[j];
    var ps := prices + [p];
    assert ps[i] == prices[i] && ps[j] == prices[j] && ps[|prices|] == p;
    var lo := if v <= p then i else |prices|;
    var hi := if v <= p then |prices| else j;
    assert ps[lo] <= v' <= ps[hi];
  }

  /** Starting flat, the VWAP of an open position lies between two of its entry prices. */
  lemma {:induction false} VwapBetweenEntries(a: Acct, ts: seq<Trade>, tick: real)
    requires tick >= EPSILON && a.pos == 0.0 && GridTrades(ts, tick)
    ensures Run(a, ts).pos != 0.0 ==> Between(Run(a, ts).vwap, EntryPrices(a, ts))
  {
    if ts != [] {
      var before, t := ts[..|ts| - 1], ts[|ts| - 1];
      var prev := Run(a, before);
      VwapBetweenEntries(a, before, tick);
      ZeroOnGrid(tick);
      RunConserves(a, before, tick);
      AppliedPosition(prev, t, tick);
      VwapStep(prev, t, EntryPrices(a, before), EntryPrices(a, ts), tick);
    }
  }

  lemma VwapStep(a: Acct, t: Trade, prices: seq<real>, prices': seq<real>, tick: real)
    requires tick >= EPSILON && OnGrid(a.pos, tick) && OnGrid(t.size, tick)
    requires a.pos != 0.0 ==> Between(a.vwap, prices)
    requires prices' == match Classify(a.pos, Signed(t))
                        case Add => prices + [t.price]
                        case Close => []
                        case Reduce => prices
                        case _ => [t.price]
    ensures Applied(a, t).pos != 0.0 ==> Between(Applied(a, t).vwap, prices')
  {
    var s := Signed(t);
    SameSign(a.pos, s);
    match Classify(a.pos, s)
    case Open =>
      SignedOnGrid(t, tick);
      if Abs(s) < EPSILON {
        GridDust(s, tick);
      }
      assert [t.price][0] == t.price;
    case Add =>
      AveragedBetween(a.pos, a.vwap, s, t.price);
      BetweenGrows(a.vwap, prices, t.price, NewVwap(a, t));
    case Flip => assert [t.price][0] == t.price;
    case _ =>
  }

  // ---- The accounting object ---------------------------------------------

  class FillAccounting {
    const makerFeeRate: real
    var positionSize: real
    var entryVwap: real
    var realizedPnl: real
    var fillCount: nat
    var volumeUsd: real

    ghost function View(): Acct
      reads this
    {
      Acct(makerFeeRate, positionSize, entryVwap, realizedPnl, fillCount, volumeUsd)
    }

    constructor FromSnapshotState(feeRate: real, position: real, vwap: real, realized: real)
      ensures View() == FromSnapshot(feeRate, position, vwap, realized)
    {
      makerFeeRate := feeRate;
      positionSize, entryVwap, realizedPnl := position, vwap, realized;
      fillCount, volumeUsd := 0, 0.0;
    }

    /** Re-seed in place from an exchange snapshot. */
    method Reseed(position: real, vwap: real, realized: real)
      modifies this
      ensures View() == FromSnapshot(makerFeeRate, position, vwap, realized)
    {
      positionSize, entryVwap, realizedPnl := position, vwap, realized;
      fillCount, volumeUsd := 0, 0.0;
    }

    /** Apply one fill; returns the realized delta. */
    method Apply(t: Trade) returns (delta: real)
      modifies this
      ensures View() == Applied(old(View()), t)
      ensures delta == RealizedDelta(old(View()), t)
    {
      var s := if t.side == Buy then t.size else -t.size;
      var pos, vwap := positionSize, entryVwap;
      delta := -Fee(t, makerFeeRate);
      if Abs(pos) < EPSILON {
        positionSize := s;
        entryVwap := if Abs(s) >= EPSILON then t.price else 0.0;
      } else if SameSide(pos, s) {
        positionSize := pos + s;
        entryVwap := Averaged(pos, vwap, s, t.price);
      } else {
        var closing := Min(Abs(pos), Abs(s));
        if pos > 0.0 && t.side == Sell {
          delta := delta + Gain(vwap, t.price, closing);
        } else if pos < 0.0 && t.side == Buy {
          delta := delta + Gain(t.price, vwap, closing);
        }
        var candidate := pos + s;
        if Abs(candidate) < EPSILON {
          positionSize, entryVwap := 0.0, 0.0;
        } else if SameSide(pos, candidate) {
          positionSize := candidate;
        } else {
          positionSize, entryVwap := candidate, t.price;
        }
      }
      realizedPnl := realizedPnl + delta;
      fillCount := fillCount + 1;
      volumeUsd := volumeUsd + Notional(t);
    }
  }
}
