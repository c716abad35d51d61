/**
Rolling statistics: a ring buffer whose mean and sum of squared deviations are
maintained by a forward Welford update for the pushed value and a reverse Welford
update for the evicted one.  Arithmetic is over exact reals.
*/
module Rolling {
  import opened Common

  // ---- Batch definitions -------------------------------------------------

  /** Sum of squared deviations of `s` from the point `c`. */
  ghost function SqDev(s: seq<real>, c: real): real {
    if s == [] then 0.0 else SqDev(s[..|s| - 1], c) + (s[|s| - 1] - c) * (s[|s| - 1] - c)
  }

  ghost function Mean(s: seq<real>): real {
    if s == [] then 0.0 else Sum(s) / (|s| as real)
  }

  /** Sum of squared deviations from the mean, computed in two passes. */
  ghost function M2(s: seq<real>): real {
    SqDev(s, Mean(s))
  }

  lemma {:induction false} SumFront(v: real, t: seq<real>)
    ensures Sum([v] + t) == v + Sum(t)
  {
    if t != [] {
      SumFront(v, t[..|t| - 1]);
      assert ([v] + t)[..|t|] == [v] + t[..|t| - 1];
    }
  }

  lemma {:induction false} SqDevFront(v: real, t: seq<real>, c: real)
    ensures SqDev([v] + t, c) == (v - c) * (v - c) + SqDev(t, c)
  {
    if t != [] {
      SqDevFront(v, t[..|t| - 1], c);
      assert ([v] + t)[..|t|] == [v] + t[..|t| - 1];
    }
  }

  /** Moving the reference point: a parallel-axis identity for SqDev. */
  lemma {:induction false} SqDevShift(s: seq<real>, c: real, d: real)
    ensures SqDev(s, d) == SqDev(s, c) + 2.0 * (c - d) * Sum(s) + (|s| as real) * (d * d - c * c)
  {
    if s != [] {
      var t, x := s[..|s| - 1], s[|s| - 1];
      SqDevShift(t, c, d);
      ShiftStep(SqDev(t, c), SqDev(t, d), Sum(t), x, c, d, |t| as real);
    }
  }

  lemma ShiftStep(q: real, q': real, s: real, x: real, c: real, d: real, n: real)
    requires q' == q + 2.0 * (c - d) * s + n * (d * d - c * c)
    ensures q' + (x - d) * (x - d) == q + (x - c) * (x - c) + 2.0 * (c - d) * (s + x) + (n + 1.0) * (d * d - c * c)
  {
  }

  lemma {:induction false} SqDevNonNegative(s: seq<real>, c: real)
    ensures SqDev(s, c) >= 0.0
  {
    if s != [] {
      SqDevNonNegative(s[..|s| - 1], c);
      var x := s[|s| - 1] - c;
      assert x * x >= 0.0;
    }
  }

  // ---- Welford identities ------------------------------------------------

  /** `n` copies of `m` added up. */
  ghost function Copies(n: nat, m: real): real {
    if n == 0 then 0.0 else Copies(n - 1, m) + m
  }

  lemma {:induction false} CopiesIsProduct(n: nat, m: real)
    ensures Copies(n, m) == (n as real) * m
  {
    if n > 0 {
      CopiesIsProduct(n - 1, m);
    }
  }

  /** `m` is the mean of `s`, said without division. */
  ghost predicate IsMean(m: real, s: seq<real>) {
    Copies(|s|, m) == Sum(s) && (s == [] ==> m == 0.0)
  }

  lemma MeanIsUnique(m: real, s: seq<real>)
    ensures IsMean(m, s) <==> m == Mean(s)
  {
    CopiesIsProduct(|s|, m);
    if s != [] {
      var n := |s| as real;
      assert n * Mean(s) == Sum(s);
      if n * m == Sum(s) {
        assert n * (m - Mean(s)) == 0.0;
      }
    }
  }

  lemma MeanAppend(s: seq<real>, v: real, m': real)
    requires (|s| as real + 1.0) * m' == Sum(s) + v
    ensures Sum(s + [v]) == Sum(s) + v && IsMean(m', s + [v])
  {
    assert (s + [v])[..|s|] == s;
    CopiesIsProduct(|s| + 1, m');
  }

  lemma SqDevAppend(s: seq<real>, v: real, c: real)
    ensures SqDev(s + [v], c) == SqDev(s, c) + (v - c) * (v - c)
  {
  }

  /** Adding `v` to a set of values with mean `m` moves the mean to `m'` and M2 by one product. */
  lemma WelfordShift(s: seq<real>, v: real, m: real, m': real)
    requires (|s| as real) * m == Sum(s) && (|s| as real + 1.0) * m' == Sum(s) + v
    ensures SqDev(s, m') + (v - m') * (v - m') == SqDev(s, m) + (v - m) * (v - m')
  {
    SqDevShift(s, m, m');
    WelfordStep(|s| as real, Sum(s), m, m', v, SqDev(s, m), SqDev(s, m'));
  }

  /** Forward Welford: appending `v` raises M2 by (v - old mean)(v - new mean). */
  lemma WelfordAppend(s: seq<real>, v: real, m: real, m': real)
    requires IsMean(m, s) && (|s| as real + 1.0) * m' == Sum(s) + v
    ensures Sum(s + [v]) == Sum(s) + v && IsMean(m', s + [v])
    ensures SqDev(s + [v], m') == SqDev(s, m) + (v - m) * (v - m') >= 0.0
  {
    CopiesIsProduct(|s|, m);
    MeanAppend(s, v, m');
    SquaresAppend(s, v, m, m');
    SqDevNonNegative(s + [v], m');
  }

  lemma SquaresAppend(s: seq<real>, v: real, m: real, m': real)
    requires (|s| as real) * m == Sum(s) && (|s| as real + 1.0) * m' == Sum(s) + v
    ensures SqDev(s + [v], m') == SqDev(s, m) + (v - m) * (v - m')
  {
    SqDevAppend(s, v, m');
    WelfordShift(s, v, m, m');
  }

  /** Reverse Welford: removing the oldest value lowers M2 by the mirrored product. */
  lemma WelfordEvict(v: real, t: seq<real>, m: real, m': real)
    requires IsMean(m', [v] + t)
    requires m == if t != [] then m' + (m' - v) / (|t| as real) else 0.0
    ensures Sum(t) == Sum([v] + t) - v && IsMean(m, t)
    ensures SqDev(t, m) == SqDev([v] + t, m') - (v - m') * (v - m) >= 0.0
  {
    SumFront(v, t);
    EvictedMean(v, t, m, m');
    EvictedSquares(v, t, m, m');
    SqDevNonNegative(t, m);
  }

  lemma EvictedSquares(v: real, t: seq<real>, m: real, m': real)
    requires IsMean(m, t) && Copies(|t| + 1, m') == Sum(t) + v
    ensures SqDev(t, m) == SqDev([v] + t, m') - (v - m') * (v - m)
  {
    CopiesIsProduct(|t| + 1, m');
    CopiesIsProduct(|t|, m);
    SqDevFront(v, t, m');
    WelfordShift(t, v, m, m');
  }

  lemma EvictedMean(v: real, t: seq<real>, m: real, m': real)
    requires Copies(|t| + 1, m') == Sum(t) + v
    requires m == if t != [] then m' + (m' - v) / (|t| as real) else 0.0
    ensures IsMean(m, t)
  {
    CopiesIsProduct(|t| + 1, m');
    CopiesIsProduct(|t|, m);
    if t != [] {
      var n, q := |t| as real, (m' - v) / (|t| as real);
      assert n * q == m' - v;
      assert n * m == n * m' + n * q;
    }
  }

  lemma WelfordStep(n: real, sum: real, m: real, m': real, v: real, q: real, q': real)
    requires n * m == sum && (n + 1.0) * m' == sum + v
    requires q' == q + 2.0 * (m - m') * sum + n * (m' * m' - m * m)
    ensures q' + (v - m') * (v - m') == q + (v - m) * (v - m')
  {
  }

  // ---- The ring buffer ---------------------------------------------------

  /** Mentioned where the figures of a window are needed, so that they stay folded elsewhere. */
  ghost predicate Inspect(w: seq<real>) {
    true
  }

  class RollingStats {
    const root: real -> real   // the platform's square root
    const buffer: array<real>
    const capacity: nat
    var writePos: nat
    var count: nat
    var sum: real
    var m2: real
    var cachedMean: real
    var cachedStd: real

    ghost var window: seq<real>

    /** The values currently in the window, oldest first. */
    ghost function Window(): seq<real>
      reads this
    {
      window
    }

    /** What the ring holds, read from its oldest cell. */
    ghost function Contents(): seq<real>
      requires writePos < capacity == buffer.Length && count <= capacity
      reads this, buffer
    {
      if count < capacity then buffer[..count] else buffer[writePos..] + buffer[..writePos]
    }

    /** The running figures are the batch figures of `w`. */
    ghost predicate Summarised(w: seq<real>)
      reads this
    {
      && sum == Sum(w)
      && IsMean(cachedMean, w)
      && m2 == SqDev(w, cachedMean)
      && cachedStd == if count >= 2 then root(m2 / (count as real)) else 0.0
    }

    /** The last conjunct says `window == Contents() && Summarised(window)`; written this way it is
        unfolded only where a proof mentions `Inspect(window)`. */
    ghost predicate Valid()
      reads this, buffer
    {
      && writePos < capacity == buffer.Length
      && count <= capacity && |window| == count
      && (count < capacity ==> writePos == count)
      && forall w {:trigger Inspect(w)} :: Inspect(w) && w == window ==> w == Contents() && Summarised(w)
    }

    constructor (capacity: nat, root: real -> real)
      requires capacity > 0
      ensures Valid() && fresh(buffer)
      ensures this.capacity == capacity && this.root == root && Window() == []
    {
      this.root := root;
      this.capacity := capacity;
      buffer := new real[capacity](_ => 0.0);
      writePos, count := 0, 0;
      sum, m2, cachedMean, cachedStd := 0.0, 0.0, 0.0, 0.0;
      window := [];
    }

    /** Evict the oldest value of a full window; the negative-m2 guard cannot fire. */
    method Evict()
      requires Valid() && count == capacity
      modifies this`count, this`sum, this`m2, this`cachedMean
      ensures count == capacity - 1
      ensures sum == Sum(window[1..])
      ensures IsMean(cachedMean, window[1..])
      ensures m2 == SqDev(window[1..], cachedMean)
    {
      assert Inspect(window);
      var evicted := buffer[writePos];
      ghost var rest := window[1..];
      assert window == [evicted] + rest;
      var n := count;
      var oldMean := cachedMean;
      var newMean := if n > 1 then oldMean + (oldMean - evicted) / (n as real - 1.0) else 0.0;
      WelfordEvict(evicted, rest, newMean, oldMean);
      m2 := m2 - (evicted - oldMean) * (evicted - newMean);
      if m2 < 0.0 {
        assert false;
      }
      sum := sum - evicted;
      count := count - 1;
      cachedMean := newMean;
    }

    /** Write `value` over the oldest cell and advance the cursor. */
    method Store(value: real)
      requires writePos < capacity == buffer.Length && count < capacity
      requires count < capacity - 1 ==> writePos == count
      modifies this`writePos, this`count, this`sum, buffer
      ensures writePos < capacity && count == old(count) + 1 && sum == old(sum) + value
      ensures count < capacity ==> writePos == count
      ensures Contents() == (if old(writePos) == old(count) then old(buffer[..count])
                             else old(buffer[writePos + 1..] + buffer[..writePos])) + [value]
    {
      buffer[writePos] := value;
      sum := sum + value;
      count := count + 1;
      writePos := writePos + 1;
      if writePos >= capacity {
        writePos := 0;
      }
    }

    /** Forward Welford for the value just stored after `kept`. */
    method Absorb(value: real, ghost kept: seq<real>)
      requires writePos < capacity == buffer.Length && 0 < count <= capacity
      requires count < capacity ==> writePos == count
      requires Contents() == kept + [value] && sum == Sum(kept) + value
      requires IsMean(cachedMean, kept) && m2 == SqDev(kept, cachedMean)
      modifies this`m2, this`cachedMean, this`cachedStd, this`window
      ensures Valid() && Window() == kept + [value]
    {
      var n := count;
      var oldMean := cachedMean;
      var newMean := sum / n as real;
      window := kept + [value];
      assert (n as real) * newMean == sum;
      WelfordAppend(kept, value, oldMean, newMean);
      m2 := m2 + (value - oldMean) * (value - newMean);
      if m2 < 0.0 {
        assert false;
      }
      cachedMean := newMean;
      cachedStd := if n >= 2 then root(m2 / n as real) else 0.0;
    }

    method PushFull(value: real)
      requires Valid() && count == capacity
      modifies this, buffer
      ensures Valid() && Window() == old(Window())[1..] + [value]
    {
      ghost var w := window;
      assert Inspect(w);
      assert w[1..] == buffer[writePos + 1..] + buffer[..writePos];
      Evict();
      Store(value);
      Absorb(value, w[1..]);
    }

    method PushRoom(value: real)
      requires Valid() && count < capacity
      modifies this, buffer
      ensures Valid() && Window() == old(Window()) + [value]
    {
      ghost var w := window;
      assert Inspect(w);
      Store(value);
      Absorb(value, w);
    }

    method Push(value: real)
      requires Valid()
      modifies this, buffer
      ensures Valid()
      ensures Window() == LastN(old(Window()) + [value], capacity)
    {
      if count >= capacity {
        PushFull(value);
      } else {
        PushRoom(value);
      }
    }

    method Clear()
      requires Valid()
      modifies this
      ensures Valid() && Window() == []
    {
      writePos, count := 0, 0;
      sum, m2, cachedMean, cachedStd := 0.0, 0.0, 0.0, 0.0;
      window := [];
    }

    /** z-score of `value` against the window; zero when the deviation underflows. */
    method ZScore(value: real) returns (z: real)
      requires Valid()
      ensures z == Score(value, Window(), root)
    {
      assert Inspect(Window());
      MeanIsUnique(cachedMean, Window());
      if cachedStd < STD_FLOOR {
        return 0.0;
      }
      z := (value - cachedMean) / cachedStd;
    }

    /** `Valid` spelled out. */
    lemma ValidMeans()
      requires writePos < capacity == buffer.Length && count <= capacity && |window| == count
      requires count < capacity ==> writePos == count
      ensures Valid() <==> window == Contents() && Summarised(window)
    {
      assert Inspect(window);
    }

    lemma SumOfWindow()
      requires Valid()
      ensures sum == Sum(Window())
    {
      assert Inspect(window);
    }

    lemma StdOfWindow()
      requires Valid()
      ensures cachedStd == Deviation(Window(), root)
    {
      assert Inspect(window);
      MeanIsUnique(cachedMean, window);
    }

    /** Push a value and score it against the window that now includes it. */
    method PushAndScore(value: real) returns (z: real)
      requires Valid()
      modifies this, buffer
      ensures Valid() && Window() == LastN(old(Window()) + [value], capacity)
      ensures z == Score(value, Window(), root)
    {
      Push(value);
      z := ZScore(value);
    }
  }

  const STD_FLOOR := 0.0000000001

  /** Population standard deviation of a window, zero below two samples. */
  ghost function Deviation(w: seq<real>, root: real -> real): real {
    if |w| >= 2 then root(M2(w) / (|w| as real)) else 0.0
  }

  ghost function Score(value: real, w: seq<real>, root: real -> real): real {
    if Deviation(w, root) < STD_FLOOR then 0.0 else (value - Mean(w)) / Deviation(w, root)
  }

  /** The score has the sign of the value's distance from the mean, and is one a deviation above it. */
  lemma ScoreSign(value: real, w: seq<real>, root: real -> real)
    requires Deviation(w, root) >= STD_FLOOR
    ensures Score(value, w, root) > 0.0 <==> value > Mean(w)
    ensures value == Mean(w) + Deviation(w, root) ==> Score(value, w, root) == 1.0
  {
    var d, s := value - Mean(w), Deviation(w, root);
    assert d / s * s == d;
  }

  /** The deviation is that of the population: of 0 and 2 it is the root of 1. */
  lemma DeviationExample(root: real -> real)
    ensures Mean([0.0, 2.0]) == 1.0 && Deviation([0.0, 2.0], root) == root(1.0)
  {
    var w := [0.0, 2.0];
    assert w[..1] == [0.0] && w[..1][..0] == [];
    assert Sum(w[..1]) == 0.0 && Sum(w) == 2.0;
    assert SqDev(w[..1], 1.0) == 1.0 && SqDev(w, 1.0) == 2.0;
  }

  // ---- Whole runs --------------------------------------------------------

  datatype StatOp = PushOp(value: real) | ClearOp

  /** The values pushed since the last clear. */
  function SinceClear(ops: seq<StatOp>): seq<real> {
    if ops == [] then []
    else
      match ops[|ops| - 1]
      case ClearOp => []
      case PushOp(v) => SinceClear(ops[..|ops| - 1]) + [v]
  }

  /** Any run of pushes and clears leaves the batch statistics of the last `capacity` values. */
  method Replay(stats: RollingStats, ops: seq<StatOp>)
    requires stats.Valid() && stats.Window() == []
    modifies stats, stats.buffer
    ensures stats.Valid()
    ensures stats.Window() == LastN(SinceClear(ops), stats.capacity)
    ensures stats.sum == Sum(LastN(SinceClear(ops), stats.capacity))
    ensures stats.cachedMean == Mean(LastN(SinceClear(ops), stats.capacity))
    ensures stats.m2 == M2(LastN(SinceClear(ops), stats.capacity))
  {
    for i := 0 to |ops|
      invariant stats.Valid()
      invariant stats.Window() == LastN(SinceClear(ops[..i]), stats.capacity)
    {
      assert ops[..i + 1][..i] == ops[..i];
      match ops[i]
      case ClearOp => stats.Clear();
      case PushOp(v) =>
        LastNAppend(SinceClear(ops[..i]), v, stats.capacity);
        stats.Push(v);
    }
    assert ops[..|ops|] == ops;
    assert Inspect(stats.Window());
    MeanIsUnique(stats.cachedMean, stats.Window());
  }
}
