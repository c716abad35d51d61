/**
The volatility / imbalance engine: window samples are taken on a step clock, whatever the message
rate, and quoting waits until enough of them have been seen.
*/
module VolObi {
  import opened Common
  import opened Book
  import opened Rolling
  import opened Quotes

  datatype Sample = Sample(now: int, mid: real)

  datatype Config = Config(
    tick: real, stepNs: int, volScale: real, volToHalfSpread: real, minHalfSpreadBps: real,
    c1: real, skew: real, lookingDepth: real, minWarmupSamples: int)

  // ---- The step clock ----------------------------------------------------

  /** A sample is due one step after the previous one; a previous stamp of 0 counts as none. */
  predicate SampleDue(log: seq<Sample>, now: int, step: int) {
    log == [] || log[|log| - 1].now == 0 || now - log[|log| - 1].now >= step
  }

  function Sampled(log: seq<Sample>, x: Sample, step: int): seq<Sample> {
    if SampleDue(log, x.now, step) then log + [x] else log
  }

  /** The samples accepted from a stream of book updates. */
  function SampleLog(updates: seq<Sample>, step: int): seq<Sample> {
    if updates == [] then []
    else Sampled(SampleLog(updates[..|updates| - 1], step), updates[|updates| - 1], step)
  }

  ghost predicate Spaced(log: seq<Sample>, step: int) {
    forall i :: 0 < i < |log| ==> log[i].now - log[i - 1].now >= step
  }

  /** No sample stamped 0 is followed by one less than a step later. */
  ghost predicate NoZeroStamp(log: seq<Sample>, step: int) {
    forall i :: 0 < i < |log| && log[i - 1].now == 0 ==> log[i].now >= step
  }

  lemma {:induction false} LogSpacedIff(updates: seq<Sample>, step: int)
    ensures var log := SampleLog(updates, step);
            Spaced(log, step) <==> NoZeroStamp(log, step)
  {
    if updates != [] {
      LogSpacedIff(updates[..|updates| - 1], step);
      var before := SampleLog(updates[..|updates| - 1], step);
      var log := SampleLog(updates, step);
      if log != before {
        assert forall i :: 0 <= i < |before| ==> log[i] == before[i];
      }
    }
  }

  /** The stream opens with a stamp of 0 and another update less than a step later. */
  predicate EarlySecond(updates: seq<Sample>, step: int) {
    |updates| >= 2 && updates[0].now == 0 && updates[1].now < step
  }

  lemma {:induction false} LogStart(updates: seq<Sample>, step: int)
    requires step >= 1 && forall i :: 0 <= i < |updates| ==> updates[i].now >= 0
    ensures var log := SampleLog(updates, step);
            && |log| <= |updates| && (updates != [] ==> log != [] && log[0] == updates[0])
            && (|updates| >= 2 && updates[0].now == 0 ==> |log| >= 2 && log[1] == updates[1])
            && (!EarlySecond(updates, step) ==> forall i :: 1 <= i < |log| ==> log[i].now > 0)
  {
    if updates != [] {
      LogStart(updates[..|updates| - 1], step);
    }
  }

  /** For non-negative stamps, accepted samples are a step apart exactly unless the stream opens
      with a stamp of 0 and a second update less than a step later. */
  lemma SpacedIff(updates: seq<Sample>, step: int)
    requires step >= 1 && forall i :: 0 <= i < |updates| ==> updates[i].now >= 0
    ensures Spaced(SampleLog(updates, step), step) <==> !EarlySecond(updates, step)
  {
    LogSpacedIff(updates, step);
    LogStart(updates, step);
  }

  /** The step clock keeps up: the last sample is always less than a step behind the last update. */
  lemma {:induction false} SamplingKeepsUp(updates: seq<Sample>, step: int)
    requires updates != [] && step >= 1
    ensures var log := SampleLog(updates, step);
            log != [] && updates[|updates| - 1].now - log[|log| - 1].now < step
  {
    var before := SampleLog(updates[..|updates| - 1], step);
    if SampleDue(before, updates[|updates| - 1].now, step) {
      assert SampleLog(updates, step) == before + [updates[|updates| - 1]];
    }
  }

  /** Two updates stamped 0 are both sampled. */
  lemma ZeroStampExample(mid: real)
    ensures var updates := [Sample(0, mid), Sample(0, mid)];
            SampleLog(updates, 1) == updates && !Spaced(SampleLog(updates, 1), 1)
  {
    var updates := [Sample(0, mid), Sample(0, mid)];
    assert updates[..1] == [Sample(0, mid)] && updates[..1][..0] == [];
    assert SampleLog(updates[..1], 1) == [Sample(0, mid)];
    assert SampleLog(updates, 1)[1].now - SampleLog(updates, 1)[0].now == 0;
  }

  lemma {:induction false} LogStamps(updates: seq<Sample>, step: int)
    requires forall i :: 0 <= i < |updates| ==> updates[i].now > 0
    ensures var log := SampleLog(updates, step);
            (forall i :: 0 <= i < |log| ==> log[i].now > 0) && |log| <= |updates| && (updates != [] ==> log != [])
  {
    if updates != [] {
      LogStamps(updates[..|updates| - 1], step);
    }
  }

  lemma {:induction false} SpacingAdds(log: seq<Sample>, step: int, i: nat, j: nat)
    requires Spaced(log, step) && i <= j < |log|
    ensures log[j].now - log[i].now >= (j - i) * step
    decreases j - i
  {
    if i < j {
      SpacingAdds(log, step, i, j - 1);
      assert log[j].now - log[j - 1].now >= step;
    }
  }

  /** For any timing with positive stamps, even a clock that steps back, `k` samples later is at
      least `k` steps later. */
  lemma SamplesAreStepsApart(updates: seq<Sample>, step: int, i: nat, j: nat)
    requires forall k :: 0 <= k < |updates| ==> updates[k].now > 0
    requires i <= j < |SampleLog(updates, step)|
    ensures SampleLog(updates, step)[j].now - SampleLog(updates, step)[i].now >= (j - i) * step
  {
    LogStamps(updates, step);
    LogSpacedIff(updates, step);
    SpacingAdds(SampleLog(updates, step), step, i, j);
  }

  lemma WarmupSpan(updates: seq<Sample>, step: int, samples: int)
    requires forall k :: 0 <= k < |updates| ==> updates[k].now > 0
    requires var log := SampleLog(updates, step); log != [] && samples <= |log| - 1 && step >= 0
    ensures var log := SampleLog(updates, step); log[|log| - 1].now - log[0].now >= samples * step
  {
    var n := |SampleLog(updates, step)| - 1;
    SamplesAreStepsApart(updates, step, 0, n);
    Longer(samples, n - 0, step);
  }

  lemma Longer(a: int, b: int, step: int)
    requires a <= b && step >= 0
    ensures a * step <= b * step
  {
  }

  // ---- The volatility window ---------------------------------------------

  /** The mid changes from sample to sample. */
  function Changes(log: seq<Sample>): seq<real> {
    if |log| <= 1 then []
    else seq(|log| - 1, i requires 0 <= i < |log| - 1 => log[i + 1].mid - log[i].mid)
  }

  lemma ChangesAppend(log: seq<Sample>, x: Sample)
    requires log != []
    ensures Changes(log + [x]) == Changes(log) + [x.mid - log[|log| - 1].mid]
  {
    var all := log + [x];
    var after, before := Changes(all), Changes(log);
    forall i | 0 <= i < |after|
      ensures after[i] == (before + [x.mid - log[|log| - 1].mid])[i]
    {
      assert after[i] == all[i + 1].mid - all[i].mid;
      if i < |before| {
        assert before[i] == log[i + 1].mid - log[i].mid;
      }
    }
  }

  /** The volatility window holds the latest mid changes. */
  ghost predicate HoldsChanges(window: seq<real>, log: seq<Sample>, capacity: nat) {
    window == LastN(Changes(log), capacity)
  }

  /** Pushing the next change keeps the window equal to the latest changes. */
  lemma WindowStep(log: seq<Sample>, x: Sample, capacity: nat, window: seq<real>, change: real)
    requires log != [] && HoldsChanges(window, log, capacity) && change == x.mid - log[|log| - 1].mid
    ensures HoldsChanges(LastN(window + [change], capacity), log + [x], capacity)
  {
    ChangesAppend(log, x);
    LastNAppend(Changes(log), change, capacity);
  }

  /** The first sample brings no change. */
  lemma WindowStart(log: seq<Sample>, x: Sample, capacity: nat, window: seq<real>)
    requires log == [] && HoldsChanges(window, log, capacity)
    ensures HoldsChanges(window, log + [x], capacity)
  {
  }

  lemma {:induction false} ChangesTelescope(log: seq<Sample>, k: nat)
    requires k < |log|
    ensures k <= |Changes(log)| && Sum(Changes(log)[k..]) == log[|log| - 1].mid - log[k].mid
  {
    if k == |log| - 1 {
      assert Changes(log)[k..] == [];
    } else {
      var before, x := log[..|log| - 1], log[|log| - 1];
      assert log == before + [x];
      ChangesAppend(before, x);
      ChangesTelescope(before, k);
      var tail := Changes(log)[k..];
      assert tail == Changes(before)[k..] + [x.mid - before[|before| - 1].mid];
      assert tail[..|tail| - 1] == Changes(before)[k..];
    }
  }

  /** `sum` is the last sampled mid minus the mid at the window's start. */
  ghost predicate Telescopes(sum: real, window: seq<real>, log: seq<Sample>) {
    |window| < |log| && sum == log[|log| - 1].mid - log[|log| - 1 - |window|].mid
  }

  /** The window's sum is the last sampled mid minus the mid at the window's start. */
  lemma WindowTelescopes(log: seq<Sample>, capacity: nat, window: seq<real>)
    requires log != [] && HoldsChanges(window, log, capacity)
    ensures Telescopes(Sum(window), window, log)
  {
    var k: int := |log| - 1 - |window|;
    assert k >= 0 && window == Changes(log)[k..];
    ChangesTelescope(log, k);
  }

  /** Deviation of the mid changes, scaled from one step to one second. */
  ghost function Volatility(window: seq<real>, root: real -> real, scale: real): real {
    Deviation(window, root) * scale
  }

  // ---- The engine --------------------------------------------------------

  class VolObiCalculator {
    const cfg: Config
    const midStats: RollingStats
    const imbStats: RollingStats
    var prevMid: real
    var hasPrevMid: bool
    var volatility: real
    var alpha: real
    var localAlpha: real
    var alphaOverride: Option<real>
    var warmedUp: bool
    var totalSamples: int
    var lastSampleNs: int
    var maxPosition: real
    ghost var log: seq<Sample>    // the samples accepted since the last reset

    /** The two windows, apart from each other. */
    ghost predicate Stats()
      reads midStats, midStats.buffer, imbStats, imbStats.buffer
    {
      midStats != imbStats && midStats.buffer != imbStats.buffer && midStats.Valid() && imbStats.Valid()
    }

    /** The clock fields against the accepted samples. */
    ghost predicate Clock()
      reads this
    {
      && cfg.tick > 0.0 && cfg.stepNs >= 1
      && hasPrevMid == (log != [])
      && (log == [] ==> lastSampleNs == 0 && totalSamples == 0 && !warmedUp)
      && (log != [] ==>
            && prevMid == log[|log| - 1].mid && lastSampleNs == log[|log| - 1].now
            && totalSamples == |log| - 1)
      && (warmedUp ==> totalSamples >= cfg.minWarmupSamples)
    }

    ghost predicate Valid()
      reads this, midStats, midStats.buffer, imbStats, imbStats.buffer
    {
      Stats() && Clock() && HoldsChanges(midStats.Window(), log, midStats.capacity)
    }

    function Settings(): Engine
      reads this
    {
      Engine(warmedUp, volatility, alpha, cfg.tick, cfg.volToHalfSpread, cfg.minHalfSpreadBps, cfg.c1, cfg.skew,
             maxPosition)
    }

    constructor (cfg: Config, window: nat, root: real -> real, maxPosition: real)
      requires window > 0 && cfg.tick > 0.0
      ensures Valid() && log == [] && midStats.capacity == window
      ensures this.cfg == cfg.(stepNs := if cfg.stepNs > 1 then cfg.stepNs else 1)
      ensures fresh(midStats) && fresh(midStats.buffer) && fresh(imbStats) && fresh(imbStats.buffer)
    {
      this.cfg := cfg.(stepNs := if cfg.stepNs > 1 then cfg.stepNs else 1);
      midStats := new RollingStats(window, root);
      imbStats := new RollingStats(window, root);
      prevMid, hasPrevMid := 0.0, false;
      volatility, alpha, localAlpha, alphaOverride := 0.0, 0.0, 0.0, None;
      warmedUp, totalSamples, lastSampleNs := false, 0, 0;
      this.maxPosition := maxPosition;
      log := [];
    }

    method PushChange(change: real)
      requires Stats()
      modifies midStats, midStats.buffer
      ensures Stats() && midStats.Window() == LastN(old(midStats.Window()) + [change], midStats.capacity)
      ensures imbStats.Window() == old(imbStats.Window())
    {
      midStats.Push(change);
    }

    method PushImbalance(imbalance: real)
      requires Stats()
      modifies imbStats, imbStats.buffer
      ensures Stats() && imbStats.Window() == LastN(old(imbStats.Window()) + [imbalance], imbStats.capacity)
      ensures midStats.Window() == old(midStats.Window())
    {
      imbStats.Push(imbalance);
    }

    /** Restart the step clock at a sample. */
    method Advance(nowNs: int, mid: real)
      requires Clock()
      modifies this`prevMid, this`hasPrevMid, this`totalSamples, this`lastSampleNs, this`log
      ensures Clock() && log == old(log) + [Sample(nowNs, mid)]
    {
      if hasPrevMid {
        totalSamples := totalSamples + 1;
      }
      prevMid, hasPrevMid, lastSampleNs := mid, true, nowNs;
      log := log + [Sample(nowNs, mid)];
    }

    /** Push the mid change since the previous sample, if there was one. */
    method PushMidChange(nowNs: int, mid: real)
      requires Valid()
      modifies midStats, midStats.buffer
      ensures Stats() && HoldsChanges(midStats.Window(), log + [Sample(nowNs, mid)], midStats.capacity)
      ensures imbStats.Window() == old(imbStats.Window())
    {
      ghost var x, window := Sample(nowNs, mid), midStats.Window();
      if hasPrevMid {
        var change := mid - prevMid;
        WindowStep(log, x, midStats.capacity, window, change);
        PushChange(change);
        assert midStats.Window() == LastN(window + [change], midStats.capacity);
      } else {
        WindowStart(log, x, midStats.capacity, window);
      }
    }

    /** Take a mid sample: push the change since the previous one and restart the step. */
    method TakeSample(nowNs: int, mid: real)
      requires Valid()
      modifies this`prevMid, this`hasPrevMid, this`totalSamples, this`lastSampleNs, this`log, midStats, midStats.buffer
      ensures Valid() && log == old(log) + [Sample(nowNs, mid)]
      ensures imbStats.Window() == old(imbStats.Window())
    {
      PushMidChange(nowNs, mid);
      Advance(nowNs, mid);
    }

    method CurrentVolatility() returns (v: real)
      requires midStats.Valid()
      ensures v == Volatility(midStats.Window(), midStats.root, cfg.volScale)
    {
      midStats.StdOfWindow();
      v := midStats.cachedStd * cfg.volScale;
    }

    /** Once warmed up, refresh the cached volatility and alpha. */
    method Refresh(due: bool, imbalance: real)
      requires Stats() && Clock() && log != []
      modifies this`warmedUp, this`volatility, this`localAlpha, this`alpha
      ensures Clock() && (warmedUp <==> totalSamples >= cfg.minWarmupSamples)
      ensures warmedUp ==> localAlpha == Score(imbalance, imbStats.Window(), imbStats.root)
      ensures warmedUp ==> alpha == if alphaOverride.Some? then alphaOverride.value else localAlpha
      ensures volatility == if warmedUp && due then Volatility(midStats.Window(), midStats.root, cfg.volScale)
                            else old(volatility)
    {
      if totalSamples >= cfg.minWarmupSamples {
        warmedUp := true;
        if due {
          volatility := CurrentVolatility();
        }
        localAlpha := imbStats.ZScore(imbalance);
        alpha := if alphaOverride.Some? then alphaOverride.value else localAlpha;
      }
    }

    /** One update on the step clock: alpha refreshes on every call, the windows when due. */
    method Step(nowNs: int, mid: real, imbalance: real)
      requires Valid()
      modifies this, midStats, midStats.buffer, imbStats, imbStats.buffer
      ensures Valid() && alphaOverride == old(alphaOverride) && maxPosition == old(maxPosition)
      ensures log == Sampled(old(log), Sample(nowNs, mid), cfg.stepNs)
      ensures warmedUp <==> totalSamples >= cfg.minWarmupSamples
      ensures warmedUp ==> alpha == if alphaOverride.Some? then alphaOverride.value else localAlpha
      ensures warmedUp ==> localAlpha == Score(imbalance, imbStats.Window(), imbStats.root)
      ensures imbStats.Window() == if SampleDue(old(log), nowNs, cfg.stepNs)
                                   then LastN(old(imbStats.Window()) + [imbalance], imbStats.capacity)
                                   else old(imbStats.Window())
      ensures volatility == if warmedUp && SampleDue(old(log), nowNs, cfg.stepNs)
                            then Volatility(midStats.Window(), midStats.root, cfg.volScale) else old(volatility)
    {
      var due := lastSampleNs == 0 || nowNs - lastSampleNs >= cfg.stepNs;
      assert due == SampleDue(log, nowNs, cfg.stepNs);
      if due {
        TakeSample(nowNs, mid);
        PushImbalance(imbalance);
      }
      Refresh(due, imbalance);
    }

    /** Feed a new mid and book: alpha scores the imbalance around the mid. */
    method OnBookUpdate(nowNs: int, mid: real, book: LocalBook)
      requires Valid() && book.Valid()
      modifies this, midStats, midStats.buffer, imbStats, imbStats.buffer
      ensures Valid() && log == Sampled(old(log), Sample(nowNs, mid), cfg.stepNs)
      ensures warmedUp ==>
        localAlpha == Score(ImbalanceAround(old(book.View()), mid, cfg.lookingDepth), imbStats.Window(), imbStats.root)
    {
      var imbalance := book.ImbalanceBetween(LowerBound(mid, cfg.lookingDepth), UpperBound(mid, cfg.lookingDepth));
      Step(nowNs, mid, imbalance);
    }

    /** The level-0 quote; none before warm-up is complete. */
    method Quote(mid: real, position: real) returns (q: Option<(real, real)>)
      requires Clock()
      ensures q == EngineQuote(Settings(), mid, position)
      ensures q.Some? ==> warmedUp
      ensures q.Some? && mid > 0.0 && cfg.minHalfSpreadBps > 0.0 ==> q.value.0 < mid < q.value.1
    {
      q := EngineQuote(Settings(), mid, position);
      if mid > 0.0 && cfg.minHalfSpreadBps > 0.0 {
        EngineQuoteSafe(Settings(), mid, position);
      }
    }

    method SetAlphaOverride(value: Option<real>)
      requires Clock()
      modifies this`alphaOverride, this`alpha
      ensures Clock() && alphaOverride == value
      ensures alpha == if !warmedUp then old(alpha) else if value.Some? then value.value else localAlpha
    {
      alphaOverride := value;
      if warmedUp {
        alpha := if value.Some? then value.value else localAlpha;
      }
    }

    method SetMaxPosition(value: real)
      requires Clock()
      modifies this`maxPosition
      ensures Clock() && maxPosition == Max(value, 0.0)
    {
      maxPosition := if value > 0.0 then value else 0.0;
    }

    method ClearStats()
      requires Stats()
      modifies midStats, imbStats
      ensures Stats() && midStats.Window() == [] && imbStats.Window() == []
    {
      midStats.Clear();
      imbStats.Clear();
    }

    method Reset()
      requires Valid()
      modifies this, midStats, imbStats
      ensures Valid() && log == [] && !warmedUp && alpha == 0.0 && alphaOverride == None
      ensures imbStats.Window() == [] && maxPosition == old(maxPosition)
    {
      ClearStats();
      prevMid, hasPrevMid := 0.0, false;
      volatility, alpha, localAlpha, alphaOverride := 0.0, 0.0, 0.0, None;
      warmedUp, totalSamples, lastSampleNs := false, 0, 0;
      log := [];
    }

    /** Any stream of updates after a reset. */
    method Feed(updates: seq<Sample>, imbalances: seq<real>)
      requires Valid() && log == [] && |imbalances| == |updates|
      modifies this, midStats, midStats.buffer, imbStats, imbStats.buffer
      ensures Valid() && log == SampleLog(updates, cfg.stepNs)
    {
      for i := 0 to |updates|
        invariant Valid() && log == SampleLog(updates[..i], cfg.stepNs)
      {
        assert updates[..i + 1][..i] == updates[..i];
        Step(updates[i].now, updates[i].mid, imbalances[i]);
      }
      assert updates[..|updates|] == updates;
    }

    /** The volatility window's sum is the last sampled mid minus the mid at the window's start. */
    lemma SumTelescopes()
      requires Valid() && log != []
      ensures Telescopes(midStats.sum, midStats.Window(), log)
    {
      midStats.SumOfWindow();
      WindowTelescopes(log, midStats.capacity, midStats.Window());
    }

    /** After any stream with positive stamps, a warmed-up engine has seen at least the configured
        number of steps go by since its first sample. */
    lemma WarmupTakesTime(updates: seq<Sample>)
      requires Clock() && warmedUp && log == SampleLog(updates, cfg.stepNs)
      requires forall i :: 0 <= i < |updates| ==> updates[i].now > 0
      ensures log != [] && log[|log| - 1].now - log[0].now >= cfg.minWarmupSamples * cfg.stepNs
    {
      WarmupSpan(updates, cfg.stepNs, cfg.minWarmupSamples);
    }
  }
}
