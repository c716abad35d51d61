/**
The adaptive rate limiter: a 40-op / 60 s sliding window, quota pacing and the global 429
backoff.  Time is an exact real number of seconds read from a clock that never goes back.
*/
module RateLimiter {
  import opened Common

  const OPS_PER_WINDOW := 40
  const WINDOW_SECONDS := 60.0
  const CANCEL_MIN_INTERVAL := 0.5
  const FREE_SLOT_INTERVAL := 15.0
  const BACKOFF_BASE := 15.0
  const BACKOFF_MAX := 120.0
  const BACKOFF_RESET_AFTER := 2
  const BACKOFF_DECAY_SECS := 300.0
  const BACKOFF_SLEEP_THRESHOLD := 2.0
  const WINDOW_SKIP_THRESHOLD := 30.0

  // ---- The sliding-window bound ------------------------------------------

  /** Recorded ops with a timestamp in (lo, hi]. */
  ghost function CountIn(h: seq<real>, lo: real, hi: real): nat {
    if h == [] then 0
    else CountIn(h[..|h| - 1], lo, hi) + (if lo < h[|h| - 1] <= hi then 1 else 0)
  }

  ghost function CountAt(h: seq<real>, t: real): nat {
    CountIn(h, t - WINDOW_SECONDS, t)
  }

  /** At no instant do more than 40 recorded ops lie within the last 60 seconds. */
  ghost predicate Bounded(h: seq<real>) {
    forall t: real :: CountAt(h, t) <= OPS_PER_WINDOW
  }

  /** `n` more ops recorded at `t` stay within the bound. */
  ghost predicate Room(h: seq<real>, t: real, n: nat) {
    CountAt(h, t) + n <= OPS_PER_WINDOW
  }

  ghost predicate NoneAfter(h: seq<real>, t: real) {
    forall i :: 0 <= i < |h| ==> h[i] <= t
  }

  ghost predicate Sorted(h: seq<real>) {
    forall i, j :: 0 <= i < j < |h| ==> h[i] <= h[j]
  }

  function Stamps(n: nat, t: real): seq<real> {
    seq(n, _ => t)
  }

  lemma {:induction false} CountConcat(a: seq<real>, b: seq<real>, lo: real, hi: real)
    ensures CountIn(a + b, lo, hi) == CountIn(a, lo, hi) + CountIn(b, lo, hi)
  {
    if b == [] {
      assert a + b == a;
    } else {
      assert (a + b)[..|a + b| - 1] == a + b[..|b| - 1];
      CountConcat(a, b[..|b| - 1], lo, hi);
    }
  }

  lemma {:induction false} CountStamps(n: nat, r: real, lo: real, hi: real)
    ensures CountIn(Stamps(n, r), lo, hi) == if lo < r <= hi then n else 0
  {
    if n > 0 {
      assert Stamps(n, r)[..n - 1] == Stamps(n - 1, r);
      CountStamps(n - 1, r, lo, hi);
    }
  }

  /** A later window holds no more of the ops recorded up to `t`. */
  lemma {:induction false} CountLater(h: seq<real>, t: real, t': real)
    requires NoneAfter(h, t) && t <= t'
    ensures CountAt(h, t') <= CountAt(h, t)
  {
    if h != [] {
      CountLater(h[..|h| - 1], t, t');
    }
  }

  lemma {:induction false} CountNone(h: seq<real>, lo: real, hi: real)
    requires forall i :: 0 <= i < |h| ==> h[i] <= lo
    ensures CountIn(h, lo, hi) == 0
  {
    if h != [] {
      CountNone(h[..|h| - 1], lo, hi);
    }
  }

  lemma {:induction false} CountAtMost(h: seq<real>, lo: real, hi: real)
    ensures CountIn(h, lo, hi) <= |h|
  {
    if h != [] {
      CountAtMost(h[..|h| - 1], lo, hi);
    }
  }

  /** Recording a batch that had room keeps the bound at every instant. */
  lemma RecordKeepsBound(h: seq<real>, n: nat, r: real)
    requires Bounded(h) && NoneAfter(h, r) && Room(h, r, n)
    ensures Bounded(h + Stamps(n, r)) && NoneAfter(h + Stamps(n, r), r)
  {
    var h' := h + Stamps(n, r);
    forall t: real
      ensures CountAt(h', t) <= OPS_PER_WINDOW
    {
      CountConcat(h, Stamps(n, r), t - WINDOW_SECONDS, t);
      CountStamps(n, r, t - WINDOW_SECONDS, t);
      assert CountAt(h, t) <= OPS_PER_WINDOW;
      if r <= t {
        CountLater(h, r, t);
      }
    }
  }

  /** Entries pruned before `now - 60` no longer count. */
  lemma PrunedDoNotCount(dropped: seq<real>, w: seq<real>, now: real)
    requires forall i :: 0 <= i < |dropped| ==> dropped[i] < now - WINDOW_SECONDS
    ensures CountAt(dropped + w, now) == CountAt(w, now) <= |w|
  {
    CountConcat(dropped, w, now - WINDOW_SECONDS, now);
    CountNone(dropped, now - WINDOW_SECONDS, now);
    CountAtMost(w, now - WINDOW_SECONDS, now);
  }

  // ---- Waiting for room --------------------------------------------------

  /** The deque once the entries older than the window are popped off its front. */
  function Recent(w: seq<real>, now: real): seq<real> {
    if w == [] || w[0] >= now - WINDOW_SECONDS then w else Recent(w[1..], now)
  }

  lemma {:induction false} RecentSkips(dropped: seq<real>, w: seq<real>, now: real)
    requires forall i :: 0 <= i < |dropped| ==> dropped[i] < now - WINDOW_SECONDS
    ensures Recent(dropped + w, now) == Recent(w, now)
  {
    if dropped == [] {
      assert dropped + w == w;
    } else {
      assert (dropped + w)[1..] == dropped[1..] + w;
      RecentSkips(dropped[1..], w, now);
    }
  }

  /** Index of the entry whose expiry is waited for. */
  function WaitIndex(len: nat, n: nat): nat
    requires 0 < len && len + n > OPS_PER_WINDOW
  {
    var idx := len + n - OPS_PER_WINDOW;
    if idx >= len then len - 1 else idx
  }

  /** The wait for `n` ops computed from a pruned deque. */
  function WaitTime(w: seq<real>, n: nat, now: real): real {
    if w == [] || |w| + n <= OPS_PER_WINDOW then 0.0
    else Max(w[WaitIndex(|w|, n)] + WINDOW_SECONDS - now, 0.0)
  }

  /** Where the ops that still count begin: `k` entries have expired at `t`, the others have not. */
  lemma CountFrom(w: seq<real>, k: nat, t: real)
    requires k <= |w| && NoneAfter(w, t)
    requires forall i :: 0 <= i < k ==> w[i] <= t - WINDOW_SECONDS
    requires forall i :: k <= i < |w| ==> w[i] > t - WINDOW_SECONDS
    ensures CountAt(w, t) == |w| - k
  {
    assert w == w[..k] + w[k..];
    CountConcat(w[..k], w[k..], t - WINDOW_SECONDS, t);
    CountNone(w[..k], t - WINDOW_SECONDS, t);
    CountEvery(w[k..], t - WINDOW_SECONDS, t);
  }

  lemma {:induction false} CountEvery(h: seq<real>, lo: real, hi: real)
    requires forall i :: 0 <= i < |h| ==> lo < h[i] <= hi
    ensures CountIn(h, lo, hi) == |h|
  {
    if h != [] {
      CountEvery(h[..|h| - 1], lo, hi);
    }
  }

  /** The first entry that has not expired at `t`. */
  lemma FirstLive(w: seq<real>, t: real) returns (k: nat)
    requires Sorted(w)
    ensures k <= |w|
    ensures forall i :: 0 <= i < k ==> w[i] <= t - WINDOW_SECONDS
    ensures forall i :: k <= i < |w| ==> w[i] > t - WINDOW_SECONDS
  {
    k := 0;
    while k < |w| && w[k] <= t - WINDOW_SECONDS
      invariant k <= |w| && forall i :: 0 <= i < k ==> w[i] <= t - WINDOW_SECONDS
    {
      k := k + 1;
    }
  }

  /** A full window has room for `n` ops exactly from the expiry of the entry before the budget. */
  lemma RoomIff(w: seq<real>, n: nat, t: real)
    requires Sorted(w) && NoneAfter(w, t) && n <= OPS_PER_WINDOW < |w| + n
    ensures Room(w, t, n) <==> w[|w| + n - OPS_PER_WINDOW - 1] + WINDOW_SECONDS <= t
  {
    var k := FirstLive(w, t);
    CountFrom(w, k, t);
  }

  /** Whoever waits `WaitTime` finds room. */
  lemma WaitMakesRoom(w: seq<real>, n: nat, now: real, t: real)
    requires Sorted(w) && NoneAfter(w, now) && n <= OPS_PER_WINDOW && t >= now + WaitTime(w, n, now)
    ensures Room(w, t, n)
  {
    if |w| + n <= OPS_PER_WINDOW {
      CountAtMost(w, t - WINDOW_SECONDS, t);
    } else {
      RoomIff(w, n, t);
    }
  }

  /** No shorter wait finds room. */
  ghost predicate LeastWait(w: seq<real>, n: nat, now: real, wait: real) {
    && wait >= 0.0
    && (forall t: real :: t >= now + wait ==> Room(w, t, n))
    && (forall t: real :: now <= t < now + wait ==> !Room(w, t, n))
  }

  /** The computed wait is the time until `n` ops are free exactly when the whole window must
      drain, the entry waited for equals the one before it, or it has expired already. */
  lemma WaitIsLeastIff(w: seq<real>, n: nat, now: real)
    requires Sorted(w) && NoneAfter(w, now) && n <= OPS_PER_WINDOW < |w| + n
    ensures var idx := |w| + n - OPS_PER_WINDOW;
            LeastWait(w, n, now, WaitTime(w, n, now)) <==>
              || n == OPS_PER_WINDOW
              || w[idx] == w[idx - 1]
              || w[idx] + WINDOW_SECONDS <= now
  {
    var idx := |w| + n - OPS_PER_WINDOW;
    var wait, free := WaitTime(w, n, now), w[idx - 1] + WINDOW_SECONDS;
    forall t: real | t >= now
      ensures Room(w, t, n) <==> free <= t
    {
      RoomIff(w, n, t);
    }
    if n < OPS_PER_WINDOW && w[idx] != w[idx - 1] && w[idx] + WINDOW_SECONDS > now {
      var early := Max(free, now);
      assert now <= early < now + wait && Room(w, early, n);
    }
  }

  /** One entry a minute old and 39 half as old: one op is free at once, the wait is 30 s. */
  lemma WaitTooLongExample()
    ensures var w := [0.0] + Stamps(39, 30.0);
            Room(w, 60.0, 1) && WaitTime(w, 1, 60.0) == 30.0 && !LeastWait(w, 1, 60.0, WaitTime(w, 1, 60.0))
  {
    var w := [0.0] + Stamps(39, 30.0);
    RoomIff(w, 1, 60.0);
    WaitIsLeastIff(w, 1, 60.0);
  }

  // ---- Quota pacing ------------------------------------------------------

  datatype Pace = Stretch(multiplier: real) | FreeSlotOnly

  function QuotaPace(quota: Option<int>): Pace {
    if quota.None? || quota.value >= 500 then Stretch(1.0)
    else if quota.value >= 50 then Stretch(1.5)
    else if quota.value >= 10 then Stretch(3.0)
    else FreeSlotOnly
  }

  /** The gap a send must leave after the previous recorded one. */
  function RequiredGap(cancelOnly: bool, minInterval: real, quota: Option<int>): real {
    if cancelOnly then CANCEL_MIN_INTERVAL
    else match QuotaPace(quota)
      case Stretch(m) => minInterval * m
      case FreeSlotOnly => Max(minInterval, FREE_SLOT_INTERVAL)
  }

  // ---- 429 backoff -------------------------------------------------------

  function Pow2(n: nat): real {
    if n == 0 then 1.0 else 2.0 * Pow2(n - 1)
  }

  function BackoffSeconds(level: nat): real
    requires level > 0
  {
    Min(BACKOFF_BASE * Pow2(level - 1), BACKOFF_MAX)
  }

  lemma {:induction false} Pow2Grows(n: nat)
    ensures Pow2(n) >= 1.0 && (n >= 3 ==> Pow2(n) >= 8.0)
  {
    if n > 3 {
      Pow2Grows(n - 1);
    } else if n > 0 {
      Pow2Grows(n - 1);
    }
  }

  /** Escalation doubles from 15 s and saturates at 120 s exactly from level four. */
  lemma BackoffRange(level: nat)
    requires level > 0
    ensures BACKOFF_BASE <= BackoffSeconds(level) <= BACKOFF_MAX
    ensures BackoffSeconds(level) == BACKOFF_MAX <==> level >= 4
  {
    Pow2Grows(level - 1);
    if level < 4 {
      assert Pow2(0) == 1.0 && Pow2(1) == 2.0 && Pow2(2) == 4.0;
    }
  }

  datatype Backoff = Backoff(until: Option<real>, level: nat, successes: nat, lastTrigger: Option<real>)

  const CALM := Backoff(None, 0, 0, None)

  function Triggered(b: Backoff, now: real): Backoff {
    Backoff(Some(now + BackoffSeconds(b.level + 1)), b.level + 1, 0, Some(now))
  }

  function Succeeded(b: Backoff, now: real): Backoff {
    var b1 := b.(successes := b.successes + 1);
    if b.level > 0
      && ((b.lastTrigger.Some? && now - b.lastTrigger.value > BACKOFF_DECAY_SECS)
          || b1.successes >= BACKOFF_RESET_AFTER)
    then b1.(level := 0, successes := 0)
    else b1
  }

  predicate Expired(b: Backoff, now: real) {
    b.until.None? || b.until.value <= now
  }

  ghost predicate NotEarlier(a: Option<real>, b: Option<real>) {
    a.Some? ==> b.Some? && a.value <= b.value
  }

  /** A 429 seen after the gate let the batch through moves the deadline forward, whatever the
      level; successes never move it. */
  lemma GatedDeadlineMovesForward(b: Backoff, now: real)
    requires Expired(b, now)
    ensures NotEarlier(b.until, Triggered(b, now).until) && !Expired(Triggered(b, now), now)
    ensures Succeeded(b, now).until == b.until
  {
    BackoffRange(b.level + 1);
  }

  /** Without the gate the deadline can move back: two successes reset the level while a
      120 s backoff is still running, and the next 429 asks for only 15 s. */
  lemma UngatedDeadlineCanMoveBack()
    ensures var high := Triggered(Triggered(Triggered(Triggered(CALM, 0.0), 0.0), 0.0), 0.0);
            var low := Succeeded(Succeeded(high, 1.0), 1.0);
            high.until == Some(120.0) && Triggered(low, 1.0).until == Some(16.0)
  {
  }

  /** What the backoff hears: a 429 or a success. */
  datatype BackoffEvent = Hit(now: real) | Success(now: real)

  function BackoffRun(es: seq<BackoffEvent>): Backoff {
    if es == [] then CALM
    else
      var b, e := BackoffRun(es[..|es| - 1]), es[|es| - 1];
      match e case Hit(now) => Triggered(b, now) case Success(now) => Succeeded(b, now)
  }

  ghost predicate Timely(es: seq<BackoffEvent>) {
    forall i, j :: 0 <= i <= j < |es| ==> es[i].now <= es[j].now
  }

  lemma LongerBackoff(level: nat)
    requires level > 0
    ensures BackoffSeconds(level) <= BackoffSeconds(level + 1)
  {
    Pow2Grows(level - 1);
  }

  /** The deadline is that of the last 429; the level is still that 429's, or was reset. */
  lemma {:induction false} DeadlineIsLastHit(es: seq<BackoffEvent>) returns (level: nat)
    requires Timely(es) && BackoffRun(es).until.Some?
    ensures var b := BackoffRun(es);
            && level > 0 && (b.level == level || b.level == 0)
            && b.lastTrigger.Some? && b.until.value == b.lastTrigger.value + BackoffSeconds(level)
            && exists i :: 0 <= i < |es| && es[i] == Hit(b.lastTrigger.value)
  {
    var before, e := es[..|es| - 1], es[|es| - 1];
    match e
    case Hit(now) =>
      level := BackoffRun(before).level + 1;
      assert es[|es| - 1] == Hit(now);
    case Success(now) =>
      level := DeadlineIsLastHit(before);
      var i :| 0 <= i < |before| && before[i] == Hit(BackoffRun(before).lastTrigger.value);
      assert es[i] == before[i];
  }

  /** The escalation is forgotten by the second success after a 429, and by the first one only if it
      comes more than five minutes later. */
  lemma LevelIsForgotten(es: seq<BackoffEvent>, hit: real, first: real, second: real)
    ensures var one := BackoffRun(es + [Hit(hit)] + [Success(first)]);
            && BackoffRun(es + [Hit(hit)]).level == BackoffRun(es).level + 1
            && (one.level == 0 <==> first - hit > 300.0)
            && (first - hit <= 300.0 ==> BackoffRun(es + [Hit(hit)] + [Success(first)] + [Success(second)]).level == 0)
  {
    var a, b := es + [Hit(hit)], es + [Hit(hit)] + [Success(first)];
    assert a[..|es|] == es && b[..|a|] == a && (b + [Success(second)])[..|b|] == b;
  }

  /** After any history, a 429 moves the deadline back exactly when the level has been reset since
      the last 429 and the old deadline is still more than 15 s away. */
  lemma DeadlineMovesBackIff(es: seq<BackoffEvent>, now: real)
    requires Timely(es + [Hit(now)]) && BackoffRun(es).until.Some?
    ensures var b := BackoffRun(es);
            Triggered(b, now).until.value < b.until.value <==> b.level == 0 && b.until.value - now > BACKOFF_BASE
  {
    var b, all := BackoffRun(es), es + [Hit(now)];
    assert forall i :: 0 <= i < |es| ==> es[i] == all[i];
    var level := DeadlineIsLastHit(es);
    var i :| 0 <= i < |es| && es[i] == Hit(b.lastTrigger.value);
    assert all[i].now <= all[|es|].now;
    LongerBackoff(level);
    BackoffRange(1);
    assert BackoffSeconds(1) == BACKOFF_BASE by {
      assert Pow2(0) == 1.0;
    }
  }

  // ---- Clock -------------------------------------------------------------

  /** A monotonic clock; every reading may be later than the last. */
  class Clock {
    var now: real
    ghost var asked: real   // all the sleep ever asked for

    constructor () {
      now := 0.0;
      asked := 0.0;
    }

    method Read() returns (t: real)
      modifies this`now
      ensures t == now >= old(now)
    {
      var d: real :| d >= 0.0;
      now := now + d;
      t := now;
    }

    method Sleep(secs: real)
      modifies this
      ensures now >= old(now) && now >= old(now) + secs && asked == old(asked) + Max(secs, 0.0)
    {
      var d: real :| d >= 0.0;
      now := now + (if secs > 0.0 then secs else 0.0) + d;
      asked := asked + Max(secs, 0.0);
    }
  }

  // ---- The limiter -------------------------------------------------------

  class Limiter {
    const minSendInterval: real
    var window: seq<real>
    var lastSend: Option<real>
    var backoff: Backoff
    var quota: Option<int>
    ghost var history: seq<real>   // every op ever recorded
    ghost var dropped: seq<real>   // the pruned part of the history

    /** Consistency at an instant `now` not before any recorded op. */
    ghost predicate ValidAt(now: real)
      reads this
    {
      && history == dropped + window
      && Sorted(window)
      && NoneAfter(history, now)
      && (forall i :: 0 <= i < |dropped| ==> dropped[i] < now - WINDOW_SECONDS)
      && (lastSend.Some? ==> lastSend.value <= now)
    }

    constructor (minSendInterval: real)
      ensures this.minSendInterval == minSendInterval && quota == None
      ensures history == [] && lastSend == None && backoff == CALM
      ensures forall t: real :: ValidAt(t)
    {
      this.minSendInterval := minSendInterval;
      window, lastSend, backoff, quota := [], None, CALM, None;
      history, dropped := [], [];
    }

    /** Evict ops older than the rolling window. */
    method PruneAt(now: real) returns (len: nat)
      requires ValidAt(now)
      modifies this`window, this`dropped
      ensures ValidAt(now) && len == |window| && window == Recent(history, now)
    {
      var cutoff := now - WINDOW_SECONDS;
      while |window| > 0 && window[0] < cutoff
        invariant ValidAt(now)
        decreases |window|
      {
        assert history == (dropped + [window[0]]) + window[1..];
        dropped, window := dropped + [window[0]], window[1..];
      }
      RecentSkips(dropped, window, now);
      len := |window|;
    }

    /** Seconds until `n` ops fit, as the code computes them.  Whoever waits that long finds room. */
    method TimeUntilOpsFreeAt(n: nat, now: real) returns (wait: real)
      requires ValidAt(now)
      modifies this`window, this`dropped
      ensures ValidAt(now) && wait == WaitTime(Recent(history, now), n, now)
      ensures n <= OPS_PER_WINDOW ==> forall t: real :: t >= now + wait ==> Room(history, t, n)
    {
      var len := PruneAt(now);
      if len == 0 || len + n <= OPS_PER_WINDOW {
        wait := 0.0;
      } else {
        var expires := window[WaitIndex(len, n)] + WINDOW_SECONDS;
        wait := if expires <= now then 0.0 else expires - now;
      }
      WindowIsRecent(now);
      forall t: real | n <= OPS_PER_WINDOW && t >= now + wait
        ensures Room(history, t, n)
      {
        WaitMakesRoom(window, n, now, t);
        PrunedDoNotCount(dropped, window, t);
      }
    }

    lemma WindowIsRecent(now: real)
      requires ValidAt(now)
      ensures NoneAfter(window, now)
    {
      assert forall i :: 0 <= i < |window| ==> window[i] == history[|dropped| + i];
    }

    method RecordOpsSentAt(count: nat, now: real)
      requires ValidAt(now)
      modifies this`window, this`lastSend, this`history
      ensures ValidAt(now) && lastSend == Some(now)
      ensures history == old(history) + Stamps(count, now)
    {
      for i := 0 to count
        invariant ValidAt(now) && history == old(history) + Stamps(i, now)
      {
        assert Stamps(i + 1, now) == Stamps(i, now) + [now];
        assert forall k :: 0 <= k < |window| ==> window[k] == history[|dropped| + k] <= now;
        assert history + [now] == dropped + (window + [now]);
        window := window + [now];
        history := history + [now];
      }
      lastSend := Some(now);
    }

    /** Escalate after a 429. */
    method TriggerGlobalBackoffAt(now: real)
      modifies this`backoff
      ensures backoff == Triggered(old(backoff), now)
    {
      var level := backoff.level + 1;
      backoff := backoff.(level := level, successes := 0, lastTrigger := Some(now));
      backoff := backoff.(until := Some(now + BackoffSeconds(level)));
    }

    /** Count a success; forget the escalation after enough of them or after five quiet minutes. */
    method ResetGlobalBackoffAt(now: real)
      modifies this`backoff
      ensures backoff == Succeeded(old(backoff), now)
    {
      backoff := backoff.(successes := backoff.successes + 1);
      if backoff.level > 0 {
        if backoff.lastTrigger.Some? && now - backoff.lastTrigger.value > BACKOFF_DECAY_SECS {
          backoff := backoff.(level := 0, successes := 0);
          return;
        }
        if backoff.successes >= BACKOFF_RESET_AFTER {
          backoff := backoff.(level := 0, successes := 0);
        }
      }
    }

    /** Whether `gap` seconds have passed since the last recorded send. */
    ghost predicate GapElapsed(now: real, gap: real)
      reads this
    {
      lastSend.Some? ==> now - lastSend.value >= gap
    }

    /** What is left at `now` of a gap after the last send. */
    ghost function Remaining(gap: real, now: real): real
      reads this
    {
      if lastSend.None? then 0.0 else Max(gap - (now - lastSend.value), 0.0)
    }

    /** Sleep until `gap` seconds have passed since the last send. */
    method AwaitGap(gap: real, clock: Clock)
      requires ValidAt(clock.now)
      modifies clock
      ensures clock.now >= old(clock.now) && ValidAt(clock.now) && GapElapsed(clock.now, gap)
      ensures clock.asked >= old(clock.asked) && clock.now - old(clock.now) >= clock.asked - old(clock.asked)
      ensures clock.asked - old(clock.asked) <= Remaining(gap, old(clock.now))
    {
      var now := clock.Read();
      if lastSend.Some? && now - lastSend.value < gap {
        clock.Sleep(gap - (now - lastSend.value));
      }
    }

    /** Two waits one after the other are no longer than the longer of them. */
    method AwaitBoth(first: real, second: real, clock: Clock)
      requires ValidAt(clock.now)
      modifies clock
      ensures clock.now >= old(clock.now) && ValidAt(clock.now) && GapElapsed(clock.now, Max(first, second))
      ensures clock.asked - old(clock.asked) <= Remaining(Max(first, second), old(clock.now))
    {
      AwaitGap(first, clock);
      AwaitGap(second, clock);
    }

    /** The interval floor, then the stretch or the free slot that the quota calls for: until the
        required gap has passed, and asking for no more sleep than that. */
    method AwaitPace(cancelOnly: bool, clock: Clock)
      requires ValidAt(clock.now)
      modifies clock
      ensures clock.now >= old(clock.now) && ValidAt(clock.now)
      ensures GapElapsed(clock.now, RequiredGap(cancelOnly, minSendInterval, quota))
      ensures minSendInterval >= 0.0 ==>
                var gap := RequiredGap(cancelOnly, minSendInterval, quota);
                clock.asked - old(clock.asked) <= Remaining(gap, old(clock.now))
    {
      GapInFigures(cancelOnly, minSendInterval, quota);
      var floor := if cancelOnly then CANCEL_MIN_INTERVAL else minSendInterval;
      var pace := QuotaPace(quota);
      if cancelOnly || pace == Stretch(1.0) {
        AwaitGap(floor, clock);
      } else if pace.FreeSlotOnly? {
        AwaitBoth(floor, FREE_SLOT_INTERVAL, clock);
      } else {
        AwaitBoth(floor, floor * pace.multiplier, clock);
      }
    }

    /** The window phase: false to skip the cycle, otherwise wait until the batch fits. */
    method AwaitWindow(n: nat, clock: Clock) returns (ok: bool)
      requires ValidAt(clock.now)
      modifies this`window, this`dropped, clock
      ensures clock.now >= old(clock.now) && ValidAt(clock.now)
      ensures ok && n <= OPS_PER_WINDOW ==> Room(history, clock.now, n)
      ensures !ok ==> WindowBlocks(history, n, clock.now)
    {
      var now := clock.Read();
      var len := PruneAt(now);
      PrunedDoNotCount(dropped, window, now);
      if len + n > OPS_PER_WINDOW {
        now := clock.Read();
        var wait := TimeUntilOpsFreeAt(n, now);
        if wait > WINDOW_SKIP_THRESHOLD {
          return false;
        }
        clock.Sleep(wait);
      }
      ok := true;
    }

    /** The four-phase gate.  True only after the 429 deadline, with room in the window and with
        the required gap behind it; false only on a distant deadline or a long wait for room. */
    method WriteSlot(n: nat, cancelOnly: bool, clock: Clock) returns (ok: bool)
      requires ValidAt(clock.now)
      modifies this`window, this`dropped, clock
      ensures clock.now >= old(clock.now) && ValidAt(clock.now)
      ensures ok ==> Expired(backoff, clock.now)
      ensures ok && n <= OPS_PER_WINDOW ==> Room(history, clock.now, n)
      ensures ok ==> GapElapsed(clock.now, RequiredGap(cancelOnly, minSendInterval, quota))
      ensures !ok ==> DeadlineBlocks(backoff, clock.now) || WindowBlocks(history, n, clock.now)
    {
      var now := clock.Read();
      if backoff.until.Some? && now < backoff.until.value {
        if backoff.until.value - now > BACKOFF_SLEEP_THRESHOLD {
          return false;
        }
        clock.Sleep(backoff.until.value - now);
      }
      ok := AwaitWindow(n, clock);
      if !ok {
        return;
      }
      if n <= OPS_PER_WINDOW {
        RoomLasts(history, clock.now, n);
      }
      AwaitPace(cancelOnly, clock);
    }
  }

  /** The gate skips a cycle when the 429 deadline is more than 2 s away ... */
  ghost predicate DeadlineBlocks(b: Backoff, now: real) {
    b.until.Some? && b.until.value - now > BACKOFF_SLEEP_THRESHOLD
  }

  /** ... or when the wait for room is more than 30 s. */
  ghost predicate WindowBlocks(history: seq<real>, n: nat, now: real) {
    WaitTime(Recent(history, now), n, now) > WINDOW_SKIP_THRESHOLD
  }

  /** Room found at an instant is still there later if nothing is recorded in between. */
  lemma RoomLasts(h: seq<real>, t: real, n: nat)
    requires NoneAfter(h, t) && Room(h, t, n)
    ensures forall t': real :: t' >= t ==> Room(h, t', n)
  {
    forall t': real | t' >= t
      ensures Room(h, t', n)
    {
      CountLater(h, t, t');
    }
  }

  // ---- The sender's run --------------------------------------------------

  /** What became of a batch that passed the gate. */
  datatype Outcome = Accepted(quota: Option<int>) | QuotaReject | Throttled | OtherReject | Unrecorded

  datatype Attempt = Attempt(ops: nat, cancelOnly: bool, outcome: Outcome)

  /** The gate's answer to one attempt; a passed batch is recorded at `at` and its outcome handled
      at `settled`. */
  datatype Turn = Skipped(at: real) | Passed(at: real, settled: real)

  /** The limiter's state and the deadlines it has issued. */
  datatype Pacer = Pacer(
    history: seq<real>, lastSend: Option<real>, quota: Option<int>, backoff: Backoff,
    deadlines: seq<real>, now: real)

  predicate Recorded(a: Attempt, t: Turn) {
    t.Passed? && a.outcome != Unrecorded
  }

  function AfterTurn(p: Pacer, a: Attempt, t: Turn): Pacer {
    if t.Skipped? then p.(now := t.at)
    else if a.outcome == Unrecorded then p.(now := t.settled)
    else
      var r := p.(history := p.history + Stamps(a.ops, t.at), lastSend := Some(t.at), now := t.settled);
      match a.outcome
      case Accepted(q) => r.(quota := OrElse(q, p.quota), backoff := Succeeded(p.backoff, t.settled))
      case QuotaReject => r.(quota := Some(0))
      case Throttled =>
        var b := Triggered(p.backoff, t.settled);
        r.(backoff := b, deadlines := p.deadlines + [b.until.value])
      case _ => r
  }

  function AfterTurns(p: Pacer, script: seq<Attempt>, turns: seq<Turn>): Pacer
    requires |turns| == |script|
  {
    if turns == [] then p
    else AfterTurn(AfterTurns(p, script[..|turns| - 1], turns[..|turns| - 1]), script[|turns| - 1], turns[|turns| - 1])
  }

  /** What the gate guarantees of one turn. */
  ghost predicate LawfulTurn(p: Pacer, minInterval: real, a: Attempt, t: Turn) {
    && p.now <= t.at
    && match t
       case Skipped(at) => DeadlineBlocks(p.backoff, at) || WindowBlocks(p.history, a.ops, at)
       case Passed(at, settled) =>
         && at <= settled && Expired(p.backoff, at)
         && (a.ops <= OPS_PER_WINDOW ==> Room(p.history, at, a.ops))
         && (p.lastSend.Some? ==> at - p.lastSend.value >= RequiredGap(a.cancelOnly, minInterval, p.quota))
  }

  ghost predicate Lawful(p: Pacer, minInterval: real, script: seq<Attempt>, turns: seq<Turn>)
    requires |turns| == |script|
  {
    forall k :: 0 <= k < |turns| ==>
      LawfulTurn(AfterTurns(p, script[..k], turns[..k]), minInterval, script[k], turns[k])
  }

  /** A limiter that has sent nothing yet. */
  ghost predicate Unused(p: Pacer) {
    p.history == [] && p.lastSend == None && p.backoff == CALM && p.deadlines == []
  }

  lemma PrefixLawful(p: Pacer, minInterval: real, script: seq<Attempt>, turns: seq<Turn>, k: nat)
    requires |turns| == |script| && Lawful(p, minInterval, script, turns) && k <= |turns|
    ensures Lawful(p, minInterval, script[..k], turns[..k])
  {
    forall i | 0 <= i < k
      ensures LawfulTurn(AfterTurns(p, script[..k][..i], turns[..k][..i]), minInterval, script[..k][i], turns[..k][i])
    {
      assert script[..k][..i] == script[..i] && turns[..k][..i] == turns[..i];
    }
  }

  lemma TurnStep(p: Pacer, script: seq<Attempt>, turns: seq<Turn>, k: nat)
    requires |turns| == |script| && k < |turns|
    ensures AfterTurns(p, script[..k + 1], turns[..k + 1])
         == AfterTurn(AfterTurns(p, script[..k], turns[..k]), script[k], turns[k])
  {
    assert script[..k + 1][..k] == script[..k] && turns[..k + 1][..k] == turns[..k];
  }

  // ---- The window bound --------------------------------------------------

  lemma BoundedPrefix(h: seq<real>, more: seq<real>)
    requires Bounded(h + more)
    ensures Bounded(h)
  {
    forall t: real
      ensures CountAt(h, t) <= OPS_PER_WINDOW
    {
      CountConcat(h, more, t - WINDOW_SECONDS, t);
      assert CountAt(h + more, t) <= OPS_PER_WINDOW;
    }
  }

  lemma OversizedBreaks(h: seq<real>, n: nat, t: real)
    requires n > OPS_PER_WINDOW
    ensures !Bounded(h + Stamps(n, t))
  {
    CountConcat(h, Stamps(n, t), t - WINDOW_SECONDS, t);
    CountStamps(n, t, t - WINDOW_SECONDS, t);
    assert CountAt(h + Stamps(n, t), t) > OPS_PER_WINDOW;
  }

  ghost predicate SmallBatches(script: seq<Attempt>, turns: seq<Turn>)
    requires |turns| == |script|
  {
    forall i :: 0 <= i < |turns| && Recorded(script[i], turns[i]) ==> script[i].ops <= OPS_PER_WINDOW
  }

  /** Over every run behind the gate, at most 40 recorded ops lie in any 60 s exactly when no
      recorded batch alone has more than 40. */
  lemma {:induction false} RunBoundedIff(p: Pacer, minInterval: real, script: seq<Attempt>, turns: seq<Turn>)
    requires |turns| == |script| && Unused(p) && Lawful(p, minInterval, script, turns)
    ensures var r := AfterTurns(p, script, turns);
            NoneAfter(r.history, r.now) && (Bounded(r.history) <==> SmallBatches(script, turns))
  {
    if turns != [] {
      var k := |turns| - 1;
      var before := AfterTurns(p, script[..k], turns[..k]);
      PrefixLawful(p, minInterval, script, turns, k);
      RunBoundedIff(p, minInterval, script[..k], turns[..k]);
      assert LawfulTurn(before, minInterval, script[k], turns[k]);
      SmallBatchesStep(script, turns);
      if Recorded(script[k], turns[k]) {
        TurnBounds(before.history, script[k].ops, turns[k].at);
      }
    }
  }

  /** One batch of 41 ops on an unused limiter passes the gate and breaks the bound. */
  lemma OversizedBatchExample(p: Pacer, minInterval: real)
    requires Unused(p)
    ensures var script, turns := [Attempt(41, false, Accepted(None))], [Passed(p.now, p.now)];
            Lawful(p, minInterval, script, turns) && !Bounded(AfterTurns(p, script, turns).history)
  {
    var script, turns := [Attempt(41, false, Accepted(None))], [Passed(p.now, p.now)];
    assert script[..0] == [] && turns[..0] == [];
    RunBoundedIff(p, minInterval, script, turns);
    assert Recorded(script[0], turns[0]);
  }

  lemma SmallBatchesStep(script: seq<Attempt>, turns: seq<Turn>)
    requires |turns| == |script| && turns != []
    ensures var k := |turns| - 1;
            SmallBatches(script, turns) <==>
              && SmallBatches(script[..k], turns[..k])
              && (Recorded(script[k], turns[k]) ==> script[k].ops <= OPS_PER_WINDOW)
  {
    var k := |turns| - 1;
    assert forall i :: 0 <= i < k ==> script[..k][i] == script[i] && turns[..k][i] == turns[i];
  }

  lemma TurnBounds(h: seq<real>, n: nat, t: real)
    requires NoneAfter(h, t) && (n <= OPS_PER_WINDOW ==> Room(h, t, n))
    ensures NoneAfter(h + Stamps(n, t), t)
    ensures Bounded(h + Stamps(n, t)) <==> Bounded(h) && n <= OPS_PER_WINDOW
  {
    if n > OPS_PER_WINDOW {
      OversizedBreaks(h, n, t);
    } else if Bounded(h) {
      RecordKeepsBound(h, n, t);
    }
    if Bounded(h + Stamps(n, t)) {
      BoundedPrefix(h, Stamps(n, t));
    }
  }

  // ---- The spacing of sends ----------------------------------------------

  /** A send at `at` is behind the pacer. */
  ghost predicate Sent(p: Pacer, at: real) {
    p.lastSend.Some? && at <= p.lastSend.value && at <= p.now
  }

  lemma SentStays(p: Pacer, minInterval: real, a: Attempt, t: Turn, at: real)
    requires LawfulTurn(p, minInterval, a, t) && (Sent(p, at) || (Recorded(a, t) && t.at == at))
    ensures Sent(AfterTurn(p, a, t), at)
  {
  }

  lemma {:induction false} LastSendFollows(p: Pacer, minInterval: real, script: seq<Attempt>, turns: seq<Turn>, i: nat)
    requires |turns| == |script| && Lawful(p, minInterval, script, turns)
    requires i < |turns| && Recorded(script[i], turns[i])
    ensures Sent(AfterTurns(p, script, turns), turns[i].at)
    decreases |turns|
  {
    var k := |turns| - 1;
    var before := AfterTurns(p, script[..k], turns[..k]);
    if i < k {
      PrefixLawful(p, minInterval, script, turns, k);
      LastSendFollows(p, minInterval, script[..k], turns[..k], i);
    }
    assert LawfulTurn(before, minInterval, script[k], turns[k]);
    SentStays(before, minInterval, script[k], turns[k], turns[i].at);
  }

  /** The quota in force at attempt `k`, from the outcomes before it. */
  function QuotaAt(initial: Option<int>, script: seq<Attempt>, turns: seq<Turn>, k: nat): Option<int>
    requires k <= |turns| == |script|
  {
    if k == 0 then initial
    else
      var before, a := QuotaAt(initial, script, turns, k - 1), script[k - 1];
      if !Recorded(a, turns[k - 1]) then before
      else match a.outcome
        case Accepted(q) => OrElse(q, before)
        case QuotaReject => Some(0)
        case _ => before
  }

  lemma {:induction false} QuotaIs(p: Pacer, script: seq<Attempt>, turns: seq<Turn>, k: nat)
    requires k <= |turns| == |script|
    ensures AfterTurns(p, script[..k], turns[..k]).quota == QuotaAt(p.quota, script, turns, k)
  {
    if k > 0 {
      QuotaIs(p, script, turns, k - 1);
      TurnStep(p, script, turns, k - 1);
    }
  }

  /** Over every run, a batch that passes the gate follows every recorded send before it by at least
      the gap its kind and the quota in force call for. */
  lemma SendsAreSpaced(p: Pacer, minInterval: real, script: seq<Attempt>, turns: seq<Turn>, i: nat, j: nat)
    requires |turns| == |script| && Lawful(p, minInterval, script, turns)
    requires i < j < |turns| && Recorded(script[i], turns[i]) && turns[j].Passed?
    ensures turns[j].at - turns[i].at
         >= RequiredGap(script[j].cancelOnly, minInterval, QuotaAt(p.quota, script, turns, j))
  {
    assert LawfulTurn(AfterTurns(p, script[..j], turns[..j]), minInterval, script[j], turns[j]);
    PrefixLawful(p, minInterval, script, turns, j);
    LastSendFollows(p, minInterval, script[..j], turns[..j], i);
    QuotaIs(p, script, turns, j);
  }

  /** The gap in figures. */
  lemma GapInFigures(cancelOnly: bool, minInterval: real, quota: Option<int>)
    ensures RequiredGap(cancelOnly, minInterval, quota)
         == if cancelOnly then 0.5
            else if quota.None? || quota.value >= 500 then minInterval
            else if quota.value >= 50 then 1.5 * minInterval
            else if quota.value >= 10 then 3.0 * minInterval
            else if minInterval > 15.0 then minInterval else 15.0
  {
  }

  /** Over every run, in figures: how long after any earlier recorded send a batch may pass the gate. */
  lemma SpacingInFigures(p: Pacer, minInterval: real, script: seq<Attempt>, turns: seq<Turn>, i: nat, j: nat)
    requires |turns| == |script| && Lawful(p, minInterval, script, turns)
    requires i < j < |turns| && Recorded(script[i], turns[i]) && turns[j].Passed?
    ensures var wait, quota := turns[j].at - turns[i].at, QuotaAt(p.quota, script, turns, j);
            && (script[j].cancelOnly ==> wait >= 0.5)
            && (!script[j].cancelOnly && (quota.None? || quota.value >= 500) ==> wait >= minInterval)
            && (!script[j].cancelOnly && quota.Some? && 50 <= quota.value < 500 ==> wait >= 1.5 * minInterval)
            && (!script[j].cancelOnly && quota.Some? && 10 <= quota.value < 50 ==> wait >= 3.0 * minInterval)
            && (!script[j].cancelOnly && quota.Some? && quota.value < 10 ==> wait >= 15.0 && wait >= minInterval)
  {
    SendsAreSpaced(p, minInterval, script, turns, i, j);
    GapInFigures(script[j].cancelOnly, minInterval, QuotaAt(p.quota, script, turns, j));
  }

  /** No accepted batch has brought a new quota between `i` and `j`. */
  ghost predicate NoNewQuota(script: seq<Attempt>, turns: seq<Turn>, i: nat, j: nat)
    requires j <= |turns| == |script|
  {
    forall k :: i < k < j && Recorded(script[k], turns[k]) && script[k].outcome.Accepted? ==>
      script[k].outcome.quota.None?
  }

  lemma {:induction false} QuotaStaysZero(initial: Option<int>, script: seq<Attempt>, turns: seq<Turn>, i: nat, j: nat)
    requires i < j <= |turns| == |script| && NoNewQuota(script, turns, i, j)
    requires Recorded(script[i], turns[i]) && script[i].outcome == QuotaReject
    ensures QuotaAt(initial, script, turns, j) == Some(0)
    decreases j
  {
    if i < j - 1 {
      QuotaStaysZero(initial, script, turns, i, j - 1);
    }
  }

  /** After a quota reject, and until an accepted batch brings a new quota, every batch that is not
      cancel-only waits at least 15 s after the reject. */
  lemma QuotaRejectSlowsDown(p: Pacer, minInterval: real, script: seq<Attempt>, turns: seq<Turn>, i: nat, j: nat)
    requires |turns| == |script| && Lawful(p, minInterval, script, turns)
    requires i < j < |turns| && turns[j].Passed? && !script[j].cancelOnly && NoNewQuota(script, turns, i, j)
    requires Recorded(script[i], turns[i]) && script[i].outcome == QuotaReject
    ensures turns[j].at - turns[i].at >= 15.0
  {
    QuotaStaysZero(p.quota, script, turns, i, j);
    SpacingInFigures(p, minInterval, script, turns, i, j);
  }

  // ---- The 429 deadlines -------------------------------------------------

  ghost predicate DeadlinesKept(p: Pacer) {
    && Sorted(p.deadlines)
    && p.backoff.until == (if p.deadlines == [] then None else Some(p.deadlines[|p.deadlines| - 1]))
  }

  lemma TurnKeepsDeadlines(p: Pacer, minInterval: real, a: Attempt, t: Turn)
    requires DeadlinesKept(p) && LawfulTurn(p, minInterval, a, t)
    ensures DeadlinesKept(AfterTurn(p, a, t))
  {
    if Recorded(a, t) && a.outcome == Throttled {
      GatedDeadlineMovesForward(p.backoff, t.settled);
    }
  }

  lemma {:induction false} RunKeepsDeadlines(p: Pacer, minInterval: real, script: seq<Attempt>, turns: seq<Turn>)
    requires |turns| == |script| && Unused(p) && Lawful(p, minInterval, script, turns)
    ensures DeadlinesKept(AfterTurns(p, script, turns))
  {
    if turns != [] {
      var k := |turns| - 1;
      PrefixLawful(p, minInterval, script, turns, k);
      RunKeepsDeadlines(p, minInterval, script[..k], turns[..k]);
      TurnKeepsDeadlines(AfterTurns(p, script[..k], turns[..k]), minInterval, script[k], turns[k]);
    }
  }

  /** Over every run the deadlines issued by 429s never move back, and no batch passes the gate
      before any deadline issued ahead of it. */
  lemma NoSendBeforeDeadline(p: Pacer, minInterval: real, script: seq<Attempt>, turns: seq<Turn>, j: nat)
    requires |turns| == |script| && Unused(p) && Lawful(p, minInterval, script, turns)
    requires j < |turns| && turns[j].Passed?
    ensures var ds := AfterTurns(p, script[..j], turns[..j]).deadlines;
            Sorted(ds) && forall i :: 0 <= i < |ds| ==> ds[i] <= turns[j].at
  {
    var r := AfterTurns(p, script[..j], turns[..j]);
    assert LawfulTurn(r, minInterval, script[j], turns[j]);
    PrefixLawful(p, minInterval, script, turns, j);
    RunKeepsDeadlines(p, minInterval, script[..j], turns[..j]);
    assert forall i :: 0 <= i < |r.deadlines| ==> r.deadlines[i] <= r.deadlines[|r.deadlines| - 1];
  }

  // ---- The sender as it runs ---------------------------------------------

  ghost predicate Matches(limiter: Limiter, p: Pacer)
    reads limiter
  {
    && limiter.history == p.history && limiter.lastSend == p.lastSend
    && limiter.quota == p.quota && limiter.backoff == p.backoff
  }

  /** Account for a gated batch: record it, then react to the venue's answer. */
  method Settle(limiter: Limiter, clock: Clock, a: Attempt, ghost p: Pacer) returns (t: Turn)
    requires limiter.ValidAt(clock.now) && Matches(limiter, p) && a.outcome != Unrecorded
    modifies limiter, clock
    ensures limiter.ValidAt(clock.now) && t.Passed? && old(clock.now) <= t.at <= t.settled == clock.now
    ensures limiter.history == old(limiter.history) + Stamps(a.ops, t.at)
    ensures Matches(limiter, AfterTurn(p, a, t))
  {
    var at := clock.Read();
    limiter.RecordOpsSentAt(a.ops, at);
    var now := clock.Read();
    t := Passed(at, now);
    match a.outcome
    case Accepted(q) =>
      if q.Some? {
        limiter.quota := q;
      }
      limiter.ResetGlobalBackoffAt(now);
    case QuotaReject => limiter.quota := Some(0);
    case Throttled => limiter.TriggerGlobalBackoffAt(now);
    case OtherReject =>
  }

  /** One attempt: ask the gate, and settle what passes it. */
  method TakeTurn(limiter: Limiter, clock: Clock, a: Attempt, ghost p: Pacer) returns (t: Turn)
    requires limiter.ValidAt(clock.now) && Matches(limiter, p) && p.now <= clock.now
    modifies limiter, clock
    ensures limiter.ValidAt(clock.now) && LawfulTurn(p, limiter.minSendInterval, a, t)
    ensures Matches(limiter, AfterTurn(p, a, t)) && AfterTurn(p, a, t).now <= clock.now
  {
    var ok := limiter.WriteSlot(a.ops, a.cancelOnly, clock);
    if !ok {
      t := Skipped(clock.now);
    } else if a.outcome == Unrecorded {
      t := Passed(clock.now, clock.now);
    } else {
      if a.ops <= OPS_PER_WINDOW {
        RoomLasts(limiter.history, clock.now, a.ops);
      }
      t := Settle(limiter, clock, a, p);
    }
  }

  /** Every run of the sender is lawful, and the limiter ends where the run leads. */
  method Drive(limiter: Limiter, clock: Clock, script: seq<Attempt>) returns (turns: seq<Turn>)
    requires limiter.ValidAt(clock.now)
    modifies limiter, clock
    ensures limiter.ValidAt(clock.now) && |turns| == |script|
    ensures var start := old(Pacer(limiter.history, limiter.lastSend, limiter.quota, limiter.backoff, [], clock.now));
            && Lawful(start, limiter.minSendInterval, script, turns)
            && Matches(limiter, AfterTurns(start, script, turns))
  {
    turns := [];
    ghost var start := Pacer(limiter.history, limiter.lastSend, limiter.quota, limiter.backoff, [], clock.now);
    for i := 0 to |script|
      invariant limiter.ValidAt(clock.now) && |turns| == i
      invariant Lawful(start, limiter.minSendInterval, script[..i], turns)
      invariant Matches(limiter, AfterTurns(start, script[..i], turns))
      invariant AfterTurns(start, script[..i], turns).now <= clock.now
    {
      ghost var p := AfterTurns(start, script[..i], turns);
      var t := TakeTurn(limiter, clock, script[i], p);
      LawfulExtends(start, limiter.minSendInterval, script, turns, t);
      turns := turns + [t];
    }
    assert script[..|script|] == script;
  }

  lemma LawfulExtends(p: Pacer, minInterval: real, script: seq<Attempt>, turns: seq<Turn>, t: Turn)
    requires |turns| < |script| && Lawful(p, minInterval, script[..|turns|], turns)
    requires LawfulTurn(AfterTurns(p, script[..|turns|], turns), minInterval, script[|turns|], t)
    ensures var k := |turns|;
            && Lawful(p, minInterval, script[..k + 1], turns + [t])
            && AfterTurns(p, script[..k + 1], turns + [t]) == AfterTurn(AfterTurns(p, script[..k], turns), script[k], t)
  {
    var k := |turns|;
    var some, all := script[..k + 1], turns + [t];
    assert some[..k] == script[..k] && all[..k] == turns;
    forall i | 0 <= i < |all|
      ensures LawfulTurn(AfterTurns(p, some[..i], all[..i]), minInterval, some[i], all[i])
    {
      if i < k {
        assert some[..i] == script[..k][..i] && all[..i] == turns[..i];
      }
    }
  }
}
