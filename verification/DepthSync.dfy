/**
The Binance diff-depth client: REST snapshot plus diff stream, under the USD-M futures
rules of "How to manage a local order book correctly".
*/
module DepthSync {
  import opened Common
  import opened Book
  import opened VenueLog

  datatype Event = Event(firstId: int, lastId: int, prevId: int, bids: seq<Level>, asks: seq<Level>)
  datatype Snapshot = Snapshot(lastUpdateId: int, bids: seq<Level>, asks: seq<Level>)

  datatype EventAction = Drop | ApplyFirst | Apply | Resync

  function ClassifyEvent(synced: bool, lastUpdateId: int, prevU: int, e: Event): EventAction {
    if !synced then
      if e.lastId < lastUpdateId then Drop
      else if e.firstId <= lastUpdateId then ApplyFirst
      else Resync
    else if e.prevId == prevU then Apply
    else Resync
  }

  // ---- The client as a state machine -------------------------------------

  datatype Client = Client(book: TwoSided, lastUpdateId: int, prevU: int, synced: bool)

  const FRESH := Client(EMPTY, 0, 0, false)

  function WithSnapshot(s: Snapshot): Client {
    Client(TwoSided(PutAll(map[], s.bids), PutAll(map[], s.asks)), s.lastUpdateId, 0, false)
  }

  function WithDiff(c: Client, e: Event): Client {
    c.(book := TwoSided(PutAll(c.book.bids, e.bids), PutAll(c.book.asks, e.asks)), prevU := e.lastId)
  }

  function Classify(c: Client, e: Event): EventAction {
    ClassifyEvent(c.synced, c.lastUpdateId, c.prevU, e)
  }

  /** One event; None asks for a re-snapshot. */
  function Handle(c: Client, e: Event): Option<Client> {
    match Classify(c, e)
    case Drop => Some(c)
    case ApplyFirst => Some(WithDiff(c, e).(synced := true))
    case Apply => Some(WithDiff(c, e))
    case Resync => None
  }

  function Drain(c: Client, events: seq<Event>): Option<Client> {
    if events == [] then Some(c)
    else
      var r := Drain(c, events[..|events| - 1]);
      if r.None? then None else Handle(r.value, events[|events| - 1])
  }

  datatype Input = Reset | Sync(snapshot: Snapshot, buffer: seq<Event>) | Live(event: Event)

  function OrFresh(r: Option<Client>): Client {
    if r.None? then FRESH else r.value
  }

  /** A requested re-snapshot starts over from a reset client. */
  function Next(c: Client, i: Input): Client {
    match i
    case Reset => FRESH
    case Sync(s, b) => OrFresh(Drain(WithSnapshot(s), b))
    case Live(e) => OrFresh(Handle(c, e))
  }

  function Run(inputs: seq<Input>): Client {
    if inputs == [] then FRESH else Next(Run(inputs[..|inputs| - 1]), inputs[|inputs| - 1])
  }

  // ---- What the venue promises -------------------------------------------

  ghost predicate HonestEvent(log: seq<Change>, e: Event) {
    && e.prevId < e.firstId <= e.lastId
    && HonestDiff(log, e.prevId, e.lastId, e.bids, e.asks)
  }

  ghost predicate HonestEvents(log: seq<Change>, es: seq<Event>) {
    forall i :: 0 <= i < |es| ==> HonestEvent(log, es[i])
  }

  ghost predicate HonestSnap(log: seq<Change>, s: Snapshot) {
    HonestSnapshot(log, s.lastUpdateId, s.bids, s.asks)
  }

  ghost predicate HonestInput(log: seq<Change>, i: Input) {
    match i
    case Reset => true
    case Sync(s, b) => HonestSnap(log, s) && HonestEvents(log, b)
    case Live(e) => HonestEvent(log, e)
  }

  // ---- The book is the venue's book --------------------------------------

  /** Unsynced, the book is the snapshot's; synced, it is the venue's book at `prevU`. */
  ghost predicate Faithful(log: seq<Change>, c: Client) {
    var n := if c.synced then c.prevU else c.lastUpdateId;
    0 <= n <= |log| && c.book == At(log, n)
  }

  lemma HandleFaithful(log: seq<Change>, c: Client, e: Event)
    requires Faithful(log, c) && HonestEvent(log, e)
    ensures Handle(c, e).Some? ==> Faithful(log, Handle(c, e).value)
  {
    match Classify(c, e)
    case Drop =>
    case ApplyFirst => DiffAdvances(log, e.prevId, c.lastUpdateId, e.lastId, e.bids, e.asks);
    case Apply => DiffAdvances(log, e.prevId, c.prevU, e.lastId, e.bids, e.asks);
    case Resync =>
  }

  lemma {:induction false} DrainFaithful(log: seq<Change>, c: Client, es: seq<Event>)
    requires Faithful(log, c) && HonestEvents(log, es)
    ensures Drain(c, es).Some? ==> Faithful(log, Drain(c, es).value)
  {
    if es != [] {
      DrainFaithful(log, c, es[..|es| - 1]);
      if Drain(c, es).Some? {
        HandleFaithful(log, Drain(c, es[..|es| - 1]).value, es[|es| - 1]);
      }
    }
  }

  /** Over every run, a synced client holds exactly the venue's book at `prevU`. */
  lemma {:induction false} RunFaithful(log: seq<Change>, inputs: seq<Input>)
    requires forall i :: 0 <= i < |inputs| ==> HonestInput(log, inputs[i])
    ensures Faithful(log, Run(inputs))
    ensures Run(inputs).synced ==> Run(inputs).book == At(log, Run(inputs).prevU)
  {
    if inputs != [] {
      var before, last := inputs[..|inputs| - 1], inputs[|inputs| - 1];
      RunFaithful(log, before);
      assert HonestInput(log, last);
      match last
      case Reset =>
      case Sync(s, b) => DrainFaithful(log, WithSnapshot(s), b);
      case Live(e) => HandleFaithful(log, Run(before), e);
    }
  }

  // ---- When the client synchronises --------------------------------------

  /** Each event continues the previous one. */
  ghost predicate Chained(es: seq<Event>) {
    && (forall i :: 0 <= i < |es| ==> es[i].firstId <= es[i].lastId)
    && (forall i :: 0 < i < |es| ==> es[i].prevId == es[i - 1].lastId && es[i - 1].lastId < es[i].firstId)
  }

  /** Every event of the buffer precedes the snapshot. */
  ghost predicate AllStale(es: seq<Event>, n: int) {
    forall i :: 0 <= i < |es| ==> es[i].lastId < n
  }

  ghost predicate Brackets(e: Event, n: int) {
    e.firstId <= n <= e.lastId
  }

  lemma {:induction false} StaleDrain(c: Client, es: seq<Event>)
    requires !c.synced && AllStale(es, c.lastUpdateId)
    ensures Drain(c, es) == Some(c)
  {
    if es != [] {
      StaleDrain(c, es[..|es| - 1]);
    }
  }

  lemma {:induction false} SyncedDrain(c: Client, es: seq<Event>, k: nat)
    requires !c.synced && Chained(es) && k < |es|
    requires AllStale(es[..k], c.lastUpdateId) && Brackets(es[k], c.lastUpdateId)
    ensures Drain(c, es).Some? && Drain(c, es).value.synced
    ensures Drain(c, es).value.prevU == es[|es| - 1].lastId
    decreases |es|
  {
    var before := es[..|es| - 1];
    if k == |es| - 1 {
      StaleDrain(c, before);
    } else {
      assert before[..k] == es[..k];
      SyncedDrain(c, before, k);
    }
  }

  lemma {:induction false} MissedDrain(c: Client, es: seq<Event>, k: nat)
    requires !c.synced && k < |es|
    requires AllStale(es[..k], c.lastUpdateId)
    requires es[k].lastId >= c.lastUpdateId && !Brackets(es[k], c.lastUpdateId)
    ensures Drain(c, es).None?
    decreases |es|
  {
    var before := es[..|es| - 1];
    if k == |es| - 1 {
      StaleDrain(c, before);
    } else {
      assert before[..k] == es[..k];
      MissedDrain(c, before, k);
    }
  }

  lemma FirstFresh(es: seq<Event>, n: int) returns (k: nat)
    ensures k <= |es| && AllStale(es[..k], n) && (k < |es| ==> es[k].lastId >= n)
  {
    k := 0;
    while k < |es| && es[k].lastId < n
      invariant k <= |es| && AllStale(es[..k], n)
    {
      k := k + 1;
    }
  }

  /** On a continuous buffer the drain syncs exactly when some event brackets the snapshot, and
      stays unsynced (never an error) exactly when every event is stale. */
  lemma DrainOutcome(c: Client, es: seq<Event>)
    requires !c.synced && Chained(es)
    ensures (Drain(c, es).Some? && Drain(c, es).value.synced)
        <==> exists k :: 0 <= k < |es| && Brackets(es[k], c.lastUpdateId)
    ensures (Drain(c, es).Some? && !Drain(c, es).value.synced) <==> AllStale(es, c.lastUpdateId)
  {
    var n := c.lastUpdateId;
    var k := FirstFresh(es, n);
    if k == |es| {
      assert es[..k] == es;
      StaleDrain(c, es);
    } else if Brackets(es[k], n) {
      SyncedDrain(c, es, k);
    } else {
      MissedDrain(c, es, k);
      forall j | 0 <= j < |es|
        ensures !Brackets(es[j], n)
      {
        if j < k {
          assert es[..k][j].lastId < n;
        } else {
          ChainGrows(es, k, j);
        }
      }
    }
  }

  lemma {:induction false} ChainGrows(es: seq<Event>, i: nat, j: nat)
    requires Chained(es) && i <= j < |es|
    ensures es[i].firstId <= es[j].firstId
    decreases j
  {
    if i < j {
      ChainGrows(es, i, j - 1);
    }
  }

  // ---- Which streams a client follows, from the ids alone ----------------

  /** The id an event must continue: the previous event's last id, or where the client stands. */
  function Expected(prevU: int, es: seq<Event>, i: nat): int
    requires i <= |es|
  {
    if i == 0 then prevU else es[i - 1].lastId
  }

  /** Every event continues the one before it, starting from `prevU`. */
  ghost predicate Continues(prevU: int, es: seq<Event>) {
    forall i :: 0 <= i < |es| ==> es[i].prevId == Expected(prevU, es, i)
  }

  lemma ContinuesStep(prevU: int, es: seq<Event>)
    requires es != []
    ensures var k := |es| - 1;
            Continues(prevU, es) <==> Continues(prevU, es[..k]) && es[k].prevId == Expected(prevU, es, k)
  {
    var k := |es| - 1;
    forall i | 0 <= i < k
      ensures Expected(prevU, es[..k], i) == Expected(prevU, es, i) && es[..k][i] == es[i]
    {
    }
  }

  /** A client in step follows a stream exactly when every event continues the one before it; then it
      stands at the last event. Any break asks for a new snapshot. */
  lemma {:induction false} InStepIff(c: Client, es: seq<Event>)
    requires c.synced
    ensures Drain(c, es).Some? <==> Continues(c.prevU, es)
    ensures Drain(c, es).Some? ==>
              Drain(c, es).value.synced && Drain(c, es).value.prevU == Expected(c.prevU, es, |es|)
  {
    if es != [] {
      var k := |es| - 1;
      InStepIff(c, es[..k]);
      ContinuesStep(c.prevU, es);
      assert Expected(c.prevU, es[..k], k) == Expected(c.prevU, es, k);
    }
  }

  /** From event `k` on, the stream continues. */
  ghost predicate ContinuesFrom(es: seq<Event>, k: nat) {
    forall i :: k < i < |es| ==> es[i].prevId == es[i - 1].lastId
  }

  /** A client out of step accepts a stream exactly when all of it is stale, or its first event that is
      not stale brackets the snapshot and every later one continues. */
  lemma {:induction false} OutOfStepIff(c: Client, es: seq<Event>, k: nat)
    requires !c.synced && k <= |es| && AllStale(es[..k], c.lastUpdateId)
    requires k < |es| ==> es[k].lastId >= c.lastUpdateId
    ensures Drain(c, es).Some? <==> k == |es| || (Brackets(es[k], c.lastUpdateId) && ContinuesFrom(es, k))
    ensures Drain(c, es).Some? ==> Drain(c, es).value.synced == (k < |es|)
    ensures Drain(c, es).Some? && k < |es| ==> Drain(c, es).value.prevU == es[|es| - 1].lastId
    decreases |es|
  {
    if k == |es| {
      assert es[..k] == es;
      StaleDrain(c, es);
    } else {
      var before := es[..|es| - 1];
      assert before[..k] == es[..k];
      OutOfStepIff(c, before, k);
      if k < |es| - 1 {
        assert forall i :: 0 <= i < |before| ==> before[i] == es[i];
        assert ContinuesFrom(es, k) <==> ContinuesFrom(before, k) && es[|es| - 1].prevId == es[|es| - 2].lastId;
      } else {
        assert before == es[..k];
        StaleDrain(c, before);
      }
    }
  }

  /** How many leading events are older than the snapshot. */
  function StaleCount(es: seq<Event>, lastUpdateId: int): (k: nat)
    ensures k <= |es| && AllStale(es[..k], lastUpdateId)
    ensures k < |es| ==> es[k].lastId >= lastUpdateId
  {
    if es == [] || es[0].lastId >= lastUpdateId then 0
    else
      var k := StaleCount(es[1..], lastUpdateId);
      assert es[..k + 1] == [es[0]] + es[1..][..k];
      k + 1
  }

  /** Where the run of continuing events that starts at `k` ends. */
  function FollowedTo(es: seq<Event>, k: nat): (n: nat)
    requires k < |es|
    ensures k < n <= |es| && ContinuesFrom(es[..n], k)
    ensures n < |es| ==> es[n].prevId != es[n - 1].lastId
    decreases |es| - k
  {
    if k + 1 < |es| && es[k + 1].prevId == es[k].lastId then
      var n := FollowedTo(es, k + 1);
      assert es[..n][k + 1] == es[k + 1] && es[..n][k] == es[k];
      n
    else k + 1
  }

  /** Out of step, the stream is followed from the bracketing event to the first break after it. */
  lemma CatchUpEndsAtBreak(c: Client, es: seq<Event>, k: nat, n: nat)
    requires !c.synced && k == StaleCount(es, c.lastUpdateId) && k < |es| && n == FollowedTo(es, k)
    requires Brackets(es[k], c.lastUpdateId)
    ensures Drain(c, es[..n]).Some?
    ensures n < |es| ==> Drain(c, es[..n + 1]).None?
  {
    assert es[..n][..k] == es[..k] && es[..n][k] == es[k];
    OutOfStepIff(c, es[..n], k);
    if n < |es| {
      var longer := es[..n + 1];
      assert longer[..k] == es[..k] && longer[k] == es[k] && longer[n] == es[n] && longer[n - 1] == es[n - 1];
      OutOfStepIff(c, longer, k);
    }
  }

  /** Out of step, an event past the snapshot that does not bracket it ends the stream. */
  lemma MissedBracketEndsStream(c: Client, es: seq<Event>, k: nat)
    requires !c.synced && k == StaleCount(es, c.lastUpdateId)
    requires k < |es| ==> !Brackets(es[k], c.lastUpdateId)
    ensures Drain(c, es[..k]).Some?
    ensures k < |es| ==> Drain(c, es[..k + 1]).None?
  {
    StaleDrain(c, es[..k]);
    if k < |es| {
      var longer := es[..k + 1];
      assert longer[..k] == es[..k] && longer[k] == es[k];
      OutOfStepIff(c, longer, k);
    }
  }

  /** How many leading events continue from `prevU`. */
  function InStep(prevU: int, es: seq<Event>): (n: nat)
    ensures n <= |es| && Continues(prevU, es[..n])
    ensures n < |es| ==> es[n].prevId != Expected(prevU, es, n)
  {
    if es == [] then 0
    else
      var k := |es| - 1;
      var n := InStep(prevU, es[..k]);
      if n < k then
        assert es[..k][..n] == es[..n] && Expected(prevU, es[..k], n) == Expected(prevU, es, n);
        n
      else if es[k].prevId == Expected(prevU, es, k) then
        assert es[..k][..k] == es[..k] && es[..k + 1] == es;
        ContinuesStep(prevU, es);
        k + 1
      else
        assert es[..k][..k] == es[..k];
        k
  }

  /** The stream is followed up to the first event that does not continue, and no further. */
  lemma BreakEndsStream(c: Client, es: seq<Event>, n: nat)
    requires c.synced && n == InStep(c.prevU, es)
    ensures Drain(c, es[..n]).Some?
    ensures n < |es| ==> Drain(c, es[..n + 1]).None?
  {
    InStepIff(c, es[..n]);
    if n < |es| {
      var longer := es[..n + 1];
      assert longer[..n] == es[..n] && longer[n] == es[n];
      ContinuesStep(c.prevU, longer);
      InStepIff(c, longer);
    }
  }
}
