/**
The optimistic nonce: a local counter reserved at sign time and rolled back or re-fetched for
each outcome of a send, against the nonce the venue expects next.
*/
module NonceSync {
  import opened Common
  import opened Orders

  const NONCE_RESYNC_ATTEMPTS := 3

  // ---- The counter -------------------------------------------------------

  class NonceManager {
    var nonce: int

    constructor (next: int)
      ensures nonce + 1 == next
    {
      nonce := next - 1;
    }

    method Next() returns (n: int)
      modifies this
      ensures n == nonce == old(nonce) + 1
    {
      nonce := nonce + 1;
      n := nonce;
    }

    method AcknowledgeFailure()
      modifies this
      ensures nonce == old(nonce) - 1
    {
      nonce := nonce - 1;
    }

    method Rollback(n: nat)
      modifies this
      ensures nonce == old(nonce) - n
    {
      if n > 0 {
        nonce := nonce - n;
      }
    }

    /** `fetched` is the venue's answer, None when it cannot be reached. */
    method HardRefresh(fetched: Option<int>) returns (ok: bool)
      modifies this
      ensures ok == fetched.Some?
      ensures nonce == if fetched.Some? then fetched.value - 1 else old(nonce)
    {
      ok := fetched.Some?;
      if ok {
        nonce := fetched.value - 1;
      }
    }
  }

  // ---- Signing a batch ---------------------------------------------------

  /** Round half to even, as the raw price encoding does. */
  function RoundTiesEven(x: real): int {
    var f := x.Floor;
    var frac := x - f as real;
    if frac < 0.5 || (frac == 0.5 && f % 2 == 0) then f else f + 1
  }

  /** To the nearest integer, and to the even one when two are equally near. */
  lemma RoundsToNearestEven(x: real)
    ensures var r := RoundTiesEven(x) as real;
            x - 0.5 <= r <= x + 0.5 && (r == x - 0.5 || r == x + 0.5 ==> RoundTiesEven(x) % 2 == 0)
  {
  }

  const U32_MAX := 0xFFFF_FFFF

  /** Whether an op can be signed: `signer` is the signing library's verdict on it. */
  predicate Signable(op: BatchOp, priceTick: real, signer: bool)
    requires priceTick > 0.0
  {
    && (op.action == Create ==> 0 <= RoundTiesEven(op.price / priceTick) <= U32_MAX)
    && (op.action != Create ==> op.exchangeId.Some?)
    && signer
  }

  /** A create on the price grid is signed at exactly its number of ticks, and only if that fits. */
  lemma GridPriceIsSigned(op: BatchOp, k: int, priceTick: real, signer: bool)
    requires priceTick > 0.0 && op.action == Create && op.price == Multiple(k, priceTick)
    ensures RoundTiesEven(op.price / priceTick) == k
    ensures Signable(op, priceTick, signer) <==> 0 <= k <= 0xFFFF_FFFF && signer
  {
    assert op.price / priceTick == k as real;
  }

  datatype SignedOp = SignedOp(op: BatchOp, nonce: int)

  /** Sign every op with consecutive nonces, or give every reserved nonce back. */
  method SignBatch(mgr: NonceManager, ops: seq<BatchOp>, priceTick: real, signer: seq<bool>)
    returns (signed: Option<seq<SignedOp>>)
    requires priceTick > 0.0 && |signer| == |ops|
    modifies mgr
    ensures signed.Some? <==> forall i :: 0 <= i < |ops| ==> Signable(ops[i], priceTick, signer[i])
    ensures signed.Some? ==> |signed.value| == |ops| && mgr.nonce == old(mgr.nonce) + |ops|
    ensures signed.Some? ==> forall i :: 0 <= i < |ops| ==> signed.value[i] == SignedOp(ops[i], old(mgr.nonce) + 1 + i)
    ensures signed.None? ==> mgr.nonce == old(mgr.nonce)
  {
    var out: seq<SignedOp> := [];
    var reserved: nat := 0;
    for i := 0 to |ops|
      invariant reserved == i == |out| && mgr.nonce == old(mgr.nonce) + i
      invariant forall k :: 0 <= k < i ==> Signable(ops[k], priceTick, signer[k])
      invariant forall k :: 0 <= k < i ==> out[k] == SignedOp(ops[k], old(mgr.nonce) + 1 + k)
    {
      var n := mgr.Next();
      reserved := reserved + 1;
      if !Signable(ops[i], priceTick, signer[i]) {
        for k := 0 to reserved
          invariant mgr.nonce == old(mgr.nonce) + reserved - k
        {
          mgr.AcknowledgeFailure();
        }
        return None;
      }
      out := out + [SignedOp(ops[i], n)];
    }
    signed := Some(out);
  }

  // ---- The shared state under the sdk lock -------------------------------

  datatype Sdk = Sdk(counter: int, nonceOk: bool, venueNext: int)

  /** How far the counter runs ahead of the venue. */
  function Drift(s: Sdk): int {
    s.counter + 1 - s.venueNext
  }

  predicate InSync(s: Sdk) {
    Drift(s) == 0
  }

  /** What must hold whenever the lock is free. */
  predicate Trusted(s: Sdk) {
    s.nonceOk ==> InSync(s)
  }

  function Refreshed(s: Sdk): Sdk {
    s.(counter := s.venueNext - 1)
  }

  /** The venue's answer to a batch; ambiguous answers say how many nonces it consumed. */
  datatype Reply =
    | Accepted
    | QuotaReject
    | RateLimited
    | NonceReject(consumed: nat)
    | MakerOnlyReject(consumed: nat)
    | OtherReject(consumed: nat)
    | NotSent
    | Unknown(consumed: nat)

  function Consumed(reply: Reply, batch: nat): nat {
    match reply
    case Accepted => batch
    case QuotaReject | RateLimited | NotSent => 0
    case NonceReject(c) => c
    case MakerOnlyReject(c) => c
    case OtherReject(c) => c
    case Unknown(c) => c
  }

  /** One try of cancel-all: its transaction, and whether the refresh after an error succeeds. */
  datatype CancelOutcome = CancelSignFailed | CancelAccepted | CancelFailed(consumed: bool)
  datatype CancelTry = CancelTry(outcome: CancelOutcome, refreshOk: bool)

  datatype SdkStep =
    | SignFailure
    | Send(batch: nat, reply: Reply, refresh: seq<bool>, cancels: seq<CancelTry>)
    | PollerResync(ok: bool)
    | OrphanSignFailure
    | OrphanCancel(accepted: bool, consumed: bool, refreshOk: bool)
    | CancelAll(tries: seq<CancelTry>)

  /** Some of the first three refresh attempts reaches the venue. */
  predicate AnyRefresh(refresh: seq<bool>) {
    exists i :: 0 <= i < |refresh| && i < NONCE_RESYNC_ATTEMPTS && refresh[i]
  }

  function Resynced(s: Sdk, refresh: seq<bool>): Sdk {
    if AnyRefresh(refresh) then Refreshed(s).(nonceOk := true) else s.(nonceOk := false)
  }

  function AfterTry(s: Sdk, t: CancelTry): Sdk {
    var s1 := match t.outcome
      case CancelSignFailed => s
      case CancelAccepted => s.(counter := s.counter + 1, venueNext := s.venueNext + 1)
      case CancelFailed(c) => s.(counter := s.counter + 1, venueNext := s.venueNext + if c then 1 else 0);
    if t.outcome != CancelAccepted && t.refreshOk then Refreshed(s1) else s1
  }

  function AfterTries(s: Sdk, tries: seq<CancelTry>): Sdk {
    if tries == [] then s else AfterTry(AfterTries(s, tries[..|tries| - 1]), tries[|tries| - 1])
  }

  /** The reply handled: reserved nonces kept, rolled back or re-fetched. */
  function AfterReply(s: Sdk, batch: nat, reply: Reply, refresh: seq<bool>): Sdk {
    var signed := s.(counter := s.counter + batch, venueNext := s.venueNext + Consumed(reply, batch));
    var rolled := signed.(counter := s.counter);
    match reply
    case Accepted => signed
    case QuotaReject => Resynced(rolled, refresh)
    case RateLimited => rolled
    case NonceReject(_) => Resynced(signed, refresh)
    case MakerOnlyReject(_) => Resynced(rolled, refresh)
    case OtherReject(_) => Resynced(rolled, refresh)
    case NotSent => rolled
    case Unknown(_) => Resynced(signed, refresh)
  }

  function Step(s: Sdk, step: SdkStep): Sdk {
    match step
    case SignFailure => s
    case Send(batch, reply, refresh, cancels) => AfterTries(AfterReply(s, batch, reply, refresh), cancels)
    case PollerResync(ok) => if !s.nonceOk && ok then Refreshed(s).(nonceOk := true) else s
    case OrphanSignFailure => s
    case OrphanCancel(accepted, consumed, refreshOk) =>
      var s1 := s.(counter := s.counter + 1, venueNext := s.venueNext + if accepted || consumed then 1 else 0);
      if accepted then s1 else if refreshOk then Refreshed(s1) else s1.(nonceOk := false)
    case CancelAll(tries) => AfterTries(s, tries)
  }

  function Run(s: Sdk, steps: seq<SdkStep>): Sdk {
    if steps == [] then s else Step(Run(s, steps[..|steps| - 1]), steps[|steps| - 1])
  }

  // ---- The only escape ---------------------------------------------------

  /** A cancel-all transaction the venue did not count, whose refresh also failed: the source
      ignores that refresh result. */
  predicate Lost(t: CancelTry) {
    t.outcome == CancelFailed(false) && !t.refreshOk
  }

  predicate Repairs(t: CancelTry) {
    t.outcome != CancelAccepted && t.refreshOk
  }

  /** Lost tries not repaired by a later one. */
  function Unrepaired(tries: seq<CancelTry>): nat {
    if tries == [] then 0
    else
      var t := tries[|tries| - 1];
      if Repairs(t) then 0 else Unrepaired(tries[..|tries| - 1]) + (if Lost(t) then 1 else 0)
  }

  /** A cancel-all started in sync ends ahead of the venue by exactly the unrepaired tries. */
  lemma {:induction false} CancelAllDrift(s: Sdk, tries: seq<CancelTry>)
    requires InSync(s)
    ensures Drift(AfterTries(s, tries)) == Unrepaired(tries)
    ensures AfterTries(s, tries).nonceOk == s.nonceOk
  {
    if tries != [] {
      CancelAllDrift(s, tries[..|tries| - 1]);
    }
  }

  lemma {:induction false} TriesKeepFlag(s: Sdk, tries: seq<CancelTry>)
    ensures AfterTries(s, tries).nonceOk == s.nonceOk
  {
    if tries != [] {
      TriesKeepFlag(s, tries[..|tries| - 1]);
    }
  }

  function TriesOf(step: SdkStep): seq<CancelTry> {
    match step
    case Send(_, _, _, cancels) => cancels
    case CancelAll(tries) => tries
    case _ => []
  }

  predicate Contained(step: SdkStep) {
    Unrepaired(TriesOf(step)) == 0
  }

  lemma ReplyKeepsTrust(s: Sdk, batch: nat, reply: Reply, refresh: seq<bool>)
    requires Trusted(s)
    ensures Trusted(AfterReply(s, batch, reply, refresh))
  {
  }

  lemma TriesKeepTrust(s: Sdk, tries: seq<CancelTry>)
    requires Trusted(s)
    ensures s.nonceOk ==> (Trusted(AfterTries(s, tries)) <==> Unrepaired(tries) == 0)
    ensures !s.nonceOk ==> Trusted(AfterTries(s, tries))
  {
    if s.nonceOk {
      CancelAllDrift(s, tries);
    } else {
      TriesKeepFlag(s, tries);
    }
  }

  /** The trust flag after a step: only a mandatory refresh or an orphan's failed one decides it. */
  predicate FlagAfter(ok: bool, step: SdkStep) {
    match step
    case Send(_, reply, refresh, _) =>
      if reply.Accepted? || reply.RateLimited? || reply.NotSent? then ok else AnyRefresh(refresh)
    case PollerResync(reachable) => ok || reachable
    case OrphanCancel(accepted, _, refreshOk) => ok && (accepted || refreshOk)
    case _ => ok
  }

  /** One step keeps the nonce trusted exactly when it leaves the flag down or its cancel-all, if
      any, leaves no unrepaired try. */
  lemma StepKeepsTrust(s: Sdk, step: SdkStep)
    requires Trusted(s)
    ensures Step(s, step).nonceOk == FlagAfter(s.nonceOk, step)
    ensures Trusted(Step(s, step)) <==> !FlagAfter(s.nonceOk, step) || Contained(step)
  {
    match step
    case Send(batch, reply, refresh, cancels) =>
      ReplyKeepsTrust(s, batch, reply, refresh);
      TriesKeepTrust(AfterReply(s, batch, reply, refresh), cancels);
      TriesKeepFlag(AfterReply(s, batch, reply, refresh), cancels);
    case CancelAll(tries) =>
      TriesKeepTrust(s, tries);
      TriesKeepFlag(s, tries);
    case _ =>
  }

  /** Whenever the lock is free and the nonce is trusted, the next local nonce is the one the
      venue expects, in every run without an unrepaired cancel-all. */
  lemma {:induction false} RunKeepsTrust(s: Sdk, steps: seq<SdkStep>)
    requires Trusted(s)
    requires forall i :: 0 <= i < |steps| ==> Contained(steps[i])
    ensures Trusted(Run(s, steps))
    ensures Run(s, steps).nonceOk ==> Run(s, steps).counter + 1 == Run(s, steps).venueNext
  {
    if steps != [] {
      RunKeepsTrust(s, steps[..|steps| - 1]);
      StepKeepsTrust(Run(s, steps[..|steps| - 1]), steps[|steps| - 1]);
    }
  }

  /** The trust flag after a run, from the steps alone. */
  predicate FlagRun(ok: bool, steps: seq<SdkStep>) {
    if steps == [] then ok else FlagAfter(FlagRun(ok, steps[..|steps| - 1]), steps[|steps| - 1])
  }

  /** Every step leaves the flag down or leaves no unrepaired cancel-all try. */
  ghost predicate AllHarmless(ok: bool, steps: seq<SdkStep>) {
    forall i :: 0 <= i < |steps| ==> !FlagRun(ok, steps[..i + 1]) || Contained(steps[i])
  }

  ghost predicate AlwaysTrusted(s: Sdk, steps: seq<SdkStep>) {
    forall k :: 0 <= k <= |steps| ==> Trusted(Run(s, steps[..k]))
  }

  lemma HarmlessStep(ok: bool, steps: seq<SdkStep>)
    requires steps != []
    ensures var before, last := steps[..|steps| - 1], steps[|steps| - 1];
            AllHarmless(ok, steps) <==> AllHarmless(ok, before) && (!FlagRun(ok, steps) || Contained(last))
  {
    var before := steps[..|steps| - 1];
    assert steps[..|steps|] == steps;
    assert forall i :: 0 <= i < |before| ==> before[..i + 1] == steps[..i + 1] && before[i] == steps[i];
  }

  lemma TrustedStep(s: Sdk, steps: seq<SdkStep>)
    requires steps != []
    ensures AlwaysTrusted(s, steps) <==> AlwaysTrusted(s, steps[..|steps| - 1]) && Trusted(Run(s, steps))
  {
    var before := steps[..|steps| - 1];
    assert steps[..|steps|] == steps;
    assert forall k :: 0 <= k <= |before| ==> before[..k] == steps[..k];
  }

  /** A run keeps the nonce trusted at every free moment exactly when each of its steps leaves the
      flag down or leaves no unrepaired cancel-all try. */
  lemma {:induction false} RunTrustIff(s: Sdk, steps: seq<SdkStep>)
    requires Trusted(s)
    ensures AlwaysTrusted(s, steps) <==> AllHarmless(s.nonceOk, steps)
    ensures AlwaysTrusted(s, steps) ==> Trusted(Run(s, steps)) && Run(s, steps).nonceOk == FlagRun(s.nonceOk, steps)
  {
    if steps == [] {
      assert steps[..0] == steps;
    } else {
      var before := steps[..|steps| - 1];
      RunTrustIff(s, before);
      TrustedStep(s, steps);
      HarmlessStep(s.nonceOk, steps);
      if AlwaysTrusted(s, before) {
        StepKeepsTrust(Run(s, before), steps[|steps| - 1]);
      }
    }
  }

  /** The escape is real: one lost cancel-all leaves a trusted flag on a counter that is ahead. */
  lemma IgnoredRefreshEscapes()
    ensures var s := Step(Sdk(6, true, 7), CancelAll([CancelTry(CancelFailed(false), false)]));
            s.nonceOk && Drift(s) == 1
  {
  }

  /** An untrusted nonce is repaired by the first poll whose refresh succeeds. */
  lemma PollerRepairs(s: Sdk)
    requires !s.nonceOk
    ensures Step(s, PollerResync(true)).nonceOk && InSync(Step(s, PollerResync(true)))
  {
  }

  /** What the decision task hears: an unknown outcome reports nothing, reconcile settles it. */
  function Fate(ops: seq<BatchOp>, reply: Reply): seq<OrderEvent> {
    match reply
    case Accepted => AckEvents(ops)
    case Unknown(_) => []
    case _ => FailedCreates(ops)
  }

  /** An unknown outcome always pulls every resting order; a reject does when trading is paused, by
      the tripped breaker or by a mandatory refresh that failed. */
  predicate PullsLadder(reply: Reply, refresh: seq<bool>, tripped: bool) {
    match reply
    case Accepted | NotSent => false
    case Unknown(_) => true
    case RateLimited => tripped
    case _ => tripped || !AnyRefresh(refresh)
  }

  // ---- The sender --------------------------------------------------------

  class Sender {
    const mgr: NonceManager
    var nonceOk: bool
    var venueNext: int   // the venue's side of the protocol: the nonce it expects next

    ghost function View(): Sdk
      reads this, mgr
    {
      Sdk(mgr.nonce, nonceOk, venueNext)
    }

    constructor (next: int)
      ensures View() == Sdk(next - 1, true, next) && fresh(mgr)
    {
      mgr := new NonceManager(next);
      nonceOk, venueNext := true, next;
    }

    /** The venue's next nonce as fetched over REST, or None when it cannot be reached. */
    function Fetch(reachable: bool): Option<int>
      reads this
    {
      if reachable then Some(venueNext) else None
    }

    /** Up to three refreshes; on failure the nonce is declared untrusted. */
    method ResyncNonceOrPause(refresh: seq<bool>) returns (ok: bool)
      modifies this`nonceOk, mgr
      ensures View() == Resynced(old(View()), refresh) && ok == AnyRefresh(refresh)
    {
      for attempt := 0 to NONCE_RESYNC_ATTEMPTS
        invariant View() == old(View())
        invariant forall i :: 0 <= i < attempt && i < |refresh| ==> !refresh[i]
      {
        var refreshed := mgr.HardRefresh(Fetch(attempt < |refresh| && refresh[attempt]));
        if refreshed {
          nonceOk := true;
          return true;
        }
      }
      nonceOk := false;
      ok := false;
    }

    /** Cancel-all with refresh on error; the refresh result is not looked at. */
    method CancelAllAndVerify(tries: seq<CancelTry>)
      modifies this`venueNext, mgr
      ensures View() == AfterTries(old(View()), tries)
    {
      for i := 0 to |tries|
        invariant View() == AfterTries(old(View()), tries[..i])
      {
        assert tries[..i + 1][..i] == tries[..i];
        var t := tries[i];
        var n := mgr.Next();
        match t.outcome {
          case CancelSignFailed => mgr.AcknowledgeFailure();
          case CancelAccepted => venueNext := venueNext + 1;
          case CancelFailed(c) => venueNext := venueNext + if c then 1 else 0;
        }
        if t.outcome != CancelAccepted {
          var _ := mgr.HardRefresh(Fetch(t.refreshOk));
        }
      }
      assert tries[..|tries|] == tries;
    }

    /** Handle the venue's reply to a signed batch and report the fate of every op. */
    method HandleReply(ops: seq<BatchOp>, reply: Reply, refresh: seq<bool>) returns (events: seq<OrderEvent>)
      modifies this, mgr
      ensures View() == AfterReply(old(View()).(counter := old(mgr.nonce) - |ops|), |ops|, reply, refresh)
      ensures events == Fate(ops, reply)
    {
      venueNext := venueNext + Consumed(reply, |ops|);
      var ok := true;
      match reply {
        case Accepted =>
          events := AckEvents(ops);
          return;
        case QuotaReject =>
          mgr.Rollback(|ops|);
          ok := ResyncNonceOrPause(refresh);
        case RateLimited =>
          mgr.Rollback(|ops|);
        case NonceReject(_) =>
          ok := ResyncNonceOrPause(refresh);
        case MakerOnlyReject(_) =>
          mgr.Rollback(|ops|);
          ok := ResyncNonceOrPause(refresh);
        case OtherReject(_) =>
          mgr.Rollback(|ops|);
          ok := ResyncNonceOrPause(refresh);
        case NotSent =>
          mgr.Rollback(|ops|);
        case Unknown(_) =>
          ok := ResyncNonceOrPause(refresh);
          return [];
      }
      events := FailedCreates(ops);
    }

    /** Sign and send one batch under the lock, handle the reply, and pull the ladder if trading is
        paused: one step of the protocol. */
    method SendOnce(ops: seq<BatchOp>, priceTick: real, signer: seq<bool>, reply: Reply, refresh: seq<bool>,
                    tripped: bool, tries: seq<CancelTry>)
      returns (events: seq<OrderEvent>)
      requires priceTick > 0.0 && |signer| == |ops|
      modifies this, mgr
      ensures var signable := forall i :: 0 <= i < |ops| ==> Signable(ops[i], priceTick, signer[i]);
              var cancels := if PullsLadder(reply, refresh, tripped) then tries else [];
              && View() == Step(old(View()), if signable then Send(|ops|, reply, refresh, cancels) else SignFailure)
              && events == (if signable then Fate(ops, reply) else FailedCreates(ops))
              && (Trusted(old(View())) && Unrepaired(cancels) == 0 ==> Trusted(View()))
    {
      ghost var before := View();
      var signed := SignBatch(mgr, ops, priceTick, signer);
      if signed.None? {
        return FailedCreates(ops);
      }
      events := HandleReply(ops, reply, refresh);
      assert View() == AfterReply(before, |ops|, reply, refresh);
      ghost var cancels := [];
      if PullsLadder(reply, refresh, tripped) {
        cancels := tries;
        CancelAllAndVerify(tries);
      }
      if Trusted(before) {
        StepKeepsTrust(before, Send(|ops|, reply, refresh, cancels));
      }
    }

    /** The reconcile poller's repair of an untrusted nonce. */
    method PollNonce(reachable: bool)
      modifies this`nonceOk, mgr
      ensures View() == Step(old(View()), PollerResync(reachable))
    {
      if !nonceOk {
        var refreshed := mgr.HardRefresh(Fetch(reachable));
        if refreshed {
          nonceOk := true;
        }
      }
    }

    /** The reconcile poller's cancel of one orphan order. */
    method CancelOrphan(signs: bool, accepted: bool, consumed: bool, reachable: bool)
      modifies this, mgr
      ensures var step := if signs then OrphanCancel(accepted, consumed, reachable) else OrphanSignFailure;
              View() == Step(old(View()), step)
    {
      var n := mgr.Next();
      if !signs {
        mgr.AcknowledgeFailure();
        return;
      }
      venueNext := venueNext + if accepted || consumed then 1 else 0;
      if !accepted {
        var refreshed := mgr.HardRefresh(Fetch(reachable));
        if !refreshed {
          nonceOk := false;
        }
      }
    }
  }
}
