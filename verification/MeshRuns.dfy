/** What every interleaving of handlers and resumed awaits keeps, over whole runs. */
module MeshRuns {
  import opened Basics
  import opened Mesh
  import opened MeshInvariant
  import opened Transport
  import Tofu

  function After(s: State, es: seq<Event>): State
    decreases |es|
  {
    if es == [] then s else Step(After(s, es[..|es| - 1]), es[|es| - 1])
  }

  const COLD: State := State(None, {}, [], [], multiset{}, [])

  lemma {:induction false} RunEvolves(s: State, es: seq<Event>)
    ensures |s.objects| <= |After(s, es).objects|
    ensures forall i | 0 <= i < |s.objects| :: Follows(s.objects[i], After(s, es).objects[i])
    decreases |es|
  {
    if es != [] {
      RunEvolves(s, es[..|es| - 1]);
      StepEvolves(After(s, es[..|es| - 1]), es[|es| - 1]);
    }
  }

  /** Between two moments of a run a verdict moves at most once, and only away from pending. */
  lemma VerdictMovesAtMostOnce(s: State, before: seq<Event>, after: seq<Event>, ref: nat)
    requires ref < |s.objects|
    ensures var mid := After(s, before);
            var end := After(mid, after);
            && ref < |mid.objects| <= |end.objects|
            && (s.objects[ref].verdict != mid.objects[ref].verdict
                ==> s.objects[ref].verdict == Pending && mid.objects[ref].verdict == end.objects[ref].verdict)
  {
    RunEvolves(s, before);
    RunEvolves(After(s, before), after);
  }

  lemma {:induction false} InvLasts(s: State, es: seq<Event>)
    requires Inv(s)
    ensures Inv(After(s, es))
    decreases |es|
  {
    if es != [] {
      InvLasts(s, es[..|es| - 1]);
      StepKeepsInv(After(s, es[..|es| - 1]), es[|es| - 1]);
    }
  }

  /** Over every interleaving: three strikes end a handshake, a session comes with its SAS and the peer's
      key, at most 1000 keys are pinned, and every device with a handshake is connected unless a
      stopMesh is between its two clears. */
  lemma EveryRunKeepsInv(es: seq<Event>)
    ensures var s := After(COLD, es);
            && (forall i | 0 <= i < |s.objects| :: Whole(s.objects[i]))
            && (!s.TearingDown() ==> Devices(s.cryptoStates) <= s.connected)
            && |s.pins| <= Tofu.TOFU_MAX_ENTRIES
            && Inv(s)
  {
    InvLasts(COLD, es);
  }

  /** Events that bring a device back: an inbound connection, or an outbound one that completes. */
  predicate Reconnects(e: Event, d: Device) {
    e == Inbound(d) || (e.Resume? && e.task.Connecting? && e.task.device == d)
  }

  lemma ResumedConnects(s: State, t: Task, outcome: Outcome, now: int)
    ensures Resumed(s, t, outcome, now).connected <= s.connected + if t.Connecting? then {t.device} else {}
  {
  }

  lemma StepStaysGone(s: State, e: Event, d: Device)
    requires d !in s.connected && !Reconnects(e, d)
    ensures d !in Step(s, e).connected
  {
    match e
    case Tick(now) => SweptEvolves(s, s.cryptoStates, now);
    case AcceptPeer(p) => JudgeFirstEvolves(s, p, Accepted);
    case RejectPeer(p) => JudgeFirstEvolves(s, p, Rejected);
    case Resume(task, outcome, now) => ResumedConnects(s.End(task), task, outcome, now);
    case _ =>
  }

  lemma {:induction false} StaysGone(s: State, es: seq<Event>, d: Device)
    requires d !in s.connected && forall e | e in es :: !Reconnects(e, d)
    ensures d !in After(s, es).connected
    decreases |es|
  {
    if es != [] {
      var before, e := es[..|es| - 1], es[|es| - 1];
      assert e in es && forall x | x in before :: x in es;
      StaysGone(s, before, d);
      StepStaysGone(After(s, before), e, d);
    }
  }

  /** No handshake outlives a disconnect, whatever was suspended when it came: until the device
      reconnects it has no handshake state. */
  lemma NoHandshakeOutlivesADisconnect(es: seq<Event>, d: Device, more: seq<Event>)
    requires forall e | e in more :: !Reconnects(e, d)
    ensures var s := Step(After(COLD, es), Gone(d));
            var end := After(s, more);
            d !in Devices(s.cryptoStates) && (!end.TearingDown() ==> d !in Devices(end.cryptoStates))
  {
    var before := After(COLD, es);
    var s := Step(before, Gone(d));
    RemoveEntries(before.cryptoStates, d);
    StaysGone(s, more, d);
    EveryRunKeepsInv(es);
    StepKeepsInv(before, Gone(d));
    InvLasts(s, more);
  }

  /** After a timeout tick no connected device has a pending handshake without a session that is older
      than 15 seconds, and no other verdict has moved. */
  lemma TickRejectsTheStalled(es: seq<Event>, now: int)
    ensures var s := After(COLD, es);
            var t := Step(s, Tick(now));
            && t.cryptoStates == s.cryptoStates && t.connected == s.connected && |t.objects| == |s.objects|
            && (forall e | e in t.cryptoStates && e.device in t.connected :: e.ref < |t.objects| && !t.objects[e.ref].Stalled(now))
            && (forall i | 0 <= i < |s.objects| :: t.objects[i] == s.objects[i] || s.objects[i].Stalled(now))
  {
    EveryRunKeepsInv(es);
    var s := After(COLD, es);
    SweepReachesAll(s, s.cryptoStates, now);
    SweptEvolves(s, s.cryptoStates, now);
  }

  // ---- Sending

  lemma {:induction false} AllConnectedMatch(s: State, m: seq<Entry>, peerIdHex: string)
    requires Devices(m) <= s.connected
    ensures FirstConnected(s, m, peerIdHex) == FirstMatch(s, m, peerIdHex)
    decreases |m|
  {
    if m != [] {
      assert m[0].device in Devices(m);
      assert forall e :: e in m[1..] ==> e in m;
      AllConnectedMatch(s, m[1..], peerIdHex);
    }
  }

  /** The fallback to a device that is not connected is never chosen, except inside a stopMesh. */
  lemma StaleFallbackNeverChosen(es: seq<Event>, peerIdHex: string)
    ensures var s := After(COLD, es);
            !s.TearingDown() ==>
              FirstConnected(s, s.cryptoStates, peerIdHex) == None ==> FirstMatch(s, s.cryptoStates, peerIdHex) == None
  {
    EveryRunKeepsInv(es);
    var s := After(COLD, es);
    if !s.TearingDown() { AllConnectedMatch(s, s.cryptoStates, peerIdHex); }
  }

  // ---- Acceptance

  /** The user accepts this state: it is pending, and the first that carries the peer id named. */
  predicate Accepts(s: State, e: Event, ref: nat) {
    && e.AcceptPeer? && FirstRef(s.objects, s.cryptoStates, e.peerIdHex) == Some(ref)
    && ref < |s.objects| && s.objects[ref].verdict == Pending && s.objects[ref].peerIdHex == e.peerIdHex
  }

  lemma FinishAcceptsNothing(s: State, ref: nat, outcome: Outcome, now: int)
    ensures var t := s.Finish(ref, outcome, now);
            |t.objects| == |s.objects| && forall i | 0 <= i < |s.objects| :: t.objects[i].verdict == Accepted ==> s.objects[i].verdict == Accepted
  {
  }

  lemma ResumedAcceptsNothing(s: State, t: Task, outcome: Outcome, now: int)
    ensures |Resumed(s, t, outcome, now).objects| >= |s.objects|
    ensures forall i | 0 <= i < |s.objects| ::
              Resumed(s, t, outcome, now).objects[i].verdict == Accepted ==> s.objects[i].verdict == Accepted
  {
    match t
    case Reading(ref, _) => FinishAcceptsNothing(s, ref, outcome, now);
    case Replying(ref) => FinishAcceptsNothing(s, ref, outcome, now);
    case _ =>
  }

  lemma OnlyTheUserAccepts(s: State, e: Event, ref: nat)
    requires ref < |Step(s, e).objects| && Step(s, e).objects[ref].verdict == Accepted
    ensures ref < |s.objects| && (s.objects[ref].verdict == Accepted || Accepts(s, e, ref))
  {
    StepEvolves(s, e);
    match e
    case Tick(now) => SweptEvolves(s, s.cryptoStates, now);
    case AcceptPeer(p) => JudgeFirstEvolves(s, p, Accepted);
    case RejectPeer(p) => JudgeFirstEvolves(s, p, Rejected);
    case Resume(t, outcome, now) => ResumedAcceptsNothing(s.End(t), t, outcome, now);
    case _ =>
  }

  /** The state in which event `i` of a cold run finds the machine. */
  function Before(es: seq<Event>, i: nat): State
    requires i <= |es|
  {
    After(COLD, es[..i])
  }

  lemma NextEvent(es: seq<Event>, i: nat)
    requires i < |es|
    ensures Before(es, i + 1) == Step(Before(es, i), es[i])
  {
    assert es[..i + 1][..i] == es[..i];
  }

  predicate IsAccepted(s: State, ref: nat) { ref < |s.objects| && s.objects[ref].verdict == Accepted }

  /** An accepted state was accepted by one event of the run: the one named, which found it pending and
      first under its peer id. */
  lemma {:induction false} AcceptedByTheUser(es: seq<Event>, k: nat, ref: nat) returns (i: nat)
    requires k <= |es| && IsAccepted(Before(es, k), ref)
    ensures i < k && Accepts(Before(es, i), es[i], ref)
    decreases k
  {
    assert es[..0] == [];
    NextEvent(es, k - 1);
    OnlyTheUserAccepts(Before(es, k - 1), es[k - 1], ref);
    if IsAccepted(Before(es, k - 1), ref) {
      i := AcceptedByTheUser(es, k - 1, ref);
    } else {
      i := k - 1;
    }
  }

  lemma {:induction false} StaysJudged(es: seq<Event>, i: nat, j: nat, ref: nat)
    requires i <= j <= |es| && ref < |Before(es, i).objects|
    ensures ref < |Before(es, j).objects| && Follows(Before(es, i).objects[ref], Before(es, j).objects[ref])
    decreases j
  {
    if i < j {
      StaysJudged(es, i, j - 1, ref);
      NextEvent(es, j - 1);
      StepEvolves(Before(es, j - 1), es[j - 1]);
    }
  }

  lemma AcceptingJudges(s: State, e: Event, ref: nat)
    requires Accepts(s, e, ref)
    ensures IsAccepted(Step(s, e), ref)
  {
  }

  lemma NotAgain(es: seq<Event>, i: nat, j: nat, ref: nat)
    requires i < j < |es| && Accepts(Before(es, i), es[i], ref)
    ensures !Accepts(Before(es, j), es[j], ref)
  {
    NextEvent(es, i);
    AcceptingJudges(Before(es, i), es[i], ref);
    StaysJudged(es, i + 1, j, ref);
  }

  /** Only one event accepts a state. */
  lemma AcceptedOnce(es: seq<Event>, i: nat, j: nat, ref: nat)
    requires i < |es| && j < |es| && Accepts(Before(es, i), es[i], ref) && Accepts(Before(es, j), es[j], ref)
    ensures i == j
  {
    if i < j { NotAgain(es, i, j, ref); }
    if j < i { NotAgain(es, j, i, ref); }
  }

  /** What the user saw at event `i`: the state accepted was shown, with its SAS and its key. */
  predicate WasShown(es: seq<Event>, i: nat, ref: nat)
    requires i < |es|
  {
    ref < |Before(es, i).objects| && Before(es, i).objects[ref].Listed()
  }

  /** A frame from `d` is opened only under a session that the user accepted at event `i`, and handed on
      under the very peer id that was accepted. */
  lemma NothingIsOpenedUnaccepted(es: seq<Event>, d: Device) returns (i: nat, ref: nat)
    requires Trusted(After(COLD, es), d)
    ensures var s := After(COLD, es);
            && Lookup(s.cryptoStates, d) == Some(ref) && ref < |s.objects| && s.objects[ref].session
            && (s.TearingDown() || d in s.connected)
            && i < |es| && Accepts(Before(es, i), es[i], ref) && es[i].peerIdHex == s.objects[ref].peerIdHex
            && (Before(es, i).objects[ref].session <==> WasShown(es, i, ref))
  {
    var s := After(COLD, es);
    assert es[..|es|] == es;
    ref := Lookup(s.cryptoStates, d).value;
    i := AcceptedByTheUser(es, |es|, ref);
    EveryRunKeepsInv(es);
    EveryRunKeepsInv(es[..i]);
    LookupFinds(s.cryptoStates, d);
    StaysJudged(es, i, |es|, ref);
  }

  /** A frame leaves only under a session that was accepted by the user, at event `i`, to a connected
      device unless a stopMesh is half way. The session existed then exactly if it was shown then. */
  lemma NothingIsSentUnaccepted(es: seq<Event>, peerIdHex: string, mac: Option<Device>) returns (i: nat, ref: nat)
    requires Sending(After(COLD, es), peerIdHex, mac).Ok?
    ensures var s := After(COLD, es);
            var d := Sending(s, peerIdHex, mac).value;
            && Lookup(s.cryptoStates, d) == Some(ref) && ref < |s.objects| && s.objects[ref].session
            && (s.TearingDown() || d in s.connected)
            && i < |es| && Accepts(Before(es, i), es[i], ref) && es[i].peerIdHex == s.objects[ref].peerIdHex
            && (Before(es, i).objects[ref].session <==> WasShown(es, i, ref))
  {
    i, ref := NothingIsOpenedUnaccepted(es, Sending(After(COLD, es), peerIdHex, mac).value);
  }
}
