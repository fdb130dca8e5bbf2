/** When the handshake of a device is replaced, and whether what is accepted is what was read. */
module MeshEntries {
  import opened Basics
  import opened Mesh
  import opened MeshInvariant
  import opened Transport
  import opened MeshRuns
  import opened MeshAcceptance
  import Tofu

  // ---- The entry of a device

  /** The end of initiateHandshake for a device that is connected: it enters a state of its own. */
  predicate Initiates(s: State, e: Event, d: Device) {
    e.Resume? && e.task in s.tasks && e.task.Initiating? && e.task.device == d && e.outcome == Fine && s.peerId.Some? && d in s.connected
  }

  predicate Removes(s: State, e: Event, d: Device) { e == Gone(d) || (e.Resume? && e.task in s.tasks && e.task == Stopping) }

  lemma CreateKeepsOthers(s: State, x: Device, role: Role, peerIdHex: string, now: int, d: Device)
    ensures Lookup(s.Create(x, role, peerIdHex, now).cryptoStates, d) == if x == d then Some(|s.objects|) else Lookup(s.cryptoStates, d)
  {
    PutLookup(s.cryptoStates, x, |s.objects|);
  }

  lemma ResumedKeepsEntry(s: State, t: Task, outcome: Outcome, now: int, d: Device, ref: nat)
    requires Lookup(s.cryptoStates, d) == Some(ref) && ref < |s.objects| && t != Stopping
    ensures Lookup(Resumed(s, t, outcome, now).cryptoStates, d)
         == if t.Initiating? && t.device == d && outcome == Fine && s.peerId.Some? && d in s.connected then Some(|s.objects|) else Some(ref)
  {
    match t
    case Initiating(x, peer) => if s.peerId.Some? { CreateKeepsOthers(s, x, RoleOf(s.peerId.value, peer), Hex(peer), now, d); }
    case Responding(x, peerIdHex, role, _) => CreateKeepsOthers(s, x, role, peerIdHex, now, d);
    case _ =>
  }

  lemma StepKeepsEntry(s: State, e: Event, d: Device, ref: nat)
    requires Lookup(s.cryptoStates, d) == Some(ref) && ref < |s.objects| && !Removes(s, e, d)
    ensures Lookup(Step(s, e).cryptoStates, d) == if Initiates(s, e, d) then Some(|s.objects|) else Some(ref)
  {
    match e
    case Gone(x) => RemoveLookup(s.cryptoStates, x);
    case Tick(now) => SweptEvolves(s, s.cryptoStates, now);
    case AcceptPeer(p) => JudgeFirstEvolves(s, p, Accepted);
    case RejectPeer(p) => JudgeFirstEvolves(s, p, Rejected);
    case Resume(t, outcome, now) => if t in s.tasks { ResumedKeepsEntry(s.End(t), t, outcome, now, d, ref); }
    case _ =>
  }

  lemma RemovalRemoves(s: State, e: Event, d: Device)
    requires Removes(s, e, d)
    ensures Lookup(Step(s, e).cryptoStates, d) == None
  {
    if e == Gone(d) { RemoveLookup(s.cryptoStates, d); }
  }

  predicate InNoEntry(s: State, ref: nat) { forall e | e in s.cryptoStates :: e.ref != ref }

  /** The handshake of a device stops being its handshake exactly when the device goes, the mesh stops, or
      an outbound initiation comes to its end while the device is connected: that one does not ask what
      is there. */
  lemma ReplacedExactly(s: State, e: Event, d: Device, ref: nat)
    requires Inv(s) && Lookup(s.cryptoStates, d) == Some(ref)
    ensures Lookup(Step(s, e).cryptoStates, d) != Some(ref) <==> Removes(s, e, d) || Initiates(s, e, d)
  {
    LookupFinds(s.cryptoStates, d);
    if Removes(s, e, d) { RemovalRemoves(s, e, d); } else { StepKeepsEntry(s, e, d, ref); }
  }

  lemma KeyedRefs(m: seq<Entry>, d: Device, ref: nat, e: Entry)
    requires Keyed(m) && Entry(d, ref) in m && e in m && e.ref == ref
    ensures e == Entry(d, ref)
  {
  }

  /** What that does: whatever the verdict on the old one was, a fresh pending one is there, no frame is sent
      to the device or opened from it, and the old one, unchanged, is no device's any more. */
  lemma InitiatingReplaces(s: State, e: Event, d: Device, ref: nat)
    requires Inv(s) && Lookup(s.cryptoStates, d) == Some(ref) && Initiates(s, e, d)
    ensures var t := Step(s, e);
            && Lookup(t.cryptoStates, d) == Some(|s.objects|) && IsPending(t, |s.objects|) && !Trusted(t, d)
            && ref < |s.objects| < |t.objects| && t.objects[ref] == s.objects[ref] && InNoEntry(t, ref)
  {
    LookupFinds(s.cryptoStates, d);
    StepKeepsEntry(s, e, d, ref);
    var t := Step(s, e);
    PutEntries(s.cryptoStates, d, |s.objects|);
    PutLookup(s.cryptoStates, d, |s.objects|);
    StepKeepsInv(s, e);
    LookupFinds(t.cryptoStates, d);
    forall x | x in t.cryptoStates ensures x.ref != ref {
      if x.ref == ref {
        KeyedRefs(s.cryptoStates, d, ref, x);
        KeyedDevices(t.cryptoStates, x, Entry(d, |s.objects|));
      }
    }
  }

  lemma KeyedDevices(m: seq<Entry>, a: Entry, b: Entry)
    requires Keyed(m) && a in m && b in m && a.device == b.device
    ensures a == b
  {
  }

  /** An outbound connect is under way when the peer connects of itself, completes its handshake, and is
      accepted. */
  function AcceptedMeanwhile(d: Device, sas: string, key: string): State {
    var sighted := Step(Step(COLD, Start([1])), Sight(d, PEER, false));
    Step(Closed(Greeted(sighted, d, PEER), d, 0, sas, key), AcceptPeer(Hex(PEER)))
  }

  /** Then the outbound connect succeeds, and so does the initiation. */
  function ThenConnected(s: State, d: Device): State {
    Step(Step(s, Resume(Connecting(d, PEER), Fine, 0)), Resume(Initiating(d, PEER), Fine, 0))
  }

  lemma AcceptedMeanwhileIs(d: Device, sas: string, key: string)
    ensures var s := AcceptedMeanwhile(d, sas, key);
            && s.peerId == Some([1]) && s.connected == {d} && s.cryptoStates == [Entry(d, 0)] && s.tasks == multiset{Connecting(d, PEER)}
            && s.objects == [NewState(Responder, Hex(PEER), 0).Completed(sas, key, false).(verdict := Accepted)]
  {
    var sighted := Step(Step(COLD, Start([1])), Sight(d, PEER, false));
    assert sighted.tasks == multiset{Connecting(d, PEER)};
    GreetedIs(sighted, d, PEER);
    var greeted := Greeted(sighted, d, PEER);
    assert greeted.cryptoStates == [Entry(d, 0)] && greeted.objects == [NewState(Responder, Hex(PEER), 0)];
    ClosedIs(greeted, d, 0, sas, key);
    FinishIs(greeted, 0, sas, key);
    TheFirstIsJudged(Closed(greeted, d, 0, sas, key), Hex(PEER));
  }

  lemma ThenConnectedIs(s: State, d: Device)
    requires s.peerId == Some([1]) && s.connected == {d} && s.cryptoStates == [Entry(d, 0)] && s.tasks == multiset{Connecting(d, PEER)}
    ensures ThenConnected(s, d) == s.(tasks := multiset{}).Create(d, Responder, Hex(PEER), 0)
  {
    var idle := s.(tasks := multiset{});
    assert s == idle.Spawn(Connecting(d, PEER));
    ResumingSpawned(idle, Connecting(d, PEER), Fine, 0);
    assert s.connected + {d} == s.connected;
    ResumingSpawned(idle, Initiating(d, PEER), Fine, 0);
  }

  /** An accepted handshake replaced with no disconnect: frames went to the device, and none does now,
      though it is connected; the verdict on the old handshake stands and is of no use. */
  lemma AnAcceptedOneIsReplaced(d: Device, sas: string, key: string)
    ensures var s := AcceptedMeanwhile(d, sas, key);
            var t := ThenConnected(s, d);
            && Sending(s, Hex(PEER), None) == Ok(d) && IsAccepted(t, 0) && d in t.connected
            && Sending(t, Hex(PEER), None) == Err(NotAccepted) && Shown(t.objects, t.cryptoStates) == []
  {
    var s := AcceptedMeanwhile(d, sas, key);
    AcceptedMeanwhileIs(d, sas, key);
    TheFirstIsSentTo(s, Hex(PEER));
    ThenConnectedIs(s, d);
    FreshIsUseless(ThenConnected(s, d), d);
  }

  lemma FreshIsUseless(t: State, d: Device)
    requires t.cryptoStates == [Entry(d, 1)] && d in t.connected && |t.objects| == 2 && t.objects[1] == NewState(Responder, Hex(PEER), 0)
    ensures Sending(t, Hex(PEER), None) == Err(NotAccepted) && Shown(t.objects, t.cryptoStates) == []
  {
    assert t.cryptoStates[..0] == [];
  }

  // ---- What was read, and what is accepted

  lemma {:induction false} ListedIsShown(objects: seq<CryptoState>, m: seq<Entry>, i: nat)
    requires i < |m| && m[i].ref < |objects| && objects[m[i].ref].Listed()
    ensures AsPending(objects[m[i].ref]) in Shown(objects, m)
    decreases |m|
  {
    if i < |m| - 1 { ListedIsShown(objects, m[..|m| - 1], i); }
  }

  lemma AcceptedEntry(s: State, peerIdHex: string, ref: nat) returns (i: nat)
    requires Accepts(s, AcceptPeer(peerIdHex), ref)
    ensures i < |s.cryptoStates| && s.cryptoStates[i].ref == ref && Carries(s, s.cryptoStates[i], peerIdHex)
  {
    FirstRefMatches(s.objects, s.cryptoStates, peerIdHex);
    var e :| e in s.cryptoStates && e.ref == ref;
    i :| 0 <= i < |s.cryptoStates| && s.cryptoStates[i] == e;
  }

  /** Where ids are unique, the handshake accepted under an id is the one read, with its SAS and its key, if
      and only if the line that was read is still in the list. */
  lemma AcceptsWhatWasRead(s: State, h: PendingHandshake, ref: nat)
    requires IdsUnique(s) && Accepts(s, AcceptPeer(h.peerIdHex), ref)
    ensures h in Shown(s.objects, s.cryptoStates) <==> IsListed(s, ref) && AsPending(s.objects[ref]) == h
  {
    var m := s.cryptoStates;
    var i := AcceptedEntry(s, h.peerIdHex, ref);
    if h in Shown(s.objects, m) {
      var k := ShownIsListed(s, m, h);
      assert Carries(s, m[k], h.peerIdHex);
      assert !(i < k) && !(k < i);
    }
    if IsListed(s, ref) { ListedIsShown(s.objects, m, i); }
  }

  /** Events that take a handshake from its device, or complete it once more. */
  predicate Disturbs(e: Event, d: Device, ref: nat) {
    e == Gone(d) ||
      (e.Resume? &&
        (|| e.task == Stopping
         || (e.task.Initiating? && e.task.device == d && e.outcome == Fine)
         || (e.outcome.Complete? && (e.task == Replying(ref) || (e.task.Reading? && e.task.ref == ref)))))
  }

  predicate SameLine(a: CryptoState, b: CryptoState) {
    a.peerIdHex == b.peerIdHex && a.sas == b.sas && a.peerPubkeyB64 == b.peerPubkeyB64 && a.keyChanged == b.keyChanged
  }

  lemma ResumedKeepsLine(s: State, t: Task, outcome: Outcome, now: int, ref: nat)
    requires ref < |s.objects| && !(outcome.Complete? && (t == Replying(ref) || (t.Reading? && t.ref == ref)))
    ensures var after := Resumed(s, t, outcome, now); ref < |after.objects| && SameLine(s.objects[ref], after.objects[ref])
  {
    match t
    case Initiating(d, peer) => if s.peerId.Some? { InitiatingEvolves(s, d, peer, outcome, now); }
    case _ =>
  }

  lemma StepKeepsLine(s: State, e: Event, d: Device, ref: nat)
    requires ref < |s.objects| && !Disturbs(e, d, ref)
    ensures ref < |Step(s, e).objects| && SameLine(s.objects[ref], Step(s, e).objects[ref])
  {
    match e
    case Tick(now) => SweptEvolves(s, s.cryptoStates, now);
    case AcceptPeer(p) => JudgeFirstEvolves(s, p, Accepted);
    case RejectPeer(p) => JudgeFirstEvolves(s, p, Rejected);
    case Resume(t, outcome, now) => ResumedKeepsLine(s.End(t), t, outcome, now, ref);
    case _ =>
  }

  /** From event `j` to event `i`: the device has the same handshake, and it reads the same. */
  ghost predicate ReadsTheSame(es: seq<Event>, j: nat, i: nat, d: Device, ref: nat)
    requires j <= |es| && i <= |es|
  {
    var s, t := Before(es, j), Before(es, i);
    Lookup(t.cryptoStates, d) == Some(ref) && ref < |s.objects| && ref < |t.objects| && SameLine(s.objects[ref], t.objects[ref])
  }

  lemma {:induction false} TheLineStays(es: seq<Event>, j: nat, i: nat, d: Device, ref: nat)
    requires j <= i <= |es| && Lookup(Before(es, j).cryptoStates, d) == Some(ref)
    requires forall x | j <= x < i :: !Disturbs(es[x], d, ref)
    ensures ReadsTheSame(es, j, i, d, ref)
    decreases i
  {
    if j == i {
      EveryRunKeepsInv(es[..j]);
      LookupFinds(Before(es, j).cryptoStates, d);
    } else {
      TheLineStays(es, j, i - 1, d, ref);
      NextEvent(es, i - 1);
      StepKeepsEntry(Before(es, i - 1), es[i - 1], d, ref);
      StepKeepsLine(Before(es, i - 1), es[i - 1], d, ref);
    }
  }

  /** A SAS read at `j` and accepted at `i`: where ids are unique at that moment, and the device has neither
      gone nor been initiated to in between, nor the mesh stopped, nor the handshake completed again, the
      state accepted is the one read, and shows the same SAS, key and warning still. */
  lemma WhatWasReadIsAccepted(es: seq<Event>, j: nat, i: nat, d: Device, read: nat, ref: nat)
    requires j <= i < |es| && Lookup(Before(es, j).cryptoStates, d) == Some(read) && IsListed(Before(es, j), read)
    requires es[i] == AcceptPeer(Before(es, j).objects[read].peerIdHex)
    requires forall x | j <= x < i :: !Disturbs(es[x], d, read)
    requires IdsUnique(Before(es, i)) && Accepts(Before(es, i), es[i], ref)
    ensures ref == read && WasShown(es, i, ref) && AsPending(Before(es, i).objects[ref]) == AsPending(Before(es, j).objects[ref])
  {
    TheLineStays(es, j, i, d, read);
    var s := Before(es, i);
    var k := AcceptedEntry(s, es[i].peerIdHex, ref);
    LookupFinds(s.cryptoStates, d);
    var x :| 0 <= x < |s.cryptoStates| && s.cryptoStates[x] == Entry(d, read);
    assert Carries(s, s.cryptoStates[x], es[i].peerIdHex);
    assert !(x < k) && !(k < x);
  }

  /** The device came back and made another handshake under the same id. */
  function CameBack(s: State, d: Device, sas: string, key: string): State {
    Closed(Greeted(Step(s, Gone(d)), d, PEER), d, 1, sas, key)
  }

  predicate OneDone(s: State, d: Device, sas: string, key: string) {
    && s.peerId == Some([1]) && s.cryptoStates == [Entry(d, 0)] && s.tasks == multiset{}
    && s.objects == [NewState(Responder, Hex(PEER), 0).Completed(sas, key, false)]
  }

  lemma OneDoneIs(d: Device, sas: string, key: string)
    ensures OneDone(Closed(Greeted(Step(COLD, Start([1])), d, PEER), d, 0, sas, key), d, sas, key)
  {
    var greeted := Greeted(Step(COLD, Start([1])), d, PEER);
    GreetedIs(Step(COLD, Start([1])), d, PEER);
    assert greeted.cryptoStates == [Entry(d, 0)];
    ClosedIs(greeted, d, 0, sas, key);
    FinishIs(greeted, 0, sas, key);
  }

  /** The id shown is the same, and so is acceptPeer's argument; the SAS accepted is not the one read. */
  ghost predicate AnotherSasIsAccepted(s: State, d: Device, sas: string, key: string, sas1: string, key1: string) {
    var t := CameBack(s, d, sas1, key1);
    && (exists changed :: Shown(s.objects, s.cryptoStates) == [PendingHandshake(Hex(PEER), sas, key, changed)])
    && (exists changed :: Shown(t.objects, t.cryptoStates) == [PendingHandshake(Hex(PEER), sas1, key1, changed)])
    && IdsUnique(t) && IsAccepted(Step(t, AcceptPeer(Hex(PEER))), 1)
  }

  lemma OneLine(objects: seq<CryptoState>, e: Entry)
    requires e.ref < |objects| && objects[e.ref].Listed()
    ensures Shown(objects, [e]) == [AsPending(objects[e.ref])]
  {
    assert [e][..0] == [];
    assert Shown(objects, []) == [];
  }

  lemma CameBackIs(s: State, d: Device, sas: string, key: string, sas1: string, key1: string)
    requires OneDone(s, d, sas, key)
    ensures var t := CameBack(s, d, sas1, key1);
            && t.cryptoStates == [Entry(d, 1)] && |t.objects| == 2
            && t.objects[1] == NewState(Responder, Hex(PEER), 0).Completed(sas1, key1, Mismatch(s.pins, Hex(PEER), key1))
  {
    var gone := Step(s, Gone(d));
    assert s.cryptoStates[1..] == [] && s.cryptoStates[0].device == d;
    assert Remove([], d) == [];
    assert gone.cryptoStates == Remove(s.cryptoStates, d) == Remove(s.cryptoStates[1..], d) == [];
    GreetedIs(gone, d, PEER);
    var greeted := Greeted(gone, d, PEER);
    assert greeted.cryptoStates == [Entry(d, 1)];
    ClosedIs(greeted, d, 1, sas1, key1);
    FinishIs(greeted, 1, sas1, key1);
  }

  lemma AnotherSasIn(s: State, d: Device, sas: string, key: string, sas1: string, key1: string)
    requires OneDone(s, d, sas, key)
    ensures AnotherSasIsAccepted(s, d, sas, key, sas1, key1)
  {
    var t := CameBack(s, d, sas1, key1);
    OneLine(s.objects, Entry(d, 0));
    CameBackIs(s, d, sas, key, sas1, key1);
    OneLine(t.objects, Entry(d, 1));
    TheFirstIsJudged(t, Hex(PEER));
  }

  lemma AnotherSasAfterAReconnect(d: Device, sas: string, key: string, sas1: string, key1: string)
    ensures AnotherSasIsAccepted(Closed(Greeted(Step(COLD, Start([1])), d, PEER), d, 0, sas, key), d, sas, key, sas1, key1)
  {
    OneDoneIs(d, sas, key);
    AnotherSasIn(Closed(Greeted(Step(COLD, Start([1])), d, PEER), d, 0, sas, key), d, sas, key, sas1, key1);
  }
}
