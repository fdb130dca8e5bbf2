/** What accepting a peer id means for the handshakes that were shown under it. */
module MeshAcceptance {
  import opened Basics
  import opened Mesh
  import opened MeshInvariant
  import opened Transport
  import opened MeshRuns
  import Tofu

  predicate Carries(s: State, e: Entry, peerIdHex: string) { e.ref < |s.objects| && s.objects[e.ref].peerIdHex == peerIdHex }

  predicate IsListed(s: State, ref: nat) { ref < |s.objects| && s.objects[ref].Listed() }

  lemma {:induction false} FirstRefIs(s: State, m: seq<Entry>, peerIdHex: string, i: nat)
    requires i < |m| && Carries(s, m[i], peerIdHex) && forall j | 0 <= j < i :: !Carries(s, m[j], peerIdHex)
    ensures FirstRef(s.objects, m, peerIdHex) == Some(m[i].ref)
    decreases |m|
  {
    if i > 0 {
      assert !Carries(s, m[0], peerIdHex);
      forall j | 0 <= j < i - 1 ensures !Carries(s, m[1..][j], peerIdHex) {
        assert !Carries(s, m[j + 1], peerIdHex);
      }
      FirstRefIs(s, m[1..], peerIdHex, i - 1);
    }
  }

  /** The first entry that carries the id of entry `i`. */
  lemma FirstCarrier(s: State, m: seq<Entry>, peerIdHex: string, i: nat) returns (k: nat)
    requires i < |m| && Carries(s, m[i], peerIdHex)
    ensures k <= i && Carries(s, m[k], peerIdHex) && forall j | 0 <= j < k :: !Carries(s, m[j], peerIdHex)
    decreases i
  {
    if j :| 0 <= j < i && Carries(s, m[j], peerIdHex) {
      k := FirstCarrier(s, m, peerIdHex, j);
    } else {
      k := i;
    }
  }

  /** Accepting the id of a listed handshake accepts that handshake if and only if no earlier entry of the
      map carries the id. Otherwise an earlier entry is judged in its place, if it is pending; if it is
      not, nothing moves at all. */
  lemma AcceptingAListedId(s: State, i: nat) returns (k: nat)
    requires Inv(s) && i < |s.cryptoStates| && IsListed(s, s.cryptoStates[i].ref)
    ensures var m, id := s.cryptoStates, s.objects[s.cryptoStates[i].ref].peerIdHex;
            var t := Step(s, AcceptPeer(id));
            && (IsAccepted(t, m[i].ref) <==> forall j | 0 <= j < i :: !Carries(s, m[j], id))
            && k <= i && Carries(s, m[k], id) && (forall j | 0 <= j < k :: !Carries(s, m[j], id))
            && (t != s <==> s.objects[m[k].ref].verdict == Pending)
            && forall ref | 0 <= ref < |s.objects| && ref != m[k].ref :: t.objects[ref] == s.objects[ref]
  {
    var m, id := s.cryptoStates, s.objects[s.cryptoStates[i].ref].peerIdHex;
    k := FirstCarrier(s, m, id, i);
    FirstRefIs(s, m, id, k);
  }

  /** A caller sees ids, not entries. */
  predicate IdShown(s: State, peerIdHex: string) {
    exists h | h in Shown(s.objects, s.cryptoStates) :: h.peerIdHex == peerIdHex
  }

  lemma {:induction false} ShownIsListed(s: State, m: seq<Entry>, h: PendingHandshake) returns (i: nat)
    requires h in Shown(s.objects, m)
    ensures i < |m| && IsListed(s, m[i].ref) && AsPending(s.objects[m[i].ref]) == h
    decreases |m|
  {
    var init, ref := m[..|m| - 1], m[|m| - 1].ref;
    if h in Shown(s.objects, init) {
      i := ShownIsListed(s, init, h);
    } else {
      i := |m| - 1;
    }
  }

  /** No two entries carry one id. */
  ghost predicate IdsUnique(s: State) {
    forall i, j, id | 0 <= i < j < |s.cryptoStates| && Carries(s, s.cryptoStates[i], id) :: !Carries(s, s.cryptoStates[j], id)
  }

  /** With unique ids, accepting an id that is shown accepts the state shown under it. */
  lemma AcceptingAUniqueId(s: State, peerIdHex: string, ref: nat)
    requires Inv(s) && IdsUnique(s) && IdShown(s, peerIdHex) && Accepts(s, AcceptPeer(peerIdHex), ref)
    ensures IsListed(s, ref)
  {
    var h :| h in Shown(s.objects, s.cryptoStates) && h.peerIdHex == peerIdHex;
    var i := ShownIsListed(s, s.cryptoStates, h);
    var k := FirstCarrier(s, s.cryptoStates, peerIdHex, i);
    FirstRefIs(s, s.cryptoStates, peerIdHex, k);
    assert !(k < i);
  }

  /** Whoever accepts only ids that are shown, at moments when no two handshakes carry one id. */
  ghost predicate AcceptsOnlyTheShown(es: seq<Event>) {
    forall i | 0 <= i < |es| && es[i].AcceptPeer? :: IdShown(Before(es, i), es[i].peerIdHex)
  }

  ghost predicate UniqueWhenAccepting(es: seq<Event>) {
    forall i | 0 <= i < |es| && es[i].AcceptPeer? :: IdsUnique(Before(es, i))
  }

  /** Then every accepted state was itself shown, with its session, SAS and key, before it was accepted. */
  lemma ShownBeforeAccepted(es: seq<Event>, ref: nat) returns (i: nat)
    requires AcceptsOnlyTheShown(es) && UniqueWhenAccepting(es) && IsAccepted(After(COLD, es), ref)
    ensures i < |es| && Accepts(Before(es, i), es[i], ref) && WasShown(es, i, ref)
    ensures var cs := Before(es, i).objects[ref]; cs.session && cs.sas.Some? && cs.peerPubkeyB64.Some?
  {
    assert es[..|es|] == es;
    i := AcceptedByTheUser(es, |es|, ref);
    EveryRunKeepsInv(es[..i]);
    assert es[i].AcceptPeer?;
    AcceptingAUniqueId(Before(es, i), es[i].peerIdHex, ref);
  }

  // ---- When ids are unique: no peer id is met under two addresses

  datatype Name = Name(device: Device, peerIdHex: string)

  /** The peer id an event brings in for a device: the advertised or registered one, else its address. */
  function NameIn(e: Event): Option<Name> {
    match e
    case Sight(d, peer, _) => Some(Name(d, Hex(peer)))
    case HandshakeFrame(d, _, registered) => Some(Name(d, if registered.Some? then Hex(registered.value) else d))
    case _ => None
  }

  function NamesIn(es: seq<Event>): set<Name> { set e | e in es && NameIn(e).Some? :: NameIn(e).value }

  predicate OneAddressToAnId(names: set<Name>) { forall a, b | a in names && b in names && a.peerIdHex == b.peerIdHex :: a == b }

  function TaskName(t: Task): Option<Name> {
    match t
    case Connecting(d, peer) => Some(Name(d, Hex(peer)))
    case Initiating(d, peer) => Some(Name(d, Hex(peer)))
    case Responding(d, peerIdHex, _, _) => Some(Name(d, peerIdHex))
    case _ => None
  }

  predicate IsNamed(n: Option<Name>, names: set<Name>) { n.Some? ==> n.value in names }

  /** Every id in the machine came with an event. */
  ghost predicate AllNamed(s: State, names: set<Name>) {
    && (forall t | t in s.tasks :: IsNamed(TaskName(t), names))
    && (forall e | e in s.cryptoStates :: e.ref < |s.objects| && Name(e.device, s.objects[e.ref].peerIdHex) in names)
  }

  lemma CreateKeepsNames(s: State, d: Device, role: Role, peerIdHex: string, now: int, names: set<Name>)
    requires AllNamed(s, names) && Name(d, peerIdHex) in names
    ensures AllNamed(s.Create(d, role, peerIdHex, now), names)
  {
    PutEntries(s.cryptoStates, d, |s.objects|);
  }

  /** Steps that enter nothing and spawn nothing with a name. */
  lemma QuietKeepsNames(s: State, t: State, names: set<Name>)
    requires AllNamed(s, names) && Evolves(s, t) && t.cryptoStates == s.cryptoStates
    requires forall task | task in t.tasks :: task in s.tasks || TaskName(task) == None
    ensures AllNamed(t, names)
  {
  }

  lemma SpawnKeepsNames(s: State, t: Task, names: set<Name>)
    requires AllNamed(s, names) && IsNamed(TaskName(t), names)
    ensures AllNamed(s.Spawn(t), names)
  {
  }

  lemma EndKeepsNames(s: State, t: Task, names: set<Name>)
    requires AllNamed(s, names) && t in s.tasks
    ensures AllNamed(s.End(t), names) && IsNamed(TaskName(t), names)
  {
  }

  lemma InitiatingKeepsNames(s: State, d: Device, peer: bytes, outcome: Outcome, now: int, names: set<Name>)
    requires AllNamed(s, names) && Name(d, Hex(peer)) in names
    ensures AllNamed(Resumed(s, Initiating(d, peer), outcome, now), names)
  {
    if outcome == Fine && s.peerId.Some? && d in s.connected {
      var role := RoleOf(s.peerId.value, peer);
      var created := s.Create(d, role, Hex(peer), now);
      CreateKeepsNames(s, d, role, Hex(peer), now, names);
      SpawnKeepsNames(created, Greeting(d), names);
    } else {
      ResumedEvolves(s, Initiating(d, peer), outcome, now);
      QuietKeepsNames(s, Resumed(s, Initiating(d, peer), outcome, now), names);
    }
  }

  lemma RespondingKeepsNames(s: State, d: Device, peerIdHex: string, role: Role, kind: FrameKind, outcome: Outcome, now: int, names: set<Name>)
    requires AllNamed(s, names) && Name(d, peerIdHex) in names
    ensures AllNamed(Resumed(s, Responding(d, peerIdHex, role, kind), outcome, now), names)
  {
    var created := s.Create(d, role, peerIdHex, now);
    CreateKeepsNames(s, d, role, peerIdHex, now, names);
    SpawnKeepsNames(created, Reading(|s.objects|, kind), names);
  }

  lemma UnnamedStaysQuiet(s: State, t: Task, outcome: Outcome, now: int)
    requires TaskName(t) == None && t != Stopping
    ensures var after := Resumed(s, t, outcome, now);
            after.cryptoStates == s.cryptoStates && forall task | task in after.tasks :: task in s.tasks || TaskName(task) == None
  {
  }

  lemma ResumedKeepsNames(s: State, t: Task, outcome: Outcome, now: int, names: set<Name>)
    requires AllNamed(s, names) && IsNamed(TaskName(t), names)
    ensures AllNamed(Resumed(s, t, outcome, now), names)
  {
    match t
    case Connecting(d, peer) => SpawnKeepsNames(s.(connected := s.connected + {d}), Initiating(d, peer), names);
    case Initiating(d, peer) => InitiatingKeepsNames(s, d, peer, outcome, now, names);
    case Responding(d, peerIdHex, role, kind) => RespondingKeepsNames(s, d, peerIdHex, role, kind, outcome, now, names);
    case Stopping =>
    case _ =>
      UnnamedStaysQuiet(s, t, outcome, now);
      ResumedEvolves(s, t, outcome, now);
      QuietKeepsNames(s, Resumed(s, t, outcome, now), names);
  }

  lemma JudgingKeepsNames(s: State, e: Event, names: set<Name>)
    requires AllNamed(s, names) && (e.Tick? || e.AcceptPeer? || e.RejectPeer?)
    ensures AllNamed(Step(s, e), names)
  {
    StepEvolves(s, e);
    match e
    case Tick(now) => SweptEvolves(s, s.cryptoStates, now);
    case AcceptPeer(p) => JudgeFirstEvolves(s, p, Accepted);
    case RejectPeer(p) => JudgeFirstEvolves(s, p, Rejected);
    QuietKeepsNames(s, Step(s, e), names);
  }

  lemma FrameKeepsNames(s: State, d: Device, kind: FrameKind, registered: Option<bytes>, names: set<Name>)
    requires AllNamed(s, names) && IsNamed(NameIn(HandshakeFrame(d, kind, registered)), names)
    ensures AllNamed(Step(s, HandshakeFrame(d, kind, registered)), names)
  {
    var found := Lookup(s.cryptoStates, d);
    if found.Some? {
      SpawnKeepsNames(s, Reading(found.value, kind), names);
    } else if s.peerId.Some? && registered == None {
      SpawnKeepsNames(s, Responding(d, d, Responder, kind), names);
    } else if s.peerId.Some? {
      SpawnKeepsNames(s, Responding(d, Hex(registered.value), RoleOf(s.peerId.value, registered.value), kind), names);
    }
  }

  lemma ResumeKeepsNames(s: State, t: Task, outcome: Outcome, now: int, names: set<Name>)
    requires AllNamed(s, names)
    ensures AllNamed(Step(s, Resume(t, outcome, now)), names)
  {
    if t in s.tasks {
      EndKeepsNames(s, t, names);
      ResumedKeepsNames(s.End(t), t, outcome, now, names);
    }
  }

  lemma StepKeepsNames(s: State, e: Event, names: set<Name>)
    requires AllNamed(s, names) && IsNamed(NameIn(e), names)
    ensures AllNamed(Step(s, e), names)
  {
    match e
    case Start(_) =>
    case Sight(d, peer, _) => SpawnKeepsNames(s, Connecting(d, peer), names);
    case Inbound(_) =>
    case Gone(d) => RemoveEntries(s.cryptoStates, d);
    case HandshakeFrame(d, kind, registered) => FrameKeepsNames(s, d, kind, registered, names);
    case Resume(t, outcome, now) => ResumeKeepsNames(s, t, outcome, now, names);
    case StopMesh => SpawnKeepsNames(s.(connected := {}), Stopping, names);
    case _ => JudgingKeepsNames(s, e, names);
  }

  lemma NamesGrow(es: seq<Event>)
    requires es != []
    ensures NamesIn(es[..|es| - 1]) <= NamesIn(es) && IsNamed(NameIn(es[|es| - 1]), NamesIn(es))
  {
    assert es[|es| - 1] in es && forall e | e in es[..|es| - 1] :: e in es;
  }

  lemma {:induction false} AllNamedLasts(es: seq<Event>, names: set<Name>)
    requires NamesIn(es) <= names
    ensures AllNamed(After(COLD, es), names)
    decreases |es|
  {
    if es != [] {
      var init, e := es[..|es| - 1], es[|es| - 1];
      NamesGrow(es);
      AllNamedLasts(init, names);
      StepKeepsNames(After(COLD, init), e, names);
    }
  }

  /** While every peer id is met under one address alone, no two handshakes carry one id. */
  lemma IdsStayUnique(es: seq<Event>, i: nat)
    requires i <= |es| && OneAddressToAnId(NamesIn(es))
    ensures IdsUnique(Before(es, i))
  {
    assert NamesIn(es[..i]) <= NamesIn(es);
    AllNamedLasts(es[..i], NamesIn(es));
    EveryRunKeepsInv(es[..i]);
    var s := Before(es, i);
    forall a, b, id | 0 <= a < b < |s.cryptoStates| && Carries(s, s.cryptoStates[a], id) ensures !Carries(s, s.cryptoStates[b], id) {
      assert s.cryptoStates[a] in s.cryptoStates && s.cryptoStates[b] in s.cryptoStates;
      assert Name(s.cryptoStates[a].device, id) in NamesIn(es);
    }
  }

  /** So where every peer id is met under one address, accepting only ids that are shown is enough. */
  lemma ShownBeforeAcceptedByName(es: seq<Event>, ref: nat) returns (i: nat)
    requires AcceptsOnlyTheShown(es) && OneAddressToAnId(NamesIn(es)) && IsAccepted(After(COLD, es), ref)
    ensures i < |es| && Accepts(Before(es, i), es[i], ref) && WasShown(es, i, ref)
    ensures Before(es, i).objects[ref].session
  {
    forall i | 0 <= i < |es| && es[i].AcceptPeer? ensures IdsUnique(Before(es, i)) { IdsStayUnique(es, i); }
    i := ShownBeforeAccepted(es, ref);
  }

  // ---- Two addresses under one peer id

  /** A responder's handshake with a registered peer: entered, then up to its second message. */
  function Entered(s: State, d: Device, peer: bytes): State {
    var arrived := Step(Step(s, Inbound(d)), HandshakeFrame(d, Msg1, Some(peer)));
    Step(arrived, Resume(Responding(d, Hex(peer), Responder, Msg1), Fine, 0))
  }

  function Replied(s: State, ref: nat): State { Step(Step(s, Resume(Reading(ref, Msg1), Fine, 0)), Resume(Replying(ref), Fine, 0)) }

  function Greeted(s: State, d: Device, peer: bytes): State { Replied(Entered(s, d, peer), |s.objects|) }

  lemma ResumingSpawned(s: State, t: Task, outcome: Outcome, now: int)
    ensures Step(s.Spawn(t), Resume(t, outcome, now)) == Resumed(s, t, outcome, now)
  {
    assert s.tasks + multiset{t} - multiset{t} == s.tasks;
    assert s.Spawn(t).End(t) == s;
  }

  lemma EnteredIs(s: State, d: Device, peer: bytes)
    requires Lookup(s.cryptoStates, d) == None && s.peerId.Some? && RoleOf(s.peerId.value, peer) == Responder
    ensures Entered(s, d, peer)
         == s.(connected := s.connected + {d}).Create(d, Responder, Hex(peer), 0).Spawn(Reading(|s.objects|, Msg1))
  {
    var inbound, t := s.(connected := s.connected + {d}), Responding(d, Hex(peer), Responder, Msg1);
    assert Step(inbound, HandshakeFrame(d, Msg1, Some(peer))) == inbound.Spawn(t);
    ResumingSpawned(inbound, t, Fine, 0);
  }

  lemma FirstIsRead(s: State, ref: nat)
    requires ref < |s.objects| && s.objects[ref].role == Responder
    ensures Step(s.Spawn(Reading(ref, Msg1)), Resume(Reading(ref, Msg1), Fine, 0)) == s.Spawn(Replying(ref))
  {
    ResumingSpawned(s, Reading(ref, Msg1), Fine, 0);
  }

  lemma SecondIsWritten(s: State, ref: nat)
    ensures Step(s.Spawn(Replying(ref)), Resume(Replying(ref), Fine, 0)) == s
  {
    ResumingSpawned(s, Replying(ref), Fine, 0);
  }

  lemma RepliedIs(s: State, ref: nat)
    requires ref < |s.objects| && s.objects[ref].role == Responder
    ensures Replied(s.Spawn(Reading(ref, Msg1)), ref) == s
  {
    FirstIsRead(s, ref);
    SecondIsWritten(s, ref);
  }

  lemma GreetedIs(s: State, d: Device, peer: bytes)
    requires Lookup(s.cryptoStates, d) == None && s.peerId.Some? && RoleOf(s.peerId.value, peer) == Responder
    ensures Greeted(s, d, peer) == s.(connected := s.connected + {d}).Create(d, Responder, Hex(peer), 0)
  {
    EnteredIs(s, d, peer);
    RepliedIs(s.(connected := s.connected + {d}).Create(d, Responder, Hex(peer), 0), |s.objects|);
  }

  /** Its third message comes in. */
  function Closed(s: State, d: Device, ref: nat, sas: string, key: string): State {
    Step(Step(s, HandshakeFrame(d, Msg3, None)), Resume(Reading(ref, Msg3), Complete(sas, key), 0))
  }

  lemma ClosedIs(s: State, d: Device, ref: nat, sas: string, key: string)
    requires Lookup(s.cryptoStates, d) == Some(ref) && ref < |s.objects|
    ensures Closed(s, d, ref, sas, key) == s.Finish(ref, Complete(sas, key), 0)
  {
    ResumingSpawned(s, Reading(ref, Msg3), Complete(sas, key), 0);
  }

  const PEER: bytes := [0]

  /** Two addresses of one peer id: the first is left before message 3, the second completes. */
  function OneLeftOneDone(d1: Device, d2: Device, sas: string, key: string): State {
    Closed(Greeted(Greeted(Step(COLD, Start([1])), d1, PEER), d2, PEER), d2, 1, sas, key)
  }

  /** The state OneLeftOneDone is. */
  predicate LeftAndDone(s: State, d1: Device, d2: Device, sas: string, key: string) {
    var cs := NewState(Responder, Hex(PEER), 0);
    && s.cryptoStates == [Entry(d1, 0), Entry(d2, 1)] && s.tasks == multiset{} && s.connected == {d1, d2}
    && s.objects == [cs, cs.Completed(sas, key, false)]
  }

  lemma OneLeftOneDoneIs(d1: Device, d2: Device, sas: string, key: string)
    requires d1 != d2
    ensures LeftAndDone(OneLeftOneDone(d1, d2, sas, key), d1, d2, sas, key)
  {
    var started := Step(COLD, Start([1]));
    GreetedIs(started, d1, PEER);
    var one := Greeted(started, d1, PEER);
    var cs := NewState(Responder, Hex(PEER), 0);
    assert one.objects == [cs] && one.cryptoStates == [Entry(d1, 0)];
    TwoEntries(d1, d2);
    GreetedIs(one, d2, PEER);
    var two := Greeted(one, d2, PEER);
    assert two.objects == [cs, cs] && two.pins == [];
    ClosedIs(two, d2, 1, sas, key);
    FinishIs(two, 1, sas, key);
  }

  lemma TwoEntries(d1: Device, d2: Device)
    requires d1 != d2
    ensures Lookup([Entry(d1, 0)], d2) == None && Put([Entry(d1, 0)], d2, 1) == [Entry(d1, 0), Entry(d2, 1)]
    ensures Lookup([Entry(d1, 0), Entry(d2, 1)], d2) == Some(1) && Lookup([Entry(d1, 0), Entry(d2, 1)], d1) == Some(0)
  {
    assert [Entry(d1, 0)][1..] == [];
    assert [Entry(d1, 0), Entry(d2, 1)][1..] == [Entry(d2, 1)];
  }

  lemma FinishIs(s: State, ref: nat, sas: string, key: string)
    requires ref < |s.objects|
    ensures var t, changed := s.Finish(ref, Complete(sas, key), 0), Mismatch(s.pins, s.objects[ref].peerIdHex, key);
            && t == s.(objects := s.objects[ref := s.objects[ref].Completed(sas, key, changed)], pins := t.pins)
            && (s.pins == [] ==> !changed)
  {
  }

  /** Accepting judges the first entry, when it carries the id; and a frame goes to the first. */
  lemma TheFirstIsJudged(s: State, peerIdHex: string)
    requires s.cryptoStates != [] && Carries(s, s.cryptoStates[0], peerIdHex)
    ensures Step(s, AcceptPeer(peerIdHex)) == s.Judge(s.cryptoStates[0].ref, Accepted)
  {
  }

  lemma TheFirstIsSentTo(s: State, peerIdHex: string)
    requires s.cryptoStates != [] && Carries(s, s.cryptoStates[0], peerIdHex) && s.cryptoStates[0].device in s.connected
    requires s.objects[s.cryptoStates[0].ref].verdict == Accepted && s.objects[s.cryptoStates[0].ref].session
    ensures Sending(s, peerIdHex, None) == Ok(s.cryptoStates[0].device)
  {
  }

  lemma OneIsShown(objects: seq<CryptoState>, m: seq<Entry>)
    requires |m| == 2 && m[0].ref < |objects| && m[1].ref < |objects|
    requires !objects[m[0].ref].Listed() && objects[m[1].ref].Listed()
    ensures Shown(objects, m) == [AsPending(objects[m[1].ref])]
  {
    assert m[..1][..0] == [];
    assert Shown(objects, m[..1]) == [];
  }

  predicate IsPending(s: State, ref: nat) { ref < |s.objects| && s.objects[ref].verdict == Pending }

  /** Of two handshakes under one id the second is all that is shown. Accepting the id accepts the first,
      which is not; once that one completes, with whatever SAS and key, frames go to it. */
  ghost predicate AnotherIsTrusted(s: State, d1: Device, sas: string, key: string) {
    var t := Step(s, AcceptPeer(Hex(PEER)));
    && Shown(s.objects, s.cryptoStates) == [PendingHandshake(Hex(PEER), sas, key, false)]
    && IsAccepted(t, 0) && !s.objects[0].session && IsPending(t, 1)
    && forall sas1, key1 :: Sending(Closed(t, d1, 0, sas1, key1), Hex(PEER), None) == Ok(d1)
  }

  lemma AnotherIsAcceptedIn(s: State, d1: Device, d2: Device, sas: string, key: string)
    requires d1 != d2 && LeftAndDone(s, d1, d2, sas, key)
    ensures AnotherIsTrusted(s, d1, sas, key)
  {
    OneIsShown(s.objects, s.cryptoStates);
    var t := Step(s, AcceptPeer(Hex(PEER)));
    TheFirstIsJudged(s, Hex(PEER));
    TwoEntries(d1, d2);
    forall sas1, key1 ensures Sending(Closed(t, d1, 0, sas1, key1), Hex(PEER), None) == Ok(d1) {
      ClosedIs(t, d1, 0, sas1, key1);
      FinishIs(t, 0, sas1, key1);
      TheFirstIsSentTo(Closed(t, d1, 0, sas1, key1), Hex(PEER));
    }
  }

  lemma AnotherIsAccepted(d1: Device, d2: Device, sas: string, key: string)
    requires d1 != d2
    ensures AnotherIsTrusted(OneLeftOneDone(d1, d2, sas, key), d1, sas, key)
  {
    OneLeftOneDoneIs(d1, d2, sas, key);
    AnotherIsAcceptedIn(OneLeftOneDone(d1, d2, sas, key), d1, d2, sas, key);
  }

  /** Once the first has timed out, accepting the id that is still shown moves nothing. */
  ghost predicate ShownButStuck(t: State, sas: string, key: string) {
    && Shown(t.objects, t.cryptoStates) == [PendingHandshake(Hex(PEER), sas, key, false)]
    && Step(t, AcceptPeer(Hex(PEER))) == t
  }

  lemma StuckIn(s: State, d1: Device, d2: Device, sas: string, key: string)
    requires d1 != d2 && LeftAndDone(s, d1, d2, sas, key)
    ensures ShownButStuck(Step(s, Tick(HANDSHAKE_TIMEOUT_MS + 1)), sas, key)
  {
    var now, m := HANDSHAKE_TIMEOUT_MS + 1, s.cryptoStates;
    assert m[..1][..0] == [] && m[..1][0] == m[0];
    assert Swept(s, m[..0], now) == s;
    var first := Swept(s, m[..1], now);
    assert first == s.Judge(0, Rejected);
    var t := Step(s, Tick(now));
    assert t == SweptOne(first, m[1], now) == first;
    OneIsShown(t.objects, t.cryptoStates);
    TheFirstIsJudged(t, Hex(PEER));
  }

  lemma TheShownOneIsStuck(d1: Device, d2: Device, sas: string, key: string)
    requires d1 != d2
    ensures ShownButStuck(Step(OneLeftOneDone(d1, d2, sas, key), Tick(HANDSHAKE_TIMEOUT_MS + 1)), sas, key)
  {
    OneLeftOneDoneIs(d1, d2, sas, key);
    StuckIn(OneLeftOneDone(d1, d2, sas, key), d1, d2, sas, key);
  }

  // ---- Acceptance without anything shown

  /** acceptPeer does not look at the SAS: accepted while the handshake is under way, the peer can be sent
      frames as soon as it completes, though nothing was ever shown. */
  lemma AcceptedBeforeItsSession(d: Device, sas: string, key: string)
    ensures var s := Greeted(Step(COLD, Start([1])), d, PEER);
            var accepted := Step(s, AcceptPeer(Hex(PEER)));
            && Accepts(s, AcceptPeer(Hex(PEER)), 0) && !s.objects[0].session && Shown(s.objects, s.cryptoStates) == []
            && Sending(Closed(accepted, d, 0, sas, key), Hex(PEER), None) == Ok(d)
  {
    var s := Greeted(Step(COLD, Start([1])), d, PEER);
    GreetedIs(Step(COLD, Start([1])), d, PEER);
    assert Shown(s.objects, s.cryptoStates[..0]) == [];
    TheFirstIsJudged(s, Hex(PEER));
    var accepted := Step(s, AcceptPeer(Hex(PEER)));
    ClosedIs(accepted, d, 0, sas, key);
    FinishIs(accepted, 0, sas, key);
    TheFirstIsSentTo(Closed(accepted, d, 0, sas, key), Hex(PEER));
  }
}
