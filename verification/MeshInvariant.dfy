/** What every step of the connection machine keeps. */
module MeshInvariant {
  import opened Basics
  import opened Mesh
  import Tofu

  // ---- Map operations

  lemma {:induction false} PutEntries(m: seq<Entry>, d: Device, ref: nat)
    ensures forall e :: e in Put(m, d, ref) ==> e in m || e == Entry(d, ref)
    decreases |m|
  {
    if m != [] {
      PutEntries(m[1..], d, ref);
      assert forall e :: e in m[1..] ==> e in m;
    }
  }

  lemma {:induction false} RemoveEntries(m: seq<Entry>, d: Device)
    ensures forall e :: e in Remove(m, d) <==> e in m && e.device != d
    decreases |m|
  {
    if m != [] {
      RemoveEntries(m[1..], d);
      assert m == [m[0]] + m[1..];
    }
  }

  /** The entries of all other devices are as they were. */
  ghost predicate OthersStay(m: seq<Entry>, after: seq<Entry>, d: Device) {
    forall x: Device | x != d :: Lookup(after, x) == Lookup(m, x)
  }

  lemma {:induction false} PutLookup(m: seq<Entry>, d: Device, ref: nat)
    ensures Lookup(Put(m, d, ref), d) == Some(ref) && OthersStay(m, Put(m, d, ref), d)
    decreases |m|
  {
    if m != [] { PutLookup(m[1..], d, ref); }
  }

  lemma {:induction false} RemoveLookup(m: seq<Entry>, d: Device)
    ensures Lookup(Remove(m, d), d) == None && OthersStay(m, Remove(m, d), d)
    decreases |m|
  {
    if m != [] { RemoveLookup(m[1..], d); }
  }

  lemma {:induction false} LookupFinds(m: seq<Entry>, d: Device)
    ensures Lookup(m, d).Some? ==> Entry(d, Lookup(m, d).value) in m
    ensures Lookup(m, d) == None ==> d !in Devices(m)
    decreases |m|
  {
    if m != [] && m[0].device != d {
      LookupFinds(m[1..], d);
      assert m == [m[0]] + m[1..];
    }
  }

  // ---- The objects: verdicts stick

  predicate OutAfterThree(cs: CryptoState) { cs.handshakeFailures >= STRIKES ==> cs.verdict != Pending }

  /** A session, its SAS and the peer's key come together; three strikes are out. */
  predicate Whole(cs: CryptoState) {
    OutAfterThree(cs) && (cs.session <==> cs.sas.Some?) && (cs.session <==> cs.peerPubkeyB64.Some?)
  }

  /** What no step takes from a handshake object once it is there. */
  predicate Follows(a: CryptoState, b: CryptoState) {
    && b.peerIdHex == a.peerIdHex && b.role == a.role && b.handshakeStartedAt == a.handshakeStartedAt
    && (a.session ==> b.session) && (a.sas.Some? ==> b.sas.Some?) && (a.peerPubkeyB64.Some? ==> b.peerPubkeyB64.Some?)
    && (a.verdict != Pending ==> b.verdict == a.verdict)
    && (Whole(a) ==> Whole(b))
  }

  ghost predicate Evolves(s: State, t: State) {
    && |s.objects| <= |t.objects|
    && (forall i | 0 <= i < |s.objects| :: Follows(s.objects[i], t.objects[i]))
    && (forall i | |s.objects| <= i < |t.objects| :: t.objects[i].verdict == Pending && !t.objects[i].session && Whole(t.objects[i]))
  }

  lemma {:induction false} FirstRefMatches(objects: seq<CryptoState>, m: seq<Entry>, peerIdHex: string)
    ensures var ref := FirstRef(objects, m, peerIdHex);
            ref.Some? ==> ref.value < |objects| && objects[ref.value].peerIdHex == peerIdHex && exists e :: e in m && e.ref == ref.value
    decreases |m|
  {
    if m != [] {
      FirstRefMatches(objects, m[1..], peerIdHex);
      assert m[0] in m && forall e :: e in m[1..] ==> e in m;
    }
  }

  lemma JudgeFirstEvolves(s: State, peerIdHex: string, next: Verdict)
    ensures var t := JudgeFirst(s, peerIdHex, next);
            && t == s.(objects := t.objects) && Evolves(s, t)
            && forall i | 0 <= i < |s.objects| :: t.objects[i] == s.objects[i]
                 || (FirstRef(s.objects, s.cryptoStates, peerIdHex) == Some(i) && s.objects[i].peerIdHex == peerIdHex
                     && s.objects[i].verdict == Pending && t.objects[i] == s.objects[i].(verdict := next))
  {
    FirstRefMatches(s.objects, s.cryptoStates, peerIdHex);
  }

  lemma {:induction false} SweptEvolves(s: State, m: seq<Entry>, now: int)
    ensures var t := Swept(s, m, now);
            && t == s.(objects := t.objects) && |t.objects| == |s.objects|
            && forall i | 0 <= i < |s.objects| :: t.objects[i] == s.objects[i]
                 || (s.objects[i].Stalled(now) && t.objects[i] == s.objects[i].Judged(Rejected))
    decreases |m|
  {
    if m != [] { SweptEvolves(s, m[..|m| - 1], now); }
  }

  lemma CompletedFollows(cs: CryptoState, sas: string, key: string, changed: bool)
    ensures Follows(cs, cs.Completed(sas, key, changed))
  {
  }

  lemma StruckFollows(cs: CryptoState)
    ensures Follows(cs, cs.Struck())
  {
  }

  lemma JudgedFollows(cs: CryptoState, next: Verdict)
    ensures Follows(cs, cs.Judged(next))
  {
  }

  /** One object changed, and it follows the old one. */
  lemma OneEvolves(s: State, ref: nat, cs: CryptoState, pins: Tofu.Pins)
    requires ref < |s.objects| && Follows(s.objects[ref], cs)
    ensures Evolves(s, s.With(ref, cs)) && Evolves(s, s.With(ref, cs).(pins := pins))
  {
  }

  lemma SameEvolves(s: State, t: State)
    requires t.objects == s.objects
    ensures Evolves(s, t)
  {
  }

  lemma FinishEvolves(s: State, ref: nat, outcome: Outcome, now: int)
    ensures Evolves(s, s.Finish(ref, outcome, now))
  {
    if ref < |s.objects| {
      var cs := s.objects[ref];
      match outcome
      case Complete(sas, key) =>
        var changed := Mismatch(s.pins, cs.peerIdHex, key);
        CompletedFollows(cs, sas, key, changed);
        OneEvolves(s, ref, cs.Completed(sas, key, changed), Tofu.Checked(s.pins, cs.peerIdHex, key, now));
      case SplitFails =>
        JudgedFollows(cs, Rejected);
        OneEvolves(s, ref, cs.Judged(Rejected), s.pins);
      case _ =>
    }
  }

  lemma CreateEvolves(s: State, d: Device, role: Role, peerIdHex: string, now: int)
    ensures Evolves(s, s.Create(d, role, peerIdHex, now))
  {
  }

  lemma AdvanceEvolves(s: State, ref: nat, kind: FrameKind, outcome: Outcome, now: int)
    ensures Evolves(s, Resumed(s, Reading(ref, kind), outcome, now))
  {
    var t := Resumed(s, Reading(ref, kind), outcome, now);
    if t.objects == s.objects {
      SameEvolves(s, t);
    } else if outcome == Throws {
      StruckFollows(s.objects[ref]);
      OneEvolves(s, ref, s.objects[ref].Struck(), s.pins);
    } else {
      FinishEvolves(s, ref, outcome, now);
    }
  }

  lemma InitiatingEvolves(s: State, d: Device, peer: bytes, outcome: Outcome, now: int)
    ensures Evolves(s, Resumed(s, Initiating(d, peer), outcome, now))
  {
    if s.peerId.Some? { CreateEvolves(s, d, RoleOf(s.peerId.value, peer), Hex(peer), now); }
  }

  lemma ResumedEvolves(s: State, t: Task, outcome: Outcome, now: int)
    ensures Evolves(s, Resumed(s, t, outcome, now))
  {
    match t
    case Initiating(d, peer) => InitiatingEvolves(s, d, peer, outcome, now);
    case Responding(d, peerIdHex, role, _) => CreateEvolves(s, d, role, peerIdHex, now);
    case Reading(ref, kind) => AdvanceEvolves(s, ref, kind, outcome, now);
    case Replying(ref) => FinishEvolves(s, ref, outcome, now);
    case _ =>
  }

  lemma StepEvolves(s: State, e: Event)
    ensures Evolves(s, Step(s, e))
  {
    match e
    case Tick(now) => SweptEvolves(s, s.cryptoStates, now);
    case AcceptPeer(p) => JudgeFirstEvolves(s, p, Accepted);
    case RejectPeer(p) => JudgeFirstEvolves(s, p, Rejected);
    case Resume(t, outcome, now) =>
      ResumedEvolves(s.End(t), t, outcome, now);
      if t !in s.tasks { SameEvolves(s, s); }
    case _ => SameEvolves(s, Step(s, e));
  }

  // ---- The invariant

  ghost predicate Inv(s: State) {
    && (forall e | e in s.cryptoStates :: e.ref < |s.objects|)
    && (forall t | t in s.tasks :: (t.Reading? || t.Replying?) ==> t.ref < |s.objects|)
    && (forall i | 0 <= i < |s.objects| :: Whole(s.objects[i]))
    && Keyed(s.cryptoStates) && PinsInBounds(s.pins)
    && (!s.TearingDown() ==> Devices(s.cryptoStates) <= s.connected)
  }

  /** One entry to a device, as in a Map, and no object entered twice. */
  predicate Keyed(m: seq<Entry>) { forall i, j | 0 <= i < j < |m| :: m[i].device != m[j].device && m[i].ref != m[j].ref }

  predicate PinsInBounds(pins: Tofu.Pins) { Tofu.DistinctIds(pins) && |pins| <= Tofu.TOFU_MAX_ENTRIES }

  lemma {:induction false} PutKeyed(m: seq<Entry>, d: Device, ref: nat)
    requires Keyed(m) && forall e | e in m :: e.ref != ref
    ensures Keyed(Put(m, d, ref))
    decreases |m|
  {
    if m != [] {
      assert forall e | e in m[1..] :: e in m;
      if m[0].device == d {
        ConsKeyed(Entry(d, ref), m[1..]);
      } else {
        PutKeyed(m[1..], d, ref);
        PutEntries(m[1..], d, ref);
        ConsKeyed(m[0], Put(m[1..], d, ref));
      }
    }
  }

  lemma {:induction false} RemoveKeyed(m: seq<Entry>, d: Device)
    requires Keyed(m)
    ensures Keyed(Remove(m, d))
    decreases |m|
  {
    if m != [] {
      RemoveKeyed(m[1..], d);
      RemoveEntries(m[1..], d);
      if m[0].device != d { ConsKeyed(m[0], Remove(m[1..], d)); }
    }
  }

  lemma ConsKeyed(e: Entry, m: seq<Entry>)
    requires Keyed(m) && forall x | x in m :: x.device != e.device && x.ref != e.ref
    ensures Keyed([e] + m)
  {
  }

  /** Whatever the clock says, a check leaves the pins in bounds. */
  lemma CheckKeepsPins(pins: Tofu.Pins, id: string, key: string, now: int)
    requires PinsInBounds(pins)
    ensures PinsInBounds(Tofu.Checked(pins, id, key, now))
  {
    var known := Tofu.Find(pins, id);
    var rec := if known.Some? then known.value.(lastSeen := now) else Tofu.TofuRecord(key, now, now);
    Tofu.AssignContents(pins, id, rec);
    Tofu.EvictionKeepsTheLatest(Tofu.Assign(pins, id, rec));
  }

  lemma FinishKeepsPins(s: State, ref: nat, outcome: Outcome, now: int)
    requires PinsInBounds(s.pins)
    ensures PinsInBounds(s.Finish(ref, outcome, now).pins)
  {
    if ref < |s.objects| && outcome.Complete? { CheckKeepsPins(s.pins, s.objects[ref].peerIdHex, outcome.peerPubkeyB64, now); }
  }

  lemma CreateKeepsInv(s: State, d: Device, role: Role, peerIdHex: string, now: int)
    requires Inv(s) && d in s.connected
    ensures Inv(s.Create(d, role, peerIdHex, now))
  {
    PutEntries(s.cryptoStates, d, |s.objects|);
    PutKeyed(s.cryptoStates, d, |s.objects|);
  }

  lemma SpawnKeepsInv(s: State, t: Task)
    requires Inv(s) && ((t.Reading? || t.Replying?) ==> t.ref < |s.objects|)
    ensures Inv(s.Spawn(t))
  {
  }

  lemma EndKeepsInv(s: State, t: Task)
    requires Inv(s) && t != Stopping
    ensures Inv(s.End(t))
  {
    assert Stopping in s.tasks <==> Stopping in s.End(t).tasks;
  }

  /** Steps that touch objects and pins alone. */
  lemma ObjectsKeepInv(s: State, t: State)
    requires Inv(s) && t == s.(objects := t.objects, pins := t.pins) && Evolves(s, t) && PinsInBounds(t.pins)
    ensures Inv(t)
  {
  }

  lemma InitiatingKeepsInv(s: State, d: Device, peer: bytes, outcome: Outcome, now: int)
    requires Inv(s)
    ensures Inv(Resumed(s, Initiating(d, peer), outcome, now))
  {
    if outcome == Fine && s.peerId.Some? && d in s.connected {
      var role := RoleOf(s.peerId.value, peer);
      CreateKeepsInv(s, d, role, Hex(peer), now);
      SpawnKeepsInv(s.Create(d, role, Hex(peer), now), Greeting(d));
    } else {
      ResumedEvolves(s, Initiating(d, peer), outcome, now);
      ObjectsKeepInv(s, Resumed(s, Initiating(d, peer), outcome, now));
    }
  }

  lemma RespondingKeepsInv(s: State, d: Device, peerIdHex: string, role: Role, kind: FrameKind, outcome: Outcome, now: int)
    requires Inv(s)
    ensures Inv(Resumed(s, Responding(d, peerIdHex, role, kind), outcome, now))
  {
    if d in s.connected {
      CreateKeepsInv(s, d, role, peerIdHex, now);
      SpawnKeepsInv(s.Create(d, role, peerIdHex, now), Reading(|s.objects|, kind));
    }
  }

  lemma ReadingKeepsInv(s: State, ref: nat, kind: FrameKind, outcome: Outcome, now: int)
    requires Inv(s)
    ensures Inv(Resumed(s, Reading(ref, kind), outcome, now))
  {
    var after := Resumed(s, Reading(ref, kind), outcome, now);
    if ref < |s.objects| && after == s.Spawn(Replying(ref)) {
      SpawnKeepsInv(s, Replying(ref));
    } else {
      AdvanceEvolves(s, ref, kind, outcome, now);
      FinishKeepsPins(s, ref, outcome, now);
      ObjectsKeepInv(s, after);
    }
  }

  lemma ReplyingKeepsInv(s: State, ref: nat, outcome: Outcome, now: int)
    requires Inv(s)
    ensures Inv(Resumed(s, Replying(ref), outcome, now))
  {
    ResumedEvolves(s, Replying(ref), outcome, now);
    FinishKeepsPins(s, ref, outcome, now);
    ObjectsKeepInv(s, Resumed(s, Replying(ref), outcome, now));
  }

  lemma ResumedKeepsInv(s: State, t: Task, outcome: Outcome, now: int)
    requires Inv(s) && t != Stopping
    ensures Inv(Resumed(s, t, outcome, now))
  {
    match t
    case Connecting(d, peer) =>
      if outcome == Fine { SpawnKeepsInv(s.(connected := s.connected + {d}), Initiating(d, peer)); }
    case Initiating(d, peer) => InitiatingKeepsInv(s, d, peer, outcome, now);
    case Responding(d, peerIdHex, role, kind) => RespondingKeepsInv(s, d, peerIdHex, role, kind, outcome, now);
    case Reading(ref, kind) => ReadingKeepsInv(s, ref, kind, outcome, now);
    case Replying(ref) => ReplyingKeepsInv(s, ref, outcome, now);
    case Greeting(_) =>
      ResumedEvolves(s, t, outcome, now);
      ObjectsKeepInv(s, Resumed(s, t, outcome, now));
  }

  lemma DisconnectKeepsInv(s: State, d: Device)
    requires Inv(s)
    ensures Inv(s.Disconnect(d))
  {
    RemoveEntries(s.cryptoStates, d);
    RemoveKeyed(s.cryptoStates, d);
  }

  lemma FrameKeepsInv(s: State, d: Device, kind: FrameKind, registered: Option<bytes>)
    requires Inv(s)
    ensures Inv(Step(s, HandshakeFrame(d, kind, registered)))
  {
    LookupFinds(s.cryptoStates, d);
    var found := Lookup(s.cryptoStates, d);
    if found.Some? { SpawnKeepsInv(s, Reading(found.value, kind)); }
  }

  lemma ResumeKeepsInv(s: State, t: Task, outcome: Outcome, now: int)
    requires Inv(s) && t in s.tasks
    ensures Inv(Resumed(s.End(t), t, outcome, now))
  {
    if t != Stopping {
      EndKeepsInv(s, t);
      ResumedKeepsInv(s.End(t), t, outcome, now);
    }
  }

  lemma StepKeepsInv(s: State, e: Event)
    requires Inv(s)
    ensures Inv(Step(s, e))
  {
    match e
    case Sight(d, peer, _) => SpawnKeepsInv(s, Connecting(d, peer));
    case Gone(d) => DisconnectKeepsInv(s, d);
    case HandshakeFrame(d, kind, registered) => FrameKeepsInv(s, d, kind, registered);
    case Tick(now) =>
      SweptEvolves(s, s.cryptoStates, now);
      ObjectsKeepInv(s, Step(s, e));
    case AcceptPeer(p) =>
      JudgeFirstEvolves(s, p, Accepted);
      ObjectsKeepInv(s, Step(s, e));
    case RejectPeer(p) =>
      JudgeFirstEvolves(s, p, Rejected);
      ObjectsKeepInv(s, Step(s, e));
    case Resume(t, outcome, now) => if t in s.tasks { ResumeKeepsInv(s, t, outcome, now); }
    case _ =>
  }

  lemma {:induction false} SweepReachesAll(s: State, m: seq<Entry>, now: int)
    requires forall e | e in m :: e.ref < |s.objects|
    ensures |Swept(s, m, now).objects| == |s.objects|
    ensures forall e | e in m && e.device in s.connected :: !Swept(s, m, now).objects[e.ref].Stalled(now)
    decreases |m|
  {
    if m != [] {
      var init, last := m[..|m| - 1], m[|m| - 1];
      assert m == init + [last];
      assert last in m && forall e | e in init :: e in m;
      SweepReachesAll(s, init, now);
      SweptEvolves(s, init, now);
    }
  }
}
