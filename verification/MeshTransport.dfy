/** The transport's handlers as they update its module variables, each against one step of the machine. */
module Transport {
  import opened Basics
  import opened Mesh
  import opened MeshInvariant
  import Tofu

  datatype SendError = UnknownPeer | NotAccepted

  datatype PendingHandshake = PendingHandshake(peerIdHex: string, sas: string, peerPubkeyB64: string, keyChanged: bool)

  class MeshTransport {
    var peerId: Option<bytes>
    var connectedDevices: set<Device>
    var cryptoStates: seq<Entry>
    var objects: seq<CryptoState>
    var tasks: multiset<Task>
    const tofu: Tofu.TofuStore

    constructor (tofu: Tofu.TofuStore)
      requires tofu.store == []
      ensures this.tofu == tofu && Valid() && View() == State(None, {}, [], [], multiset{}, [])
    {
      this.tofu := tofu;
      peerId, connectedDevices, cryptoStates, objects, tasks := None, {}, [], [], multiset{};
    }

    function View(): State reads this, tofu { State(peerId, connectedDevices, cryptoStates, objects, tasks, tofu.store) }

    ghost predicate Valid() reads this, tofu { Inv(View()) }

    /** transitionVerdict: terminal verdicts stick. */
    method TransitionVerdict(ref: nat, next: Verdict) returns (moved: bool)
      requires ref < |objects|
      modifies this`objects
      ensures View() == old(View()).Judge(ref, next)
      ensures moved <==> old(objects[ref].verdict) == Pending
    {
      if objects[ref].verdict == Pending {
        objects := objects[ref := objects[ref].(verdict := next)];
        return true;
      }
      assert objects[ref := objects[ref]] == objects;
      return false;
    }

    method FailHandshake(d: Device)
      modifies this`objects
      ensures View() == old(View()).Fail(d)
    {
      var found := Lookup(cryptoStates, d);
      if found.Some? && found.value < |objects| {
        var moved := TransitionVerdict(found.value, Rejected);
      }
    }

    /** A sighting starts at most a connection attempt; it connects nothing by itself. */
    method OnSighting(d: Device, peer: bytes, backingOff: bool)
      requires Valid()
      modifies this`tasks
      ensures Valid() && View() == Step(old(View()), Sight(d, peer, backingOff))
    {
      StepKeepsInv(View(), Sight(d, peer, backingOff));
      if d in connectedDevices { return; }
      if |connectedDevices| >= MAX_BLE_CONNECTIONS { return; }
      if backingOff { return; }
      tasks := tasks + multiset{Connecting(d, peer)};
    }

    /** A disconnect leaves no handshake of the device, and touches no other device. */
    method OnConnection(d: Device, connected: bool)
      requires Valid()
      modifies this`connectedDevices, this`cryptoStates
      ensures Valid() && View() == Step(old(View()), if connected then Inbound(d) else Gone(d))
      ensures d in connectedDevices <==> connected
      ensures !connected ==> Lookup(cryptoStates, d) == None
      ensures OthersStay(old(cryptoStates), cryptoStates, d)
    {
      StepKeepsInv(View(), if connected then Inbound(d) else Gone(d));
      RemoveLookup(cryptoStates, d);
      if !connected {
        connectedDevices := connectedDevices - {d};
        cryptoStates := Remove(cryptoStates, d);
      } else if d !in connectedDevices {
        connectedDevices := connectedDevices + {d};
      }
    }

    /** An outbound connect, its MTU and its subscription have all succeeded or one has failed. */
    method OnConnected(d: Device, peer: bytes, outcome: Outcome, now: int)
      requires Valid() && Connecting(d, peer) in tasks
      modifies this`connectedDevices, this`tasks
      ensures Valid() && View() == Step(old(View()), Resume(Connecting(d, peer), outcome, now))
      ensures outcome == Fine ==> d in connectedDevices && Initiating(d, peer) in tasks
      ensures outcome != Fine ==> connectedDevices == old(connectedDevices)
    {
      StepKeepsInv(View(), Resume(Connecting(d, peer), outcome, now));
      tasks := tasks - multiset{Connecting(d, peer)};
      if outcome != Fine { return; }
      connectedDevices := connectedDevices + {d};
      tasks := tasks + multiset{Initiating(d, peer)};
    }

    /** A new handshake object, entered for the device. */
    method NewHandshake(d: Device, role: Role, peerIdHex: string, now: int) returns (ref: nat)
      modifies this`objects, this`cryptoStates
      ensures ref == |old(objects)| && View() == old(View()).Create(d, role, peerIdHex, now)
    {
      ref := |objects|;
      objects := objects + [NewState(role, peerIdHex, now)];
      cryptoStates := Put(cryptoStates, d, ref);
    }

    /** initiateHandshake, once the identity is loaded: the device may be gone by now. A handshake is
        entered only for a connected device, and none of another device is touched. */
    method InitiateHandshake(d: Device, peer: bytes, outcome: Outcome, now: int)
      requires Valid() && Initiating(d, peer) in tasks
      modifies this
      ensures Valid() && View() == Step(old(View()), Resume(Initiating(d, peer), outcome, now))
      ensures |objects| > |old(objects)| ==> d in connectedDevices && Lookup(cryptoStates, d) == Some(|old(objects)|)
      ensures |objects| == |old(objects)| ==> cryptoStates == old(cryptoStates)
      ensures OthersStay(old(cryptoStates), cryptoStates, d)
    {
      StepKeepsInv(View(), Resume(Initiating(d, peer), outcome, now));
      ghost var before := View().End(Initiating(d, peer));
      tasks := tasks - multiset{Initiating(d, peer)};
      assert View() == before;
      InitiatingEnters(before, d, peer, outcome, now);
      Initiate(d, peer, outcome, now);
    }

    method Initiate(d: Device, peer: bytes, outcome: Outcome, now: int)
      modifies this
      ensures View() == Resumed(old(View()), Initiating(d, peer), outcome, now)
    {
      if outcome != Fine {
        FailHandshake(d);
        return;
      }
      if peerId == None { return; }
      if d !in connectedDevices { return; }
      var role := RoleFor(peerId.value, peer);
      var ref := NewHandshake(d, role, Hex(peer), now);
      if role == Initiator { tasks := tasks + multiset{Greeting(d)}; }
    }

    /** The first message has been written, or writing it has failed. */
    method AfterGreeting(d: Device, outcome: Outcome, now: int)
      requires Valid() && Greeting(d) in tasks
      modifies this`tasks, this`objects
      ensures Valid() && View() == Step(old(View()), Resume(Greeting(d), outcome, now))
    {
      StepKeepsInv(View(), Resume(Greeting(d), outcome, now));
      ghost var before := View().End(Greeting(d));
      tasks := tasks - multiset{Greeting(d)};
      assert View() == before;
      if outcome != Fine { FailHandshake(d); }
    }

    /** A reassembled handshake frame: for a known device, or the first word of an initiator. */
    method OnHandshakeFrame(d: Device, kind: FrameKind, registered: Option<bytes>)
      requires Valid()
      modifies this`tasks
      ensures Valid() && View() == Step(old(View()), HandshakeFrame(d, kind, registered))
    {
      StepKeepsInv(View(), HandshakeFrame(d, kind, registered));
      var cs := Lookup(cryptoStates, d);
      if cs.Some? {
        tasks := tasks + multiset{Reading(cs.value, kind)};
        return;
      }
      if peerId == None { return; }
      var peerIdHex, role := d, Responder;
      if registered.Some? {
        peerIdHex := Hex(registered.value);
        role := RoleFor(peerId.value, registered.value);
      }
      tasks := tasks + multiset{Responding(d, peerIdHex, role, kind)};
    }

    /** The responder's identity is loaded: create its state unless the device went, or another has.
        An existing handshake is never replaced on this path. */
    method Respond(d: Device, peerIdHex: string, role: Role, kind: FrameKind, outcome: Outcome, now: int)
      requires Valid() && Responding(d, peerIdHex, role, kind) in tasks
      modifies this
      ensures Valid() && View() == Step(old(View()), Resume(Responding(d, peerIdHex, role, kind), outcome, now))
      ensures Lookup(old(cryptoStates), d).Some? ==> cryptoStates == old(cryptoStates)
      ensures |objects| > |old(objects)| ==> d in connectedDevices && Lookup(cryptoStates, d) == Some(|old(objects)|)
      ensures OthersStay(old(cryptoStates), cryptoStates, d)
    {
      StepKeepsInv(View(), Resume(Responding(d, peerIdHex, role, kind), outcome, now));
      PutLookup(cryptoStates, d, |objects|);
      tasks := tasks - multiset{Responding(d, peerIdHex, role, kind)};
      if outcome != Fine { return; }
      if d !in connectedDevices { return; }
      if Lookup(cryptoStates, d).Some? { return; }
      var ref := NewHandshake(d, role, peerIdHex, now);
      tasks := tasks + multiset{Reading(ref, kind)};
    }

    /** The end of a handshake. A key that is not the pinned one is flagged; neither the pin nor the
        verdict moves, so the user decides. */
    method FinishHandshake(ref: nat, outcome: Outcome, now: int)
      requires ref < |objects|
      modifies this`objects, tofu
      ensures View() == old(View()).Finish(ref, outcome, now)
      ensures outcome.Complete? && Mismatch(old(tofu.store), objects[ref].peerIdHex, outcome.peerPubkeyB64) ==>
                objects[ref].keyChanged && tofu.store == old(tofu.store) && objects[ref].verdict == old(objects[ref]).verdict
    {
      if outcome == SplitFails {
        var moved := TransitionVerdict(ref, Rejected);
      } else if outcome.Complete? {
        CompleteHandshake(ref, outcome.sas, outcome.peerPubkeyB64, now);
      }
    }

    method CompleteHandshake(ref: nat, sas: string, pubkeyB64: string, now: int)
      requires ref < |objects|
      modifies this`objects, tofu
      ensures View() == old(View()).Finish(ref, Complete(sas, pubkeyB64), now)
    {
      var peerIdHex := objects[ref].peerIdHex;
      var tofuResult := tofu.TofuCheck(peerIdHex, pubkeyB64, now);
      objects := objects[ref := objects[ref].Completed(sas, pubkeyB64, tofuResult.keyChanged)];
    }

    /** Three strikes. */
    method CountViolation(ref: nat)
      requires ref < |objects|
      modifies this`objects
      ensures View() == old(View()).With(ref, old(objects[ref]).Struck())
    {
      objects := objects[ref := objects[ref].(handshakeFailures := objects[ref].handshakeFailures + 1)];
      if objects[ref].handshakeFailures < STRIKES { return; }
      var moved := TransitionVerdict(ref, Rejected);
    }

    /** advanceHandshake after its read: count a violation, drop what is out of state, reply or finish.
        No other handshake is touched, and no device's entry. */
    method AdvanceHandshake(ref: nat, kind: FrameKind, outcome: Outcome, now: int)
      requires Valid() && Reading(ref, kind) in tasks
      modifies this`objects, tofu, this`tasks
      ensures Valid() && View() == Step(old(View()), Resume(Reading(ref, kind), outcome, now))
      ensures OnlyOne(old(objects), objects, ref)
    {
      StepKeepsInv(View(), Resume(Reading(ref, kind), outcome, now));
      tasks := tasks - multiset{Reading(ref, kind)};
      Advance(ref, kind, outcome, now);
    }

    method Advance(ref: nat, kind: FrameKind, outcome: Outcome, now: int)
      requires ref < |objects|
      modifies this`objects, tofu, this`tasks
      ensures View() == Resumed(old(View()), Reading(ref, kind), outcome, now) && OnlyOne(old(objects), objects, ref)
    {
      if outcome == OutOfState { return; }
      if outcome == Throws {
        CountViolation(ref);
        return;
      }
      if kind == Msg1 && objects[ref].role == Responder {
        tasks := tasks + multiset{Replying(ref)};
      } else if kind == Msg2 && objects[ref].role == Initiator {
        tasks := tasks + multiset{Replying(ref)};
      } else {
        FinishHandshake(ref, outcome, now);
      }
    }

    /** The same after its write. */
    method AfterReply(ref: nat, outcome: Outcome, now: int)
      requires Valid() && Replying(ref) in tasks
      modifies this`objects, tofu, this`tasks
      ensures Valid() && View() == Step(old(View()), Resume(Replying(ref), outcome, now))
      ensures OnlyOne(old(objects), objects, ref)
    {
      StepKeepsInv(View(), Resume(Replying(ref), outcome, now));
      tasks := tasks - multiset{Replying(ref)};
      EndReply(ref, outcome, now);
    }

    method EndReply(ref: nat, outcome: Outcome, now: int)
      requires ref < |objects|
      modifies this`objects, tofu
      ensures View() == Resumed(old(View()), Replying(ref), outcome, now) && OnlyOne(old(objects), objects, ref)
    {
      if outcome == Throws {
        var moved := TransitionVerdict(ref, Rejected);
        return;
      }
      FinishHandshake(ref, outcome, now);
    }

    method CheckHandshakeTimeout(e: Entry, now: int)
      requires e.ref < |objects|
      modifies this`objects
      ensures View() == SweptOne(old(View()), e, now)
    {
      if objects[e.ref].verdict != Pending { return; }
      if objects[e.ref].session { return; }
      if e.device !in connectedDevices { return; }
      if now - objects[e.ref].handshakeStartedAt > HANDSHAKE_TIMEOUT_MS {
        var moved := TransitionVerdict(e.ref, Rejected);
      }
    }

    /** Afterwards no connected device has a stalled handshake. */
    method CheckHandshakeTimeouts(now: int)
      requires Valid()
      modifies this`objects
      ensures Valid() && View() == Step(old(View()), Tick(now))
      ensures |objects| == |old(objects)|
      ensures forall e | e in cryptoStates && e.device in connectedDevices :: !objects[e.ref].Stalled(now)
    {
      StepKeepsInv(View(), Tick(now));
      SweepReachesAll(View(), cryptoStates, now);
      SweepAll(now);
    }

    method SweepAll(now: int)
      requires forall e | e in cryptoStates :: e.ref < |objects|
      modifies this`objects
      ensures View() == Swept(old(View()), cryptoStates, now)
    {
      var i := 0;
      while i < |cryptoStates|
        invariant i <= |cryptoStates| && |objects| == |old(objects)|
        invariant View() == Swept(old(View()), cryptoStates[..i], now)
      {
        var e := cryptoStates[i];
        assert cryptoStates[..i + 1][..i] == cryptoStates[..i];
        SweepKeeps(old(View()), cryptoStates[..i], now);
        CheckHandshakeTimeout(e, now);
        i := i + 1;
      }
      assert cryptoStates[..i] == cryptoStates;
    }

    /** acceptPeer and rejectPeer: at most one verdict moves, that of the first state with the peer id. */
    method Decide(peerIdHex: string, next: Verdict)
      requires Valid() && next != Pending
      modifies this`objects
      ensures Valid() && View() == Step(old(View()), if next == Accepted then AcceptPeer(peerIdHex) else RejectPeer(peerIdHex))
      ensures |objects| == |old(objects)|
      ensures forall i | 0 <= i < |objects| :: objects[i] == old(objects[i])
                || (FirstRef(old(objects), cryptoStates, peerIdHex) == Some(i) && old(objects[i]).verdict == Pending && objects[i].verdict == next)
    {
      StepKeepsInv(View(), if next == Accepted then AcceptPeer(peerIdHex) else RejectPeer(peerIdHex));
      JudgeFirstEvolves(View(), peerIdHex, next);
      var ref := FirstState(peerIdHex);
      if ref.Some? {
        var moved := TransitionVerdict(ref.value, next);
      }
    }

    /** The first state, in the order of the map, that carries the peer id. */
    method FirstState(peerIdHex: string) returns (ref: Option<nat>)
      requires forall e | e in cryptoStates :: e.ref < |objects|
      ensures ref == FirstRef(objects, cryptoStates, peerIdHex) && (ref.Some? ==> ref.value < |objects|)
    {
      var i := 0;
      while i < |cryptoStates|
        invariant i <= |cryptoStates|
        invariant FirstRef(objects, cryptoStates[i..], peerIdHex) == FirstRef(objects, cryptoStates, peerIdHex)
      {
        assert cryptoStates[i] in cryptoStates;
        if objects[cryptoStates[i].ref].peerIdHex == peerIdHex { return Some(cryptoStates[i].ref); }
        i := i + 1;
      }
      return None;
    }

    /** The handshakes shown to the user, in the order of the map. */
    method GetPendingHandshakes() returns (out: seq<PendingHandshake>)
      requires Valid()
      ensures out == Shown(objects, cryptoStates)
    {
      out := ListPending();
    }

    method ListPending() returns (out: seq<PendingHandshake>)
      requires forall e | e in cryptoStates :: e.ref < |objects|
      ensures out == Shown(objects, cryptoStates)
    {
      out := [];
      for i := 0 to |cryptoStates|
        invariant out == Shown(objects, cryptoStates[..i])
      {
        assert cryptoStates[i] in cryptoStates && cryptoStates[..i + 1][..i] == cryptoStates[..i];
        var ref := cryptoStates[i].ref;
        if objects[ref].Listed() { out := out + [AsPending(objects[ref])]; }
      }
      assert cryptoStates[..|cryptoStates|] == cryptoStates;
    }

    /** sendFrame as far as its checks: the device it will write to. */
    method SendFrame(peerIdHex: string, mac: Option<Device>) returns (r: Result<Device, SendError>)
      requires Valid()
      ensures r == Sending(View(), peerIdHex, mac)
      ensures r.Ok? ==> Trusted(View(), r.value) && (View().TearingDown() || r.value in connectedDevices)
    {
      var deviceId := mac;
      if deviceId == None {
        var stale: Option<Device>, i := None, 0;
        while i < |cryptoStates| && deviceId == None
          invariant i <= |cryptoStates|
          invariant deviceId.Some? ==> FirstConnected(View(), cryptoStates, peerIdHex) == deviceId
          invariant deviceId == None ==> FirstConnected(View(), cryptoStates, peerIdHex) == FirstConnected(View(), cryptoStates[i..], peerIdHex)
          invariant FirstMatch(View(), cryptoStates, peerIdHex) == if stale.Some? then stale else FirstMatch(View(), cryptoStates[i..], peerIdHex)
          decreases |cryptoStates| - i, if deviceId == None then 1 else 0
        {
          var e := cryptoStates[i];
          if objects[e.ref].peerIdHex == peerIdHex {
            if e.device in connectedDevices { deviceId := Some(e.device); break; }
            if stale == None { stale := Some(e.device); }
          }
          i := i + 1;
        }
        if deviceId == None { deviceId := stale; }
      }
      if deviceId == None { return Err(UnknownPeer); }
      LookupFinds(cryptoStates, deviceId.value);
      var cs := Lookup(cryptoStates, deviceId.value);
      if cs == None || objects[cs.value].verdict != Accepted || !objects[cs.value].session {
        return Err(NotAccepted);
      }
      return Ok(deviceId.value);
    }

    /** A session-data frame from a device: the handshake under whose session it is opened, if any. One
        is opened exactly when a frame to that device could leave. */
    method OnSessionFrame(d: Device) returns (under: Option<nat>)
      requires Valid()
      ensures under.Some? <==> Trusted(View(), d)
      ensures under.Some? ==> under == Lookup(cryptoStates, d) && (View().TearingDown() || d in connectedDevices)
    {
      LookupFinds(cryptoStates, d);
      under := Lookup(cryptoStates, d);
      if under == None || !objects[under.value].session || objects[under.value].verdict != Accepted { return None; }
    }

    method StopMeshCloses()
      requires Valid()
      modifies this`connectedDevices, this`tasks
      ensures Valid() && View() == Step(old(View()), StopMesh)
    {
      StepKeepsInv(View(), StopMesh);
      connectedDevices := {};
      tasks := tasks + multiset{Stopping};
    }

    method StopMeshClears(now: int)
      requires Valid() && Stopping in tasks
      modifies this`peerId, this`cryptoStates, this`tasks
      ensures Valid() && View() == Step(old(View()), Resume(Stopping, Fine, now))
      ensures forall d: Device :: Lookup(cryptoStates, d) == None
    {
      StepKeepsInv(View(), Resume(Stopping, Fine, now));
      tasks := tasks - multiset{Stopping};
      cryptoStates := [];
      peerId := None;
    }
  }

  /** What initiateHandshake does to the map: a new entry for a connected device, or nothing. */
  lemma InitiatingEnters(s: State, d: Device, peer: bytes, outcome: Outcome, now: int)
    ensures var t := Resumed(s, Initiating(d, peer), outcome, now);
            && |t.objects| >= |s.objects| && OthersStay(s.cryptoStates, t.cryptoStates, d)
            && (|t.objects| > |s.objects| ==> d in t.connected && Lookup(t.cryptoStates, d) == Some(|s.objects|))
            && (|t.objects| == |s.objects| ==> t.cryptoStates == s.cryptoStates)
  {
    PutLookup(s.cryptoStates, d, |s.objects|);
  }

  predicate OnlyOne(before: seq<CryptoState>, after: seq<CryptoState>, ref: nat) {
    |after| == |before| && forall i | 0 <= i < |after| && i != ref :: after[i] == before[i]
  }

  function AsPending(cs: CryptoState): PendingHandshake
    requires cs.Listed()
  {
    PendingHandshake(cs.peerIdHex, cs.sas.value, cs.peerPubkeyB64.value, cs.keyChanged)
  }

  function Shown(objects: seq<CryptoState>, m: seq<Entry>): seq<PendingHandshake>
    decreases |m|
  {
    if m == [] then []
    else
      var before, ref := Shown(objects, m[..|m| - 1]), m[|m| - 1].ref;
      if ref < |objects| && objects[ref].Listed() then before + [AsPending(objects[ref])] else before
  }

  lemma {:induction false} SweepKeeps(s: State, m: seq<Entry>, now: int)
    ensures var after := Swept(s, m, now);
            after == s.(objects := after.objects) && |after.objects| == |s.objects|
    decreases |m|
  {
    if m != [] { SweepKeeps(s, m[..|m| - 1], now); }
  }

  function FirstMatch(s: State, m: seq<Entry>, peerIdHex: string): Option<Device>
    decreases |m|
  {
    if m == [] then None
    else if m[0].ref < |s.objects| && s.objects[m[0].ref].peerIdHex == peerIdHex then Some(m[0].device)
    else FirstMatch(s, m[1..], peerIdHex)
  }

  function FirstConnected(s: State, m: seq<Entry>, peerIdHex: string): Option<Device>
    decreases |m|
  {
    if m == [] then None
    else if m[0].ref < |s.objects| && s.objects[m[0].ref].peerIdHex == peerIdHex && m[0].device in s.connected then Some(m[0].device)
    else FirstConnected(s, m[1..], peerIdHex)
  }

  /** The device a frame goes to: the registry's, else a connected match, else any match. */
  function Target(s: State, peerIdHex: string, mac: Option<Device>): Option<Device> {
    var connected := FirstConnected(s, s.cryptoStates, peerIdHex);
    if mac.Some? then mac else if connected.Some? then connected else FirstMatch(s, s.cryptoStates, peerIdHex)
  }

  /** Accepted, with a session: what sending to a device and opening its frames both ask for. */
  predicate Trusted(s: State, d: Device) {
    var cs := Lookup(s.cryptoStates, d);
    cs.Some? && cs.value < |s.objects| && s.objects[cs.value].verdict == Accepted && s.objects[cs.value].session
  }

  function Sending(s: State, peerIdHex: string, mac: Option<Device>): Result<Device, SendError> {
    var d := Target(s, peerIdHex, mac);
    if d == None then Err(UnknownPeer) else if Trusted(s, d.value) then Ok(d.value) else Err(NotAccepted)
  }
}
