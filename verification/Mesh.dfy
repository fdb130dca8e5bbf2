/** Connections and handshakes: the event handlers of the transport, cut at their awaits. */
module Mesh {
  import opened Basics
  import Tofu

  type Device = string

  const MAX_BLE_CONNECTIONS: nat := 6
  const HANDSHAKE_TIMEOUT_MS: int := 15000
  const STRIKES: nat := 3

  datatype Role = Initiator | Responder

  datatype Verdict = Pending | Accepted | Rejected

  datatype CryptoState = CryptoState(
    role: Role, session: bool, sas: Option<string>, verdict: Verdict, peerPubkeyB64: Option<string>, keyChanged: bool,
    peerIdHex: string, handshakeFailures: nat, handshakeStartedAt: int)
  {
    /** Only pending moves. */
    function Judged(next: Verdict): CryptoState {
      if verdict == Pending then this.(verdict := next) else this
    }

    function Struck(): CryptoState {
      var s := this.(handshakeFailures := handshakeFailures + 1);
      if s.handshakeFailures < STRIKES then s else s.Judged(Rejected)
    }

    /** The end of a handshake. */
    function Completed(sasText: string, key: string, changed: bool): CryptoState {
      this.(session := true, sas := Some(sasText), handshakeFailures := 0, peerPubkeyB64 := Some(key), keyChanged := changed)
    }

    /** What getPendingHandshakes shows the user. */
    predicate Listed() { sas.Some? && verdict == Pending && peerPubkeyB64.Some? }

    predicate Stalled(now: int) {
      verdict == Pending && !session && now - handshakeStartedAt > HANDSHAKE_TIMEOUT_MS
    }
  }

  /** Lexicographic: the smaller peer id initiates; a tie or a prefix does too. */
  function RoleOf(ours: bytes, theirs: bytes): Role
    decreases |ours|
  {
    if ours == [] || theirs == [] || ours[0] < theirs[0] then Initiator
    else if ours[0] > theirs[0] then Responder
    else RoleOf(ours[1..], theirs[1..])
  }

  method RoleFor(ours: bytes, theirs: bytes) returns (role: Role)
    ensures role == RoleOf(ours, theirs)
  {
    var i := 0;
    while i < Min(|ours|, |theirs|)
      invariant 0 <= i <= Min(|ours|, |theirs|)
      invariant RoleOf(ours[i..], theirs[i..]) == RoleOf(ours, theirs)
    {
      if ours[i] < theirs[i] { return Initiator; }
      if ours[i] > theirs[i] { return Responder; }
      i := i + 1;
    }
    return Initiator;
  }

  /** Two peers with different ids of the same length never take the same role. */
  lemma {:induction false} RolesDiffer(a: bytes, b: bytes)
    requires |a| == |b|
    ensures RoleOf(a, b) == RoleOf(b, a) <==> a == b
    decreases |a|
  {
    if a != [] && a[0] == b[0] {
      RolesDiffer(a[1..], b[1..]);
      assert a == [a[0]] + a[1..] && b == [b[0]] + b[1..];
    }
  }

  /** cryptoStates: a Map in insertion order, from devices to the handshake objects they use. */
  datatype Entry = Entry(device: Device, ref: nat)

  function Lookup(m: seq<Entry>, d: Device): Option<nat>
    decreases |m|
  {
    if m == [] then None else if m[0].device == d then Some(m[0].ref) else Lookup(m[1..], d)
  }

  function Put(m: seq<Entry>, d: Device, ref: nat): seq<Entry>
    decreases |m|
  {
    if m == [] then [Entry(d, ref)] else if m[0].device == d then [Entry(d, ref)] + m[1..] else [m[0]] + Put(m[1..], d, ref)
  }

  function Remove(m: seq<Entry>, d: Device): seq<Entry>
    decreases |m|
  {
    if m == [] then [] else if m[0].device == d then Remove(m[1..], d) else [m[0]] + Remove(m[1..], d)
  }

  function Devices(m: seq<Entry>): set<Device> { set e | e in m :: e.device }

  datatype FrameKind = Msg1 | Msg2 | Msg3

  /** What is suspended at an await. */
  datatype Task =
    | Connecting(device: Device, peer: bytes)
    | Initiating(device: Device, peer: bytes)
    | Greeting(device: Device)
    | Responding(device: Device, peerIdHex: string, role: Role, kind: FrameKind)
    | Reading(ref: nat, kind: FrameKind)
    | Replying(ref: nat)
    | Stopping

  /** How an awaited call ends: returned, returned with the handshake complete, the same but the split
      throws, out of state, thrown. A complete handshake has its SAS and the peer's static key. */
  datatype Outcome = Fine | Complete(sas: string, peerPubkeyB64: string) | SplitFails | OutOfState | Throws

  function NewState(role: Role, peerIdHex: string, now: int): CryptoState {
    CryptoState(role, false, None, Pending, None, false, peerIdHex, 0, now)
  }

  predicate Mismatch(pins: Tofu.Pins, id: string, key: string) {
    var known := Tofu.Find(pins, id);
    known.Some? && known.value.pubkeyB64 != key
  }

  datatype State = State(
    peerId: Option<bytes>,
    connected: set<Device>,
    cryptoStates: seq<Entry>,
    objects: seq<CryptoState>,
    tasks: multiset<Task>,
    pins: Tofu.Pins)
  {
    predicate TearingDown() { Stopping in tasks }

    function Spawn(t: Task): State { this.(tasks := tasks + multiset{t}) }

    function End(t: Task): State { this.(tasks := tasks - multiset{t}) }

    function With(ref: nat, cs: CryptoState): State {
      if ref < |objects| then this.(objects := objects[ref := cs]) else this
    }

    function Judge(ref: nat, next: Verdict): State {
      if ref < |objects| then With(ref, objects[ref].Judged(next)) else this
    }

    /** failHandshake on whatever the device has now. */
    function Fail(d: Device): State {
      var found := Lookup(cryptoStates, d);
      if found.Some? then Judge(found.value, Rejected) else this
    }

    function Create(d: Device, role: Role, peerIdHex: string, now: int): State {
      this.(objects := objects + [NewState(role, peerIdHex, now)],
            cryptoStates := Put(cryptoStates, d, |objects|))
    }

    /** The end of a handshake: the session, its SAS, and the check of the peer's key against its pin. */
    function Finish(ref: nat, outcome: Outcome, now: int): State {
      if ref >= |objects| then this
      else
        match outcome
        case Complete(sas, key) =>
          var cs := objects[ref];
          With(ref, cs.Completed(sas, key, Mismatch(pins, cs.peerIdHex, key))).(pins := Tofu.Checked(pins, cs.peerIdHex, key, now))
        case SplitFails => Judge(ref, Rejected)
        case _ => this
    }

    /** Both a disconnect callback and a disconnect event forget the device. */
    function Disconnect(d: Device): State {
      this.(connected := connected - {d}, cryptoStates := Remove(cryptoStates, d))
    }
  }

  datatype Event =
    | Start(peerId: bytes)
    | Sight(device: Device, peer: bytes, backingOff: bool)
    | Inbound(device: Device)
    | Gone(device: Device)
    | HandshakeFrame(device: Device, kind: FrameKind, registered: Option<bytes>)
    | Resume(task: Task, outcome: Outcome, now: int)
    | Tick(now: int)
    | AcceptPeer(peerIdHex: string)
    | RejectPeer(peerIdHex: string)
    | StopMesh

  function Resumed(s: State, t: Task, outcome: Outcome, now: int): State {
    match t
    case Connecting(d, peer) =>
      if outcome == Fine then s.(connected := s.connected + {d}).Spawn(Initiating(d, peer)) else s
    case Initiating(d, peer) =>
      if outcome != Fine then s.Fail(d)
      else if s.peerId == None || d !in s.connected then s
      else
        var role := RoleOf(s.peerId.value, peer);
        var created := s.Create(d, role, Hex(peer), now);
        if role == Initiator then created.Spawn(Greeting(d)) else created
    case Greeting(d) => if outcome == Fine then s else s.Fail(d)
    case Responding(d, peerIdHex, role, kind) =>
      if outcome != Fine || d !in s.connected || Lookup(s.cryptoStates, d).Some? then s
      else s.Create(d, role, peerIdHex, now).Spawn(Reading(|s.objects|, kind))
    case Reading(ref, kind) =>
      if ref >= |s.objects| || outcome == OutOfState then s
      else if outcome == Throws then s.With(ref, s.objects[ref].Struck())
      else if (kind == Msg1 && s.objects[ref].role == Responder) || (kind == Msg2 && s.objects[ref].role == Initiator)
      then s.Spawn(Replying(ref))
      else s.Finish(ref, outcome, now)
    case Replying(ref) => if outcome == Throws then s.Judge(ref, Rejected) else s.Finish(ref, outcome, now)
    case Stopping => s.(cryptoStates := [], peerId := None)
  }

  /** The first state, in insertion order, that carries the peer id. */
  function FirstRef(objects: seq<CryptoState>, m: seq<Entry>, peerIdHex: string): Option<nat>
    decreases |m|
  {
    if m == [] then None
    else if m[0].ref < |objects| && objects[m[0].ref].peerIdHex == peerIdHex then Some(m[0].ref)
    else FirstRef(objects, m[1..], peerIdHex)
  }

  function JudgeFirst(s: State, peerIdHex: string, next: Verdict): State {
    var ref := FirstRef(s.objects, s.cryptoStates, peerIdHex);
    if ref.Some? then s.Judge(ref.value, next) else s
  }

  /** One entry under the timeout sweep. */
  function SweptOne(s: State, e: Entry, now: int): State {
    if e.device in s.connected && e.ref < |s.objects| && s.objects[e.ref].Stalled(now) then s.Judge(e.ref, Rejected) else s
  }

  function Swept(s: State, m: seq<Entry>, now: int): State
    decreases |m|
  {
    if m == [] then s else SweptOne(Swept(s, m[..|m| - 1], now), m[|m| - 1], now)
  }

  function Step(s: State, e: Event): State {
    match e
    case Start(peerId) => s.(peerId := Some(peerId))
    case Sight(d, peer, backingOff) =>
      if d in s.connected || |s.connected| >= MAX_BLE_CONNECTIONS || backingOff then s else s.Spawn(Connecting(d, peer))
    case Inbound(d) => s.(connected := s.connected + {d})
    case Gone(d) => s.Disconnect(d)
    case HandshakeFrame(d, kind, registered) =>
      var found := Lookup(s.cryptoStates, d);
      if found.Some? then s.Spawn(Reading(found.value, kind))
      else if s.peerId == None then s
      else if registered == None then s.Spawn(Responding(d, d, Responder, kind))
      else s.Spawn(Responding(d, Hex(registered.value), RoleOf(s.peerId.value, registered.value), kind))
    case Resume(t, outcome, now) => if t in s.tasks then Resumed(s.End(t), t, outcome, now) else s
    case Tick(now) => Swept(s, s.cryptoStates, now)
    case AcceptPeer(p) => JudgeFirst(s, p, Accepted)
    case RejectPeer(p) => JudgeFirst(s, p, Rejected)
    case StopMesh => s.(connected := {}).Spawn(Stopping)
  }
}
