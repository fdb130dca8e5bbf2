/** The Noise XX handshake (section 7.5 of the Noise Protocol Framework, revision 34) with an
    ML-KEM-768 exchange carried in its payloads. */
module NoiseXx {
  import opened Basics
  import opened NoiseCrypto

  const MAX_HANDSHAKE_MSG_BYTES := 1500
  const S_CT_BYTES := 80
  const CHAIN_KEY_BYTES := 32

  datatype Role = Initiator | Responder

  datatype NoiseError = TooLarge | OutOfState | TooShort | DhFailed | AeadFailed | BadKem | Incomplete

  /** A device identity: an Ed25519 public key and an X25519 secret. */
  datatype Identity = Identity(ed25519: bytes, x25519Secret: bytes)

  /** The bytes both sides of the `s` token carry: Ed25519 key, then X25519 key. */
  function StaticPayload(p: Primitives, id: Identity): bytes {
    id.ed25519 + p.DhPublic(id.x25519Secret)
  }

  /** The ML-KEM slot: a real key pair at the initiator, the ciphertext at the responder. */
  datatype KemSlot = KemSlot(publicKey: bytes, secretKey: bytes)

  /** A handshake as a value. */
  datatype Handshake = Handshake(
    role: Role, identity: Identity, sym: Sym, msgIdx: nat,
    eSecret: Option<bytes>, rePublic: Option<bytes>,
    kem: Option<KemSlot>, shared: Option<bytes>,
    rsPublic: Option<bytes>, rsX25519: Option<bytes>)

  /** The random values one write may draw: an ephemeral secret and an ML-KEM seed. */
  datatype Randomness = Randomness(ephemeral: bytes, kemSeed: bytes)

  type Outcome = Result<bytes, NoiseError>

  function Start(p: Primitives, role: Role, identity: Identity): Handshake {
    var protoHash := p.Sha256(Ascii(PROTOCOL_NAME));
    Handshake(role, identity, Sym(protoHash, protoHash, None, 0), 0, None, None, None, None, None, None)
  }

  // ----- The six message functions: the state afterwards, and the bytes or the error. -----

  function Write1(p: Primitives, s: Handshake, rnd: Randomness, payload: bytes): (Handshake, Outcome) {
    var e := p.DhPublic(rnd.ephemeral);
    var kem := KemSlot(p.KemPublic(rnd.kemSeed), p.KemSecret(rnd.kemSeed));
    var (sym, ct) := s.sym.MixHash(p, e).EncryptAndHash(p, kem.publicKey + payload);
    (s.(eSecret := Some(rnd.ephemeral), kem := Some(kem), sym := sym, msgIdx := 1), Ok(e + ct))
  }

  function Read1(p: Primitives, s: Handshake, coins: bytes, message: bytes): (Handshake, Outcome) {
    if |message| < 32 + MLKEM_PUBLIC_KEY_BYTES then (s, Err(TooShort)) else
    var s1 := s.(rePublic := Some(message[..32]), sym := s.sym.MixHash(p, message[..32]));
    match s1.sym.DecryptAndHash(p, message[32..])
    case None => (s1, Err(AeadFailed))
    case Some((sym, payload)) =>
      var s2 := s1.(sym := sym);
      if |payload| < MLKEM_PUBLIC_KEY_BYTES then (s2, Err(BadKem)) else
      match p.Encapsulate(payload[..MLKEM_PUBLIC_KEY_BYTES], coins)
      case None => (s2, Err(BadKem))
      case Some((ct, ss)) =>
        (s2.(kem := Some(KemSlot(ct, [])), shared := Some(ss), msgIdx := 1),
         Ok(payload[MLKEM_PUBLIC_KEY_BYTES..]))
  }

  function Write2(p: Primitives, s: Handshake, rnd: Randomness, payload: bytes): (Handshake, Outcome)
    requires s.rePublic.Some? && s.kem.Some?
  {
    var e := p.DhPublic(rnd.ephemeral);
    var s1 := s.(eSecret := Some(rnd.ephemeral), sym := s.sym.MixHash(p, e));
    match p.Dh(rnd.ephemeral, s.rePublic.value)
    case None => (s1, Err(DhFailed))
    case Some(ee) =>
      var (sym2, sCt) := s1.sym.MixKey(p, ee).EncryptAndHash(p, StaticPayload(p, s.identity));
      match p.Dh(s.identity.x25519Secret, s.rePublic.value)
      case None => (s1.(sym := sym2), Err(DhFailed))
      case Some(es) =>
        var (sym3, ct) := sym2.MixKey(p, es).EncryptAndHash(p, s.kem.value.publicKey + payload);
        (s1.(sym := sym3, msgIdx := 2), Ok(e + sCt + ct))
  }

  function Read2(p: Primitives, s: Handshake, message: bytes): (Handshake, Outcome)
    requires s.eSecret.Some? && s.kem.Some?
  {
    var re, sCt, rest := Take(message, 32), Take(Drop(message, 32), S_CT_BYTES), Drop(message, 32 + S_CT_BYTES);
    var s1 := s.(rePublic := Some(re), sym := s.sym.MixHash(p, re));
    match p.Dh(s.eSecret.value, re)
    case None => (s1, Err(DhFailed))
    case Some(ee) =>
      var s2 := s1.(sym := s1.sym.MixKey(p, ee));
      match s2.sym.DecryptAndHash(p, sCt)
      case None => (s2, Err(AeadFailed))
      case Some((sym3, sPayload)) =>
        var s3 := s2.(sym := sym3, rsPublic := Some(Take(sPayload, 32)), rsX25519 := Some(Take(Drop(sPayload, 32), 32)));
        Read2Payload(p, s3, rest)
  }

  /** Message 2 from the es token on. */
  function Read2Payload(p: Primitives, s: Handshake, rest: bytes): (Handshake, Outcome)
    requires s.eSecret.Some? && s.kem.Some? && s.rsX25519.Some?
  {
    match p.Dh(s.eSecret.value, s.rsX25519.value)
    case None => (s, Err(DhFailed))
    case Some(es) =>
      var s1 := s.(sym := s.sym.MixKey(p, es));
      match s1.sym.DecryptAndHash(p, rest)
      case None => (s1, Err(AeadFailed))
      case Some((sym2, payload)) =>
        var s2 := s1.(sym := sym2);
        if |payload| < MLKEM_CIPHERTEXT_BYTES then (s2, Err(BadKem)) else
        (s2.(shared := Some(p.Decapsulate(s.kem.value.secretKey, payload[..MLKEM_CIPHERTEXT_BYTES])), msgIdx := 2),
         Ok(payload[MLKEM_CIPHERTEXT_BYTES..]))
  }

  function Write3(p: Primitives, s: Handshake, payload: bytes): (Handshake, Outcome)
    requires s.rePublic.Some?
  {
    var (sym1, sCt) := s.sym.EncryptAndHash(p, StaticPayload(p, s.identity));
    match p.Dh(s.identity.x25519Secret, s.rePublic.value)
    case None => (s.(sym := sym1), Err(DhFailed))
    case Some(se) =>
      var (sym2, ct) := sym1.MixKey(p, se).EncryptAndHash(p, payload);
      (s.(sym := sym2, msgIdx := 3), Ok(sCt + ct))
  }

  function Read3(p: Primitives, s: Handshake, message: bytes): (Handshake, Outcome)
    requires s.eSecret.Some?
  {
    match s.sym.DecryptAndHash(p, Take(message, S_CT_BYTES))
    case None => (s, Err(AeadFailed))
    case Some((sym1, sPayload)) =>
      var s1 := s.(sym := sym1, rsPublic := Some(Take(sPayload, 32)), rsX25519 := Some(Take(Drop(sPayload, 32), 32)));
      match p.Dh(s.eSecret.value, s1.rsX25519.value)
      case None => (s1, Err(DhFailed))
      case Some(se) =>
        var s2 := s1.(sym := s1.sym.MixKey(p, se));
        match s2.sym.DecryptAndHash(p, Drop(message, S_CT_BYTES))
        case None => (s2, Err(AeadFailed))
        case Some((sym3, payload)) => (s2.(sym := sym3, msgIdx := 3), Ok(payload))
  }

  /** What the message index promises about the fields the next message needs. */
  predicate Ready(s: Handshake) {
    && s.msgIdx <= 3
    && (s.role == Initiator && s.msgIdx >= 1 ==> s.eSecret.Some? && s.kem.Some?)
    && (s.role == Initiator && s.msgIdx >= 2 ==> s.rePublic.Some? && s.shared.Some? && s.rsPublic.Some?)
    && (s.role == Responder && s.msgIdx >= 1 ==> s.rePublic.Some? && s.kem.Some? && s.shared.Some?)
    && (s.role == Responder && s.msgIdx >= 2 ==> s.eSecret.Some?)
    && (s.msgIdx == 3 ==> s.rsPublic.Some?)
  }

  function Write(p: Primitives, s: Handshake, rnd: Randomness, payload: bytes): (r: (Handshake, Outcome))
    requires Ready(s)
    ensures Ready(r.0) && r.0.role == s.role && r.0.identity == s.identity
    ensures r.1.Ok? <==> r.0.msgIdx == s.msgIdx + 1
  {
    if |payload| > MAX_HANDSHAKE_MSG_BYTES then (s, Err(TooLarge))
    else if s.role == Initiator && s.msgIdx == 0 then Write1(p, s, rnd, payload)
    else if s.role == Responder && s.msgIdx == 1 then Write2(p, s, rnd, payload)
    else if s.role == Initiator && s.msgIdx == 2 then Write3(p, s, payload)
    else (s, Err(OutOfState))
  }

  function Read(p: Primitives, s: Handshake, coins: bytes, message: bytes): (r: (Handshake, Outcome))
    requires Ready(s)
    ensures Ready(r.0) && r.0.role == s.role && r.0.identity == s.identity
    ensures r.1.Ok? <==> r.0.msgIdx == s.msgIdx + 1
  {
    if |message| > MAX_HANDSHAKE_MSG_BYTES + 256 then (s, Err(TooLarge))
    else if s.role == Responder && s.msgIdx == 0 then Read1(p, s, coins, message)
    else if s.role == Initiator && s.msgIdx == 1 then Read2(p, s, message)
    else if s.role == Responder && s.msgIdx == 2 then Read3(p, s, message)
    else (s, Err(OutOfState))
  }

  datatype Keys = Keys(sendKey: bytes, recvKey: bytes)

  function Split(p: Primitives, s: Handshake): Result<Keys, NoiseError> {
    if s.msgIdx != 3 || s.shared == None then Err(Incomplete) else
    var okm := p.Hkdf(s.sym.ck + s.shared.value, s.sym.h, Ascii(HKDF_INFO), 2 * CHAIN_KEY_BYTES);
    var k1, k2 := Take(okm, CHAIN_KEY_BYTES), Take(Drop(okm, CHAIN_KEY_BYTES), CHAIN_KEY_BYTES);
    if s.role == Initiator then Ok(Keys(k1, k2)) else Ok(Keys(k2, k1))
  }

  /** The five decimal digits of a number below 100000. */
  function Digits(n: nat, width: nat): (d: string)
    ensures |d| == width
  {
    if width == 0 then "" else Digits(n / 10, width - 1) + ["0123456789"[n % 10]]
  }

  function Sas(s: Handshake): Option<string> {
    if |s.sym.h| != 32 then None else Some(Digits(FromBigEndian(s.sym.h[..8]) % 100000, 5))
  }

  /** The handshake object. Each method does to its fields what the message function of the same
      name says, and fails with the same error. */
  class NoiseXxHandshake {
    const p: Primitives
    const role: Role
    const identity: Identity
    const state: NoiseState
    var msgIdx: nat
    var eSecret: Option<bytes>
    var rePublic: Option<bytes>
    var kem: Option<KemSlot>
    var shared: Option<bytes>
    var rsPublic: Option<bytes>
    var rsX25519: Option<bytes>

    ghost function View(): Handshake
      reads this, state
    {
      Handshake(role, identity, state.Value(), msgIdx, eSecret, rePublic, kem, shared, rsPublic, rsX25519)
    }

    ghost predicate Valid()
      reads this, state
    {
      state.p == p && Ready(View())
    }

    constructor (p: Primitives, role: Role, identity: Identity)
      ensures Valid() && fresh(state) && this.p == p && View() == Start(p, role, identity)
    {
      this.p, this.role, this.identity := p, role, identity;
      state := new NoiseState(p, p.Sha256(Ascii(PROTOCOL_NAME)));
      msgIdx, eSecret, rePublic, kem, shared, rsPublic, rsX25519 := 0, None, None, None, None, None, None;
    }

    method WriteMessage(rnd: Randomness, payload: bytes) returns (r: Outcome)
      requires Valid()
      modifies this, state
      ensures Valid() && (View(), r) == Write(p, old(View()), rnd, payload)
    {
      if |payload| > MAX_HANDSHAKE_MSG_BYTES { return Err(TooLarge); }
      if role == Initiator && msgIdx == 0 {
        r := WriteMsg1(rnd, payload);
      } else if role == Responder && msgIdx == 1 {
        r := WriteMsg2(rnd, payload);
      } else if role == Initiator && msgIdx == 2 {
        r := WriteMsg3(payload);
      } else {
        r := Err(OutOfState);
      }
    }

    method ReadMessage(coins: bytes, message: bytes) returns (r: Outcome)
      requires Valid()
      modifies this, state
      ensures Valid() && (View(), r) == Read(p, old(View()), coins, message)
    {
      if |message| > MAX_HANDSHAKE_MSG_BYTES + 256 { return Err(TooLarge); }
      if role == Responder && msgIdx == 0 {
        r := ReadMsg1(coins, message);
      } else if role == Initiator && msgIdx == 1 {
        r := ReadMsg2(message);
      } else if role == Responder && msgIdx == 2 {
        r := ReadMsg3(message);
      } else {
        r := Err(OutOfState);
      }
    }

    method WriteMsg1(rnd: Randomness, payload: bytes) returns (r: Outcome)
      requires state.p == p
      modifies this, state
      ensures (View(), r) == Write1(p, old(View()), rnd, payload)
    {
      eSecret := Some(rnd.ephemeral);
      var ePublic := p.DhPublic(rnd.ephemeral);
      state.MixHash(ePublic);
      kem := Some(KemSlot(p.KemPublic(rnd.kemSeed), p.KemSecret(rnd.kemSeed)));
      var hybridPayload := kem.value.publicKey + payload;
      var ct := state.EncryptAndHash(hybridPayload);
      msgIdx := 1;
      return Ok(ePublic + ct);
    }

    method ReadMsg1(coins: bytes, message: bytes) returns (r: Outcome)
      requires state.p == p
      modifies this, state
      ensures (View(), r) == Read1(p, old(View()), coins, message)
    {
      if |message| < 32 + MLKEM_PUBLIC_KEY_BYTES { return Err(TooShort); }
      rePublic := Some(message[..32]);
      state.MixHash(rePublic.value);
      var payload := state.DecryptAndHash(message[32..]);
      if payload == None { return Err(AeadFailed); }
      if |payload.value| < MLKEM_PUBLIC_KEY_BYTES { return Err(BadKem); }
      var encapsulated := p.Encapsulate(payload.value[..MLKEM_PUBLIC_KEY_BYTES], coins);
      if encapsulated == None { return Err(BadKem); }
      var (ciphertext, sharedSecret) := encapsulated.value;
      kem := Some(KemSlot(ciphertext, []));
      shared := Some(sharedSecret);
      msgIdx := 1;
      return Ok(payload.value[MLKEM_PUBLIC_KEY_BYTES..]);
    }

    method WriteMsg2(rnd: Randomness, payload: bytes) returns (r: Outcome)
      requires state.p == p && rePublic.Some? && kem.Some?
      modifies this, state
      ensures (View(), r) == Write2(p, old(View()), rnd, payload)
    {
      eSecret := Some(rnd.ephemeral);
      var ePublic := p.DhPublic(rnd.ephemeral);
      state.MixHash(ePublic);
      var ee := p.Dh(rnd.ephemeral, rePublic.value);
      if ee == None { return Err(DhFailed); }
      state.MixKey(ee.value);
      var sCt := state.EncryptAndHash(StaticPayload(p, identity));
      var es := p.Dh(identity.x25519Secret, rePublic.value);
      if es == None { return Err(DhFailed); }
      state.MixKey(es.value);
      var ct := state.EncryptAndHash(kem.value.publicKey + payload);
      msgIdx := 2;
      return Ok(ePublic + sCt + ct);
    }

    method ReadMsg2(message: bytes) returns (r: Outcome)
      requires state.p == p && eSecret.Some? && kem.Some?
      modifies this, state
      ensures (View(), r) == Read2(p, old(View()), message)
    {
      rePublic := Some(Take(message, 32));
      state.MixHash(rePublic.value);
      var ee := p.Dh(eSecret.value, rePublic.value);
      if ee == None { return Err(DhFailed); }
      state.MixKey(ee.value);
      var sPayload := state.DecryptAndHash(Take(Drop(message, 32), S_CT_BYTES));
      if sPayload == None { return Err(AeadFailed); }
      rsPublic := Some(Take(sPayload.value, 32));
      rsX25519 := Some(Take(Drop(sPayload.value, 32), 32));
      r := ReadMsg2Payload(Drop(message, 32 + S_CT_BYTES));
    }

    method ReadMsg2Payload(rest: bytes) returns (r: Outcome)
      requires state.p == p && eSecret.Some? && kem.Some? && rsX25519.Some?
      modifies this, state
      ensures (View(), r) == Read2Payload(p, old(View()), rest)
    {
      var es := p.Dh(eSecret.value, rsX25519.value);
      if es == None { return Err(DhFailed); }
      state.MixKey(es.value);
      var payload := state.DecryptAndHash(rest);
      if payload == None { return Err(AeadFailed); }
      if |payload.value| < MLKEM_CIPHERTEXT_BYTES { return Err(BadKem); }
      shared := Some(p.Decapsulate(kem.value.secretKey, payload.value[..MLKEM_CIPHERTEXT_BYTES]));
      msgIdx := 2;
      return Ok(payload.value[MLKEM_CIPHERTEXT_BYTES..]);
    }

    method WriteMsg3(payload: bytes) returns (r: Outcome)
      requires state.p == p && rePublic.Some?
      modifies this, state
      ensures (View(), r) == Write3(p, old(View()), payload)
    {
      var sCt := state.EncryptAndHash(StaticPayload(p, identity));
      var se := p.Dh(identity.x25519Secret, rePublic.value);
      if se == None { return Err(DhFailed); }
      state.MixKey(se.value);
      var ct := state.EncryptAndHash(payload);
      msgIdx := 3;
      return Ok(sCt + ct);
    }

    method ReadMsg3(message: bytes) returns (r: Outcome)
      requires state.p == p && eSecret.Some?
      modifies this, state
      ensures (View(), r) == Read3(p, old(View()), message)
    {
      var sPayload := state.DecryptAndHash(Take(message, S_CT_BYTES));
      if sPayload == None { return Err(AeadFailed); }
      rsPublic := Some(Take(sPayload.value, 32));
      rsX25519 := Some(Take(Drop(sPayload.value, 32), 32));
      var se := p.Dh(eSecret.value, rsX25519.value);
      if se == None { return Err(DhFailed); }
      state.MixKey(se.value);
      var payload := state.DecryptAndHash(Drop(message, S_CT_BYTES));
      if payload == None { return Err(AeadFailed); }
      msgIdx := 3;
      return Ok(payload.value);
    }
  }
}
