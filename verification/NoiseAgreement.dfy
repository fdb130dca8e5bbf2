/** What two honest handshakes agree on, over an honest and over an arbitrary network. */
module NoiseAgreement {
  import opened Basics
  import opened NoiseCrypto
  import opened NoiseXx

  /** Two honest parties and everything they draw and say. */
  datatype Parties = Parties(
    p: Primitives, a: Identity, b: Identity, ra: Randomness, rb: Randomness, coins: bytes,
    payload1: bytes, payload2: bytes, payload3: bytes)
  {
    ghost predicate Honest() {
      Sound(p) && |a.ed25519| == 32 && |b.ed25519| == 32
    }

    function A0(): Handshake { Start(p, Initiator, a) }
    function B0(): Handshake { Start(p, Responder, b) }

    /** To a generated key, encapsulation does not fail. */
    function Encapsulated(): (bytes, bytes) {
      var encapsulated := p.Encapsulate(p.KemPublic(ra.kemSeed), coins);
      if encapsulated.Some? then encapsulated.value else ([], [])
    }
  }

  /** The initiator between writing message 1 and reading message 2. */
  ghost predicate AwaitsMessage2(q: Parties, s: Handshake) {
    && s.role == Initiator && s.identity == q.a && s.msgIdx == 1 && s.eSecret == Some(q.ra.ephemeral)
    && s.kem == Some(KemSlot(q.p.KemPublic(q.ra.kemSeed), q.p.KemSecret(q.ra.kemSeed)))
  }

  /** The responder between reading message 1 and writing message 2. */
  ghost predicate OwesMessage2(q: Parties, s: Handshake) {
    && s.role == Responder && s.identity == q.b && s.msgIdx == 1 && s.rePublic == Some(q.p.DhPublic(q.ra.ephemeral))
    && s.kem == Some(KemSlot(q.Encapsulated().0, [])) && s.shared == Some(q.Encapsulated().1)
  }

  /** Message 1 is read as it was written when its payload has at most 540 bytes; a longer one,
      which can still be written up to 1500, is refused and leaves the responder untouched. */
  lemma Message1(q: Parties)
    requires q.Honest() && |q.payload1| <= MAX_HANDSHAKE_MSG_BYTES
    ensures var (s, m) := Write(q.p, q.A0(), q.ra, q.payload1);
            && m.Ok? && AwaitsMessage2(q, s)
            && var (t, r) := Read(q.p, q.B0(), q.coins, m.value);
               if |q.payload1| <= 540 then r == Ok(q.payload1) && OwesMessage2(q, t) && t.sym == s.sym
               else r == Err(TooLarge) && t == q.B0()
  {
    var e, pk := q.p.DhPublic(q.ra.ephemeral), q.p.KemPublic(q.ra.kemSeed);
    var m := e + (pk + q.payload1);
    assert m[..32] == e && m[32..] == pk + q.payload1;
    assert (pk + q.payload1)[..MLKEM_PUBLIC_KEY_BYTES] == pk;
    assert (pk + q.payload1)[MLKEM_PUBLIC_KEY_BYTES..] == q.payload1;
  }

  lemma StaticPayloadParts(p: Primitives, id: Identity)
    requires Sound(p) && |id.ed25519| == 32
    ensures |StaticPayload(p, id)| == 64
    ensures Take(StaticPayload(p, id), 32) == id.ed25519
    ensures Take(Drop(StaticPayload(p, id), 32), 32) == p.DhPublic(id.x25519Secret)
  {}

  /** Both ends after message 2. */
  ghost predicate AfterMessage2(q: Parties, s: Handshake, t: Handshake) {
    && Ready(s) && Ready(t)
    && t.role == Responder && s.role == Initiator && s.identity == q.a && t.identity == q.b
    && t.sym == s.sym && t.msgIdx == 2 && s.msgIdx == 2 && s.sym.k.Some?
    && t.shared == s.shared == Some(q.Encapsulated().1)
    && t.eSecret == Some(q.rb.ephemeral) && s.rePublic == Some(q.p.DhPublic(q.rb.ephemeral))
    && s.rsPublic == Some(q.b.ed25519) && s.rsX25519 == Some(q.p.DhPublic(q.b.x25519Secret))
  }

  lemma Message2(q: Parties, s: Handshake, t: Handshake)
    requires q.Honest() && |q.payload2| <= MAX_HANDSHAKE_MSG_BYTES
    requires AwaitsMessage2(q, s) && OwesMessage2(q, t) && s.sym == t.sym
    ensures var (t', m) := Write(q.p, t, q.rb, q.payload2);
            && m.Ok?
            && var (s', r) := Read(q.p, s, [], m.value);
               if |q.payload2| <= 540 then r == Ok(q.payload2) && AfterMessage2(q, s', t')
               else r == Err(TooLarge) && s' == s
  {
    var p, e := q.p, q.p.DhPublic(q.rb.ephemeral);
    StaticPayloadParts(p, q.b);
    var ee := p.Dh(q.rb.ephemeral, t.rePublic.value);
    var sym1 := t.sym.MixHash(p, e).MixKey(p, ee.value);
    var (sym2, sCt) := sym1.EncryptAndHash(p, StaticPayload(p, q.b));
    DecryptsInStep(p, sym1, StaticPayload(p, q.b));
    var es := p.Dh(q.b.x25519Secret, t.rePublic.value);
    var hybrid := q.Encapsulated().0 + q.payload2;
    var (sym3, ct) := sym2.MixKey(p, es.value).EncryptAndHash(p, hybrid);
    DecryptsInStep(p, sym2.MixKey(p, es.value), hybrid);
    var m := e + sCt + ct;
    assert Write2(p, t, q.rb, q.payload2).1 == Ok(m);
    assert Take(m, 32) == e && Take(Drop(m, 32), S_CT_BYTES) == sCt && Drop(m, 32 + S_CT_BYTES) == ct;
    assert hybrid[..MLKEM_CIPHERTEXT_BYTES] == q.Encapsulated().0 && hybrid[MLKEM_CIPHERTEXT_BYTES..] == q.payload2;
  }

  /** The initiator and the responder at the end: same hash, chaining key, cipher state and ML-KEM
      secret, crossed session keys, the same SAS, and each knows the other's static keys. */
  ghost predicate Agree(p: Primitives, s: Handshake, t: Handshake) {
    && s.msgIdx == t.msgIdx == 3 && s.sym == t.sym && s.shared == t.shared && s.shared.Some?
    && Split(p, s).Ok? && Split(p, t).Ok?
    && Split(p, s).value.sendKey == Split(p, t).value.recvKey
    && Split(p, s).value.recvKey == Split(p, t).value.sendKey
    && |Split(p, s).value.sendKey| == |Split(p, s).value.recvKey| == CHAIN_KEY_BYTES
    && Sas(s).Some? && Sas(s) == Sas(t)
    && s.rsPublic == Some(t.identity.ed25519) && s.rsX25519 == Some(p.DhPublic(t.identity.x25519Secret))
    && t.rsPublic == Some(s.identity.ed25519) && t.rsX25519 == Some(p.DhPublic(s.identity.x25519Secret))
  }

  lemma Message3(q: Parties, s: Handshake, t: Handshake)
    requires q.Honest() && |q.payload3| <= MAX_HANDSHAKE_MSG_BYTES && AfterMessage2(q, s, t)
    ensures var (s', m) := Write(q.p, s, q.ra, q.payload3);
            && m.Ok?
            && var (t', r) := Read(q.p, t, [], m.value);
               r == Ok(q.payload3) && Agree(q.p, s', t')
  {
    var p := q.p;
    StaticPayloadParts(p, q.a);
    var (sym1, sCt) := s.sym.EncryptAndHash(p, StaticPayload(p, q.a));
    DecryptsInStep(p, s.sym, StaticPayload(p, q.a));
    var se := p.Dh(q.a.x25519Secret, s.rePublic.value);
    var (sym2, ct) := sym1.MixKey(p, se.value).EncryptAndHash(p, q.payload3);
    DecryptsInStep(p, sym1.MixKey(p, se.value), q.payload3);
    assert Take(sCt + ct, S_CT_BYTES) == sCt && Drop(sCt + ct, S_CT_BYTES) == ct;
  }

  /** The three messages as each party produced or received them, on whatever network. */
  datatype Wire = Wire(m1: bytes, m2: bytes, m3: bytes)

  /** The initiator's run: it writes message 1, reads `m2`, writes message 3. */
  function InitiatorRun(q: Parties, m2: bytes): Result<(Handshake, Wire, bytes), NoiseError> {
    var (s1, m1) := Write(q.p, q.A0(), q.ra, q.payload1);
    if m1.Err? then Err(m1.error) else
    var (s2, r2) := Read(q.p, s1, [], m2);
    if r2.Err? then Err(r2.error) else
    var (s3, m3) := Write(q.p, s2, q.ra, q.payload3);
    if m3.Err? then Err(m3.error) else Ok((s3, Wire(m1.value, m2, m3.value), r2.value))
  }

  /** The responder's run: it reads `m1`, writes message 2, reads `m3`. */
  function ResponderRun(q: Parties, m1: bytes, m3: bytes): Result<(Handshake, Wire, (bytes, bytes)), NoiseError> {
    var (t1, r1) := Read(q.p, q.B0(), q.coins, m1);
    if r1.Err? then Err(r1.error) else
    var (t2, m2) := Write(q.p, t1, q.rb, q.payload2);
    if m2.Err? then Err(m2.error) else
    var (t3, r3) := Read(q.p, t2, [], m3);
    if r3.Err? then Err(r3.error) else Ok((t3, Wire(m1, m2.value, m3), (r1.value, r3.value)))
  }

  /** Each message that arrives is the one the other party wrote. */
  ghost predicate Faithful(q: Parties, w: Wire) {
    && Write(q.p, q.A0(), q.ra, q.payload1).1 == Ok(w.m1)
    && Write(q.p, Read(q.p, q.B0(), q.coins, w.m1).0, q.rb, q.payload2).1 == Ok(w.m2)
    && Write(q.p, Read(q.p, Write(q.p, q.A0(), q.ra, q.payload1).0, [], w.m2).0, q.ra, q.payload3).1 == Ok(w.m3)
  }

  /** Both parties finish, every payload arrives, and the two ends agree. */
  ghost predicate Succeeds(q: Parties, w: Wire) {
    && InitiatorRun(q, w.m2).Ok? && ResponderRun(q, w.m1, w.m3).Ok?
    && InitiatorRun(q, w.m2).value.1 == w == ResponderRun(q, w.m1, w.m3).value.1
    && InitiatorRun(q, w.m2).value.2 == q.payload2
    && ResponderRun(q, w.m1, w.m3).value.2 == (q.payload1, q.payload3)
    && Agree(q.p, InitiatorRun(q, w.m2).value.0, ResponderRun(q, w.m1, w.m3).value.0)
  }

  /** Over an honest network the handshake succeeds for all payloads that fit. */
  lemma HonestHandshakeSucceeds(q: Parties) returns (w: Wire)
    requires q.Honest() && |q.payload1| <= 540 && |q.payload2| <= 540 && |q.payload3| <= MAX_HANDSHAKE_MSG_BYTES
    ensures Faithful(q, w) && Succeeds(q, w)
  {
    Message1(q);
    var (s1, m1) := Write(q.p, q.A0(), q.ra, q.payload1);
    var t1 := Read(q.p, q.B0(), q.coins, m1.value).0;
    Message2(q, s1, t1);
    var (t2, m2) := Write(q.p, t1, q.rb, q.payload2);
    var s2 := Read(q.p, s1, [], m2.value).0;
    Message3(q, s2, t2);
    w := Wire(m1.value, m2.value, Write(q.p, s2, q.ra, q.payload3).1.value);
  }

  // ----- The handshake hash binds the transcript. -----

  /** The hash after mixing in `pieces` one by one, starting from `h`. */
  function HashChain(p: Primitives, h: bytes, pieces: seq<bytes>): bytes {
    if pieces == [] then h
    else p.Sha256(HashChain(p, h, pieces[..|pieces| - 1]) + pieces[|pieces| - 1])
  }

  /** The string hashed when piece `i` is mixed in. */
  function HashInput(p: Primitives, h: bytes, pieces: seq<bytes>, i: nat): bytes
    requires i < |pieces|
  {
    HashChain(p, h, pieces[..i]) + pieces[i]
  }

  /** The i-th hashed strings of two transcripts are different and hash to the same value. */
  ghost predicate CollidesAt(p: Primitives, h: bytes, xs: seq<bytes>, ys: seq<bytes>, i: nat)
    requires |xs| == |ys|
  {
    i < |xs| && HashInput(p, h, xs, i) != HashInput(p, h, ys, i)
    && p.Sha256(HashInput(p, h, xs, i)) == p.Sha256(HashInput(p, h, ys, i))
  }

  lemma {:induction false} EqualHashesBind(p: Primitives, h: bytes, xs: seq<bytes>, ys: seq<bytes>)
    requires Sound(p) && |h| == 32 && |xs| == |ys| && HashChain(p, h, xs) == HashChain(p, h, ys)
    ensures xs == ys || exists i: nat :: CollidesAt(p, h, xs, ys, i)
  {
    if xs != [] {
      var n := |xs| - 1;
      assert xs == xs[..n] + [xs[n]] && ys == ys[..n] + [ys[n]];
      var hx, hy := HashChain(p, h, xs[..n]), HashChain(p, h, ys[..n]);
      if hx + xs[n] != hy + ys[n] {
        assert CollidesAt(p, h, xs, ys, n);
      } else {
        assert |hx| == |hy| == 32;
        assert hx == (hx + xs[n])[..32] && hy == (hy + ys[n])[..32];
        assert xs[n] == (hx + xs[n])[32..] && ys[n] == (hy + ys[n])[32..];
        EqualHashesBind(p, h, xs[..n], ys[..n]);
        if i: nat :| CollidesAt(p, h, xs[..n], ys[..n], i) {
          assert xs[..n][..i] == xs[..i] && ys[..n][..i] == ys[..i];
          assert CollidesAt(p, h, xs, ys, i);
        }
      }
    }
  }

  /** The seven strings a complete transcript mixes into the hash. */
  function Pieces(w: Wire): (pieces: seq<bytes>)
    ensures |pieces| == 7
    ensures pieces[0] + pieces[1] == w.m1 && pieces[2] + pieces[3] + pieces[4] == w.m2 && pieces[5] + pieces[6] == w.m3
  {
    [Take(w.m1, 32), Drop(w.m1, 32),
     Take(w.m2, 32), Take(Drop(w.m2, 32), S_CT_BYTES), Drop(w.m2, 32 + S_CT_BYTES),
     Take(w.m3, S_CT_BYTES), Drop(w.m3, S_CT_BYTES)]
  }

  function ProtocolHash(p: Primitives): bytes { p.Sha256(Ascii(PROTOCOL_NAME)) }

  /** The chain over seven pieces, written out. */
  lemma ChainOfSeven(p: Primitives, h: bytes, s: seq<bytes>)
    requires |s| == 7
    ensures var h3 := p.Sha256(p.Sha256(p.Sha256(h + s[0]) + s[1]) + s[2]);
            HashChain(p, h, s) == p.Sha256(p.Sha256(p.Sha256(p.Sha256(h3 + s[3]) + s[4]) + s[5]) + s[6])
  {
    assert s[..6][..5] == s[..5] && s[..5][..4] == s[..4] && s[..4][..3] == s[..3];
    assert s[..3][..2] == s[..2] && s[..2][..1] == s[..1] && s[..1][..0] == [];
    assert HashChain(p, h, s[..1]) == p.Sha256(h + s[0]);
    assert HashChain(p, h, s[..3]) == p.Sha256(p.Sha256(p.Sha256(h + s[0]) + s[1]) + s[2]);
    assert HashChain(p, h, s[..5]) == p.Sha256(p.Sha256(HashChain(p, h, s[..3]) + s[3]) + s[4]);
  }

  lemma InitiatorHash(q: Parties, m2: bytes)
    requires q.Honest() && InitiatorRun(q, m2).Ok?
    ensures InitiatorRun(q, m2).value.0.sym.h
         == HashChain(q.p, ProtocolHash(q.p), Pieces(InitiatorRun(q, m2).value.1))
  {
    var w := InitiatorRun(q, m2).value.1;
    var pieces := Pieces(w);
    ChainOfSeven(q.p, ProtocolHash(q.p), pieces);
    var s1 := Write(q.p, q.A0(), q.ra, q.payload1).0;
    var h2 := q.p.Sha256(q.p.Sha256(ProtocolHash(q.p) + pieces[0]) + pieces[1]);
    assert s1.sym.h == h2 by {
      var e, pk := q.p.DhPublic(q.ra.ephemeral), q.p.KemPublic(q.ra.kemSeed);
      assert w.m1[..32] == e && w.m1[32..] == pk + q.payload1;
    }
    var s2 := Read(q.p, s1, [], m2).0;
    var h5 := q.p.Sha256(q.p.Sha256(q.p.Sha256(h2 + pieces[2]) + pieces[3]) + pieces[4]);
    assert s2.sym.h == h5;
    StaticPayloadParts(q.p, q.a);
    assert s2.sym.k.Some? && s2.identity == q.a;
    var (sym1, sCt) := s2.sym.EncryptAndHash(q.p, StaticPayload(q.p, q.a));
    DecryptsInStep(q.p, s2.sym, StaticPayload(q.p, q.a));
    assert w.m3[..S_CT_BYTES] == sCt;
  }

  lemma ResponderHash(q: Parties, m1: bytes, m3: bytes)
    requires q.Honest() && ResponderRun(q, m1, m3).Ok?
    ensures ResponderRun(q, m1, m3).value.0.sym.h
         == HashChain(q.p, ProtocolHash(q.p), Pieces(ResponderRun(q, m1, m3).value.1))
  {
    var w := ResponderRun(q, m1, m3).value.1;
    var pieces := Pieces(w);
    ChainOfSeven(q.p, ProtocolHash(q.p), pieces);
    var t1 := Read(q.p, q.B0(), q.coins, m1).0;
    var h2 := q.p.Sha256(q.p.Sha256(ProtocolHash(q.p) + pieces[0]) + pieces[1]);
    assert t1.sym.h == h2;
    var t2 := Write(q.p, t1, q.rb, q.payload2).0;
    var h5 := q.p.Sha256(q.p.Sha256(q.p.Sha256(h2 + pieces[2]) + pieces[3]) + pieces[4]);
    assert t2.sym.h == h5 by {
      var p, e := q.p, q.p.DhPublic(q.rb.ephemeral);
      StaticPayloadParts(p, q.b);
      var sym1 := t1.sym.MixHash(p, e).MixKey(p, p.Dh(q.rb.ephemeral, t1.rePublic.value).value);
      var sCt := sym1.EncryptAndHash(p, StaticPayload(p, q.b)).1;
      DecryptsInStep(p, sym1, StaticPayload(p, q.b));
      assert w.m2[..32] == e && w.m2[32..][..S_CT_BYTES] == sCt;
    }
  }

  /** Over an arbitrary network: when both honest parties finish and their handshake hashes (which
      the spoken SAS abbreviates) are equal, every message arrived unaltered, every payload is the
      one sent, and both ends agree - unless two strings hashed at the same place of the two
      transcripts are a SHA-256 collision. */
  lemma EqualHashMeansAgreement(q: Parties, m1: bytes, m2: bytes, m3: bytes)
    requires q.Honest() && InitiatorRun(q, m2).Ok? && ResponderRun(q, m1, m3).Ok?
    requires InitiatorRun(q, m2).value.0.sym.h == ResponderRun(q, m1, m3).value.0.sym.h
    ensures || (Faithful(q, Wire(m1, m2, m3)) && Succeeds(q, Wire(m1, m2, m3)))
            || exists i: nat :: CollidesAt(q.p, ProtocolHash(q.p), Pieces(InitiatorRun(q, m2).value.1),
                                           Pieces(ResponderRun(q, m1, m3).value.1), i)
  {
    var wa, wb := InitiatorRun(q, m2).value.1, ResponderRun(q, m1, m3).value.1;
    InitiatorHash(q, m2);
    ResponderHash(q, m1, m3);
    EqualHashesBind(q.p, ProtocolHash(q.p), Pieces(wa), Pieces(wb));
    if Pieces(wa) == Pieces(wb) {
      assert wa == wb == Wire(m1, m2, m3);
      UnalteredIsAgreed(q, Wire(m1, m2, m3));
    }
  }

  /** Two finished runs over the same three messages are the honest handshake. */
  lemma UnalteredIsAgreed(q: Parties, w: Wire)
    requires q.Honest() && InitiatorRun(q, w.m2).Ok? && ResponderRun(q, w.m1, w.m3).Ok?
    requires InitiatorRun(q, w.m2).value.1 == w == ResponderRun(q, w.m1, w.m3).value.1
    ensures Faithful(q, w) && Succeeds(q, w)
  {
    Message1(q);
    var s1, t1 := Write(q.p, q.A0(), q.ra, q.payload1).0, Read(q.p, q.B0(), q.coins, w.m1).0;
    Message2(q, s1, t1);
    Message3(q, Read(q.p, s1, [], w.m2).0, Write(q.p, t1, q.rb, q.payload2).0);
  }
}
