/** Symbolic primitives of the handshake, and the Noise symmetric state (Noise Protocol Framework,
    revision 34, sections 4.3 and 5.2) as the handshake uses it. */
module NoiseCrypto {
  import opened Basics

  const AEAD_KEY_BYTES := 16
  const TAG_LEN := 16
  const MLKEM_PUBLIC_KEY_BYTES := 1184
  const MLKEM_CIPHERTEXT_BYTES := 1088
  const PROTOCOL_NAME := "Noise_XX_25519_AESGCM_SHA256_OXPULSE_MESH_B2_V1"
  const HKDF_INFO := "oxpulse-mesh-b2-v1"

  /** Arbitrary primitives; a DH that yields the all-zero point, or gets a key of the wrong size,
      fails, and so does an encapsulation to a malformed ML-KEM key. An ML-KEM key pair is a function
      of its seed. */
  datatype Primitives = Primitives(
    sha256: bytes -> bytes,
    hmac: (bytes, bytes) -> bytes,
    hkdf: (bytes, bytes, bytes, nat) -> bytes,
    seal: (bytes, bytes, bytes, bytes) -> bytes,
    open: (bytes, bytes, bytes, bytes) -> Option<bytes>,
    dhPublic: bytes -> bytes,
    dh: (bytes, bytes) -> Option<bytes>,
    kemPublic: bytes -> bytes,
    kemSecret: bytes -> bytes,
    encapsulate: (bytes, bytes) -> Option<(bytes, bytes)>,
    decapsulate: (bytes, bytes) -> bytes)
  {
    function Sha256(x: bytes): bytes { sha256(x) }
    function Hmac(key: bytes, x: bytes): bytes { hmac(key, x) }
    function Hkdf(ikm: bytes, salt: bytes, info: bytes, length: nat): bytes { hkdf(ikm, salt, info, length) }
    function Seal(key: bytes, nonce: bytes, plaintext: bytes, ad: bytes): bytes { seal(key, nonce, plaintext, ad) }
    function Open(key: bytes, nonce: bytes, ciphertext: bytes, ad: bytes): Option<bytes> { open(key, nonce, ciphertext, ad) }
    function DhPublic(secret: bytes): bytes { dhPublic(secret) }
    function Dh(secret: bytes, public: bytes): Option<bytes> { dh(secret, public) }
    function KemPublic(seed: bytes): bytes { kemPublic(seed) }
    function KemSecret(seed: bytes): bytes { kemSecret(seed) }
    /** Ciphertext and shared secret. */
    function Encapsulate(public: bytes, coins: bytes): Option<(bytes, bytes)> { encapsulate(public, coins) }
    function Decapsulate(secret: bytes, ciphertext: bytes): bytes { decapsulate(secret, ciphertext) }
  }

  /** What is assumed of them: output sizes, opening what was sealed, DH commuting (section 6.1 of
      RFC 7748) between generated keys, and decapsulating what was encapsulated. */
  ghost predicate Sound(p: Primitives) {
    && (forall x :: |p.Sha256(x)| == 32)
    && (forall ikm, salt, info, n :: |p.Hkdf(ikm, salt, info, n)| == n)
    && (forall k, n, pt, ad :: |p.Seal(k, n, pt, ad)| == |pt| + TAG_LEN && p.Open(k, n, p.Seal(k, n, pt, ad), ad) == Some(pt))
    && (forall s :: |p.DhPublic(s)| == 32)
    && (forall s, t :: p.Dh(s, p.DhPublic(t)).Some? && p.Dh(s, p.DhPublic(t)) == p.Dh(t, p.DhPublic(s)))
    && (forall s :: |p.KemPublic(s)| == MLKEM_PUBLIC_KEY_BYTES)
    && (forall pk, c :: p.Encapsulate(pk, c).Some? ==>
          |p.Encapsulate(pk, c).value.0| == MLKEM_CIPHERTEXT_BYTES && |p.Encapsulate(pk, c).value.1| == 32)
    && (forall s, c :: p.Encapsulate(p.KemPublic(s), c).Some?)
    && (forall s, c :: var (ct, ss) := p.Encapsulate(p.KemPublic(s), c).value; p.Decapsulate(p.KemSecret(s), ct) == ss)
  }

  /** Uint8Array.slice clamps at the end of the array. */
  function Take(x: bytes, n: nat): bytes { if n <= |x| then x[..n] else x }

  function Drop(x: bytes, n: nat): bytes { if n <= |x| then x[n..] else [] }

  function Ascii(s: string): bytes { seq(|s|, i requires 0 <= i < |s| => (s[i] as int % 256) as byte) }

  /** T_i of the HKDF expansion: T_i = HMAC(prk, T_(i-1) || i). */
  function Block(p: Primitives, prk: bytes, i: nat): bytes {
    if i == 0 then [] else p.Hmac(prk, Block(p, prk, i - 1) + [(i % 256) as byte])
  }

  method HkdfExpand(p: Primitives, ck: bytes, input: bytes, n: nat) returns (out: seq<bytes>)
    requires n == 2 || n == 3
    ensures |out| == n
    ensures forall i | 0 <= i < n :: out[i] == Block(p, p.Hmac(ck, input), i + 1)
  {
    var prk := p.Hmac(ck, input);
    var prev: bytes := [];
    out := [];
    for i := 1 to n + 1
      invariant |out| == i - 1 && prev == Block(p, prk, i - 1)
      invariant forall j | 0 <= j < i - 1 :: out[j] == Block(p, prk, j + 1)
    {
      prev := p.Hmac(prk, prev + [i as byte]);
      out := out + [prev];
    }
  }

  function NonceBytes(n: nat): bytes { [0, 0, 0, 0] + BigEndian(n, 8) }

  /** The symmetric state as a value: chaining key, handshake hash, cipher key, cipher nonce. */
  datatype Sym = Sym(ck: bytes, h: bytes, k: Option<bytes>, n: nat) {
    function MixHash(p: Primitives, data: bytes): Sym {
      this.(h := p.Sha256(h + data))
    }

    function MixKey(p: Primitives, ikm: bytes): Sym {
      var prk := p.Hmac(ck, ikm);
      this.(ck := Block(p, prk, 1), k := Some(Take(Block(p, prk, 2), AEAD_KEY_BYTES)), n := 0)
    }

    /** Before the first MixKey the text passes through in the clear. */
    function EncryptAndHash(p: Primitives, plaintext: bytes): (Sym, bytes) {
      match k
      case None => (MixHash(p, plaintext), plaintext)
      case Some(key) =>
        var ct := p.Seal(key, NonceBytes(n), plaintext, h);
        (this.(n := n + 1).MixHash(p, ct), ct)
    }

    /** None: the AEAD rejected, and this call mixed nothing. */
    function DecryptAndHash(p: Primitives, ciphertext: bytes): Option<(Sym, bytes)> {
      match k
      case None => Some((MixHash(p, ciphertext), ciphertext))
      case Some(key) =>
        match p.Open(key, NonceBytes(n), ciphertext, h)
        case None => None
        case Some(pt) => Some((this.(n := n + 1).MixHash(p, ciphertext), pt))
    }
  }

  /** A receiver in the same symmetric state recovers the plaintext and stays in the same state. */
  lemma DecryptsInStep(p: Primitives, s: Sym, plaintext: bytes)
    requires Sound(p)
    ensures var (s', ct) := s.EncryptAndHash(p, plaintext);
            && s.DecryptAndHash(p, ct) == Some((s', plaintext))
            && |ct| == |plaintext| + if s.k.Some? then TAG_LEN else 0
  {}

  /** The mutable NoiseState object of the handshake. */
  class NoiseState {
    const p: Primitives
    var ck: bytes
    var h: bytes
    var k: Option<bytes>
    var n: nat

    function Value(): Sym
      reads this
    {
      Sym(ck, h, k, n)
    }

    constructor (p: Primitives, protoHash: bytes)
      ensures this.p == p && Value() == Sym(protoHash, protoHash, None, 0)
    {
      this.p, ck, h, k, n := p, protoHash, protoHash, None, 0;
    }

    method MixHash(data: bytes)
      modifies this
      ensures Value() == old(Value()).MixHash(p, data)
    {
      h := p.Sha256(h + data);
    }

    method MixKey(ikm: bytes)
      modifies this
      ensures Value() == old(Value()).MixKey(p, ikm)
    {
      var out := HkdfExpand(p, ck, ikm, 2);
      ck := out[0];
      k := Some(Take(out[1], AEAD_KEY_BYTES));
      n := 0;
    }

    method EncryptAndHash(plaintext: bytes) returns (ct: bytes)
      modifies this
      ensures (Value(), ct) == old(Value()).EncryptAndHash(p, plaintext)
    {
      if k == None {
        MixHash(plaintext);
        return plaintext;
      }
      ct := p.Seal(k.value, NonceBytes(n), plaintext, h);
      n := n + 1;
      MixHash(ct);
    }

    method DecryptAndHash(ciphertext: bytes) returns (r: Option<bytes>)
      modifies this
      ensures match old(Value()).DecryptAndHash(p, ciphertext)
              case None => r == None && Value() == old(Value())
              case Some((s', pt)) => r == Some(pt) && Value() == s'
    {
      if k == None {
        MixHash(ciphertext);
        return Some(ciphertext);
      }
      r := p.Open(k.value, NonceBytes(n), ciphertext, h);
      if r == None { return; }
      n := n + 1;
      MixHash(ciphertext);
    }
  }

  /** A degenerate instance: keys are ignored and shared secrets constant. */
  function Degenerate(): Primitives {
    Primitives(
      (x: bytes) => Zeros(32),
      (k: bytes, x: bytes) => k + x,
      (ikm: bytes, salt: bytes, info: bytes, n: nat) => Zeros(n),
      (k: bytes, n: bytes, pt: bytes, ad: bytes) => pt + Zeros(TAG_LEN),
      (k: bytes, n: bytes, ct: bytes, ad: bytes) => if |ct| < TAG_LEN then None else Some(ct[..|ct| - TAG_LEN]),
      (s: bytes) => Zeros(32),
      (s: bytes, pub: bytes) => Some(pub),
      (s: bytes) => Zeros(MLKEM_PUBLIC_KEY_BYTES),
      (s: bytes) => s,
      (pk: bytes, c: bytes) => Some((Zeros(MLKEM_CIPHERTEXT_BYTES), Zeros(32))),
      (s: bytes, ct: bytes) => Zeros(32))
  }

  /** What is assumed of the primitives can be met. */
  lemma PrimitivesExist()
    ensures exists p :: Sound(p)
  {
    var p := Degenerate();
    forall k, n, pt, ad ensures p.Open(k, n, p.Seal(k, n, pt, ad), ad) == Some(pt) {
      assert p.Seal(k, n, pt, ad)[..|pt|] == pt;
    }
    forall s, t ensures p.Dh(s, p.DhPublic(t)) == p.Dh(t, p.DhPublic(s)) {
      assert p.DhPublic(s) == p.DhPublic(t);
    }
    forall s, t ensures p.Dh(s, p.DhPublic(t)).Some? {}
    forall s, c ensures p.Encapsulate(p.KemPublic(s), c).Some? {}
    forall s, c ensures var (ct, ss) := p.Encapsulate(p.KemPublic(s), c).value; p.Decapsulate(p.KemSecret(s), ct) == ss {}
    forall s ensures |p.KemPublic(s)| == MLKEM_PUBLIC_KEY_BYTES {}
    forall pk, c ensures |p.Encapsulate(pk, c).value.0| == MLKEM_CIPHERTEXT_BYTES && |p.Encapsulate(pk, c).value.1| == 32 {}
    assert Sound(p);
  }
}
