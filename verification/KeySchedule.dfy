/** The symbolic primitives of the per-frame ratchet, the key schedule they generate, and the
    frames a sender writes. The primitives are arbitrary functions; what is assumed of them is
    stated where it is used. */
module KeySchedule {
  import opened Basics

  /** HKDF with the two info strings, and AES-128-GCM with (key, nonce, additional data, text). */
  datatype Suite = Suite(
    frameKey: bytes -> bytes,
    ratchet: bytes -> bytes,
    seal: (bytes, bytes, bytes, bytes) -> bytes,
    open: (bytes, bytes, bytes, bytes) -> Option<bytes>)
  {
    function DeriveFrameKey(chainKey: bytes): bytes { frameKey(chainKey) }

    function RatchetChain(chainKey: bytes): bytes { ratchet(chainKey) }

    function Seal(key: bytes, nonce: bytes, ad: bytes, plaintext: bytes): bytes { seal(key, nonce, ad, plaintext) }

    function Open(key: bytes, nonce: bytes, ad: bytes, ciphertext: bytes): Option<bytes> {
      open(key, nonce, ad, ciphertext)
    }
  }

  const TAG_LEN := 16
  const CHAIN_KEY_BYTES := 32

  /** AES-GCM appends a 16-byte tag and opens what it sealed. */
  ghost predicate OpensWhatItSealed(suite: Suite) {
    && (forall k, n, ad, p :: |suite.Seal(k, n, ad, p)| == |p| + TAG_LEN)
    && (forall k, n, ad, p :: suite.Open(k, n, ad, suite.Seal(k, n, ad, p)) == Some(p))
  }

  datatype Direction = Initiator | Responder {
    function Opposite(): Direction {
      if this == Initiator then Responder else Initiator
    }
  }

  /** The chain key after `i` HKDF steps. */
  function ChainAt(suite: Suite, initial: bytes, i: nat): bytes {
    if i == 0 then initial else suite.RatchetChain(ChainAt(suite, initial, i - 1))
  }

  function FrameKeyAt(suite: Suite, initial: bytes, i: nat): bytes {
    suite.DeriveFrameKey(ChainAt(suite, initial, i))
  }

  /** A 12-byte nonce: the direction byte, three zeros, the counter. */
  function MakeNonce(direction: Direction, counter: nat): (nonce: bytes)
    ensures |nonce| == 12
  {
    [if direction == Initiator then 0 else 1, 0, 0, 0] + BigEndian(counter, 8)
  }

  /** What a sender on chain `initial` puts on the wire as its frame number `counter`. */
  function WireFrame(suite: Suite, initial: bytes, direction: Direction,
                     counter: nat, plaintext: bytes, ad: bytes): bytes
  {
    BigEndian(counter, 8)
    + suite.Seal(FrameKeyAt(suite, initial, counter), MakeNonce(direction, counter), ad, plaintext)
  }

  /** What is assumed of the AEAD can be met. */
  lemma SuitesExist()
    ensures exists suite :: OpensWhatItSealed(suite)
  {
    var suite := Suite(
      (c: bytes) => c, (c: bytes) => c,
      (k: bytes, n: bytes, ad: bytes, p: bytes) => p + Zeros(TAG_LEN),
      (k: bytes, n: bytes, ad: bytes, c: bytes) => if |c| < TAG_LEN then None else Some(c[..|c| - TAG_LEN]));
    forall k, n, ad, p ensures suite.Open(k, n, ad, suite.Seal(k, n, ad, p)) == Some(p) {
      assert suite.Seal(k, n, ad, p)[..|p|] == p;
    }
    assert OpensWhatItSealed(suite);
  }
}
