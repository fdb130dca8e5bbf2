/** Per-frame AEAD with a ratcheted key: the sending and receiving halves of a session, one decrypt
    being one step. */
module Ratchet {
  import opened Basics
  import opened KeySchedule
  import opened KeyCache
  import opened Replay

  datatype RatchetError = BadKeyLength | TooShort | ReplayRejected | KeyUnavailable | AeadFailed

  /** What the receiving half is fixed to: its chain, the counter the chain starts at, the peer's direction. */
  datatype Peer = Peer(suite: Suite, initial: bytes, start: nat, direction: Direction)

  /** What the receiving half remembers: the counters delivered and the newest key derived. */
  datatype RecvState = RecvState(delivered: set<int>, highestDerived: int)

  /** The oldest counter whose key is retained once `delivered` has been decrypted. */
  ghost predicate IsLowest(peer: Peer, delivered: set<int>, low: int) {
    && peer.start <= low
    && (forall d | d in delivered :: d - RECV_WINDOW_SIZE < low)
    && (low == peer.start || low + RECV_WINDOW_SIZE - 1 in delivered)
  }

  /** Whether a frame of this counter can be decrypted: never delivered, at most 63 behind every
      delivered counter, and at most 16 past the newest derived key. */
  predicate Deliverable(peer: Peer, state: RecvState, counter: nat) {
    Acceptable(state.delivered, counter) && peer.start <= counter <= state.highestDerived + 2 * RECV_LOOKAHEAD
  }

  function FrameKeyFor(peer: Peer, counter: int): bytes
    requires counter >= peer.start
  {
    FrameKeyAt(peer.suite, peer.initial, counter - peer.start)
  }

  function Ahead(state: RecvState, counter: int): RecvState {
    state.(highestDerived := Max(state.highestDerived, counter + RECV_LOOKAHEAD))
  }

  /** The whole effect of decrypting one wire frame. */
  function Receive(peer: Peer, state: RecvState, wire: bytes, ad: bytes): (RecvState, Result<bytes, RatchetError>) {
    if |wire| < 8 + TAG_LEN then (state, Err(TooShort)) else
    var counter := FromBigEndian(wire[..8]);
    if !Acceptable(state.delivered, counter) then (state, Err(ReplayRejected))
    else ReceiveAcceptable(peer, state, counter, wire, ad)
  }

  /** What the replay window lets through. */
  function ReceiveAcceptable(peer: Peer, state: RecvState, counter: nat, wire: bytes, ad: bytes): (RecvState, Result<bytes, RatchetError>)
    requires |wire| >= 8
  {
    if !Deliverable(peer, state, counter) then (state, Err(KeyUnavailable)) else
    match peer.suite.Open(FrameKeyFor(peer, counter), MakeNonce(peer.direction, counter), ad, wire[8..])
    case None => (if counter > state.highestDerived then Ahead(state, counter) else state, Err(AeadFailed))
    case Some(plaintext) => (Ahead(state.(delivered := state.delivered + {counter}), counter), Ok(plaintext))
  }

  lemma LowestCoversTheWindow(peer: Peer, delivered: set<int>, low: int, counter: int)
    requires IsLowest(peer, delivered, low) && InWindow(delivered, counter)
    ensures low <= counter <==> peer.start <= counter
  {}

  lemma LowestMovesUp(peer: Peer, delivered: set<int>, low: int, counter: int)
    requires IsLowest(peer, delivered, low)
    ensures IsLowest(peer, delivered + {counter}, Max(low, counter - RECV_WINDOW_SIZE + 1))
  {}

  class RatchetSession {
    const suite: Suite
    const localDir: Direction
    const remoteDir: Direction
    ghost const sendInitial: bytes
    var sendChain: Buffer
    var sendCounter: nat
    var recvCache: RecvKeyCache
    var replay: ReplayWindow

    ghost predicate Valid()
      reads this, sendChain, recvCache, recvCache.repr, replay
    {
      && recvCache.Valid() && replay.Valid() && sendChain !in recvCache.repr
      && recvCache.suite == suite && remoteDir == localDir.Opposite()
      && sendChain.content == ChainAt(suite, sendInitial, sendCounter)
      && IsLowest(RecvPeer(), replay.seen, recvCache.lowestCounter)
    }

    ghost function RecvPeer(): Peer
      reads this, recvCache
    {
      Peer(suite, recvCache.initial, recvCache.start, remoteDir)
    }

    ghost function View(): RecvState
      reads this, recvCache, replay
    {
      RecvState(replay.seen, recvCache.highestDerived)
    }

    constructor (suite: Suite, sendChainKey: bytes, recvChainKey: bytes, start: nat, direction: Direction)
      ensures Valid() && fresh(sendChain) && fresh(recvCache) && fresh(recvCache.repr) && fresh(replay)
      ensures this.suite == suite && localDir == direction && sendInitial == sendChainKey && sendCounter == 0
      ensures RecvPeer() == Peer(suite, recvChainKey, start, direction.Opposite())
      ensures View() == RecvState({}, start + RECV_LOOKAHEAD - 1)
    {
      this.suite, localDir, remoteDir, sendInitial := suite, direction, direction.Opposite(), sendChainKey;
      sendChain := new Buffer(sendChainKey, Chain);
      sendCounter := 0;
      recvCache := new RecvKeyCache(suite, recvChainKey, start);
      replay := new ReplayWindow();
    }

    /** The public constructor: both chain keys must have 32 bytes. */
    static method Create(suite: Suite, sendChainKey: bytes, recvChainKey: bytes, direction: Direction)
      returns (r: Result<RatchetSession, RatchetError>)
      ensures r == Err(BadKeyLength) <==> |sendChainKey| != CHAIN_KEY_BYTES || |recvChainKey| != CHAIN_KEY_BYTES
      ensures r.Err? ==> r.error == BadKeyLength
      ensures r.Ok? ==> var s := r.value;
        && s.Valid() && fresh(s) && fresh(s.sendChain) && fresh(s.recvCache) && fresh(s.recvCache.repr) && fresh(s.replay) && s.suite == suite && s.localDir == direction
        && s.sendInitial == sendChainKey && s.sendCounter == 0
        && s.RecvPeer() == Peer(suite, recvChainKey, 0, direction.Opposite())
        && s.View() == RecvState({}, RECV_LOOKAHEAD - 1)
    {
      if |sendChainKey| != CHAIN_KEY_BYTES || |recvChainKey| != CHAIN_KEY_BYTES { return Err(BadKeyLength); }
      var s := new RatchetSession(suite, sendChainKey, recvChainKey, 0, direction);
      return Ok(s);
    }

    /** A receiver resumed at `nextCounter` from a captured chain key. */
    static method FromCompromisedState(suite: Suite, recvChainKey: bytes, nextCounter: nat, direction: Direction)
      returns (r: Result<RatchetSession, RatchetError>)
      ensures r.Err? <==> |recvChainKey| != CHAIN_KEY_BYTES
      ensures r.Err? ==> r.error == BadKeyLength
      ensures r.Ok? ==> var s := r.value;
        && s.Valid() && fresh(s) && fresh(s.sendChain) && fresh(s.recvCache) && fresh(s.recvCache.repr) && fresh(s.replay)
        && s.RecvPeer() == Peer(suite, recvChainKey, nextCounter, direction.Opposite())
        && s.View() == RecvState({}, nextCounter + RECV_LOOKAHEAD - 1)
    {
      if |recvChainKey| != CHAIN_KEY_BYTES { return Err(BadKeyLength); }
      var s := new RatchetSession(suite, seq(CHAIN_KEY_BYTES, i => 0), recvChainKey, nextCounter, direction);
      return Ok(s);
    }

    /** Writes the next frame of the send chain and wipes the chain key it used. */
    method Encrypt(plaintext: bytes, ad: bytes) returns (wire: bytes)
      requires Valid()
      modifies this`sendCounter, this`sendChain, sendChain
      ensures Valid() && fresh(sendChain) && sendCounter == old(sendCounter) + 1 && View() == old(View())
      ensures Blank(old(sendChain).content)
      ensures wire == WireFrame(suite, sendInitial, localDir, old(sendCounter), plaintext, ad)
    {
      var counter := sendCounter;
      var rawKey := NextSendKey();
      var nonce := MakeNonce(localDir, counter);
      return BigEndian(counter, 8) + suite.Seal(rawKey, nonce, ad, plaintext);
    }

    /** The key of the next frame to send: the chain steps past it and the old chain key is wiped. */
    method NextSendKey() returns (rawKey: bytes)
      requires Valid()
      modifies this`sendCounter, this`sendChain, sendChain
      ensures Valid() && fresh(sendChain) && sendCounter == old(sendCounter) + 1 && View() == old(View())
      ensures Blank(old(sendChain).content) && rawKey == FrameKeyAt(suite, sendInitial, old(sendCounter))
    {
      sendCounter := sendCounter + 1;
      rawKey := suite.DeriveFrameKey(sendChain.content);
      var nextSendChain := new Buffer(suite.RatchetChain(sendChain.content), Chain);
      sendChain.Wipe();
      sendChain := nextSendChain;
    }

    method Decrypt(wire: bytes, ad: bytes) returns (r: Result<bytes, RatchetError>)
      requires Valid()
      modifies recvCache, recvCache.repr, replay
      ensures Valid()
      ensures fresh(recvCache.repr - old(recvCache.repr))
      ensures (View(), r) == Receive(RecvPeer(), old(View()), wire, ad)
      // After decrypting counter c, no key older than c - 63 is left, nor the chain to derive one.
      ensures r.Ok? ==> FromBigEndian(wire[..8]) - RECV_WINDOW_SIZE < recvCache.lowestCounter
    {
      if |wire| < 8 + TAG_LEN { return Err(TooShort); }
      var counter := FromBigEndian(wire[..8]);
      var acceptable := replay.CanAccept(counter);
      if !acceptable { return Err(ReplayRejected); }
      r := DecryptAcceptable(counter, wire, ad);
    }

    method DecryptAcceptable(counter: nat, wire: bytes, ad: bytes) returns (r: Result<bytes, RatchetError>)
      requires Valid() && Acceptable(replay.seen, counter) && |wire| >= 8
      modifies recvCache, recvCache.repr, replay
      ensures Valid() && fresh(recvCache.repr - old(recvCache.repr)) && RecvPeer() == old(RecvPeer())
      ensures (View(), r) == ReceiveAcceptable(RecvPeer(), old(View()), counter, wire, ad)
      ensures r.Ok? ==> counter - RECV_WINDOW_SIZE < recvCache.lowestCounter
    {
      var rawKey := KeyOfFrame(counter);
      if rawKey == null { return Err(KeyUnavailable); }
      r := OpenWith(rawKey.content, counter, wire, ad);
    }

    /** The AEAD under the frame's key: only what it accepts is committed. */
    method OpenWith(rawKey: bytes, counter: nat, wire: bytes, ad: bytes) returns (r: Result<bytes, RatchetError>)
      requires Valid() && InWindow(replay.seen, counter) && counter <= recvCache.highestDerived && |wire| >= 8
      modifies recvCache, recvCache.repr, replay
      ensures Valid() && fresh(recvCache.repr - old(recvCache.repr)) && RecvPeer() == old(RecvPeer())
      ensures match suite.Open(rawKey, MakeNonce(remoteDir, counter), ad, wire[8..])
              case None => View() == old(View()) && r == Err(AeadFailed)
              case Some(plaintext) => View() == Ahead(old(View()).(delivered := old(replay.seen) + {counter}), counter) && r == Ok(plaintext)
      ensures r.Ok? ==> counter - RECV_WINDOW_SIZE < recvCache.lowestCounter
    {
      var nonce := MakeNonce(remoteDir, counter);
      var answer := suite.Open(rawKey, nonce, ad, wire[8..]);
      if answer == None { return Err(AeadFailed); }
      Accept(counter);
      return Ok(answer.value);
    }

    /** The cached key of an acceptable frame, deriving ahead when it is new enough. */
    method KeyOfFrame(counter: nat) returns (rawKey: Buffer?)
      requires Valid() && Acceptable(replay.seen, counter)
      modifies recvCache, recvCache.repr
      ensures Valid() && fresh(recvCache.repr - old(recvCache.repr)) && RecvPeer() == old(RecvPeer())
      ensures rawKey != null <==> Deliverable(old(RecvPeer()), old(View()), counter)
      ensures rawKey == null ==> View() == old(View())
      ensures rawKey != null ==> rawKey.content == FrameKeyFor(RecvPeer(), counter) && counter <= recvCache.highestDerived
      ensures rawKey != null ==> View() == if counter > old(recvCache.highestDerived) then Ahead(old(View()), counter) else old(View())
    {
      LowestCoversTheWindow(RecvPeer(), replay.seen, recvCache.lowestCounter, counter);
      assert recvCache.lowestCounter <= counter <==> recvCache.start <= counter;
      rawKey := recvCache.Get(counter);
    }

    /** What Decrypt does once the AEAD has accepted the frame. */
    method Accept(counter: nat)
      requires Valid() && InWindow(replay.seen, counter) && counter <= recvCache.highestDerived
      modifies recvCache, recvCache.repr, replay
      ensures Valid() && fresh(recvCache.repr - old(recvCache.repr))
      ensures View() == Ahead(old(View()).(delivered := old(replay.seen) + {counter}), counter)
      ensures counter - RECV_WINDOW_SIZE < recvCache.lowestCounter
    {
      LowestMovesUp(RecvPeer(), replay.seen, recvCache.lowestCounter, counter);
      replay.Commit(counter);
      recvCache.PruneOlderThan(counter);
    }
  }
}
