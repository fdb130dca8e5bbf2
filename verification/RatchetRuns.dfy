/** What a receiver gets out of any serial run of deliveries: reordered, duplicated, dropped, forged. */
module RatchetRuns {
  import opened Basics
  import opened KeySchedule
  import opened KeyCache
  import opened Replay
  import opened Ratchet

  datatype Message = Message(plaintext: bytes, ad: bytes)

  /** A wire frame as it arrives, with the additional data it is opened under. */
  datatype Arrival = Arrival(wire: bytes, ad: bytes) {
    function Counter(): nat
    {
      if |wire| < 8 then 0 else FromBigEndian(wire[..8])
    }
  }

  /** The receiving state before arrival number `k`. */
  function StateAt(peer: Peer, arrivals: seq<Arrival>, k: nat): RecvState
    requires k <= |arrivals|
  {
    if k == 0 then RecvState({}, peer.start + RECV_LOOKAHEAD - 1)
    else Receive(peer, StateAt(peer, arrivals, k - 1), arrivals[k - 1].wire, arrivals[k - 1].ad).0
  }

  function ResultAt(peer: Peer, arrivals: seq<Arrival>, k: nat): Result<bytes, RatchetError>
    requires k < |arrivals|
  {
    Receive(peer, StateAt(peer, arrivals, k), arrivals[k].wire, arrivals[k].ad).1
  }

  /** The counters of the frames that decrypted among the first `k` arrivals. */
  function Decrypted(peer: Peer, arrivals: seq<Arrival>, k: nat): set<int>
    requires k <= |arrivals|
  {
    if k == 0 then {}
    else Decrypted(peer, arrivals, k - 1)
         + if ResultAt(peer, arrivals, k - 1).Ok? then {arrivals[k - 1].Counter()} else {}
  }

  predicate DecryptsAt(peer: Peer, arrivals: seq<Arrival>, i: nat, c: int)
    requires i < |arrivals|
  {
    ResultAt(peer, arrivals, i).Ok? && arrivals[i].Counter() == c
  }

  lemma {:induction false} DecryptedMembers(peer: Peer, arrivals: seq<Arrival>, k: nat, c: int)
    requires k <= |arrivals|
    ensures c in Decrypted(peer, arrivals, k)
       <==> exists i :: 0 <= i < k && DecryptsAt(peer, arrivals, i, c)
  {
    if k > 0 {
      DecryptedMembers(peer, arrivals, k - 1, c);
      assert c in Decrypted(peer, arrivals, k) <==> c in Decrypted(peer, arrivals, k - 1) || DecryptsAt(peer, arrivals, k - 1, c);
    }
  }

  /** Whatever arrives, the delivered set is exactly the counters that decrypted. */
  lemma {:induction false} DeliveredIsDecrypted(peer: Peer, arrivals: seq<Arrival>, k: nat)
    requires k <= |arrivals|
    ensures StateAt(peer, arrivals, k).delivered == Decrypted(peer, arrivals, k)
    ensures StateAt(peer, arrivals, k).highestDerived >= peer.start + RECV_LOOKAHEAD - 1
    ensures forall d | d in Decrypted(peer, arrivals, k) ::
              d + RECV_LOOKAHEAD <= StateAt(peer, arrivals, k).highestDerived
  {
    if k > 0 {
      DeliveredIsDecrypted(peer, arrivals, k - 1);
    }
  }

  /** Whatever arrives, no two frames with the same counter both decrypt. */
  lemma NoCounterDecryptsTwice(peer: Peer, arrivals: seq<Arrival>, i: nat, j: nat)
    requires i < j < |arrivals| && arrivals[i].Counter() == arrivals[j].Counter()
    ensures !(ResultAt(peer, arrivals, i).Ok? && ResultAt(peer, arrivals, j).Ok?)
  {
    DeliveredIsDecrypted(peer, arrivals, j);
    DecryptedMembers(peer, arrivals, j, arrivals[i].Counter());
    assert ResultAt(peer, arrivals, i).Ok? ==> DecryptsAt(peer, arrivals, i, arrivals[i].Counter());
  }

  /** The peer's frame number `c`, carrying `messages[c]`. */
  function FrameOf(peer: Peer, messages: seq<Message>, c: nat): Arrival
    requires c < |messages|
  {
    Arrival(WireFrame(peer.suite, peer.initial, peer.direction, c, messages[c].plaintext, messages[c].ad),
            messages[c].ad)
  }

  /** One genuine frame: it decrypts to what was sent exactly when it is deliverable, and a refusal
      leaves the receiver as it was. Counters are 64-bit on the wire. */
  lemma GenuineFrame(peer: Peer, state: RecvState, messages: seq<Message>, c: nat)
    requires OpensWhatItSealed(peer.suite) && peer.start == 0 && c < |messages| && c < TWO_TO_64
    ensures var a := FrameOf(peer, messages, c);
            a.Counter() == c
            && Receive(peer, state, a.wire, a.ad) ==
                 if Deliverable(peer, state, c)
                 then (Ahead(state.(delivered := state.delivered + {c as int}), c), Ok(messages[c].plaintext))
                 else (state, Err(if Acceptable(state.delivered, c) then KeyUnavailable else ReplayRejected))
  {
    var a := FrameOf(peer, messages, c);
    var sealed := peer.suite.Seal(FrameKeyAt(peer.suite, peer.initial, c), MakeNonce(peer.direction, c),
                                  messages[c].ad, messages[c].plaintext);
    assert |sealed| == |messages[c].plaintext| + TAG_LEN;
    assert a.wire[..8] == BigEndian(c, 8) && a.wire[8..] == sealed;
    CounterRoundTrip(c);
  }

  /** One genuine frame in a run that is otherwise arbitrary, forgeries included: it yields its own
      plaintext if and only if its counter has not decrypted yet, is at most 63 behind every one that
      has, and at most 16 past the newest derived key; otherwise it throws and delivers nothing. */
  lemma GenuineArrivalIsExact(peer: Peer, messages: seq<Message>, arrivals: seq<Arrival>, k: nat, c: nat)
    requires OpensWhatItSealed(peer.suite) && peer.start == 0 && c < |messages| && c < TWO_TO_64
    requires k < |arrivals| && arrivals[k] == FrameOf(peer, messages, c)
    ensures var decrypted, top := Decrypted(peer, arrivals, k), StateAt(peer, arrivals, k).highestDerived;
            if c !in decrypted && (forall d | d in decrypted :: d - c < 64) && c <= top + 16
            then && ResultAt(peer, arrivals, k) == Ok(messages[c].plaintext)
                 && Decrypted(peer, arrivals, k + 1) == decrypted + {c as int}
                 && StateAt(peer, arrivals, k + 1).highestDerived == Max(top, c + RECV_LOOKAHEAD)
            else && ResultAt(peer, arrivals, k).Err?
                 && Decrypted(peer, arrivals, k + 1) == decrypted
                 && StateAt(peer, arrivals, k + 1) == StateAt(peer, arrivals, k)
  {
    DeliveredIsDecrypted(peer, arrivals, k);
    GenuineFrame(peer, StateAt(peer, arrivals, k), messages, c);
  }

  /** The condition in terms of the frames that decrypted before alone: not one of them, at most 63
      behind each, and one of the first 24 or at most 24 past one of them. */
  predicate Expected(decrypted: set<int>, c: int) {
    && c !in decrypted && (forall d | d in decrypted :: d - c < 64)
    && (c < 24 || exists d | d in decrypted :: c <= d + 24)
  }

  /** An expected genuine frame decrypts, whatever came in between. */
  lemma ExpectedArrivalDecrypts(peer: Peer, messages: seq<Message>, arrivals: seq<Arrival>, k: nat, c: nat)
    requires OpensWhatItSealed(peer.suite) && peer.start == 0 && c < |messages| && c < TWO_TO_64
    requires k < |arrivals| && arrivals[k] == FrameOf(peer, messages, c) && Expected(Decrypted(peer, arrivals, k), c)
    ensures ResultAt(peer, arrivals, k) == Ok(messages[c].plaintext)
    ensures Decrypted(peer, arrivals, k + 1) == Decrypted(peer, arrivals, k) + {c as int}
  {
    DeliveredIsDecrypted(peer, arrivals, k);
    GenuineArrivalIsExact(peer, messages, arrivals, k, c);
  }

  /** The AEAD does not open the frame under the key of its counter, whatever key that is. */
  predicate Rejected(peer: Peer, a: Arrival) {
    |a.wire| < 8 + TAG_LEN || a.Counter() < peer.start
    || peer.suite.Open(FrameKeyFor(peer, a.Counter()), MakeNonce(peer.direction, a.Counter()), a.ad, a.wire[8..]) == None
  }

  /** A run of genuine frames among others that the AEAD rejects: origin k is the number of the frame
      that arrives, or None for what no sender wrote. */
  ghost predicate Mixed(peer: Peer, messages: seq<Message>, origin: seq<Option<nat>>, arrivals: seq<Arrival>) {
    && OpensWhatItSealed(peer.suite) && peer.start == 0 && |messages| <= TWO_TO_64 && |arrivals| == |origin|
    && forall k | 0 <= k < |origin| :: IsFrom(peer, messages, origin[k], arrivals[k])
  }

  /** The arrival is the frame of that number, or is rejected. */
  predicate IsFrom(peer: Peer, messages: seq<Message>, o: Option<nat>, a: Arrival) {
    match o
    case Some(c) => c < |messages| && a == FrameOf(peer, messages, c)
    case None => Rejected(peer, a)
  }

  /** What no sender wrote decrypts nothing. */
  lemma RejectedArrival(peer: Peer, arrivals: seq<Arrival>, k: nat)
    requires k < |arrivals| && Rejected(peer, arrivals[k])
    ensures ResultAt(peer, arrivals, k).Err? && Decrypted(peer, arrivals, k + 1) == Decrypted(peer, arrivals, k)
  {
  }

  /** A genuine frame at most 63 behind each genuine one before it, and among the first 24 or at most
      24 past some genuine one before it. */
  ghost predicate InBounds(origin: seq<Option<nat>>, k: nat)
    requires k < |origin|
  {
    origin[k].Some? ==>
      && (forall i | 0 <= i < k && origin[i].Some? :: origin[i].value < origin[k].value + 64)
      && (origin[k].value < 24 || exists i :: 0 <= i < k && origin[i].Some? && origin[k].value <= origin[i].value + 24)
  }

  ghost predicate BoundedReordering(origin: seq<Option<nat>>) { forall k | 0 <= k < |origin| :: InBounds(origin, k) }

  /** The decrypted frames are the genuine ones that arrived. */
  ghost predicate Same(decrypted: set<int>, arrived: seq<Option<nat>>) {
    && (forall d | d in decrypted :: d >= 0 && Some(d as nat) in arrived)
    && (forall c: nat | Some(c) in arrived :: c as int in decrypted)
  }

  lemma SameWithOneMore(decrypted: set<int>, arrived: seq<Option<nat>>, o: Option<nat>)
    requires Same(decrypted, arrived)
    ensures Same(decrypted + if o.Some? then {o.value as int} else {}, arrived + [o])
  {
  }

  lemma ExpectedWhenFirst(origin: seq<Option<nat>>, decrypted: set<int>, k: nat)
    requires k < |origin| && InBounds(origin, k) && origin[k].Some? && Same(decrypted, origin[..k])
    ensures Expected(decrypted, origin[k].value) <==> origin[k] !in origin[..k]
  {
    var c: int := origin[k].value;
    forall d | d in decrypted ensures d - c < 64 {
      var i :| 0 <= i < k && origin[..k][i] == Some(d as nat);
      assert origin[i] == Some(d as nat);
    }
    if c >= 24 {
      var i :| 0 <= i < k && origin[i].Some? && c <= origin[i].value + 24;
      assert origin[..k][i] == origin[i];
      assert origin[i].value as int in decrypted;
    }
  }

  /** A frame that has already arrived, and so already decrypted, is refused. */
  lemma RepeatIsRefused(peer: Peer, messages: seq<Message>, arrivals: seq<Arrival>, k: nat, c: nat)
    requires OpensWhatItSealed(peer.suite) && peer.start == 0 && c < |messages| && c < TWO_TO_64
    requires k < |arrivals| && arrivals[k] == FrameOf(peer, messages, c) && c in Decrypted(peer, arrivals, k)
    ensures ResultAt(peer, arrivals, k).Err? && Decrypted(peer, arrivals, k + 1) == Decrypted(peer, arrivals, k)
  {
    GenuineArrivalIsExact(peer, messages, arrivals, k, c);
  }

  /** One arrival under bounded reordering. */
  lemma ArrivalUnderBounds(peer: Peer, messages: seq<Message>, origin: seq<Option<nat>>, arrivals: seq<Arrival>, k: nat)
    requires Mixed(peer, messages, origin, arrivals) && k < |origin| && InBounds(origin, k)
    requires Same(Decrypted(peer, arrivals, k), origin[..k])
    ensures Decrypted(peer, arrivals, k + 1) == Decrypted(peer, arrivals, k) + if origin[k].Some? then {origin[k].value as int} else {}
    ensures if origin[k].Some? && origin[k] !in origin[..k] then ResultAt(peer, arrivals, k) == Ok(messages[origin[k].value].plaintext)
            else ResultAt(peer, arrivals, k).Err?
  {
    assert IsFrom(peer, messages, origin[k], arrivals[k]);
    if origin[k] == None {
      RejectedArrival(peer, arrivals, k);
    } else {
      var c := origin[k].value;
      ExpectedWhenFirst(origin, Decrypted(peer, arrivals, k), k);
      if origin[k] in origin[..k] {
        assert c as int in Decrypted(peer, arrivals, k);
        RepeatIsRefused(peer, messages, arrivals, k, c);
      } else {
        ExpectedArrivalDecrypts(peer, messages, arrivals, k, c);
      }
    }
  }

  /** What there is to show at arrival `k`. */
  ghost predicate SoFarSoGood(peer: Peer, arrivals: seq<Arrival>, origin: seq<Option<nat>>, k: nat)
    requires k <= |arrivals| == |origin|
  {
    Same(Decrypted(peer, arrivals, k), origin[..k])
  }

  lemma NextArrivalDecrypted(peer: Peer, messages: seq<Message>, origin: seq<Option<nat>>, arrivals: seq<Arrival>, k: nat)
    requires Mixed(peer, messages, origin, arrivals) && k < |origin| && InBounds(origin, k)
    requires SoFarSoGood(peer, arrivals, origin, k)
    ensures SoFarSoGood(peer, arrivals, origin, k + 1)
  {
    ArrivalUnderBounds(peer, messages, origin, arrivals, k);
    SameWithOneMore(Decrypted(peer, arrivals, k), origin[..k], origin[k]);
    assert origin[..k + 1] == origin[..k] + [origin[k]];
  }

  lemma {:induction false} EveryArrivalDecrypted(peer: Peer, messages: seq<Message>, origin: seq<Option<nat>>,
                                                 arrivals: seq<Arrival>, k: nat)
    requires Mixed(peer, messages, origin, arrivals) && BoundedReordering(origin) && k <= |origin|
    ensures SoFarSoGood(peer, arrivals, origin, k)
  {
    if k > 0 {
      EveryArrivalDecrypted(peer, messages, origin, arrivals, k - 1);
      assert InBounds(origin, k - 1);
      NextArrivalDecrypted(peer, messages, origin, arrivals, k - 1);
    }
  }

  /** Under bounded reordering nothing is lost, however many rejected frames come in between: every
      genuine frame decrypts at its first arrival, and only then. */
  lemma BoundedReorderingLosesNothing(peer: Peer, messages: seq<Message>, origin: seq<Option<nat>>,
                                      arrivals: seq<Arrival>, k: nat)
    requires Mixed(peer, messages, origin, arrivals) && BoundedReordering(origin) && k < |origin|
    ensures if origin[k].Some? && origin[k] !in origin[..k] then ResultAt(peer, arrivals, k) == Ok(messages[origin[k].value].plaintext)
            else ResultAt(peer, arrivals, k).Err?
  {
    EveryArrivalDecrypted(peer, messages, origin, arrivals, k);
    assert InBounds(origin, k);
    ArrivalUnderBounds(peer, messages, origin, arrivals, k);
  }

  // ----- How many keys are held -----

  /** The arrivals among the first `k` whose key was there and whose AEAD failed. */
  function AeadFailures(peer: Peer, arrivals: seq<Arrival>, k: nat): nat
    requires k <= |arrivals|
  {
    if k == 0 then 0
    else AeadFailures(peer, arrivals, k - 1) + if ResultAt(peer, arrivals, k - 1) == Err(AeadFailed) then 1 else 0
  }

  /** The newest derived key is at most 8 past a decrypted frame, or the eighth, and 24 further for
      each failure. */
  ghost predicate IsNear(start: nat, top: int, decrypted: set<int>, failures: nat) {
    top <= start + RECV_LOOKAHEAD - 1 + 24 * failures || exists d | d in decrypted :: top <= d + RECV_LOOKAHEAD + 24 * failures
  }

  lemma OneMoreKey(peer: Peer, arrivals: seq<Arrival>, k: nat)
    requires k < |arrivals|
    ensures var top, after := StateAt(peer, arrivals, k).highestDerived, StateAt(peer, arrivals, k + 1).highestDerived;
            var c := arrivals[k].Counter();
            match ResultAt(peer, arrivals, k)
            case Ok(_) => after == Max(top, c + RECV_LOOKAHEAD) && c as int in Decrypted(peer, arrivals, k + 1)
            case Err(AeadFailed) => after <= top + 24
            case Err(_) => after == top
  {
  }

  lemma {:induction false} DerivedOnAnyRun(peer: Peer, arrivals: seq<Arrival>, k: nat)
    requires k <= |arrivals|
    ensures IsNear(peer.start, StateAt(peer, arrivals, k).highestDerived, Decrypted(peer, arrivals, k), AeadFailures(peer, arrivals, k))
  {
    if k > 0 {
      DerivedOnAnyRun(peer, arrivals, k - 1);
      OneMoreKey(peer, arrivals, k - 1);
      var top, decrypted := StateAt(peer, arrivals, k - 1).highestDerived, Decrypted(peer, arrivals, k - 1);
      StaysNear(peer.start, top, decrypted, AeadFailures(peer, arrivals, k - 1),
                StateAt(peer, arrivals, k).highestDerived, Decrypted(peer, arrivals, k), AeadFailures(peer, arrivals, k));
    }
  }

  lemma StaysNear(start: nat, top: int, decrypted: set<int>, failures: nat, top': int, decrypted': set<int>, failures': nat)
    requires IsNear(start, top, decrypted, failures) && decrypted <= decrypted' && failures <= failures'
    requires top' <= top + 24 * (failures' - failures) || top' - RECV_LOOKAHEAD in decrypted'
    ensures IsNear(start, top', decrypted', failures')
  {
    if top' <= top + 24 * (failures' - failures) && !(top <= start + RECV_LOOKAHEAD - 1 + 24 * failures) {
      var d :| d in decrypted && top <= d + RECV_LOOKAHEAD + 24 * failures;
      assert d in decrypted';
    }
  }

  /** On any run at most 72 keys are held, plus 24 for every frame whose AEAD failed. */
  lemma KeysHeldAreBounded(peer: Peer, arrivals: seq<Arrival>, k: nat, low: int)
    requires k <= |arrivals| && IsLowest(peer, StateAt(peer, arrivals, k).delivered, low)
    ensures StateAt(peer, arrivals, k).highestDerived - low + 1 <= 72 + 24 * AeadFailures(peer, arrivals, k)
  {
    DerivedOnAnyRun(peer, arrivals, k);
    DeliveredIsDecrypted(peer, arrivals, k);
  }

  /** Frames that reach as far ahead as the cache lets them, and fail: each one makes it hold 24 more. */
  ghost predicate ReachesAhead(peer: Peer, arrivals: seq<Arrival>, k: nat)
    requires k < |arrivals|
  {
    |arrivals[k].wire| >= 8 + TAG_LEN && Rejected(peer, arrivals[k]) && arrivals[k].Counter() == peer.start + 23 + 24 * k
  }

  lemma {:induction false} ForgeriesMakeItGrow(peer: Peer, arrivals: seq<Arrival>, k: nat)
    requires k <= |arrivals| && forall i | 0 <= i < k :: ReachesAhead(peer, arrivals, i)
    ensures AeadFailures(peer, arrivals, k) == k && StateAt(peer, arrivals, k).delivered == {}
    ensures StateAt(peer, arrivals, k).highestDerived - peer.start + 1 == 8 + 24 * k
  {
    if k > 0 {
      ForgeriesMakeItGrow(peer, arrivals, k - 1);
      assert ReachesAhead(peer, arrivals, k - 1);
    }
  }

  /** On a run of genuine frames the condition is exactly Expected: nothing else moves the cache ahead. */
  lemma GenuineRunIsExact(peer: Peer, messages: seq<Message>, origin: seq<Option<nat>>, arrivals: seq<Arrival>, k: nat)
    requires Mixed(peer, messages, origin, arrivals) && None !in origin && k < |origin|
    ensures if Expected(Decrypted(peer, arrivals, k), origin[k].value)
            then ResultAt(peer, arrivals, k) == Ok(messages[origin[k].value].plaintext)
            else ResultAt(peer, arrivals, k).Err?
  {
    NoFailures(peer, messages, origin, arrivals, k);
    DerivedOnAnyRun(peer, arrivals, k);
    DeliveredIsDecrypted(peer, arrivals, k);
    assert origin[k] in origin && IsFrom(peer, messages, origin[k], arrivals[k]);
    GenuineArrivalIsExact(peer, messages, arrivals, k, origin[k].value);
  }

  ghost predicate NoneFailed(peer: Peer, arrivals: seq<Arrival>, k: nat)
    requires k <= |arrivals|
  {
    AeadFailures(peer, arrivals, k) == 0
  }

  lemma GenuineDoesNotFail(peer: Peer, messages: seq<Message>, arrivals: seq<Arrival>, k: nat, o: Option<nat>)
    requires OpensWhatItSealed(peer.suite) && peer.start == 0 && |messages| <= TWO_TO_64
    requires k < |arrivals| && o.Some? && IsFrom(peer, messages, o, arrivals[k]) && NoneFailed(peer, arrivals, k)
    ensures NoneFailed(peer, arrivals, k + 1)
  {
    GenuineFrame(peer, StateAt(peer, arrivals, k), messages, o.value);
  }

  lemma {:induction false} NoFailures(peer: Peer, messages: seq<Message>, origin: seq<Option<nat>>, arrivals: seq<Arrival>, k: nat)
    requires Mixed(peer, messages, origin, arrivals) && None !in origin && k <= |origin|
    ensures NoneFailed(peer, arrivals, k)
  {
    if k > 0 {
      NoFailures(peer, messages, origin, arrivals, k - 1);
      assert origin[k - 1] in origin && IsFrom(peer, messages, origin[k - 1], arrivals[k - 1]);
      GenuineDoesNotFail(peer, messages, arrivals, k - 1, origin[k - 1]);
    }
  }

  /** The replay window alone does not decide whether a key is available: in a fresh session the
      window takes counter 24 and the cache has no key for it. */
  lemma AWindowedCounterWithoutKey(peer: Peer, wire: bytes, ad: bytes)
    requires peer.start == 0 && |wire| >= 8 + TAG_LEN && wire[..8] == BigEndian(24, 8)
    ensures var fresh_ := StateAt(peer, [], 0);
            Acceptable(fresh_.delivered, 24) && Receive(peer, fresh_, wire, ad) == (fresh_, Err(KeyUnavailable))
  {
    CounterRoundTrip(24);
  }
}
