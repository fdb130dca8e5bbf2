/** Two frames sent to one peer at the same time: each send writes its chunks in order, awaiting every
    write, so the two sequences interleave. */
module FrameOverlap {
  import opened Basics
  import opened Frame
  import opened Reassembler
  import opened FrameRuns
  import opened FrameStreams

  /** Whose turn it is to write: true for the first send. */
  type Turns = seq<bool>

  function Woven(a: seq<bytes>, b: seq<bytes>, turns: Turns): seq<bytes>
    decreases |turns|
  {
    if turns == [] then []
    else if turns[0] then (if a == [] then [] else [a[0]] + Woven(a[1..], b, turns[1..]))
    else (if b == [] then [] else [b[0]] + Woven(a, b[1..], turns[1..]))
  }

  function Count(turns: Turns, who: bool): nat
    decreases |turns|
  {
    if turns == [] then 0 else (if turns[0] == who then 1 else 0) + Count(turns[1..], who)
  }

  /** Every write of both. */
  predicate AllWritten(turns: Turns, a: seq<bytes>, b: seq<bytes>) { Count(turns, true) == |a| && Count(turns, false) == |b| }

  /** The send `who` has `n` turns, and all of them before the other's. */
  predicate GoesFirst(turns: Turns, who: bool, n: nat) { n <= |turns| && forall i | 0 <= i < n :: turns[i] == who }

  lemma {:induction false} OnlyTheOther(a: seq<bytes>, b: seq<bytes>, turns: Turns)
    requires Count(turns, true) == 0 && Count(turns, false) == |b|
    ensures Woven(a, b, turns) == b
    decreases |turns|
  {
    if turns != [] { OnlyTheOther(a, b[1..], turns[1..]); }
  }

  lemma {:induction false} FirstThenOther(a: seq<bytes>, b: seq<bytes>, turns: Turns)
    requires AllWritten(turns, a, b) && GoesFirst(turns, true, |a|)
    ensures Woven(a, b, turns) == a + b
    decreases |a|
  {
    if a == [] {
      OnlyTheOther(a, b, turns);
    } else {
      assert forall i | 0 <= i < |a| - 1 :: turns[1..][i] == turns[i + 1];
      FirstThenOther(a[1..], b, turns[1..]);
      assert a == [a[0]] + a[1..];
      assert [a[0]] + (a[1..] + b) == a + b;
    }
  }

  function Swapped(turns: Turns): (r: Turns)
    ensures |r| == |turns| && forall i | 0 <= i < |r| :: r[i] == !turns[i]
  {
    if turns == [] then [] else [!turns[0]] + Swapped(turns[1..])
  }

  /** Which of the two is called first does not matter. */
  lemma {:induction false} WovenSwaps(a: seq<bytes>, b: seq<bytes>, turns: Turns)
    ensures Woven(a, b, turns) == Woven(b, a, Swapped(turns))
    ensures forall who :: Count(Swapped(turns), who) == Count(turns, !who)
    decreases |turns|
  {
    if turns != [] {
      assert Swapped(turns)[1..] == Swapped(turns[1..]);
      WovenSwaps(if turns[0] && a != [] then a[1..] else a, if !turns[0] && b != [] then b[1..] else b, turns[1..]);
      WovenSwaps(a, b, turns[1..]);
    }
  }

  // ---- Interleaved

  lemma {:induction false} FirstsJoin(a: seq<bytes>, b: seq<bytes>)
    ensures Firsts(a + b) == Firsts(a) + Firsts(b)
    decreases |a|
  {
    if a == [] {
      assert a + b == b;
    } else {
      assert (a + b)[1..] == a[1..] + b;
      FirstsJoin(a[1..], b);
    }
  }

  predicate NoFirsts(chunks: seq<bytes>) { forall c | c in chunks :: !IsFirst(c) }

  lemma {:induction false} NoFirstsCount(chunks: seq<bytes>)
    requires NoFirsts(chunks)
    ensures Firsts(chunks) == 0
    decreases |chunks|
  {
    if chunks != [] {
      assert chunks[0] in chunks && forall c | c in chunks[1..] :: c in chunks;
      NoFirstsCount(chunks[1..]);
    }
  }

  lemma {:induction false} WovenMembers(a: seq<bytes>, b: seq<bytes>, turns: Turns)
    requires NoFirsts(a) && NoFirsts(b)
    ensures NoFirsts(Woven(a, b, turns))
    decreases |turns|
  {
    if turns != [] {
      if turns[0] && a != [] {
        assert a[0] in a && forall c | c in a[1..] :: c in a;
        WovenMembers(a[1..], b, turns[1..]);
      } else if !turns[0] && b != [] {
        assert b[0] in b && forall c | c in b[1..] :: c in b;
        WovenMembers(a, b[1..], turns[1..]);
      }
    }
  }

  /** Only chunk 0 of a frame is numbered 0. */
  lemma LaterChunks(s: Sending, k: nat)
    requires 1 <= k <= |Wire(s)|
    ensures NoFirsts(Wire(s)[k..])
  {
    forall c | c in Wire(s)[k..] ensures !IsFirst(c) {
      var i :| k <= i < |Wire(s)| && c == Wire(s)[i];
      TotalIs(|s.payload|, s.per);
      ChunkParses(s.payload, s.per, s.frameType, i);
    }
  }

  /** The second send's turn comes after k writes of the first. */
  lemma {:induction false} Interrupted(a: seq<bytes>, b: seq<bytes>, turns: Turns, k: nat)
    requires k < |turns| && GoesFirst(turns, true, k) && k <= |a| && !turns[k] && b != []
    ensures Woven(a, b, turns) == a[..k] + ([b[0]] + Woven(a[k..], b[1..], turns[k + 1..]))
    decreases k
  {
    if k == 0 {
      assert a[0..] == a;
    } else {
      Interrupted(a[1..], b, turns[1..], k - 1);
      assert turns[1..][k..] == turns[k + 1..];
      assert a[1..][k - 1..] == a[k..] && [a[0]] + a[1..][..k - 1] == a[..k];
    }
  }

  lemma AllOnTheWire(s: Sending)
    ensures |Wire(s)| == s.Total() >= 1
  {
    TotalIsSmall(s);
    PushIsAccept(EMPTY, s, 0);
  }

  /** The first k chunks of a frame, k short of its total, fill k slots. */
  lemma {:induction false} Prefix(s: Sending, k: nat) returns (st: State, hs: seq<Parsed>, pile: Pile)
    requires k < s.Total()
    ensures k <= |Wire(s)| && Read(EMPTY, Wire(s)[..k]) == (st, []) && Piled(st, hs, s, pile)
    ensures forall i: nat :: i in pile <==> i < k
    decreases k
  {
    PushIsAccept(EMPTY, s, k);
    if k == 0 {
      st, hs, pile := EMPTY, [], map[];
      NothingPiled(s);
      assert Wire(s)[..0] == [];
    } else {
      var st1, hs1, pile1 := Prefix(s, k - 1);
      pile := Put(pile1, s, k - 1);
      OneSlotMore(s, pile1, k - 1);
      st, hs := OneMore(st1, hs1, s, pile1, k - 1);
      ReadsOneMore(Wire(s), k - 1, st1, st);
    }
  }

  lemma OneSlotMore(s: Sending, pile: Pile, i: nat)
    requires i + 1 < s.Total() && forall j: nat :: j in pile <==> j < i
    ensures !Covers(Put(pile, s, i).Keys, s.Total()) && forall j: nat :: j in Put(pile, s, i) <==> j < i + 1
  {
    assert i + 1 !in Put(pile, s, i).Keys;
  }

  lemma OneMore(st: State, hs: seq<Parsed>, s: Sending, pile: Pile, i: nat) returns (st': State, hs': seq<Parsed>)
    requires Piled(st, hs, s, pile) && i < s.Total() && !Covers(Put(pile, s, i).Keys, s.Total())
    ensures |Wire(s)| == s.Total() && Push(st, Wire(s)[i]) == (st', Ok(None)) && Piled(st', hs', s, Put(pile, s, i))
  {
    st', hs' := ArrivalReads(st, hs, s, pile, i);
  }

  lemma ReadsOneMore(chunks: seq<bytes>, i: nat, st: State, st': State)
    requires i < |chunks| && Read(EMPTY, chunks[..i]) == (st, []) && Push(st, chunks[i]) == (st', Ok(None))
    ensures Read(EMPTY, chunks[..i + 1]) == (st', [])
  {
    assert chunks[..i + 1] == chunks[..i] + [chunks[i]];
    ReadOn(EMPTY, chunks[..i], [chunks[i]]);
    assert [chunks[i]][1..] == [];
    assert Read(st', []) == (st', []);
    assert AsSeq(None) + [] == [];
  }

  /** The other frame's chunk 0 finds a frame under way: it is refused, and what is there thrown away, or
      it is taken for a duplicate. Either way it leads to no frame of its own. */
  lemma WastedFirst(st: State, hs: seq<Parsed>, s: Sending, pile: Pile, t: Sending) returns (hs': seq<Parsed>)
    requires Piled(st, hs, s, pile) && 0 in pile && |Wire(t)| == t.Total() > 0
    ensures var (st', answer) := Push(st, Wire(t)[0]);
            (answer == Ok(None) && Tracks(st', hs')) || answer.Err?
  {
    PushIsAccept(st, t, 0);
    hs' := hs + [Part(t, 0)];
    if Compatible(s, false, t) {
      NextOfItsKind(st, hs, s, t, pile);
      var k: nat :| k < s.Total() && k !in pile;
      assert Put(pile, t, 0) == pile;
      PartAccepted(st, hs, t, pile, 0, Accept(st, Part(t, 0)));
    } else {
      TotalIsSmall(s);
      TotalIsSmall(t);
      KindsDiffer(st, hs, Part(t, 0));
    }
  }

  /** Interleaved, the two sends bring at most one frame. */
  lemma InterleavedLosesOne(s: Sending, t: Sending, turns: Turns, k: nat)
    requires AllWritten(turns, Wire(s), Wire(t))
    requires 0 < k < s.Total() && k < |turns| && GoesFirst(turns, true, k) && !turns[k]
    ensures |Read(EMPTY, Woven(Wire(s), Wire(t), turns)).1| <= 1
  {
    var a, b := Wire(s), Wire(t);
    AllOnTheWire(t);
    var st, hs, pile := Prefix(s, k);
    Interrupted(a, b, turns, k);
    var rest := Woven(a[k..], b[1..], turns[k + 1..]);
    ReadOn(EMPTY, a[..k], [b[0]] + rest);
    var hs' := WastedFirst(st, hs, s, pile, t);
    ReadFirst(st, b[0], rest);
    LaterChunks(s, k);
    LaterChunks(t, 1);
    WovenMembers(a[k..], b[1..], turns[k + 1..]);
    NoFirstsCount(rest);
    var (st', answer) := Push(st, b[0]);
    if answer.Err? { FramesNeedTheirFirstChunk(EMPTY, [], rest); } else { FramesNeedTheirFirstChunk(st', hs', rest); }
  }

  // ---- The exact condition

  function InOrderOf(s: Sending): Sending {
    Upwards(s);
    Shipment(s.payload, s.per, s.frameType, UpFrom(0, s.Total()))
  }

  lemma Upwards(s: Sending)
    ensures var order := UpFrom(0, s.Total());
            Shipment(s.payload, s.per, s.frameType, order).Valid() && forall i: nat | i < s.Total() :: i in order
  {
    var order := UpFrom(0, s.Total());
    forall i: nat | i < s.Total() ensures i in order { assert order[i] == i; }
  }

  lemma InOrderIsTheWire(s: Sending)
    ensures Pick(Wire(s), InOrderOf(s).order) == Wire(s) && EndsComplete(InOrderOf(s)) && InOrderOf(s).Frame() == s.Frame()
    ensures Wire(InOrderOf(s)) == Wire(s)
  {
    Upwards(s);
    AllOnTheWire(s);
    PickInOrder(Wire(s), 0);
    var order := UpFrom(0, s.Total());
    assert order[|order| - 1] !in order[..|order| - 1];
  }

  lemma TwoArrivals(s: Sending, t: Sending)
    ensures AllArrivals([s, t]) == Pick(Wire(s), s.order) + Pick(Wire(t), t.order) && Contents([s, t]) == [s.Frame(), t.Frame()]
  {
    var both: seq<Sending>, last: seq<Sending> := [s, t], [t];
    assert both[1..] == last && last[1..] == [];
    assert AllArrivals(last) == Pick(Wire(t), t.order) + [];
    assert Contents(last) == [t.Frame()];
  }

  /** One after the other, both arrive. */
  lemma InTurn(s: Sending, t: Sending)
    ensures Read(EMPTY, Wire(s) + Wire(t)).1 == [s.Frame(), t.Frame()]
  {
    InOrderIsTheWire(s);
    InOrderIsTheWire(t);
    EarlyDuplicatesAreHarmless([InOrderOf(s), InOrderOf(t)]);
    TwoArrivals(InOrderOf(s), InOrderOf(t));
  }

  lemma {:induction false} HowLongFirst(turns: Turns, n: nat) returns (k: nat)
    requires Count(turns, true) == n && Count(turns, false) > 0
    ensures k <= n && k < |turns| && GoesFirst(turns, true, k) && !turns[k]
    decreases |turns|
  {
    if !turns[0] {
      k := 0;
    } else {
      k := HowLongFirst(turns[1..], n - 1);
      assert forall i | 1 <= i < k + 1 :: turns[i] == turns[1..][i - 1];
      k := k + 1;
    }
  }

  predicate BothArrive(frames: seq<ReassembledFrame>, s: Sending, t: Sending) {
    frames == [s.Frame(), t.Frame()] || frames == [t.Frame(), s.Frame()]
  }

  /** The first to write either finishes first, and both arrive, or is interrupted, and one is lost. */
  lemma FirstWriter(s: Sending, t: Sending, turns: Turns)
    requires AllWritten(turns, Wire(s), Wire(t)) && turns != [] && turns[0]
    ensures var frames := Read(EMPTY, Woven(Wire(s), Wire(t), turns)).1;
            if GoesFirst(turns, true, s.Total()) then frames == [s.Frame(), t.Frame()] else |frames| <= 1
  {
    AllOnTheWire(s);
    AllOnTheWire(t);
    if GoesFirst(turns, true, s.Total()) {
      FirstThenOther(Wire(s), Wire(t), turns);
      InTurn(s, t);
    } else {
      var k := HowLongFirst(turns, s.Total());
      InterleavedLosesOne(s, t, turns, k);
    }
  }

  /** Two sends whose chunks all arrive, in whatever interleaving of their writes: both frames come out if
      and only if one send had written its last chunk before the other wrote its first. */
  lemma BothArriveExactly(s: Sending, t: Sending, turns: Turns)
    requires AllWritten(turns, Wire(s), Wire(t))
    ensures BothArrive(Read(EMPTY, Woven(Wire(s), Wire(t), turns)).1, s, t)
            <==> GoesFirst(turns, true, s.Total()) || GoesFirst(turns, false, t.Total())
  {
    AllOnTheWire(s);
    AllOnTheWire(t);
    if turns[0] {
      FirstWriter(s, t, turns);
      assert !GoesFirst(turns, false, t.Total());
    } else {
      WovenSwaps(Wire(s), Wire(t), turns);
      FirstWriter(t, s, Swapped(turns));
      assert !GoesFirst(turns, true, s.Total());
      assert GoesFirst(turns, false, t.Total()) <==> GoesFirst(Swapped(turns), true, t.Total());
    }
  }

  lemma ReadsNext(st: State, chunk: bytes, rest: seq<bytes>, st': State, frame: Option<ReassembledFrame>)
    requires Push(st, chunk) == (st', Ok(frame))
    ensures Read(st, [chunk] + rest).1 == AsSeq(frame) + Read(st', rest).1
  {
    ReadFirst(st, chunk, rest);
  }

  /** The slots of two frames of two chunks: 0 of the first, 0 and 1 of the second. */
  lemma MixedUp(s: Sending, t: Sending) returns (st1: State, st2: State)
    requires s.Total() == t.Total() == 2 && s.frameType == t.frameType
    ensures |Wire(s)| == |Wire(t)| == 2
    ensures Push(EMPTY, Wire(s)[0]) == (st1, Ok(None)) && Push(st1, Wire(t)[0]) == (st2, Ok(None))
    ensures Push(st2, Wire(t)[1]) == (EMPTY, Ok(Some(ReassembledFrame(t.frameType, Data(s, 0) + Data(t, 1)))))
  {
    var none: Pile, one: Pile := map[], map[0 := Data(s, 0)];
    PushIsAccept(EMPTY, s, 0);
    NothingPiled(s);
    assert Put(none, s, 0) == one && 1 !in one;
    var hs1, hs2;
    st1, hs1 := OneMore(EMPTY, [], s, none, 0);
    assert Put(one, t, 0) == one;
    NextOfItsKind(st1, hs1, s, t, one);
    st2, hs2 := OneMore(st1, hs1, t, one, 0);
    Completing(st2, hs2, t, one);
  }

  lemma Completing(st: State, hs: seq<Parsed>, t: Sending, pile: Pile)
    requires Piled(st, hs, t, pile) && t.Total() == 2 && pile.Keys == {0}
    ensures |Wire(t)| == 2 && Push(st, Wire(t)[1]) == (EMPTY, Ok(Some(ReassembledFrame(t.frameType, pile[0] + Data(t, 1)))))
  {
    PushIsAccept(st, t, 1);
    PartAccepted(st, hs, t, pile, 1, Accept(st, Part(t, 1)));
    BothSlots(t, pile);
  }

  lemma BothSlots(t: Sending, pile: Pile)
    requires t.Total() == 2 && pile.Keys == {0}
    ensures Covers(Put(pile, t, 1).Keys, 2) && Joint(Put(pile, t, 1), 2) == pile[0] + Data(t, 1)
  {
    assert Put(pile, t, 1) == map[0 := pile[0], 1 := Data(t, 1)];
    JointOfTwo(pile[0], Data(t, 1));
  }

  lemma LoneSecond(s: Sending) returns (st: State)
    requires s.Total() == 2
    ensures |Wire(s)| == 2 && Push(EMPTY, Wire(s)[1]) == (st, Ok(None))
  {
    var none: Pile, hs := map[], [];
    NothingPiled(s);
    assert 0 !in Put(none, s, 1);
    st, hs := OneMore(EMPTY, [], s, none, 1);
  }

  /** What comes out instead may be neither: two frames (a, b) and (x, y) of two chunks each, the second
      written while the first is half way, bring one frame (a, y). */
  lemma InterleavedMix(a: byte, b: byte, x: byte, y: byte, frameType: nat)
    requires frameType < 16
    ensures Pair(a, b, frameType, [0, 1]).Valid() && Pair(x, y, frameType, [0, 1]).Valid()
    ensures var s: Sending, t: Sending := Pair(a, b, frameType, [0, 1]), Pair(x, y, frameType, [0, 1]);
            AllWritten([true, false, false, true], Wire(s), Wire(t))
            && Read(EMPTY, Woven(Wire(s), Wire(t), [true, false, false, true])).1 == [ReassembledFrame(frameType, [a, y])]
  {
    PairIsValid(a, b, frameType, [0, 1]);
    PairIsValid(x, y, frameType, [0, 1]);
    var s: Sending, t: Sending := Pair(a, b, frameType, [0, 1]), Pair(x, y, frameType, [0, 1]);
    var st1, st2 := MixedUp(s, t);
    var st4 := LoneSecond(s);
    WovenOfTwo(Wire(s), Wire(t));
    assert [a] + [y] == [a, y];
    FourReads(Wire(s)[0], Wire(t)[0], Wire(t)[1], Wire(s)[1], st1, st2, ReassembledFrame(frameType, [a, y]), st4);
  }

  lemma WovenOfTwo(a: seq<bytes>, b: seq<bytes>)
    requires |a| == |b| == 2
    ensures AllWritten([true, false, false, true], a, b)
    ensures Woven(a, b, [true, false, false, true]) == [a[0]] + ([b[0]] + ([b[1]] + ([a[1]] + [])))
  {
    var turns := [true, false, false, true];
    assert turns[1..] == [false, false, true] && [false, false, true][1..] == [false, true] && [false, true][1..] == [true] && [true][1..] == [];
    assert a[1..] == [a[1]] && b[1..] == [b[1]] && b[1..][1..] == [] && a[1..][1..] == [];
    assert Woven([a[1]], [], [true]) == [a[1]] + [];
    assert Woven([a[1]], [b[1]], [false, true]) == [b[1]] + ([a[1]] + []);
    assert Woven([a[1]], b, [false, false, true]) == [b[0]] + ([b[1]] + ([a[1]] + []));
    assert Count([true], true) == 1 && Count([true], false) == 0;
    assert Count([false, true], true) == 1 && Count([false, true], false) == 1;
    assert Count([false, false, true], true) == 1 && Count([false, false, true], false) == 2;
  }

  lemma FourReads(c1: bytes, c2: bytes, c3: bytes, c4: bytes, st1: State, st2: State, frame: ReassembledFrame, st4: State)
    requires Push(EMPTY, c1) == (st1, Ok(None)) && Push(st1, c2) == (st2, Ok(None))
    requires Push(st2, c3) == (EMPTY, Ok(Some(frame))) && Push(EMPTY, c4) == (st4, Ok(None))
    ensures Read(EMPTY, [c1] + ([c2] + ([c3] + ([c4] + [])))).1 == [frame]
  {
    ReadsNext(EMPTY, c4, [], st4, None);
    ReadsNext(st2, c3, [c4] + [], EMPTY, Some(frame));
    ReadsNext(st1, c2, [c3] + ([c4] + []), st2, None);
    ReadsNext(EMPTY, c1, [c2] + ([c3] + ([c4] + [])), st1, None);
  }
}
