/** Streams of chunked payloads, one after another, with their chunks in any order, lost or duplicated, early
    or late: what the transport's reader makes of them, and exactly when that is what was sent. */
module FrameStreams {
  import opened Basics
  import opened Frame
  import opened Reassembler
  import opened FrameRuns

  datatype Shipment = Shipment(payload: bytes, per: nat, frameType: nat, order: seq<nat>) {
    function Total(): nat { if per > 0 then TotalChunks(|payload|, per) else 0 }

    predicate Valid() {
      && Fits(payload, per) && frameType < 16
      && (forall i | i in order :: i < Total())
    }

    predicate Arrives() { forall i | 0 <= i < Total() :: i in order }

    function Frame(): ReassembledFrame { ReassembledFrame(frameType, payload) }
  }

  /** A payload that can be chunked, with the chunk numbers that arrive before the next payload's do: some
      may be lost, and what arrives again after the frame is complete is a late duplicate. */
  type Sending = s: Shipment | s.Valid() witness Shipment([0], 1, 0, [0])

  function Data(s: Sending, i: nat): bytes
    requires i < s.Total()
  {
    StartOfChunk(|s.payload|, s.per, i);
    Slice(s.payload, s.per, i)
  }

  function Part(s: Sending, i: nat): Parsed
    requires i < s.Total()
  {
    Parsed(s.frameType, i, s.Total(), Data(s, i))
  }

  function Wire(s: Sending): seq<bytes> { Chunks(s.payload, s.per, s.frameType) }

  /** The chunks with the numbers in `order`. */
  function Pick(chunks: seq<bytes>, order: seq<nat>): seq<bytes> {
    if order == [] then []
    else (if order[0] < |chunks| then [chunks[order[0]]] else []) + Pick(chunks, order[1..])
  }

  function AllArrivals(sendings: seq<Sending>): seq<bytes> {
    if sendings == [] then [] else Pick(Wire(sendings[0]), sendings[0].order) + AllArrivals(sendings[1..])
  }

  function Contents(sendings: seq<Sending>): seq<ReassembledFrame> {
    if sendings == [] then [] else [sendings[0].Frame()] + Contents(sendings[1..])
  }

  /** What each sending yields when the reader gets to its chunks. */
  function Yields(st: State, sendings: seq<Sending>): seq<seq<ReassembledFrame>>
    decreases |sendings|
  {
    if sendings == [] then []
    else
      var (st', frames) := Read(st, Pick(Wire(sendings[0]), sendings[0].order));
      [frames] + Yields(st', sendings[1..])
  }

  /** Exactly its own frame each. */
  function OwnFrames(sendings: seq<Sending>): seq<seq<ReassembledFrame>> {
    if sendings == [] then [] else [[sendings[0].Frame()]] + OwnFrames(sendings[1..])
  }

  function Flat(frames: seq<seq<ReassembledFrame>>): seq<ReassembledFrame> {
    if frames == [] then [] else frames[0] + Flat(frames[1..])
  }

  // ----- Which numbers are there: the condition -----

  ghost predicate Covers(have: set<nat>, total: nat) { forall i: nat | i < total :: i in have }

  /** How often the numbers `have` grow to all of 0..total-1 as those in `order` arrive. */
  ghost function Completions(have: set<nat>, total: nat, order: seq<nat>): nat
    decreases |order|
  {
    if order == [] then 0
    else if Covers(have + {order[0]}, total) then 1 + Completions({}, total, order[1..])
    else Completions(have + {order[0]}, total, order[1..])
  }

  /** The numbers that are left over at the end. */
  ghost function LeftOver(have: set<nat>, total: nat, order: seq<nat>): set<nat>
    decreases |order|
  {
    if order == [] then have
    else if Covers(have + {order[0]}, total) then LeftOver({}, total, order[1..])
    else LeftOver(have + {order[0]}, total, order[1..])
  }

  /** Slots by number. */
  type Pile = map<nat, bytes>

  function PartsAt(s: Sending, have: set<nat>): Pile
  {
    map i | i in have && i < s.Total() :: Data(s, i)
  }

  /** The slots of the next frame: its own parts, except where a left-over part got there first. */
  function Mixed(pile: Pile, s: Sending): Pile
  {
    map i: nat | i < s.Total() :: if i in pile then pile[i] else Data(s, i)
  }

  function Joint(pile: Pile, n: nat): bytes
    requires forall i: nat | i < n :: i in pile
  {
    if n == 0 then [] else Joint(pile, n - 1) + pile[n - 1]
  }

  /** Nothing is left over, or it is of a frame of the same total and type. */
  predicate Compatible(last: Sending, empty: bool, s: Sending) {
    empty || (last.Total() == s.Total() && last.frameType == s.frameType)
  }

  /** Parts of a frame of another kind make the reader refuse the first chunk, and empty its slots. */
  function AfterRefusal(order: seq<nat>): seq<nat> { if order == [] then [] else order[1..] }

  /** When a stream goes through, given the parts `have` of `last` that are left over: each frame completes
      once, and nothing left over gets into a frame it changes. */
  ghost predicate GoesThrough(last: Sending, have: set<nat>, sendings: seq<Sending>)
    decreases |sendings|
  {
    sendings == [] ||
      (var s := sendings[0];
       if Compatible(last, have == {}, s) then
         && Joint(Mixed(PartsAt(last, have), s), s.Total()) == s.payload
         && Completions(have, s.Total(), s.order) == 1
         && GoesThrough(s, LeftOver(have, s.Total(), s.order), sendings[1..])
       else
         && Completions({}, s.Total(), AfterRefusal(s.order)) == 1
         && GoesThrough(s, LeftOver({}, s.Total(), AfterRefusal(s.order)), sendings[1..]))
  }

  // ----- The slots as chunks arrive -----

  function Put(pile: Pile, s: Sending, i: nat): Pile
    requires i < s.Total()
  {
    if i in pile then pile else pile[i := Data(s, i)]
  }

  /** The slots and the payloads of the completed frames once the numbers in `order` have arrived. */
  ghost function Feed(pile: Pile, s: Sending, order: seq<nat>): (Pile, seq<bytes>)
    requires forall i | i in order :: i < s.Total()
    decreases |order|
  {
    if order == [] then (pile, [])
    else
      assert order[0] in order;
      assert forall i | i in order[1..] :: i in order;
      var put := Put(pile, s, order[0]);
      if Covers(put.Keys, s.Total())
      then var (end, out) := Feed(map[], s, order[1..]); (end, [Joint(put, s.Total())] + out)
      else Feed(put, s, order[1..])
  }

  /** The same for a sending after slots of the frame of `last`. */
  ghost function FeedAfter(last: Sending, pile: Pile, s: Sending): (Pile, seq<bytes>) {
    assert forall i | i in AfterRefusal(s.order) :: i in s.order;
    if Compatible(last, pile == map[], s) then Feed(pile, s, s.order) else Feed(map[], s, AfterRefusal(s.order))
  }

  /** What a stream yields, told from the numbers that arrive and the slots they fill. */
  ghost function Foretold(last: Sending, pile: Pile, sendings: seq<Sending>): seq<seq<ReassembledFrame>>
    decreases |sendings|
  {
    if sendings == [] then []
    else if sendings[0].order == [] then [[]] + Foretold(last, pile, sendings[1..])
    else
      var (end, out) := FeedAfter(last, pile, sendings[0]);
      [AsFrames(sendings[0].frameType, out)] + Foretold(sendings[0], end, sendings[1..])
  }

  lemma {:induction false} FeedCounts(pile: Pile, s: Sending, order: seq<nat>)
    requires forall i | i in order :: i < s.Total()
    ensures |Feed(pile, s, order).1| == Completions(pile.Keys, s.Total(), order)
    ensures Feed(pile, s, order).0.Keys == LeftOver(pile.Keys, s.Total(), order)
    decreases |order|
  {
    if order != [] {
      assert order[0] in order;
      assert forall i | i in order[1..] :: i in order;
      var put := Put(pile, s, order[0]);
      assert put.Keys == pile.Keys + {order[0]};
      var none: Pile := map[];
      assert none.Keys == {};
      FeedCounts(if Covers(put.Keys, s.Total()) then none else put, s, order[1..]);
    }
  }

  ghost predicate IsOf(pile: Pile, s: Sending)
  {
    forall i | i in pile :: i < s.Total() && pile[i] == Data(s, i)
  }

  /** Once a frame is complete only parts of this payload are left. */
  lemma {:induction false} FeedLeavesItsOwn(pile: Pile, s: Sending, order: seq<nat>)
    requires forall i | i in order :: i < s.Total()
    requires IsOf(pile, s) || Completions(pile.Keys, s.Total(), order) >= 1
    ensures IsOf(Feed(pile, s, order).0, s)
    decreases |order|
  {
    if order != [] {
      assert order[0] in order;
      assert forall i | i in order[1..] :: i in order;
      var put := Put(pile, s, order[0]);
      assert put.Keys == pile.Keys + {order[0]};
      FeedLeavesItsOwn(if Covers(put.Keys, s.Total()) then map[] else put, s, order[1..]);
    }
  }

  lemma {:induction false} JointOfSame(a: Pile, b: Pile, n: nat)
    requires forall i: nat | i < n :: i in a && i in b && a[i] == b[i]
    ensures Joint(a, n) == Joint(b, n)
  {
    if n > 0 { JointOfSame(a, b, n - 1); }
  }

  /** The first frame completed is the mixture. */
  lemma {:induction false} FirstIsMixed(pile: Pile, s: Sending, order: seq<nat>)
    requires forall i | i in order :: i < s.Total()
    requires Completions(pile.Keys, s.Total(), order) >= 1
    ensures var out := Feed(pile, s, order).1; out != [] && out[0] == Joint(Mixed(pile, s), s.Total())
    decreases |order|
  {
    assert order[0] in order;
    assert forall i | i in order[1..] :: i in order;
    var put := Put(pile, s, order[0]);
    assert put.Keys == pile.Keys + {order[0]};
    if Covers(put.Keys, s.Total()) {
      JointOfSame(put, Mixed(pile, s), s.Total());
    } else {
      FirstIsMixed(put, s, order[1..]);
      JointOfSame(Mixed(put, s), Mixed(pile, s), s.Total());
    }
  }

  // ----- The reassembler against the slots -----

  /** A reassembler state that stands for the slots `pile` of a frame like that of `s`. */
  ghost predicate Piled(st: State, hs: seq<Parsed>, s: Sending, pile: Pile) {
    && Tracks(st, hs) && !Covers(pile.Keys, s.Total())
    && (hs == [] <==> pile == map[])
    && (hs != [] ==> hs[0].total == s.Total() && hs[0].frameType == s.frameType)
    && (forall i: nat :: FirstData(hs, i) == if i in pile then Some(pile[i]) else None)
    && (forall i | i in pile :: i < s.Total())
  }

  lemma TotalIsSmall(s: Sending)
    ensures 1 <= s.Total() <= MAX_CHUNKS
  {
    TotalIs(|s.payload|, s.per);
  }

  lemma {:induction false} JointInOrder(hs: seq<Parsed>, pile: Pile, n: nat)
    requires forall i: nat | i < n :: i in pile && FirstData(hs, i) == Some(pile[i])
    ensures Joint(pile, n) == InOrder(hs, n)
  {
    if n > 0 { JointInOrder(hs, pile, n - 1); }
  }

  lemma FirstDataOfPut(hs: seq<Parsed>, s: Sending, pile: Pile, i: nat)
    requires i < s.Total() && forall j: nat :: FirstData(hs, j) == if j in pile then Some(pile[j]) else None
    ensures forall j: nat :: FirstData(hs + [Part(s, i)], j) == if j in Put(pile, s, i) then Some(Put(pile, s, i)[j]) else None
  {
    assert (hs + [Part(s, i)])[..|hs|] == hs;
  }

  lemma SameFrameAfter(st: State, hs: seq<Parsed>, s: Sending, pile: Pile, i: nat)
    requires Piled(st, hs, s, pile) && i < s.Total()
    ensures SameFrame(hs + [Part(s, i)]) && (hs + [Part(s, i)])[0].total == s.Total()
    ensures (hs + [Part(s, i)])[0].frameType == s.frameType
  {
    SameFrameGrows(hs, Part(s, i));
  }

  /** A frame comes exactly when the slots are full. */
  lemma PartAccepted(st: State, hs: seq<Parsed>, s: Sending, pile: Pile, i: nat, result: (State, Answer))
    requires Piled(st, hs, s, pile) && i < s.Total() && result == Accept(st, Part(s, i))
    ensures var put := Put(pile, s, i);
            if Covers(put.Keys, s.Total())
            then result == (EMPTY, Ok(Some(ReassembledFrame(s.frameType, Joint(put, s.Total())))))
            else result.1 == Ok(None) && Piled(result.0, hs + [Part(s, i)], s, put)
  {
    var hs', put := hs + [Part(s, i)], Put(pile, s, i);
    TotalIsSmall(s);
    OneChunk(st, hs, Part(s, i));
    SameFrameAfter(st, hs, s, pile, i);
    FirstDataOfPut(hs, s, pile, i);
    FullOrNot(hs', put, s, result, st, Part(s, i));
  }

  lemma FullOrNot(hs: seq<Parsed>, put: Pile, s: Sending, result: (State, Answer), st: State, c: Parsed)
    requires Answers(st, c, hs, result) && c.total == s.Total() && hs != []
    requires SameFrame(hs) && hs[0].total == s.Total() && hs[0].frameType == s.frameType
    requires forall j: nat :: FirstData(hs, j) == if j in put then Some(put[j]) else None
    requires put != map[] && forall j | j in put :: j < s.Total()
    ensures if Covers(put.Keys, s.Total())
            then result == (EMPTY, Ok(Some(ReassembledFrame(s.frameType, Joint(put, s.Total())))))
            else result.1 == Ok(None) && Piled(result.0, hs, s, put)
  {
    if result.1 == Ok(None) {
      if Covers(put.Keys, s.Total()) {
        forall i: nat | i < s.Total() ensures SlotAt(result.0.slots, i).Some? { assert FirstData(hs, i).Some?; }
        EnoughFilled(result.0.slots, s.Total());
      }
    } else if result.1.Ok? {
      JointInOrder(hs, put, s.Total());
    }
  }

  lemma {:induction false} EnoughFilled(slots: Slots, n: nat)
    requires n <= |slots| && forall i: nat | i < n :: SlotAt(slots, i).Some?
    ensures Filled(slots) >= n
  {
    if |slots| > 0 {
      var m := |slots| - 1;
      forall i: nat | i < Min(n, m) ensures SlotAt(slots[..m], i).Some? { assert SlotAt(slots, i).Some?; }
      EnoughFilled(slots[..m], Min(n, m));
      if n == |slots| { assert SlotAt(slots, m).Some?; }
    }
  }

  lemma PushIsAccept(st: State, s: Sending, i: nat)
    requires i < s.Total()
    ensures |Wire(s)| == s.Total() && Push(st, Wire(s)[i]) == Accept(st, Part(s, i))
  {
    TotalIs(|s.payload|, s.per);
    ChunkParses(s.payload, s.per, s.frameType, i);
    assert |Data(s, i)| <= 255;
  }

  // ----- Reading -----

  function AsFrames(frameType: nat, payloads: seq<bytes>): (frames: seq<ReassembledFrame>)
    ensures |frames| == |payloads|
    ensures forall i | 0 <= i < |payloads| :: frames[i] == ReassembledFrame(frameType, payloads[i])
  {
    if payloads == [] then [] else [ReassembledFrame(frameType, payloads[0])] + AsFrames(frameType, payloads[1..])
  }

  lemma NothingPiled(s: Sending)
    ensures Piled(EMPTY, [], s, map[])
  {
    TotalIsSmall(s);
    var none: Pile := map[];
    assert 0 !in none;
  }

  lemma ReadFirst(st: State, chunk: bytes, rest: seq<bytes>)
    ensures var (st', answer) := Push(st, chunk);
            var (end, more) := Read(if answer.Err? then EMPTY else st', rest);
            Read(st, [chunk] + rest) == (end, (if answer.Ok? then AsSeq(answer.value) else []) + more)
  {
    assert ([chunk] + rest)[1..] == rest;
    assert [] + Read(EMPTY, rest).1 == Read(EMPTY, rest).1;
  }

  /** One arrival. */
  lemma ArrivalReads(st: State, hs: seq<Parsed>, s: Sending, pile: Pile, i: nat) returns (st': State, hs': seq<Parsed>)
    requires Piled(st, hs, s, pile) && i < s.Total()
    ensures |Wire(s)| == s.Total()
    ensures var put := Put(pile, s, i);
            if Covers(put.Keys, s.Total())
            then Piled(st', hs', s, map[]) && Push(st, Wire(s)[i]) == (st', Ok(Some(ReassembledFrame(s.frameType, Joint(put, s.Total())))))
            else Piled(st', hs', s, put) && Push(st, Wire(s)[i]) == (st', Ok(None))
  {
    PushIsAccept(st, s, i);
    var result := Accept(st, Part(s, i));
    PartAccepted(st, hs, s, pile, i, result);
    st' := result.0;
    if Covers(Put(pile, s, i).Keys, s.Total()) {
      hs' := [];
      NothingPiled(s);
    } else {
      hs' := hs + [Part(s, i)];
    }
  }

  /** The arrivals of one sending yield what its slots yield. */
  lemma {:induction false} FeedReads(st: State, hs: seq<Parsed>, s: Sending, pile: Pile, order: seq<nat>)
    returns (st': State, hs': seq<Parsed>)
    requires Piled(st, hs, s, pile) && forall i | i in order :: i < s.Total()
    ensures var (end, out) := Feed(pile, s, order);
            Piled(st', hs', s, end) && Read(st, Pick(Wire(s), order)) == (st', AsFrames(s.frameType, out))
    decreases |order|
  {
    if order == [] {
      st', hs' := st, hs;
    } else {
      assert order[0] in order;
      assert forall i | i in order[1..] :: i in order;
      var put := Put(pile, s, order[0]);
      var st1, hs1 := ArrivalReads(st, hs, s, pile, order[0]);
      ReadFirst(st, Wire(s)[order[0]], Pick(Wire(s), order[1..]));
      if Covers(put.Keys, s.Total()) {
        st', hs' := FeedReads(st1, hs1, s, map[], order[1..]);
        OneMoreFrame(s.frameType, Joint(put, s.Total()), Feed(map[], s, order[1..]).1);
      } else {
        st', hs' := FeedReads(st1, hs1, s, put, order[1..]);
        assert AsSeq(None) + AsFrames(s.frameType, Feed(put, s, order[1..]).1) == AsFrames(s.frameType, Feed(put, s, order[1..]).1);
      }
    }
  }

  lemma OneMoreFrame(frameType: nat, payload: bytes, out: seq<bytes>)
    ensures [ReassembledFrame(frameType, payload)] + AsFrames(frameType, out) == AsFrames(frameType, [payload] + out)
  {
    assert ([payload] + out)[1..] == out;
  }

  lemma KindsDiffer(st: State, hs: seq<Parsed>, c: Parsed)
    requires Tracks(st, hs) && hs != [] && (hs[0].total != c.total || hs[0].frameType != c.frameType)
    requires 1 <= c.total <= MAX_CHUNKS && c.number < MAX_CHUNKS && hs[0].total >= 1
    ensures Accept(st, c).1.Err?
  {
  }

  /** After parts of a frame of another total or type the first chunk is refused, and the rest read afresh. */
  lemma OtherKindIsRefused(st: State, hs: seq<Parsed>, last: Sending, pile: Pile, s: Sending)
    requires Piled(st, hs, last, pile) && !Compatible(last, pile == map[], s) && s.order != []
    ensures Read(st, Pick(Wire(s), s.order)) == Read(EMPTY, Pick(Wire(s), s.order[1..]))
  {
    var i := s.order[0];
    assert i in s.order;
    TotalIsSmall(s);
    PushIsAccept(st, s, i);
    KindsDiffer(st, hs, Part(s, i));
    ReadFirst(st, Wire(s)[i], Pick(Wire(s), s.order[1..]));
  }

  lemma NextOfItsKind(st: State, hs: seq<Parsed>, last: Sending, s: Sending, pile: Pile)
    requires Piled(st, hs, last, pile) && Compatible(last, pile == map[], s)
    ensures Piled(st, hs, s, pile)
  {
    if pile == map[] { NothingPiled(s); }
  }

  /** One sending, whatever is left over before it. */
  lemma OneSending(st: State, hs: seq<Parsed>, last: Sending, pile: Pile, s: Sending) returns (st': State, hs': seq<Parsed>)
    requires Piled(st, hs, last, pile) && s.order != []
    ensures var (end, out) := FeedAfter(last, pile, s);
            Piled(st', hs', s, end) && Read(st, Pick(Wire(s), s.order)) == (st', AsFrames(s.frameType, out))
  {
    if Compatible(last, pile == map[], s) {
      NextOfItsKind(st, hs, last, s, pile);
      st', hs' := FeedReads(st, hs, s, pile, s.order);
    } else {
      OtherKindIsRefused(st, hs, last, pile, s);
      NothingPiled(s);
      assert forall i | i in s.order[1..] :: i in s.order;
      st', hs' := FeedReads(EMPTY, [], s, map[], s.order[1..]);
    }
  }

  /** The reader on any stream of sendings yields what the numbers foretell. */
  lemma {:induction false} StreamIsForetold(st: State, hs: seq<Parsed>, last: Sending, pile: Pile, sendings: seq<Sending>)
    requires Piled(st, hs, last, pile)
    ensures Yields(st, sendings) == Foretold(last, pile, sendings)
    decreases |sendings|
  {
    if sendings != [] {
      var s := sendings[0];
      if s.order == [] {
        StreamIsForetold(st, hs, last, pile, sendings[1..]);
      } else {
        var st', hs' := OneSending(st, hs, last, pile, s);
        StreamIsForetold(st', hs', s, FeedAfter(last, pile, s).0, sendings[1..]);
      }
    }
  }

  /** Over the whole stream. */
  lemma {:induction false} ReadIsFlat(st: State, sendings: seq<Sending>)
    ensures Read(st, AllArrivals(sendings)).1 == Flat(Yields(st, sendings))
    decreases |sendings|
  {
    if sendings != [] {
      var first := Pick(Wire(sendings[0]), sendings[0].order);
      ReadOn(st, first, AllArrivals(sendings[1..]));
      ReadIsFlat(Read(st, first).0, sendings[1..]);
    }
  }

  // ----- The round trip -----

  /** Its own parts in order are the payload. */
  lemma {:induction false} OwnParts(s: Sending, n: nat, end: nat)
    requires n <= s.Total() && end == n * s.per
    ensures Joint(Mixed(map[], s), n) == s.payload[..Min(end, |s.payload|)]
  {
    if n > 0 {
      var from := end - s.per;
      assert from == (n - 1) * s.per;
      OwnParts(s, n - 1, from);
      StartOfChunk(|s.payload|, s.per, n - 1);
      assert Data(s, n - 1) == s.payload[from..Min(from + s.per, |s.payload|)];
      SlicesJoin(s.payload, from, s.per, end);
    }
  }

  lemma SlicesJoin(payload: bytes, from: nat, per: nat, to: nat)
    requires from < |payload| && to == from + per
    ensures payload[..Min(from, |payload|)] + payload[from..Min(from + per, |payload|)] == payload[..Min(to, |payload|)]
  {
  }

  lemma OwnPartsMakeThePayload(s: Sending)
    ensures Joint(Mixed(map[], s), s.Total()) == s.payload
  {
    TotalIs(|s.payload|, s.per);
    OwnParts(s, s.Total(), s.Total() * s.per);
    assert s.payload[..|s.payload|] == s.payload;
  }

  ghost predicate Numbers(have: set<nat>, s: Sending) { forall i | i in have :: i < s.Total() }

  lemma OnlyItsOwn(pile: Pile, s: Sending)
    requires IsOf(pile, s)
    ensures Numbers(pile.Keys, s) && pile == PartsAt(s, pile.Keys)
  {
  }

  /** Some slots, and then the numbers in `order`: the frame sent comes, and nothing else, exactly when
      one frame completes and the slots do not change it. */
  lemma FeedIsExact(pile: Pile, s: Sending, order: seq<nat>)
    requires forall i | i in order :: i < s.Total()
    ensures var (end, out) := Feed(pile, s, order);
            var left := LeftOver(pile.Keys, s.Total(), order);
            && (out == [s.payload] <==> Completions(pile.Keys, s.Total(), order) == 1 && Joint(Mixed(pile, s), s.Total()) == s.payload)
            && (out == [s.payload] ==> Numbers(left, s) && end == PartsAt(s, left))
  {
    FeedCounts(pile, s, order);
    if Completions(pile.Keys, s.Total(), order) == 1 {
      var (end, out) := Feed(pile, s, order);
      FirstIsMixed(pile, s, order);
      FeedLeavesItsOwn(pile, s, order);
      OnlyItsOwn(end, s);
      assert out == [out[0]];
    }
  }

  lemma OneFrameIs(s: Sending, out: seq<bytes>)
    ensures AsFrames(s.frameType, out) == [s.Frame()] <==> out == [s.payload]
  {
    if |out| == 1 {
      assert AsFrames(s.frameType, out)[0] == ReassembledFrame(s.frameType, out[0]);
    }
    assert out == [s.payload] ==> AsFrames(s.frameType, out) == [s.Frame()];
  }

  lemma FirstOfEach(a: seq<ReassembledFrame>, b: seq<ReassembledFrame>, more: seq<seq<ReassembledFrame>>, others: seq<seq<ReassembledFrame>>)
    ensures [a] + more == [b] + others <==> a == b && more == others
  {
    assert ([a] + more)[0] == a && ([a] + more)[1..] == more;
    assert ([b] + others)[0] == b && ([b] + others)[1..] == others;
  }

  lemma {:induction false} ForetoldIsExact(last: Sending, have: set<nat>, sendings: seq<Sending>)
    requires Numbers(have, last)
    ensures Foretold(last, PartsAt(last, have), sendings) == OwnFrames(sendings) <==> GoesThrough(last, have, sendings)
    decreases |sendings|
  {
    if sendings != [] {
      var s, tail, pile := sendings[0], sendings[1..], PartsAt(last, have);
      assert pile.Keys == have;
      if s.order != [] {
        var fits := Compatible(last, pile == map[], s);
        assert pile == map[] <==> have == {} by { if have != {} { var i :| i in have; assert i in pile; } }
        var slots: Pile, order := if fits then pile else map[], if fits then s.order else s.order[1..];
        assert forall i | i in order :: i in s.order;
        var none: Pile := map[];
        assert none.Keys == {};
        FeedIsExact(slots, s, order);
        if !fits { OwnPartsMakeThePayload(s); }
        var (end, out) := Feed(slots, s, order);
        var left := LeftOver(slots.Keys, s.Total(), order);
        OneFrameIs(s, out);
        FirstOfEach(AsFrames(s.frameType, out), [s.Frame()], Foretold(s, end, tail), OwnFrames(tail));
        if out == [s.payload] { ForetoldIsExact(s, left, tail); }
      }
    }
  }

  lemma {:induction false} OwnFramesAreTheContents(sendings: seq<Sending>)
    ensures Flat(OwnFrames(sendings)) == Contents(sendings)
  {
    if sendings != [] { OwnFramesAreTheContents(sendings[1..]); }
  }

  /** The round trip, with losses and with duplicates early and late: each sending yields its own frame and
      nothing else if and only if every frame completes once and no left-over part changes a later one;
      and then the stream reads as the list sent. */
  lemma StreamRoundTrip(sendings: seq<Sending>)
    requires sendings != []
    ensures Yields(EMPTY, sendings) == OwnFrames(sendings) <==> GoesThrough(sendings[0], {}, sendings)
    ensures GoesThrough(sendings[0], {}, sendings) ==> Read(EMPTY, AllArrivals(sendings)).1 == Contents(sendings)
  {
    var none: Pile := map[];
    assert PartsAt(sendings[0], {}) == none;
    NothingPiled(sendings[0]);
    StreamIsForetold(EMPTY, [], sendings[0], none, sendings);
    ForetoldIsExact(sendings[0], {}, sendings);
    ReadIsFlat(EMPTY, sendings);
    OwnFramesAreTheContents(sendings);
  }

  lemma {:induction false} AsManyContents(sendings: seq<Sending>)
    ensures |Contents(sendings)| == |sendings|
  {
    if sendings != [] { AsManyContents(sendings[1..]); }
  }

  // ----- The list as a whole -----

  ghost predicate NoneTwice(frames: seq<seq<ReassembledFrame>>) { forall k | 0 <= k < |frames| :: |frames[k]| <= 1 }

  ghost predicate NoneLost(frames: seq<seq<ReassembledFrame>>) { forall k | 0 <= k < |frames| :: |frames[k]| >= 1 }

  lemma {:induction false} AtMostOneEach(frames: seq<seq<ReassembledFrame>>, sendings: seq<Sending>)
    requires NoneTwice(frames) && |frames| == |sendings|
    ensures |Flat(frames)| <= |frames| && (Flat(frames) == Contents(sendings) ==> frames == OwnFrames(sendings))
    decreases |frames|
  {
    AsManyContents(sendings);
    if frames != [] {
      var first, rest := frames[0], frames[1..];
      assert forall k | 0 <= k < |rest| :: rest[k] == frames[k + 1];
      AtMostOneEach(rest, sendings[1..]);
      if Flat(frames) == Contents(sendings) { SameFirst(first, Flat(rest), sendings[0].Frame(), Contents(sendings[1..])); }
    }
  }

  lemma {:induction false} AtLeastOneEach(frames: seq<seq<ReassembledFrame>>, sendings: seq<Sending>)
    requires NoneLost(frames) && |frames| == |sendings|
    ensures |Flat(frames)| >= |frames| && (Flat(frames) == Contents(sendings) ==> frames == OwnFrames(sendings))
    decreases |frames|
  {
    AsManyContents(sendings);
    if frames != [] {
      var first, rest := frames[0], frames[1..];
      assert forall k | 0 <= k < |rest| :: rest[k] == frames[k + 1];
      AtLeastOneEach(rest, sendings[1..]);
      AsManyContents(sendings[1..]);
      if Flat(frames) == Contents(sendings) { SameFirst(first, Flat(rest), sendings[0].Frame(), Contents(sendings[1..])); }
    }
  }

  lemma SameFirst(first: seq<ReassembledFrame>, rest: seq<ReassembledFrame>, frame: ReassembledFrame, others: seq<ReassembledFrame>)
    requires |first| == 1 && first + rest == [frame] + others
    ensures first == [frame] && rest == others
  {
    assert (first + rest)[0] == first[0] && (first + rest)[1..] == rest;
    assert ([frame] + others)[0] == frame && ([frame] + others)[1..] == others;
  }

  lemma {:induction false} AsManyYields(st: State, sendings: seq<Sending>)
    ensures |Yields(st, sendings)| == |sendings|
    decreases |sendings|
  {
    if sendings != [] { AsManyYields(Read(st, Pick(Wire(sendings[0]), sendings[0].order)).0, sendings[1..]); }
  }

  /** The whole list is right exactly when the numbers foretell it. Where it is right although the stream
      does not go through, one frame was lost and another came more than once in its place. */
  lemma ListIsRightExactly(sendings: seq<Sending>)
    requires sendings != []
    ensures var right := Read(EMPTY, AllArrivals(sendings)).1 == Contents(sendings);
            var foretold := Foretold(sendings[0], map[], sendings);
            && (right <==> Flat(foretold) == Contents(sendings))
            && (right ==> GoesThrough(sendings[0], {}, sendings) || (!NoneLost(foretold) && !NoneTwice(foretold)))
  {
    var none: Pile := map[];
    NothingPiled(sendings[0]);
    StreamIsForetold(EMPTY, [], sendings[0], none, sendings);
    ReadIsFlat(EMPTY, sendings);
    AsManyYields(EMPTY, sendings);
    StreamRoundTrip(sendings);
    var foretold := Foretold(sendings[0], none, sendings);
    if NoneTwice(foretold) { AtMostOneEach(foretold, sendings); }
    if NoneLost(foretold) { AtLeastOneEach(foretold, sendings); }
  }

  /** No chunk arrives twice. */
  predicate Distinct(order: seq<nat>) { forall i, j | 0 <= i < j < |order| :: order[i] != order[j] }

  lemma {:induction false} NeverCompletes(have: set<nat>, total: nat, order: seq<nat>, missing: nat)
    requires missing < total && missing !in have && missing !in order
    ensures Completions(have, total, order) == 0
    decreases |order|
  {
    if order != [] {
      assert order == [order[0]] + order[1..];
      NeverCompletes(have + {order[0]}, total, order[1..], missing);
    }
  }

  lemma {:induction false} CompletesAtMostOnce(have: set<nat>, total: nat, order: seq<nat>)
    requires Distinct(order) && forall i | i in order :: i < total
    ensures Completions(have, total, order) <= 1
    decreases |order|
  {
    if order != [] {
      assert order[0] in order && order == [order[0]] + order[1..];
      forall i | i in order[1..] ensures i < total && i != order[0] {
        var k :| 0 <= k < |order| - 1 && order[1..][k] == i;
        assert order[k + 1] == i && order[k + 1] in order && order[0] != order[k + 1];
      }
      assert forall i, j | 0 <= i < j < |order| - 1 :: order[1..][i] == order[i + 1] && order[1..][j] == order[j + 1];
      if Covers(have + {order[0]}, total) {
        NeverCompletes({}, total, order[1..], order[0]);
      } else {
        CompletesAtMostOnce(have + {order[0]}, total, order[1..]);
      }
    }
  }

  lemma FedAtMostOnce(last: Sending, pile: Pile, s: Sending)
    requires Distinct(s.order)
    ensures |FeedAfter(last, pile, s).1| <= 1
  {
    var none: Pile := map[];
    assert none.Keys == {};
    var order := AfterRefusal(s.order);
    assert forall i | i in order :: i in s.order;
    assert forall i | 0 <= i < |order| :: order[i] == s.order[i + 1];
    FeedCounts(pile, s, s.order);
    CompletesAtMostOnce(pile.Keys, s.Total(), s.order);
    FeedCounts(none, s, order);
    CompletesAtMostOnce({}, s.Total(), order);
  }

  lemma {:induction false} ForetoldAtMostOnce(last: Sending, pile: Pile, sendings: seq<Sending>)
    requires forall s | s in sendings :: Distinct(s.order)
    ensures NoneTwice(Foretold(last, pile, sendings))
    decreases |sendings|
  {
    if sendings != [] {
      var s := sendings[0];
      assert s in sendings && forall x | x in sendings[1..] :: x in sendings;
      if s.order == [] {
        ForetoldAtMostOnce(last, pile, sendings[1..]);
      } else {
        FedAtMostOnce(last, pile, s);
        ForetoldAtMostOnce(s, FeedAfter(last, pile, s).0, sendings[1..]);
      }
    }
  }

  /** So without duplicates, whatever is lost or reordered, the list is right if and only if the stream
      goes through. */
  lemma WithoutDuplicates(sendings: seq<Sending>)
    requires sendings != [] && forall s | s in sendings :: Distinct(s.order)
    ensures Read(EMPTY, AllArrivals(sendings)).1 == Contents(sendings) <==> GoesThrough(sendings[0], {}, sendings)
  {
    ForetoldAtMostOnce(sendings[0], map[], sendings);
    ListIsRightExactly(sendings);
    StreamRoundTrip(sendings);
  }

  lemma ForetoldTwice(s: Sending, t: Sending)
    requires s.order == [] && t.order == [0, 0] && t.Total() == 1
    ensures Foretold(s, map[], [s, t]) == [[], AsFrames(t.frameType, [t.payload, t.payload])]
  {
    var both: seq<Sending>, last: seq<Sending>, none: Pile := [s, t], [t], map[];
    assert both[1..] == last && last[1..] == [];
    OneChunkTwice(t);
    assert FeedAfter(s, none, t) == (none, [t.payload, t.payload]);
    assert Foretold(t, none, []) == [];
    assert Foretold(s, none, last) == [AsFrames(t.frameType, [t.payload, t.payload])];
  }

  lemma OneChunkTwice(t: Sending)
    requires t.order == [0, 0] && t.Total() == 1
    ensures Feed(map[], t, t.order) == (map[], [t.payload, t.payload])
  {
    var none: Pile := map[];
    var put := Put(none, t, 0);
    OwnPartsMakeThePayload(t);
    JointOfSame(put, Mixed(none, t), 1);
    assert Covers(put.Keys, 1);
    FeedNext(none, t, 0, []);
    FeedNext(none, t, 0, [0]);
    assert [0] + [0] == [0, 0] && [0] + [] == [0];
    assert [t.payload] + [t.payload] == [t.payload, t.payload] && [t.payload] + [] == [t.payload];
  }

  lemma FlatTwo(a: seq<ReassembledFrame>, b: seq<ReassembledFrame>)
    ensures Flat([a, b]) == a + b
  {
    assert [a, b][1..] == [b] && [b][1..] == [];
    assert Flat([b]) == b + Flat([]);
  }

  /** With them it can be right by chance: a frame of one chunk is lost, and the next, with the same payload,
      comes twice. */
  lemma RightByChance(s: Sending, t: Sending)
    requires s.payload == t.payload && s.frameType == t.frameType && s.order == [] && t.order == [0, 0] && t.Total() == 1
    ensures Read(EMPTY, AllArrivals([s, t])).1 == Contents([s, t]) && !GoesThrough(s, {}, [s, t])
  {
    var both: seq<Sending>, last: seq<Sending> := [s, t], [t];
    assert both[1..] == last && last[1..] == [];
    ForetoldTwice(s, t);
    FlatTwo([], AsFrames(t.frameType, [t.payload, t.payload]));
    assert Contents(last) == [t.Frame()] && Contents(both) == [s.Frame(), t.Frame()];
    ListIsRightExactly(both);
  }

  // ----- Without late duplicates, and with one -----

  /** The last arrival is the one that was still missing. */
  predicate EndsComplete(s: Sending) { s.Arrives() && s.order != [] && s.order[|s.order| - 1] !in s.order[..|s.order| - 1] }

  lemma {:induction false} CompletesAtTheEnd(have: set<nat>, total: nat, order: seq<nat>)
    requires order != [] && (forall i: nat | i < total :: i in have || i in order)
    requires order[|order| - 1] < total && order[|order| - 1] !in have && order[|order| - 1] !in order[..|order| - 1]
    ensures Completions(have, total, order) == 1 && LeftOver(have, total, order) == {}
    decreases |order|
  {
    var last := order[|order| - 1];
    if |order| == 1 {
      assert Covers(have + {order[0]}, total);
      assert order[1..] == [];
    } else {
      assert order == [order[0]] + order[1..];
      assert order[..|order| - 1][0] == order[0] && order[..|order| - 1][1..] == order[1..][..|order| - 2];
      assert last !in have + {order[0]};
      CompletesAtTheEnd(have + {order[0]}, total, order[1..]);
    }
  }

  lemma {:induction false} GoesThroughWithoutLateOnes(last: Sending, sendings: seq<Sending>)
    requires forall s | s in sendings :: EndsComplete(s)
    ensures GoesThrough(last, {}, sendings)
    decreases |sendings|
  {
    if sendings != [] {
      var s := sendings[0];
      assert s in sendings && forall x | x in sendings[1..] :: x in sendings;
      assert s.order[|s.order| - 1] in s.order;
      CompletesAtTheEnd({}, s.Total(), s.order);
      assert PartsAt(last, {}) == map[];
      OwnPartsMakeThePayload(s);
      GoesThroughWithoutLateOnes(s, sendings[1..]);
    }
  }

  /** In particular: chunks in any order, duplicated in any way before the frame is complete. */
  lemma EarlyDuplicatesAreHarmless(sendings: seq<Sending>)
    requires forall s | s in sendings :: EndsComplete(s)
    ensures Read(EMPTY, AllArrivals(sendings)).1 == Contents(sendings)
  {
    if sendings != [] {
      GoesThroughWithoutLateOnes(sendings[0], sendings);
      StreamRoundTrip(sendings);
    }
  }

  function UpFrom(k: nat, n: nat): (order: seq<nat>)
    requires k <= n
    ensures |order| == n - k && forall i | 0 <= i < n - k :: order[i] == k + i
    decreases n - k
  {
    if k == n then [] else [k] + UpFrom(k + 1, n)
  }

  lemma {:induction false} PickInOrder(chunks: seq<bytes>, k: nat)
    requires k <= |chunks|
    ensures Pick(chunks, UpFrom(k, |chunks|)) == chunks[k..]
    decreases |chunks| - k
  {
    if k < |chunks| {
      PickInOrder(chunks, k + 1);
      assert UpFrom(k, |chunks|)[1..] == UpFrom(k + 1, |chunks|);
    }
  }

  /** What the writer produces, the reader reads. */
  lemma ChunksReadBack(payload: bytes, per: nat, frameType: nat)
    requires Fits(payload, per) && frameType < 16
    ensures Read(EMPTY, Chunks(payload, per, frameType)).1 == [ReassembledFrame(frameType, payload)]
  {
    TotalIs(|payload|, per);
    var total := TotalChunks(|payload|, per);
    var shipment := Shipment(payload, per, frameType, UpFrom(0, total));
    forall i: nat | i < total ensures i in shipment.order { assert shipment.order[i] == i; }
    var s: Sending := shipment;
    PickInOrder(Wire(s), 0);
    OnlySending(s, Wire(s));
  }

  lemma OnlySending(s: Sending, wire: seq<bytes>)
    requires EndsComplete(s) && wire == Pick(Wire(s), s.order)
    ensures Read(EMPTY, wire).1 == [s.Frame()]
  {
    EarlyDuplicatesAreHarmless([s]);
    assert AllArrivals([s]) == wire + [] == wire;
    assert Contents([s]) == [s.Frame()];
  }

  /** Two chunks of one byte each. */
  function Pair(a: byte, b: byte, frameType: nat, order: seq<nat>): Shipment { Shipment([a, b], 1, frameType, order) }

  lemma PairIsValid(a: byte, b: byte, frameType: nat, order: seq<nat>)
    requires frameType < 16 && 0 in order && 1 in order && forall i | i in order :: i < 2
    ensures var s := Pair(a, b, frameType, order); s.Valid() && s.Total() == 2 && Data(s, 0) == [a] && Data(s, 1) == [b]
  {
  }

  lemma FeedNext(pile: Pile, s: Sending, i: nat, rest: seq<nat>)
    requires i < s.Total() && forall j | j in rest :: j < s.Total()
    ensures forall j | j in [i] + rest :: j < s.Total()
    ensures var put := Put(pile, s, i);
            Feed(pile, s, [i] + rest) == if Covers(put.Keys, s.Total())
                                         then (Feed(map[], s, rest).0, [Joint(put, s.Total())] + Feed(map[], s, rest).1)
                                         else Feed(put, s, rest)
  {
    assert ([i] + rest)[1..] == rest;
  }

  lemma JointOfTwo(p: bytes, q: bytes)
    ensures Joint(map[0 := p, 1 := q], 2) == p + q
  {
    var pile: Pile := map[0 := p, 1 := q];
    assert Joint(pile, 1) == [] + p == p;
  }

  /** Two slots, the first filled before: by a left-over part or by its own. */
  lemma FillsUp(pile: Pile, s: Sending, rest: seq<nat>)
    requires s.Total() == 2 && pile.Keys == {0} && forall j | j in rest :: j < 2
    ensures Feed(pile, s, [1] + rest) == (Feed(map[], s, rest).0, [pile[0] + Data(s, 1)] + Feed(map[], s, rest).1)
  {
    var put := Put(pile, s, 1);
    assert put == map[0 := pile[0], 1 := Data(s, 1)];
    assert Covers(put.Keys, 2);
    JointOfTwo(pile[0], Data(s, 1));
    FeedNext(pile, s, 1, rest);
  }

  lemma StartsOver(pile: Pile, s: Sending, rest: seq<nat>)
    requires s.Total() == 2 && pile.Keys <= {0} && forall j | j in rest :: j < 2
    ensures Feed(pile, s, [0] + rest) == Feed(if 0 in pile then pile else map[0 := Data(s, 0)], s, rest)
  {
    FeedNext(pile, s, 0, rest);
    var put := Put(pile, s, 0);
    assert put == if 0 in pile then pile else map[0 := Data(s, 0)];
    assert 1 !in put.Keys;
  }

  /** What two such sendings leave in the slots and yield, the first with a late duplicate. */
  lemma PairsFed(s: Sending, t: Sending)
    requires s.Total() == t.Total() == 2
    ensures Feed(map[], s, [0, 1, 0]) == (map[0 := Data(s, 0)], [Data(s, 0) + Data(s, 1)])
    ensures Feed(map[0 := Data(s, 0)], t, [0, 1]) == (map[], [Data(s, 0) + Data(t, 1)])
  {
    var none: Pile, one: Pile := map[], map[0 := Data(s, 0)];
    StartsOver(none, s, [1, 0]);
    FillsUp(one, s, [0]);
    StartsOver(none, s, []);
    assert Feed(one, s, []) == (one, []) && Feed(none, t, []) == (none, []);
    assert [Data(s, 0) + Data(s, 1)] + [] == [Data(s, 0) + Data(s, 1)];
    assert [Data(s, 0) + Data(t, 1)] + [] == [Data(s, 0) + Data(t, 1)];
    assert [0, 1, 0] == [0] + [1, 0] && [1, 0] == [1] + [0] && [0] == [0] + [];
    StartsOver(one, t, [1]);
    FillsUp(one, t, []);
    assert [0, 1] == [0] + [1] && [1] == [1] + [];
  }

  lemma TwoSendings(s: Sending, t: Sending)
    requires s.order == [0, 1, 0] && t.order == [0, 1] && s.Total() == t.Total() == 2 && s.frameType == t.frameType
    ensures Yields(EMPTY, [s, t])
         == [AsFrames(s.frameType, [Data(s, 0) + Data(s, 1)]), AsFrames(s.frameType, [Data(s, 0) + Data(t, 1)])]
  {
    var none: Pile, one: Pile := map[], map[0 := Data(s, 0)];
    PairsFed(s, t);
    NothingPiled(s);
    var two: seq<Sending>, last: seq<Sending> := [s, t], [t];
    assert two[1..] == last && last[1..] == [];
    StreamIsForetold(EMPTY, [], s, none, two);
    assert Foretold(t, none, []) == [];
    assert Foretold(s, one, last) == [AsFrames(s.frameType, [Data(s, 0) + Data(t, 1)])];
  }

  /** A late duplicate that does harm: chunk 0 of (a, b) comes again after the frame is complete, and the
      next frame, of the same total and type, is returned as (a, y) although (x, y) was sent. */
  lemma LateDuplicateSpoilsTheNext(a: byte, b: byte, x: byte, y: byte, frameType: nat)
    requires frameType < 16
    ensures Pair(a, b, frameType, [0, 1, 0]).Valid() && Pair(x, y, frameType, [0, 1]).Valid()
    ensures Yields(EMPTY, [Pair(a, b, frameType, [0, 1, 0]), Pair(x, y, frameType, [0, 1])])
         == [[ReassembledFrame(frameType, [a, b])], [ReassembledFrame(frameType, [a, y])]]
  {
    PairIsValid(a, b, frameType, [0, 1, 0]);
    PairIsValid(x, y, frameType, [0, 1]);
    TwoSendings(Pair(a, b, frameType, [0, 1, 0]), Pair(x, y, frameType, [0, 1]));
    assert [a] + [b] == [a, b] && [a] + [y] == [a, y];
    assert AsFrames(frameType, [[a, b]]) == [ReassembledFrame(frameType, [a, b])];
    assert AsFrames(frameType, [[a, y]]) == [ReassembledFrame(frameType, [a, y])];
  }

  /** After a late duplicate of one chunk of two, a frame of one chunk goes through exactly when its
      chunk comes twice: the first copy is refused. */
  lemma OneChunkAfter(s: Sending, t: Sending)
    requires s.Total() == 2 && t.Total() == 1 && (t.order == [0] || t.order == [0, 0])
    ensures GoesThrough(s, {0}, [t]) <==> t.order == [0, 0]
  {
    assert [0, 0][1..] == [0] && [0][1..] == [];
    assert Covers({} + {0}, 1);
    assert Completions({}, 1, [0]) == 1 && LeftOver({}, 1, [0]) == {} && Completions({}, 1, []) == 0;
  }

  /** A duplicate that makes up for a refusal: the late chunk 0 of (a, b) has the only chunk of the next
      frame refused, and the second copy of that chunk is read. */
  lemma ADuplicateMakesUpForARefusal(s: Sending, t: Sending)
    requires s.order == [0, 1, 0] && s.Total() == 2 && t.Total() == 1 && (t.order == [0] || t.order == [0, 0])
    ensures Yields(EMPTY, [s, t]) == [[s.Frame()], [t.Frame()]] <==> t.order == [0, 0]
  {
    OwnPartsMakeThePayload(s);
    assert PartsAt(s, {}) == map[];
    CountsOfPair();
    OneChunkAfter(s, t);
    var both: seq<Sending>, last: seq<Sending> := [s, t], [t];
    assert both[1..] == last && last[1..] == [];
    assert OwnFrames(last) == [[t.Frame()]] && OwnFrames(both) == [[s.Frame()], [t.Frame()]];
    StreamRoundTrip(both);
  }

  lemma CountsOfPair()
    ensures Completions({}, 2, [0, 1, 0]) == 1 && LeftOver({}, 2, [0, 1, 0]) == {0}
  {
    assert [0, 1, 0][1..] == [1, 0] && [1, 0][1..] == [0] && [0][1..] == [];
    assert 1 !in {} + {0};
    assert !Covers({} + {0}, 2) && Covers({0} + {1}, 2);
    assert {} + {0} == {0};
    assert Completions({0}, 2, [1, 0]) == 1 + Completions({}, 2, [0]);
    assert Completions({}, 2, [0]) == Completions({0}, 2, []);
  }
}
