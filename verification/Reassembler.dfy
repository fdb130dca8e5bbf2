/** The chunk reassembler, and what it returns for any stream of chunks. */
module Reassembler {
  import opened Basics
  import opened Frame

  const MAX_CHUNKS := 16

  /** A chunk that passed the header checks. */
  datatype Parsed = Parsed(frameType: nat, number: nat, total: nat, data: bytes)

  function Parse(chunk: bytes): (r: Result<Parsed, FrameError>)
    ensures r.Ok? ==> r.value.number < MAX_CHUNKS && r.value.total <= MAX_CHUNKS && r.value.frameType < 16
  {
    if |chunk| < FRAME_HEADER_LEN then Err(ChunkTooShort)
    else if chunk[0] != FRAME_MAGIC then Err(BadMagic)
    else if chunk[3] as int != |chunk| - FRAME_HEADER_LEN then Err(LengthMismatch)
    else if chunk[2] > 16 then Err(TotalTooLarge)
    else Ok(Parsed(chunk[1] as int / 16, chunk[1] as int % 16, chunk[2] as int, chunk[FRAME_HEADER_LEN..]))
  }

  type Slots = seq<Option<bytes>>

  /** Reading an array past its end gives undefined; writing there extends it with holes. */
  function SlotAt(slots: Slots, i: nat): Option<bytes> {
    if i < |slots| then slots[i] else None
  }

  function PutSlot(slots: Slots, i: nat, data: bytes): (s: Slots)
    ensures |s| == Max(|slots|, i + 1)
    ensures forall j: nat :: SlotAt(s, j) == if j == i then Some(data) else SlotAt(slots, j)
  {
    if i < |slots| then slots[i := Some(data)]
    else slots + seq(i - |slots|, _ => None) + [Some(data)]
  }

  function Filled(slots: Slots): (n: nat)
    ensures n <= |slots|
  {
    if slots == [] then 0
    else Filled(slots[..|slots| - 1]) + if slots[|slots| - 1].Some? then 1 else 0
  }

  function Joined(slots: Slots): bytes
    requires None !in slots
  {
    if slots == [] then []
    else
      assert slots[|slots| - 1] in slots;
      assert forall s | s in slots[..|slots| - 1] :: s in slots;
      Joined(slots[..|slots| - 1]) + slots[|slots| - 1].value
  }

  /** The fields of the reassembler as a value. */
  datatype State = State(slots: Slots, expectedTotal: nat, received: nat, frameType: Option<nat>)

  const EMPTY := State([], 0, 0, None)

  type Answer = Result<Option<ReassembledFrame>, FrameError>

  function Accept(st: State, c: Parsed): (State, Answer) {
    if st.expectedTotal != 0 && st.expectedTotal != c.total then (st, Err(TotalMismatch))
    else if st.expectedTotal != 0 && st.frameType != Some(c.frameType) then (st, Err(TypeMismatch))
    else Place(Begun(st, c), c)
  }

  /** The first chunk of a frame sets its total and type. */
  function Begun(st: State, c: Parsed): State {
    if st.expectedTotal != 0 then st else State(seq(c.total, _ => None), c.total, st.received, Some(c.frameType))
  }

  function Place(st: State, c: Parsed): (State, Answer) {
    if SlotAt(st.slots, c.number).Some? then (st, Ok(None))
    else
      var got := st.(slots := PutSlot(st.slots, c.number, c.data), received := st.received + 1);
      if got.received < c.total then (got, Ok(None))
      else if None in got.slots then (got, Err(HoleInSlots))
      else (EMPTY, Ok(Some(ReassembledFrame(c.frameType, Joined(got.slots)))))
  }

  function Push(st: State, chunk: bytes): (State, Answer) {
    match Parse(chunk)
    case Err(e) => (st, Err(e))
    case Ok(c) => Accept(st, c)
  }

  class FrameReassembler {
    var slots: Slots
    var expectedTotal: nat
    var received: nat
    var currentFrameType: Option<nat>

    function View(): State
      reads this
    {
      State(slots, expectedTotal, received, currentFrameType)
    }

    constructor ()
      ensures View() == EMPTY
    {
      slots, expectedTotal, received, currentFrameType := [], 0, 0, None;
    }

    method PushWithType(chunk: bytes) returns (r: Answer)
      modifies this
      ensures (View(), r) == Push(old(View()), chunk)
    {
      if |chunk| < FRAME_HEADER_LEN { return Err(ChunkTooShort); }
      if chunk[0] != FRAME_MAGIC { return Err(BadMagic); }
      var ft, number, total, len := chunk[1] as int / 16, chunk[1] as int % 16, chunk[2] as int, chunk[3] as int;
      if len != |chunk| - FRAME_HEADER_LEN { return Err(LengthMismatch); }
      if total > 16 { return Err(TotalTooLarge); }
      if expectedTotal == 0 {
        expectedTotal := total;
        slots := seq(total, _ => None);
        currentFrameType := Some(ft);
      } else {
        if expectedTotal != total { return Err(TotalMismatch); }
        if currentFrameType != Some(ft) { return Err(TypeMismatch); }
      }
      if SlotAt(slots, number) != None { return Ok(None); }
      slots := PutSlot(slots, number, chunk[FRAME_HEADER_LEN..FRAME_HEADER_LEN + len]);
      received := received + 1;
      assert chunk[FRAME_HEADER_LEN..FRAME_HEADER_LEN + len] == chunk[FRAME_HEADER_LEN..];
      if received < total { return Ok(None); }
      var out := Assemble();
      if out == None { return Err(HoleInSlots); }
      var resolvedType := currentFrameType.value;
      expectedTotal, received, slots, currentFrameType := 0, 0, [], None;
      return Ok(Some(ReassembledFrame(resolvedType, out.value)));
    }

    /** The slots joined in order, unless one is empty. */
    method Assemble() returns (out: Option<bytes>)
      ensures out == if None in slots then None else Some(Joined(slots))
    {
      var joined: bytes := [];
      for i := 0 to |slots|
        invariant None !in slots[..i] && joined == Joined(slots[..i])
      {
        assert slots[..i + 1] == slots[..i] + [slots[i]];
        if slots[i] == None { return None; }
        joined := joined + slots[i].value;
      }
      assert slots[..|slots|] == slots;
      return Some(joined);
    }
  }

  // ----- Soundness -----

  /** The data of the first chunk numbered `i` in a history. */
  function FirstData(hs: seq<Parsed>, i: nat): Option<bytes> {
    if hs == [] then None
    else
      var earlier, last := FirstData(hs[..|hs| - 1], i), hs[|hs| - 1];
      if earlier == None && last.number == i then Some(last.data) else earlier
  }

  /** The data of chunks 0..n-1 of a history, in order of their numbers. */
  function InOrder(hs: seq<Parsed>, n: nat): bytes {
    if n == 0 then []
    else InOrder(hs, n - 1) + match FirstData(hs, n - 1) case Some(d) => d case None => []
  }

  ghost predicate SameFrame(hs: seq<Parsed>) {
    forall c | c in hs :: c.total == hs[0].total && c.frameType == hs[0].frameType
  }

  /** Slots that hold the first data of every number in a history too short to complete. */
  ghost predicate Holds(slots: Slots, hs: seq<Parsed>, total: nat) {
    && 1 <= total <= |slots| <= MAX_CHUNKS && Filled(slots) < total
    && (|slots| > total ==> slots[|slots| - 1].Some?)
    && forall i: nat :: SlotAt(slots, i) == FirstData(hs, i)
  }

  /** The state that a non-completing history of chunks with total at least 1 leads to. */
  ghost predicate Tracks(st: State, hs: seq<Parsed>) {
    if hs == [] then st == EMPTY
    else
      && SameFrame(hs) && st.expectedTotal == hs[0].total && st.frameType == Some(hs[0].frameType)
      && st.received == Filled(st.slots) && Holds(st.slots, hs, st.expectedTotal)
  }

  /** A history that makes up exactly one frame: one total and type throughout, the numbers
      0..total-1 and no others, and the payload is their data in order. */
  ghost predicate MakesUp(hs: seq<Parsed>, frame: ReassembledFrame) {
    && hs != [] && SameFrame(hs) && frame.frameType == hs[0].frameType
    && (forall i: nat :: FirstData(hs, i).Some? <==> i < hs[0].total)
    && frame.payload == InOrder(hs, hs[0].total)
  }

  lemma {:induction false} FilledByPut(slots: Slots, i: nat, data: bytes)
    requires SlotAt(slots, i) == None
    ensures Filled(PutSlot(slots, i, data)) == Filled(slots) + 1
  {
    var after := PutSlot(slots, i, data);
    if i >= |slots| {
      FilledByHoles(slots, i - |slots|);
      assert after[..|after| - 1] == slots + seq(i - |slots|, _ => None);
    } else if i == |slots| - 1 {
      assert after[..i] == slots[..i];
    } else {
      var n := |slots| - 1;
      FilledByPut(slots[..n], i, data);
      assert after[..n] == PutSlot(slots[..n], i, data);
    }
  }

  lemma {:induction false} FilledByHoles(slots: Slots, n: nat)
    ensures Filled(slots + seq(n, _ => None)) == Filled(slots)
  {
    if n == 0 {
      assert slots + seq(0, _ => None) == slots;
    } else {
      var more := slots + seq(n, _ => None);
      assert more[..|more| - 1] == slots + seq(n - 1, _ => None);
      FilledByHoles(slots, n - 1);
    }
  }

  /** The pigeonhole: no slot is empty exactly when as many are filled as there are slots. */
  lemma {:induction false} AllFilled(slots: Slots)
    ensures None !in slots <==> Filled(slots) == |slots|
  {
    if slots != [] {
      var n := |slots| - 1;
      AllFilled(slots[..n]);
      assert slots == slots[..n] + [slots[n]];
    }
  }

  lemma {:induction false} JoinedInOrder(slots: Slots, hs: seq<Parsed>)
    requires None !in slots && forall i | 0 <= i < |slots| :: slots[i] == FirstData(hs, i)
    ensures Joined(slots) == InOrder(hs, |slots|)
  {
    if slots != [] {
      var n := |slots| - 1;
      assert forall s | s in slots[..n] :: s in slots;
      JoinedInOrder(slots[..n], hs);
    }
  }

  lemma NoDataYet(total: nat, i: nat)
    ensures SlotAt(seq<Option<bytes>>(total, _ => None), i) == FirstData([], i) && Filled(seq(total, _ => None)) == 0
  {
    var none: Slots := [];
    assert none + seq(total, _ => None) == seq(total, _ => None);
    FilledByHoles(none, total);
  }

  lemma SameFrameGrows(hs: seq<Parsed>, c: Parsed)
    requires SameFrame(hs)
    ensures SameFrame(hs + [c]) <==> hs == [] || (c.total == hs[0].total && c.frameType == hs[0].frameType)
  {
    assert c in hs + [c];
  }

  /** Storing a chunk of a new number. */
  lemma Store(slots: Slots, hs: seq<Parsed>, total: nat, c: Parsed)
    requires Holds(slots, hs, total) && SlotAt(slots, c.number) == None && c.number < MAX_CHUNKS
    ensures var slots' := PutSlot(slots, c.number, c.data);
      && Filled(slots') == Filled(slots) + 1
      && if Filled(slots') < total then Holds(slots', hs + [c], total)
         else if None in slots' then exists i: nat :: i >= total && FirstData(hs + [c], i).Some?
         else && (forall i: nat :: FirstData(hs + [c], i).Some? <==> i < total)
              && Joined(slots') == InOrder(hs + [c], total)
  {
    var slots' := PutSlot(slots, c.number, c.data);
    FilledByPut(slots, c.number, c.data);
    forall i: nat ensures SlotAt(slots', i) == FirstData(hs + [c], i) {
      assert (hs + [c])[..|hs|] == hs;
      assert SlotAt(slots, i) == FirstData(hs, i);
    }
    AllFilled(slots');
    if Filled(slots') == total {
      if None in slots' {
        assert FirstData(hs + [c], |slots'| - 1) == SlotAt(slots', |slots'| - 1);
      } else {
        JoinedInOrder(slots', hs + [c]);
      }
    }
  }

  /** A chunk of a number already there changes nothing. */
  lemma Ignore(slots: Slots, hs: seq<Parsed>, total: nat, c: Parsed)
    requires Holds(slots, hs, total) && SlotAt(slots, c.number).Some?
    ensures Holds(slots, hs + [c], total)
  {
    forall i: nat ensures SlotAt(slots, i) == FirstData(hs + [c], i) {
      assert (hs + [c])[..|hs|] == hs;
      assert SlotAt(slots, i) == FirstData(hs, i);
    }
  }

  /** A state that has begun the frame of `c` and holds what came before it. */
  ghost predicate HasBegun(st: State, hs: seq<Parsed>, c: Parsed) {
    && st.expectedTotal == c.total && st.frameType == Some(c.frameType)
    && st.received == Filled(st.slots) && Holds(st.slots, hs, c.total)
  }

  lemma Begins(st: State, hs: seq<Parsed>, c: Parsed)
    requires Tracks(st, hs) && 1 <= c.total <= MAX_CHUNKS && SameFrame(hs + [c])
    ensures HasBegun(Begun(st, c), hs, c)
  {
    SameFrameGrows(hs, c);
    if hs == [] {
      NoDataYet(c.total, 0);
      forall i: nat ensures SlotAt(seq<Option<bytes>>(c.total, _ => None), i) == FirstData(hs, i) { NoDataYet(c.total, i); }
    }
  }

  /** What one chunk makes of a history: it goes on, or makes up exactly the frame returned, or is
      refused. The hole error means that some number is at or beyond the total. */
  ghost predicate Answers(st: State, c: Parsed, hs: seq<Parsed>, result: (State, Answer)) {
    match result.1
    case Ok(None) => Tracks(result.0, hs)
    case Ok(Some(frame)) => result.0 == EMPTY && MakesUp(hs, frame)
    case Err(HoleInSlots) => SameFrame(hs) && exists i: nat :: i >= c.total && FirstData(hs, i).Some?
    case Err(e) => result.0 == st && !SameFrame(hs)
  }

  lemma Places(st: State, hs: seq<Parsed>, c: Parsed)
    requires HasBegun(st, hs, c) && c.number < MAX_CHUNKS && SameFrame(hs + [c])
    ensures Answers(st, c, hs + [c], Place(st, c))
  {
    var hs' := hs + [c];
    assert hs'[0].total == c.total && hs'[0].frameType == c.frameType by { assert c in hs'; }
    if SlotAt(st.slots, c.number) == None {
      Store(st.slots, hs, c.total, c);
    } else {
      Ignore(st.slots, hs, c.total, c);
    }
  }

  lemma OneChunk(st: State, hs: seq<Parsed>, c: Parsed)
    requires Tracks(st, hs) && 1 <= c.total <= MAX_CHUNKS && c.number < MAX_CHUNKS
    ensures Answers(st, c, hs + [c], Accept(st, c))
  {
    SameFrameGrows(hs, c);
    if SameFrame(hs + [c]) {
      Begins(st, hs, c);
      Places(Begun(st, c), hs, c);
    }
  }
}
