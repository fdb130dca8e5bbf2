/** Whole chunk streams: the transport's reader and its soundness on arbitrary ones, and single chunks. */
module FrameRuns {
  import opened Basics
  import opened Frame
  import opened Reassembler

  // ----- Arbitrary streams. As the transport does, a reassembler that threw is replaced. -----

  function StateAfter(chunks: seq<bytes>, k: nat): State
    requires k <= |chunks|
  {
    if k == 0 then EMPTY
    else
      var (st, answer) := Push(StateAfter(chunks, k - 1), chunks[k - 1]);
      if answer.Err? then EMPTY else st
  }

  function AnswerAt(chunks: seq<bytes>, k: nat): Answer
    requires k < |chunks|
  {
    Push(StateAfter(chunks, k), chunks[k]).1
  }

  /** The frames a stream yields from some state, and the state it leaves. */
  function Read(st: State, chunks: seq<bytes>): (State, seq<ReassembledFrame>)
    decreases |chunks|
  {
    if chunks == [] then (st, []) else
    var (st', answer) := Push(st, chunks[0]);
    if answer.Err? then Read(EMPTY, chunks[1..])
    else
      var (end, more) := Read(st', chunks[1..]);
      (end, AsSeq(answer.value) + more)
  }

  function AsSeq(frame: Option<ReassembledFrame>): seq<ReassembledFrame> {
    if frame.Some? then [frame.value] else []
  }

  lemma {:induction false} ReadOn(st: State, chunks: seq<bytes>, more: seq<bytes>)
    ensures var (mid, frames) := Read(st, chunks);
            Read(st, chunks + more) == (Read(mid, more).0, frames + Read(mid, more).1)
    decreases |chunks|
  {
    if chunks == [] {
      assert chunks + more == more;
      assert [] + Read(st, more).1 == Read(st, more).1;
    } else {
      var (st', answer) := Push(st, chunks[0]);
      assert (chunks + more)[1..] == chunks[1..] + more;
      ReadOn(if answer.Err? then EMPTY else st', chunks[1..], more);
      if answer.Ok? {
        var (mid, frames) := Read(st', chunks[1..]);
        assert AsSeq(answer.value) + frames + Read(mid, more).1 == AsSeq(answer.value) + (frames + Read(mid, more).1);
      }
    }
  }

  lemma {:induction false} ReadIsTheRun(chunks: seq<bytes>, k: nat)
    requires k <= |chunks|
    ensures Read(EMPTY, chunks[..k]).0 == StateAfter(chunks, k)
  {
    if k > 0 {
      ReadIsTheRun(chunks, k - 1);
      assert chunks[..k] == chunks[..k - 1] + [chunks[k - 1]];
      ReadOn(EMPTY, chunks[..k - 1], [chunks[k - 1]]);
    }
  }

  /** The reassembler of one device, and how its chunks are handled. */
  class Incoming {
    var r: FrameReassembler

    constructor ()
      ensures fresh(r) && r.View() == EMPTY
    {
      r := new FrameReassembler();
    }

    method HandleIncomingChunk(chunk: bytes) returns (res: Option<ReassembledFrame>)
      modifies this, r
      ensures r == old(r) || fresh(r)
      ensures (r.View(), AsSeq(res)) == Read(old(r.View()), [chunk])
    {
      assert [chunk][1..] == [];
      var answer := r.PushWithType(chunk);
      if answer.Err? {
        r := new FrameReassembler();
        return None;
      }
      assert AsSeq(answer.value) + [] == AsSeq(answer.value);
      return answer.value;
    }
  }

  predicate IsFirst(chunk: bytes) { Parse(chunk).Ok? && Parse(chunk).value.number == 0 }

  function Firsts(chunks: seq<bytes>): nat
    decreases |chunks|
  {
    if chunks == [] then 0 else (if IsFirst(chunks[0]) then 1 else 0) + Firsts(chunks[1..])
  }

  function HasFirst(hs: seq<Parsed>): nat { if FirstData(hs, 0).Some? then 1 else 0 }

  /** A frame uses up the chunk 0 it has. */
  lemma FirstIsUsedUp(hs: seq<Parsed>, c: Parsed, frame: Option<ReassembledFrame>)
    requires frame.Some? ==> (if c.total >= 1 then MakesUp(hs + [c], frame.value) else c.number == 0)
    ensures |AsSeq(frame)| + (if frame == None then HasFirst(hs + [c]) else 0) <= (if c.number == 0 then 1 else 0) + HasFirst(hs)
  {
    assert (hs + [c])[..|hs|] == hs;
    if frame.Some? && c.total >= 1 {
      assert c in hs + [c];
      assert FirstData(hs + [c], 0).Some?;
    }
  }

  lemma OneChunkOfMany(st: State, hs: seq<Parsed>, chunk: bytes) returns (hs': seq<Parsed>)
    requires Tracks(st, hs)
    ensures var (st', answer) := Push(st, chunk);
            var next := if answer.Err? then EMPTY else st';
            Tracks(next, hs') && (if answer.Ok? then |AsSeq(answer.value)| else 0) + HasFirst(hs') <= Firsts([chunk]) + HasFirst(hs)
  {
    var (st', answer) := Push(st, chunk);
    ChunkStep(st, hs, chunk);
    assert [chunk][1..] == [];
    hs' := [];
    if answer.Ok? {
      var c := Parse(chunk).value;
      FirstIsUsedUp(hs, c, answer.value);
      if answer.value == None { hs' := hs + [c]; }
    }
  }

  /** On any stream at most as many frames come out as chunks numbered 0 go in. */
  lemma {:induction false} FramesNeedTheirFirstChunk(st: State, hs: seq<Parsed>, chunks: seq<bytes>)
    requires Tracks(st, hs)
    ensures |Read(st, chunks).1| <= Firsts(chunks) + HasFirst(hs)
    decreases |chunks|
  {
    if chunks != [] {
      var (st', answer) := Push(st, chunks[0]);
      var hs' := OneChunkOfMany(st, hs, chunks[0]);
      assert [chunks[0]][1..] == [];
      FramesNeedTheirFirstChunk(if answer.Err? then EMPTY else st', hs', chunks[1..]);
    }
  }

  /** The chunks accepted since the last completed frame or error. */
  function History(chunks: seq<bytes>, k: nat): seq<Parsed>
    requires k <= |chunks|
  {
    if k > 0 && AnswerAt(chunks, k - 1) == Ok(None) && Parse(chunks[k - 1]).Ok?
    then History(chunks, k - 1) + [Parse(chunks[k - 1]).value]
    else []
  }

  /** The reassembler stands for the history, before chunk `k`. */
  ghost predicate TrackedAt(chunks: seq<bytes>, k: nat)
    requires k <= |chunks|
  {
    Tracks(StateAfter(chunks, k), History(chunks, k))
  }

  lemma NextIsTracked(chunks: seq<bytes>, k: nat)
    requires k < |chunks| && TrackedAt(chunks, k)
    ensures TrackedAt(chunks, k + 1)
  {
    ChunkStep(StateAfter(chunks, k), History(chunks, k), chunks[k]);
  }

  lemma {:induction false} HistoryIsTracked(chunks: seq<bytes>, k: nat)
    requires k <= |chunks|
    ensures TrackedAt(chunks, k)
  {
    if k > 0 {
      HistoryIsTracked(chunks, k - 1);
      NextIsTracked(chunks, k - 1);
    }
  }

  /** On any stream of chunks, a frame is returned only when the chunks since the last reset make it up
      exactly, if and only if its total is at least 1. A chunk of total 0 is returned when it is alone
      and numbered 0, and does not make anything up. */
  lemma EveryFrameIsMadeUp(chunks: seq<bytes>, k: nat)
    requires k < |chunks| && AnswerAt(chunks, k).Ok? && AnswerAt(chunks, k).value.Some?
    ensures Parse(chunks[k]).Ok?
    ensures var hs, frame, c := History(chunks, k), AnswerAt(chunks, k).value.value, Parse(chunks[k]).value;
            && (MakesUp(hs + [c], frame) <==> c.total >= 1)
            && (c.total == 0 ==> hs == [] && c.number == 0 && frame == ReassembledFrame(c.frameType, c.data))
  {
    HistoryIsTracked(chunks, k);
    ChunkStep(StateAfter(chunks, k), History(chunks, k), chunks[k]);
    var c := Parse(chunks[k]).value;
    if c.total == 0 {
      NoNumbersFitZero(c, AnswerAt(chunks, k).value.value);
      assert History(chunks, k) + [c] == [c];
    }
  }

  lemma NoNumbersFitZero(c: Parsed, frame: ReassembledFrame)
    requires c.total == 0 && c.number == 0
    ensures !MakesUp([c], frame)
  {
    assert [c][..0] == [];
    assert FirstData([c], 0).Some?;
  }

  /** Such a chunk: whatever its data, a fresh reassembler returns it as a frame. */
  lemma ZeroTotalIsReturned(frameType: nat, data: bytes)
    requires frameType < 16 && |data| <= 255
    ensures var chunk := [FRAME_MAGIC, (frameType * 16) as byte, 0, |data| as byte] + data;
            var frame := ReassembledFrame(frameType, data);
            Push(EMPTY, chunk) == (EMPTY, Ok(Some(frame))) && Parse(chunk).Ok? && !MakesUp([Parse(chunk).value], frame)
  {
    var chunk := [FRAME_MAGIC, (frameType * 16) as byte, 0, |data| as byte] + data;
    assert chunk[FRAME_HEADER_LEN..] == data;
    var c := Parsed(frameType, 0, 0, data);
    assert Parse(chunk) == Ok(c);
    LoneZero(EMPTY, c);
    NoNumbersFitZero(c, ReassembledFrame(frameType, data));
  }

  lemma JoinedOne(slots: Slots, data: bytes)
    requires slots == [Some(data)]
    ensures None !in slots && Joined(slots) == data
  {
    assert slots[..0] == [];
    assert [] + data == data;
  }

  lemma LoneZero(st: State, c: Parsed)
    requires st == EMPTY && c.total == 0
    ensures Accept(st, c).1 == if c.number == 0 then Ok(Some(ReassembledFrame(c.frameType, c.data))) else Err(HoleInSlots)
    ensures c.number == 0 ==> Accept(st, c).0 == EMPTY
  {
    var begun := Begun(st, c);
    assert begun.slots == [] && begun.received == 0;
    var slots := PutSlot(begun.slots, c.number, c.data);
    if c.number == 0 {
      assert slots == [Some(c.data)];
      JoinedOne(slots, c.data);
    } else {
      assert SlotAt(slots, 0) == SlotAt(begun.slots, 0);
      assert slots[0] == None;
    }
  }

  lemma ChunkStep(st: State, hs: seq<Parsed>, chunk: bytes)
    requires Tracks(st, hs)
    ensures var (st', answer) := Push(st, chunk);
      answer.Ok? ==>
        && Parse(chunk).Ok?
        && var c := Parse(chunk).value;
           match answer.value
           case None => Tracks(st', hs + [c])
           case Some(frame) =>
             && st' == EMPTY
             && if c.total >= 1 then MakesUp(hs + [c], frame)
                else hs == [] && c.number == 0 && frame == ReassembledFrame(c.frameType, c.data)
  {
    if Parse(chunk).Ok? {
      var c := Parse(chunk).value;
      if c.total >= 1 {
        OneChunk(st, hs, c);
      } else if hs == [] {
        LoneZero(st, c);
      }
    }
  }

  // ----- Chunked payloads -----

  /** A payload that can be chunked, and whose chunk lengths fit the length byte. */
  predicate Fits(payload: bytes, per: nat) {
    per > 0 && 0 < |payload| <= 16 * per && Min(per, |payload|) <= 255
  }

  function Slice(payload: bytes, per: nat, i: nat): bytes
    requires i * per <= |payload|
  {
    payload[i * per..Min(i * per + per, |payload|)]
  }

  /** Chunk i reads back as itself exactly when its length fits in the length byte. */
  lemma ChunkParses(payload: bytes, per: nat, frameType: nat, i: nat)
    requires per > 0 && 0 < |payload| <= 16 * per && frameType < 16 && i < TotalChunks(|payload|, per)
    ensures i * per < |payload| && TotalChunks(|payload|, per) <= 16
    ensures var slice := Slice(payload, per, i);
            Parse(Chunks(payload, per, frameType)[i]) ==
              if |slice| <= 255 then Ok(Parsed(frameType, i, TotalChunks(|payload|, per), slice))
              else Err(LengthMismatch)
  {
    TotalIs(|payload|, per);
    StartOfChunk(|payload|, per, i);
    var slice := Slice(payload, per, i);
    var chunk := Chunks(payload, per, frameType)[i];
    assert chunk[FRAME_HEADER_LEN..] == slice;
    assert (frameType * 16 + i) / 16 == frameType && (frameType * 16 + i) % 16 == i;
  }

  /** A payload whose first chunk is too long for the length byte is refused at that chunk. */
  lemma OversizedChunkIsRefused(payload: bytes, per: nat, frameType: nat, st: State)
    requires 0 < |payload| <= 16 * per && frameType < 16 && !Fits(payload, per)
    ensures Push(st, Chunks(payload, per, frameType)[0]) == (st, Err(LengthMismatch))
  {
    TotalIs(|payload|, per);
    ChunkParses(payload, per, frameType, 0);
  }
}
