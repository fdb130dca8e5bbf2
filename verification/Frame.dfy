/** Splitting a payload into wire chunks and putting chunks back together. */
module Frame {
  import opened Basics

  const FRAME_MAGIC: byte := 0xc8
  const MAX_FRAME_SIZE := 65536
  const FRAME_HEADER_LEN := 4

  datatype FrameError =
    | PayloadTooLarge | MtuTooSmall | TooManyChunks | EmptyPayload
    | ChunkTooShort | BadMagic | LengthMismatch | TotalTooLarge | TotalMismatch | TypeMismatch | HoleInSlots

  datatype ReassembledFrame = ReassembledFrame(frameType: nat, payload: bytes)

  // ----- Chunking -----

  /** Chunk number `seq`: magic, type and number nibbles, chunk count, data length modulo 256, data. */
  function ChunkAt(payload: bytes, per: nat, frameType: nat, total: nat, seq_: nat): bytes
    requires seq_ * per <= |payload| && seq_ < 16 && frameType < 16 && total <= 16
  {
    var slice := payload[seq_ * per..Min(seq_ * per + per, |payload|)];
    [FRAME_MAGIC, (frameType * 16 + seq_) as byte, total as byte, (|slice| % 256) as byte] + slice
  }

  function TotalChunks(length: nat, per: nat): nat
    requires per > 0
  {
    (length + per - 1) / per
  }

  method ChunkFrame(payload: bytes, mtu: int, frameType: nat) returns (r: Result<seq<bytes>, FrameError>)
    requires frameType < 16
    ensures var per := mtu - FRAME_HEADER_LEN;
      r == if |payload| > MAX_FRAME_SIZE then Err(PayloadTooLarge)
           else if per <= 0 then Err(MtuTooSmall)
           else if |payload| > 16 * per then Err(TooManyChunks)
           else if payload == [] then Err(EmptyPayload)
           else Ok(Chunks(payload, per, frameType))
  {
    if |payload| > MAX_FRAME_SIZE { return Err(PayloadTooLarge); }
    var dataPerChunk := mtu - FRAME_HEADER_LEN;
    if dataPerChunk <= 0 { return Err(MtuTooSmall); }
    var total := TotalChunks(|payload|, dataPerChunk);
    TotalIs(|payload|, dataPerChunk);
    if total > 16 { return Err(TooManyChunks); }
    if total == 0 { return Err(EmptyPayload); }
    ghost var all := Chunks(payload, dataPerChunk, frameType);
    var chunks := [];
    for seq_ := 0 to total
      invariant chunks == all[..seq_]
    {
      StartOfChunk(|payload|, dataPerChunk, seq_);
      assert all[seq_] == ChunkAt(payload, dataPerChunk, frameType, total, seq_);
      var start := seq_ * dataPerChunk;
      var end := Min(start + dataPerChunk, |payload|);
      var slice := payload[start..end];
      var header := [FRAME_MAGIC, (frameType * 16 + seq_) as byte, total as byte, (|slice| % 256) as byte];
      chunks := chunks + [header + slice];
    }
    assert chunks == all;
    return Ok(chunks);
  }

  /** All chunks of a payload that fits. */
  function Chunks(payload: bytes, per: nat, frameType: nat): (chunks: seq<bytes>)
    requires per > 0 && 0 < |payload| <= 16 * per && frameType < 16
    ensures |chunks| == TotalChunks(|payload|, per)
  {
    TotalIs(|payload|, per);
    var total := TotalChunks(|payload|, per);
    seq(total, i requires 0 <= i < total =>
      StartOfChunk(|payload|, per, i); ChunkAt(payload, per, frameType, total, i))
  }

  lemma TotalIs(length: nat, per: nat)
    requires per > 0
    ensures var total := TotalChunks(length, per);
            && (total > 16 <==> length > 16 * per) && (total == 0 <==> length == 0)
            && (length > 0 ==> (total - 1) * per < length)
            && length <= total * per
  {
    var total := TotalChunks(length, per);
    assert length + per - 1 == total * per + (length + per - 1) % per;
    assert 0 <= (length + per - 1) % per < per;
    if total > 16 { assert total * per >= 17 * per; } else { assert total * per <= 16 * per; }
  }

  lemma StartOfChunk(length: nat, per: nat, i: nat)
    requires per > 0 && i < TotalChunks(length, per)
    ensures i * per < length
  {
    TotalIs(length, per);
    MulMonotone(i, TotalChunks(length, per) - 1, per);
  }

  lemma MulMonotone(a: nat, b: nat, n: nat)
    requires a <= b
    ensures a * n <= b * n
  {}
}
