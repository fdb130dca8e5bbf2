/** Session frames from one end to the other: sealed by the ratchet, cut into chunks, put together
    again, and opened. */
module EndToEnd {
  import opened Basics
  import opened KeySchedule
  import opened Ratchet
  import opened RatchetRuns
  import opened Frame
  import opened Reassembler
  import opened FrameRuns
  import opened FrameStreams

  const SESSION_DATA: nat := 3

  /** Sending k carries the sender's frame number order[k]. */
  ghost predicate Carries(peer: Peer, messages: seq<Message>, order: seq<nat>, sendings: seq<Sending>) {
    && |sendings| == |order|
    && forall k | 0 <= k < |order| ::
         order[k] < |messages| && messages[order[k]].ad == []
         && sendings[k].payload == FrameOf(peer, messages, order[k]).wire && sendings[k].frameType == SESSION_DATA
  }

  /** What the transport hands to the session: each reassembled payload, with no additional data. */
  function Handed(frames: seq<ReassembledFrame>): (arrivals: seq<Arrival>)
    ensures |arrivals| == |frames| && forall k | 0 <= k < |frames| :: arrivals[k] == Arrival(frames[k].payload, [])
  {
    if frames == [] then [] else [Arrival(frames[0].payload, [])] + Handed(frames[1..])
  }

  function AllGenuine(order: seq<nat>): (origin: seq<Option<nat>>)
    ensures |origin| == |order| && forall k | 0 <= k < |order| :: origin[k] == Some(order[k])
  {
    if order == [] then [] else [Some(order[0])] + AllGenuine(order[1..])
  }

  lemma {:induction false} ContentsAt(sendings: seq<Sending>, k: nat)
    requires k < |sendings|
    ensures |Contents(sendings)| == |sendings| && Contents(sendings)[k] == sendings[k].Frame()
  {
    AsManyContents(sendings);
    if k > 0 { ContentsAt(sendings[1..], k - 1); }
  }

  lemma HandedIsGenuine(peer: Peer, messages: seq<Message>, order: seq<nat>, sendings: seq<Sending>)
    requires OpensWhatItSealed(peer.suite) && peer.start == 0 && |messages| <= TWO_TO_64 && Carries(peer, messages, order, sendings)
    ensures RatchetRuns.Mixed(peer, messages, AllGenuine(order), Handed(Contents(sendings)))
  {
    AsManyContents(sendings);
    var origin, arrivals := AllGenuine(order), Handed(Contents(sendings));
    forall k | 0 <= k < |origin| ensures IsFrom(peer, messages, origin[k], arrivals[k]) {
      ContentsAt(sendings, k);
    }
  }

  /** Frames sent under bounded reordering, whose chunks go through, reach the receiver: the stream
      reads as many frames, and each first arrival opens to the plaintext it was sealed from. */
  lemma SentFramesArrive(peer: Peer, messages: seq<Message>, order: seq<nat>, sendings: seq<Sending>, k: nat)
    requires OpensWhatItSealed(peer.suite) && peer.start == 0 && |messages| <= TWO_TO_64 && Carries(peer, messages, order, sendings)
    requires BoundedReordering(AllGenuine(order)) && k < |order| && GoesThrough(sendings[0], {}, sendings)
    ensures var arrivals := Handed(Read(EMPTY, AllArrivals(sendings)).1);
            && |arrivals| == |order|
            && var r := ResultAt(peer, arrivals, k);
               if Some(order[k]) in AllGenuine(order)[..k] then r.Err? else r == Ok(messages[order[k]].plaintext)
  {
    StreamRoundTrip(sendings);
    AsManyContents(sendings);
    HandedIsGenuine(peer, messages, order, sendings);
    BoundedReorderingLosesNothing(peer, messages, AllGenuine(order), Handed(Contents(sendings)), k);
  }
}
