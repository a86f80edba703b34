/**
 * How a decode session ends and what it leaves behind: the `io::Error` it returns or the
 * panic that stops it, the decoder state it allocated, and the progress channel it reports to.
 */
module Outcomes {
  import opened Base

  /** The `io::Error`s the session returns. */
  datatype ErrorKind =
    | UnexpectedEof      // a `read_exact` ran past the end of the file
    | WrongHeader        // InvalidData "Error: Wrong Header"
    | DecoderSizeFailed  // InvalidData "SKP_Silk_SDK_Get_Decoder_Size failed"
    | AllocationFailed   // InvalidData "Failed to allocate decoder"
    | InitDecoderFailed  // InvalidData "SKP_Silk_SDK_InitDecoder failed"
    | DecodeFailed       // InvalidData "SKP_Silk_SDK_Decode failed"

  /** Where the session panics instead of returning. */
  datatype PanicReason =
    | SliceOutOfRange  // a packet slice of the window buffer with a negative or oversized length
    | OutputOverrun    // the sample cursor sliced past the end of the `out` buffer
    | ChannelClosed    // `unwrap` on a failed progress send

  datatype Outcome = Ok | Err(kind: ErrorKind) | Panic(reason: PanicReason)

  /** The decoder state allocated with `malloc`. */
  datatype DecoderResource = NotAllocated | Allocated | Released

  /** A progress event: the stream position after a step and the file size. */
  datatype Progress = Progress(processed: nat, total: nat)

  /** The progress channel: open for good, or closed after accepting some number of events. */
  datatype Channel = Open | ClosesAfter(accepted: nat)

  /** Whether the channel accepts its `k`-th event (counting from 0). */
  predicate Accepts(channel: Channel, k: nat)
  {
    channel.Open? || k < channel.accepted
  }

  /** The percentage a progress event reports. */
  function Percent(e: Progress): (r: real)
    requires 0 < e.total && e.processed <= e.total
    ensures 0.0 <= r <= 100.0
    ensures e.processed == e.total ==> r == 100.0
  {
    (e.processed as real / e.total as real) * 100.0
  }

  /** Events whose positions strictly increase and never pass `pos`, all against the file size `total`. */
  predicate EventsOrdered(events: seq<Progress>, pos: nat, total: nat)
  {
    && (forall i :: 0 <= i < |events| ==> events[i].processed <= pos && events[i].total == total)
    && (forall i, j :: 0 <= i < j < |events| ==> events[i].processed < events[j].processed)
  }

  /** An event at a later position keeps the events ordered. */
  lemma EventsAppend(events: seq<Progress>, pos: nat, pos': nat, total: nat)
    requires EventsOrdered(events, pos, total) && pos < pos'
    ensures EventsOrdered(events + [Progress(pos', total)], pos', total)
  {
    var events' := events + [Progress(pos', total)];
    forall i, j | 0 <= i < j < |events'|
      ensures events'[i].processed < events'[j].processed
    {
      assert events'[i] == events[i];
    }
  }

  /** Ordered events stay ordered against any later position. */
  lemma EventsWiden(events: seq<Progress>, pos: nat, pos': nat, total: nat)
    requires EventsOrdered(events, pos, total) && pos <= pos'
    ensures EventsOrdered(events, pos', total)
  {
  }

  /** What a whole session yields: how it ended, the decoder state, the PCM written and the events sent. */
  datatype Report = Report(outcome: Outcome, decoder: DecoderResource, pcm: seq<byte>, events: seq<Progress>)
}
