/**
 * The SILK SDK as the session sees it: a foreign decoder reached through four calls
 * (decoder size, initialisation, decode, in-band redundancy search). Its signal processing is
 * not modelled; each call is an oracle value supplied with the session. The decoder's hidden
 * state is represented by the history of decode calls made to it, so a reply may depend on
 * everything the decoder has been given before.
 */
module Sdk {
  import opened Base

  /** `SKP_SILK_SDK_DecControlStruct`, which each decode call reads and updates. */
  datatype DecControl = DecControl(
    apiSampleRate: int,
    frameSize: int,
    framesPerPacket: int,
    moreInternalDecoderFrames: int,
    inBandFecOffset: int)

  /** The control block as the session sets it up: 24 kHz output, one frame per packet. */
  const InitialControl: DecControl := DecControl(24000, 0, 1, 0, 0)

  /** One decode call: the control block passed in, the loss flag and the payload bytes. */
  datatype DecodeCall = DecodeCall(control: DecControl, lostFlag: int, input: seq<byte>)

  /** What a decode call returns: its status, the samples it wrote and the updated control block. */
  datatype DecodeReply = DecodeReply(status: int, samples: seq<i16>, control: DecControl)

  /** The foreign decoder library. */
  datatype Sdk = Sdk(
    /** Status of `SKP_Silk_SDK_Get_Decoder_Size`. */
    decoderSizeStatus: int,
    /** Whether allocating the decoder state succeeds. */
    allocationSucceeds: bool,
    /** Status of `SKP_Silk_SDK_InitDecoder`. */
    initStatus: int,
    /** `SKP_Silk_SDK_Decode`, given the calls made before this one. */
    decode: (seq<DecodeCall>, DecodeCall) -> DecodeReply,
    /** `SKP_Silk_SDK_search_for_LBRR`: the redundancy payload found in a packet for the
        packet `offset` positions earlier; empty when there is none. */
    searchLbrr: (seq<byte>, int) -> seq<byte>)

  /**
   * The decoder ends every packet: the "more internal frames" field it reports is never
   * negative, and while it is nonzero each further call lowers it. The SDK keeps a 0/1 flag
   * bounded by its own frame counter; counting the remaining frames instead keeps the
   * session's test (`== 0`) and makes the bound visible.
   */
  ghost predicate Terminates(sdk: Sdk)
  {
    forall h, c ::
      var r := sdk.decode(h, c);
      0 <= r.control.moreInternalDecoderFrames &&
      (c.control.moreInternalDecoderFrames > 0 ==>
         r.control.moreInternalDecoderFrames < c.control.moreInternalDecoderFrames)
  }

  /**
   * The decoder keeps to the SILK limits: a call yields at most one 20 ms frame at 48 kHz
   * (960 samples) and a packet holds at most five frames.
   */
  ghost predicate WithinLimits(sdk: Sdk)
  {
    forall h, c ::
      var r := sdk.decode(h, c);
      |r.samples| <= MaxFrameSamples && r.control.framesPerPacket <= MaxInputFrames
  }

  /** The reply to the `i`-th call of a history, given the calls made before it. */
  function ReplyAt(sdk: Sdk, calls: seq<DecodeCall>, i: nat): DecodeReply
    requires i < |calls|
  {
    sdk.decode(calls[..i], calls[i])
  }

  /** The reply to the last call of a history. */
  function LastReply(sdk: Sdk, calls: seq<DecodeCall>): DecodeReply
    requires calls != []
  {
    ReplyAt(sdk, calls, |calls| - 1)
  }

  /** Making a further call does not change the replies to the calls made before it. */
  lemma ReplyAtExtend(sdk: Sdk, calls: seq<DecodeCall>, c: DecodeCall, i: nat)
    requires i < |calls|
    ensures ReplyAt(sdk, calls + [c], i) == ReplyAt(sdk, calls, i)
  {
    assert (calls + [c])[..i] == calls[..i];
  }

  /**
   * The calls from position `from` on all carry the loss flag `flag` and the payload `bytes`,
   * the first with control block `control0` and each later one with the control block the
   * previous call returned: the session passes the same `dec_control` to every call.
   */
  ghost predicate Threaded(sdk: Sdk, calls: seq<DecodeCall>, from: nat, control0: DecControl,
                           flag: int, bytes: seq<byte>)
    requires from <= |calls|
  {
    && (forall i :: from <= i < |calls| ==> calls[i].lostFlag == flag && calls[i].input == bytes)
    && (from < |calls| ==> calls[from].control == control0)
    && (forall i :: from <= i < |calls| - 1 ==> calls[i + 1].control == ReplyAt(sdk, calls, i).control)
  }

  /** Every call in `[from, to)` returned status 0. */
  ghost predicate Succeeded(sdk: Sdk, calls: seq<DecodeCall>, from: nat, to: nat)
    requires to <= |calls|
  {
    forall i :: from <= i < to ==> ReplyAt(sdk, calls, i).status == 0
  }

  /** Every call in `[from, to)` reported more internal frames to come. */
  ghost predicate MorePending(sdk: Sdk, calls: seq<DecodeCall>, from: nat, to: nat)
    requires to <= |calls|
  {
    forall i :: from <= i < to ==> ReplyAt(sdk, calls, i).control.moreInternalDecoderFrames != 0
  }

  /**
   * A call with control block `control0` followed by calls threaded from the control block
   * it returned is a threaded history from that call on.
   */
  lemma ThreadedFront(sdk: Sdk, calls: seq<DecodeCall>, from: nat, control0: DecControl,
                      flag: int, bytes: seq<byte>)
    requires from < |calls| && calls[from] == DecodeCall(control0, flag, bytes)
    requires Threaded(sdk, calls, from + 1, ReplyAt(sdk, calls, from).control, flag, bytes)
    ensures Threaded(sdk, calls, from, control0, flag, bytes)
  {
  }

  /** The samples produced by the calls of a history from position `from` on, in call order. */
  function SamplesSince(sdk: Sdk, calls: seq<DecodeCall>, from: nat): seq<i16>
    decreases |calls|
  {
    if |calls| <= from then []
    else SamplesSince(sdk, calls[..|calls| - 1], from) + LastReply(sdk, calls).samples
  }

  /** A further call appends its samples to those of the calls since `from`. */
  lemma SamplesSinceExtend(sdk: Sdk, calls: seq<DecodeCall>, c: DecodeCall, from: nat)
    requires from <= |calls|
    ensures SamplesSince(sdk, calls + [c], from) ==
      SamplesSince(sdk, calls, from) + sdk.decode(calls, c).samples
  {
    assert (calls + [c])[..|calls|] == calls;
  }
}
