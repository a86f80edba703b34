/**
 * The two decode loops of a session step, as functions of the decoder's history and control
 * block: the loop for a present packet (loss flag 0), which calls the decoder until it reports
 * no more internal frames, where the sixth call in a row drops all kept samples, its own
 * included, and starts the count again, and the loop for a lost
 * packet (loss flag 1), which calls it `framesPerPacket` times. Each ends with an outcome, the
 * new history and control block, and the samples at the front of the `out` buffer.
 */
module DecodeLoop {
  import opened Base
  import opened Sdk
  import opened Outcomes

  /** Where a decode loop stops: how, the decoder's history and control block, and the samples kept in `out`. */
  datatype LoopEnd = LoopEnd(outcome: Outcome, calls: seq<DecodeCall>, control: DecControl, kept: seq<i16>)

  /** Number of trailing decode calls of a packet whose samples survive the resyncs. */
  function Retained(calls: nat): (r: nat)
    ensures r <= MaxInputFrames && r <= calls
  {
    calls % (MaxInputFrames + 1)
  }

  /**
   * One more call keeps one more frame, unless five are already kept: then the sixth call
   * resyncs and none is kept.
   */
  lemma RetainedNext(c: nat)
    ensures Retained(c + 1) == if Retained(c) == MaxInputFrames then 0 else Retained(c) + 1
  {
    var q := c / (MaxInputFrames + 1);
    assert c == q * (MaxInputFrames + 1) + Retained(c);
    if Retained(c) == MaxInputFrames {
      assert c + 1 == (q + 1) * (MaxInputFrames + 1);
    } else {
      assert c + 1 == q * (MaxInputFrames + 1) + (Retained(c) + 1);
    }
  }

  /** The frames counted after one more kept frame: the sixth resyncs the count to zero. */
  function FramesAfter(frames: nat): nat
  {
    if frames + 1 > MaxInputFrames then 0 else frames + 1
  }

  /** The samples `out` keeps after one more frame's `samples`: none after a resync. */
  function KeptAfter(frames: nat, kept: seq<i16>, samples: seq<i16>): seq<i16>
  {
    if frames + 1 > MaxInputFrames then [] else kept + samples
  }

  /**
   * The loop for a present packet, from history `calls` and control block `control`, with
   * `kept` the samples in `out` and `frames` the frames counted since the last resync; `first`
   * marks the first call, made whatever the control block says. Each call passes loss flag 0
   * and `bytes`; a nonzero status is an error; samples that do not fit behind those kept
   * overrun `out`; after the sixth frame the kept samples and the count are dropped; a reply
   * reporting no more internal frames ends the loop.
   */
  function FrameLoop(sdk: Sdk, calls: seq<DecodeCall>, control: DecControl, bytes: seq<byte>,
                     kept: seq<i16>, frames: nat, first: bool): (r: LoopEnd)
    requires Terminates(sdk) && (first || control.moreInternalDecoderFrames > 0)
    ensures r.outcome.Ok? || r.outcome == Err(DecodeFailed) || r.outcome == Panic(OutputOverrun)
    decreases if first then 1 else 0, control.moreInternalDecoderFrames
  {
    var c := DecodeCall(control, 0, bytes);
    var r := sdk.decode(calls, c);
    if r.status != 0 then LoopEnd(Err(DecodeFailed), calls + [c], r.control, kept)
    else if |kept| + |r.samples| > OutCapacity then LoopEnd(Panic(OutputOverrun), calls + [c], r.control, kept)
    else if r.control.moreInternalDecoderFrames == 0 then LoopEnd(Ok, calls + [c], r.control, KeptAfter(frames, kept, r.samples))
    else FrameLoop(sdk, calls + [c], r.control, bytes, KeptAfter(frames, kept, r.samples), FramesAfter(frames), false)
  }

  /** Number of passes of `for _ in 0..count`. */
  function Iterations(count: int): nat
  {
    if count > 0 then count else 0
  }

  /**
   * The loop for a lost packet: `count` calls with loss flag 1 on `bytes`, every sample kept
   * behind those in `kept`; a nonzero status is an error and samples that do not fit overrun
   * `out`.
   */
  function ConcealLoop(sdk: Sdk, calls: seq<DecodeCall>, control: DecControl, bytes: seq<byte>,
                       count: int, kept: seq<i16>): (r: LoopEnd)
    ensures r.outcome.Ok? || r.outcome == Err(DecodeFailed) || r.outcome == Panic(OutputOverrun)
    ensures |r.calls| >= |calls|
    ensures |kept| <= OutCapacity ==> |r.kept| <= OutCapacity
    decreases count
  {
    if count <= 0 then LoopEnd(Ok, calls, control, kept)
    else
      var c := DecodeCall(control, 1, bytes);
      var r := sdk.decode(calls, c);
      if r.status != 0 then LoopEnd(Err(DecodeFailed), calls + [c], r.control, kept)
      else if |kept| + |r.samples| > OutCapacity then LoopEnd(Panic(OutputOverrun), calls + [c], r.control, kept)
      else ConcealLoop(sdk, calls + [c], r.control, bytes, count - 1, kept + r.samples)
  }

  /**
   * The present-packet loop makes at least one call and keeps the earlier history; its calls
   * carry loss flag 0 and `bytes`, each with the control block the previous one returned, and
   * it ends with the control block of its last call.
   */
  lemma {:induction false} FrameLoopHistory(sdk: Sdk, calls: seq<DecodeCall>, control: DecControl, bytes: seq<byte>,
                                            kept: seq<i16>, frames: nat, first: bool, e: LoopEnd)
    requires Terminates(sdk) && (first || control.moreInternalDecoderFrames > 0)
    requires e == FrameLoop(sdk, calls, control, bytes, kept, frames, first)
    ensures |e.calls| > |calls| && e.calls[..|calls|] == calls && e.calls[|calls|] == DecodeCall(control, 0, bytes)
    ensures Threaded(sdk, e.calls, |calls|, control, 0, bytes)
    ensures e.control == LastReply(sdk, e.calls).control
    decreases if first then 1 else 0, control.moreInternalDecoderFrames
  {
    var c := DecodeCall(control, 0, bytes);
    var r := sdk.decode(calls, c);
    var calls' := calls + [c];
    assert calls'[..|calls|] == calls;
    if r.status != 0 || |kept| + |r.samples| > OutCapacity || r.control.moreInternalDecoderFrames == 0 {
      ThreadedFront(sdk, e.calls, |calls|, control, 0, bytes);
    } else {
      var kept', frames' := KeptAfter(frames, kept, r.samples), FramesAfter(frames);
      FrameLoopHistory(sdk, calls', r.control, bytes, kept', frames', false, e);
      assert e.calls[..|calls|] == e.calls[..|calls'|][..|calls|];
      assert ReplyAt(sdk, e.calls, |calls|) == r;
      ThreadedFront(sdk, e.calls, |calls|, control, 0, bytes);
    }
  }

  /**
   * The present-packet loop stops at its first failing call, or at its first call that reports
   * no more internal frames: every call before the last succeeded and reported more frames.
   * It fails exactly when the last call returned a nonzero status, ends without error only
   * after a call reporting no more frames, and panics otherwise only on an overrun of `out`.
   */
  lemma {:induction false} FrameLoopStops(sdk: Sdk, calls: seq<DecodeCall>, control: DecControl, bytes: seq<byte>,
                                          kept: seq<i16>, frames: nat, first: bool, e: LoopEnd)
    requires Terminates(sdk) && (first || control.moreInternalDecoderFrames > 0)
    requires e == FrameLoop(sdk, calls, control, bytes, kept, frames, first)
    ensures |e.calls| > |calls|
    ensures Succeeded(sdk, e.calls, |calls|, |e.calls| - 1) && MorePending(sdk, e.calls, |calls|, |e.calls| - 1)
    ensures e.outcome.Ok? || e.outcome == Err(DecodeFailed) || e.outcome == Panic(OutputOverrun)
    ensures e.outcome == Err(DecodeFailed) <==> LastReply(sdk, e.calls).status != 0
    ensures e.outcome.Ok? ==> e.control.moreInternalDecoderFrames == 0
    decreases if first then 1 else 0, control.moreInternalDecoderFrames
  {
    var c := DecodeCall(control, 0, bytes);
    var r := sdk.decode(calls, c);
    var calls' := calls + [c];
    FrameLoopHistory(sdk, calls, control, bytes, kept, frames, first, e);
    assert ReplyAt(sdk, e.calls, |calls|) == r by {
      assert e.calls[..|calls|] == calls;
    }
    if r.status == 0 && |kept| + |r.samples| <= OutCapacity && r.control.moreInternalDecoderFrames != 0 {
      var kept', frames' := KeptAfter(frames, kept, r.samples), FramesAfter(frames);
      FrameLoopStops(sdk, calls', r.control, bytes, kept', frames', false, e);
    }
  }

  /** One kept frame of the present-packet loop keeps the retained samples in step with the history. */
  lemma KeepStep(sdk: Sdk, calls: seq<DecodeCall>, c: DecodeCall, k0: nat, frames: nat, kept: seq<i16>)
    requires k0 <= |calls| && frames == Retained(|calls| - k0)
    requires kept == SamplesSince(sdk, calls, |calls| - frames)
    ensures FramesAfter(frames) == Retained(|calls + [c]| - k0)
    ensures KeptAfter(frames, kept, sdk.decode(calls, c).samples) ==
      SamplesSince(sdk, calls + [c], |calls + [c]| - FramesAfter(frames))
  {
    var d := |calls| - k0;
    RetainedNext(d);
    assert |calls + [c]| - k0 == d + 1;
    if FramesAfter(frames) != 0 {
      SamplesSinceExtend(sdk, calls, c, |calls| - frames);
    }
  }

  /**
   * The samples the present-packet loop leaves in `out` are those of its last `Retained`
   * calls, counting its calls from `k0`: the calls before the last resync are dropped.
   */
  lemma {:induction false} FrameLoopKeeps(sdk: Sdk, calls: seq<DecodeCall>, control: DecControl, bytes: seq<byte>,
                                          kept: seq<i16>, frames: nat, first: bool, k0: nat, e: LoopEnd)
    requires Terminates(sdk) && (first || control.moreInternalDecoderFrames > 0)
    requires e == FrameLoop(sdk, calls, control, bytes, kept, frames, first)
    requires k0 <= |calls| && frames == Retained(|calls| - k0)
    requires kept == SamplesSince(sdk, calls, |calls| - frames)
    ensures e.outcome.Ok? ==>
      |e.calls| >= k0 && e.kept == SamplesSince(sdk, e.calls, |e.calls| - Retained(|e.calls| - k0))
    decreases if first then 1 else 0, control.moreInternalDecoderFrames
  {
    var c := DecodeCall(control, 0, bytes);
    var r := sdk.decode(calls, c);
    var calls' := calls + [c];
    if r.status == 0 && |kept| + |r.samples| <= OutCapacity {
      var kept', frames' := KeptAfter(frames, kept, r.samples), FramesAfter(frames);
      KeepStep(sdk, calls, c, k0, frames, kept);
      if r.control.moreInternalDecoderFrames != 0 {
        FrameLoopKeeps(sdk, calls', r.control, bytes, kept', frames', false, k0, e);
      }
    }
  }

  /**
   * A decoder within the SILK limits never overruns `out` in the present-packet loop: at most
   * six frames of 960 samples are kept before a resync, well within the 9600 samples of `out`.
   * The loop then ends with a control block announcing at most five frames per packet.
   */
  lemma {:induction false} FrameLoopFits(sdk: Sdk, calls: seq<DecodeCall>, control: DecControl, bytes: seq<byte>,
                                         kept: seq<i16>, frames: nat, first: bool, e: LoopEnd)
    requires Terminates(sdk) && (first || control.moreInternalDecoderFrames > 0)
    requires e == FrameLoop(sdk, calls, control, bytes, kept, frames, first)
    requires WithinLimits(sdk) && frames <= MaxInputFrames && |kept| <= frames * MaxFrameSamples
    ensures e.outcome != Panic(OutputOverrun)
    ensures e.control.framesPerPacket <= MaxInputFrames
    decreases if first then 1 else 0, control.moreInternalDecoderFrames
  {
    var c := DecodeCall(control, 0, bytes);
    var r := sdk.decode(calls, c);
    assert |r.samples| <= MaxFrameSamples && r.control.framesPerPacket <= MaxInputFrames;
    if r.status == 0 && r.control.moreInternalDecoderFrames != 0 {
      var kept', frames' := KeptAfter(frames, kept, r.samples), FramesAfter(frames);
      FrameLoopFits(sdk, calls + [c], r.control, bytes, kept', frames', false, e);
    }
  }

  /**
   * The lost-packet loop keeps the earlier history and makes at most `count` calls, exactly
   * that many when it succeeds; its calls carry loss flag 1 and `bytes`, each with the control
   * block the previous one returned, and it ends with the control block of its last call (or
   * the one it started with when it made none).
   */
  lemma {:induction false} ConcealLoopHistory(sdk: Sdk, calls: seq<DecodeCall>, control: DecControl, bytes: seq<byte>,
                                              count: int, kept: seq<i16>, e: LoopEnd)
    requires e == ConcealLoop(sdk, calls, control, bytes, count, kept)
    ensures |calls| <= |e.calls| <= |calls| + Iterations(count) && e.calls[..|calls|] == calls
    ensures e.outcome.Ok? ==> |e.calls| == |calls| + Iterations(count)
    ensures Threaded(sdk, e.calls, |calls|, control, 1, bytes)
    ensures |e.calls| == |calls| ==> e.control == control
    ensures |e.calls| > |calls| ==> e.control == LastReply(sdk, e.calls).control
    decreases count
  {
    if count > 0 {
      var c := DecodeCall(control, 1, bytes);
      var r := sdk.decode(calls, c);
      var calls' := calls + [c];
      assert calls'[..|calls|] == calls;
      if r.status != 0 || |kept| + |r.samples| > OutCapacity {
        ThreadedFront(sdk, e.calls, |calls|, control, 1, bytes);
      } else {
        ConcealLoopHistory(sdk, calls', r.control, bytes, count - 1, kept + r.samples, e);
        assert e.calls[..|calls|] == e.calls[..|calls'|][..|calls|];
        assert ReplyAt(sdk, e.calls, |calls|) == r;
        if |e.calls| > |calls'| {
          ThreadedFront(sdk, e.calls, |calls|, control, 1, bytes);
        }
      }
    }
  }

  /**
   * The lost-packet loop fails exactly when a call returned a nonzero status, and that call is
   * its last; every call before the last succeeded; it panics otherwise only on an overrun of
   * `out`; when it succeeds, `out` holds the samples of all its calls in order.
   */
  lemma {:induction false} ConcealLoopStops(sdk: Sdk, calls: seq<DecodeCall>, control: DecControl, bytes: seq<byte>,
                                            count: int, kept: seq<i16>, k0: nat, e: LoopEnd)
    requires e == ConcealLoop(sdk, calls, control, bytes, count, kept)
    requires k0 <= |calls| && kept == SamplesSince(sdk, calls, k0)
    ensures |e.calls| >= |calls|
    ensures |e.calls| > |calls| ==> Succeeded(sdk, e.calls, |calls|, |e.calls| - 1)
    ensures e.outcome.Ok? || e.outcome == Err(DecodeFailed) || e.outcome == Panic(OutputOverrun)
    ensures e.outcome == Err(DecodeFailed) <==> |e.calls| > |calls| && LastReply(sdk, e.calls).status != 0
    ensures e.outcome.Ok? ==> e.kept == SamplesSince(sdk, e.calls, k0)
    decreases count
  {
    ConcealLoopHistory(sdk, calls, control, bytes, count, kept, e);
    if count > 0 {
      var c := DecodeCall(control, 1, bytes);
      var r := sdk.decode(calls, c);
      var calls' := calls + [c];
      if r.status != 0 || |kept| + |r.samples| > OutCapacity {
        assert e.calls == calls' && calls'[..|calls|] == calls;
      } else {
        SamplesSinceExtend(sdk, calls, c, k0);
        ConcealLoopStops(sdk, calls', r.control, bytes, count - 1, kept + r.samples, k0, e);
      }
    }
  }

  /**
   * A decoder within the SILK limits never overruns `out` in the lost-packet loop when the
   * count leaves room for 960 samples per call, and it keeps announcing at most five frames
   * per packet.
   */
  lemma {:induction false} ConcealLoopFits(sdk: Sdk, calls: seq<DecodeCall>, control: DecControl, bytes: seq<byte>,
                                           count: int, kept: seq<i16>, e: LoopEnd)
    requires e == ConcealLoop(sdk, calls, control, bytes, count, kept)
    requires WithinLimits(sdk) && |kept| + Iterations(count) * MaxFrameSamples <= OutCapacity
    requires control.framesPerPacket <= MaxInputFrames
    ensures e.outcome != Panic(OutputOverrun)
    ensures e.control.framesPerPacket <= MaxInputFrames
    decreases count
  {
    if count > 0 {
      var c := DecodeCall(control, 1, bytes);
      var r := sdk.decode(calls, c);
      assert |r.samples| <= MaxFrameSamples && r.control.framesPerPacket <= MaxInputFrames;
      if r.status == 0 {
        ConcealLoopFits(sdk, calls + [c], r.control, bytes, count - 1, kept + r.samples, e);
      }
    }
  }
}
