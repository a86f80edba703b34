/**
 * The decode session `silk_v3_decoder` as a function of the input file, the SDK and the
 * progress channel: header check, decoder set-up, priming of the lookahead window with two
 * packets, then one step per further packet until the container ends. Each step reads a
 * packet into the window, decides what to decode for the packet in slot 0 (the packet itself,
 * redundancy data found in a later packet, or nothing: concealment), runs the decode loop,
 * appends the samples to the PCM output, slides the window and sends a progress event.
 * The properties of the session are proved here; the imperative session is proved equal to
 * these functions.
 */
module SessionSpec {
  import opened Base
  import opened Bytes
  import opened Container
  import opened Sdk
  import opened Window
  import opened Outcomes
  import opened DecodeLoop

  /** `RAND_MAX` of the C library. */
  const RandMax: int := 0x7FFF_FFFF

  /**
   * The test deciding whether a newly read packet enters the window,
   * `((rand() >> 16) + (1 << 15)) as f32 / 65535.0 >= 0.0`, holds for every value `rand()`
   * returns: every packet is kept, and the model has no packet-dropping branch.
   */
  lemma PacketAlwaysKept(x: int)
    requires 0 <= x <= RandMax
    ensures ((x / 0x1_0000 + 0x8000) as real) / 65535.0 >= 0.0
  {
  }

  /**
   * What the session decodes in a step, from the three buffered packets `held` once the new
   * one is appended: the packet of slot 0 with loss flag 0 when it is nonempty; otherwise the
   * first redundancy payload found in slots 1 and 2 with loss flag 0; failing that, loss flag 1
   * with as many bytes from the start of the buffer as the new packet has, which the decoder
   * ignores.
   */
  function HeadPlan(sdk: Sdk, held: seq<seq<byte>>): (r: (int, seq<byte>))
    requires |held| == Slots
    ensures r.0 == 0 || r.0 == 1
    ensures r.0 == 0 ==> |r.1| > 0
    ensures r.0 == 1 ==> |r.1| == |held[2]|
  {
    if |held[0]| != 0 then (0, held[0])
    else match FirstRecovery(sdk, held, 1)
      case Some(rec) => (0, rec.payload)
      case None => (1, (held[0] + held[1] + held[2])[..|held[2]|])
  }

  /**
   * A step conceals its head packet (loss flag 1) exactly when that packet is empty and no
   * later buffered packet carries redundancy data for it; an empty head packet with such data
   * is replaced by the payload found in the earliest such packet; a nonempty one is decoded as
   * it is.
   */
  lemma HeadPlanCases(sdk: Sdk, held: seq<seq<byte>>)
    requires |held| == Slots
    ensures HeadPlan(sdk, held).0 == 1 <==>
      |held[0]| == 0 && forall k :: 1 <= k < Slots ==> !Recoverable(sdk, held, k)
    ensures |held[0]| != 0 ==> HeadPlan(sdk, held) == (0, held[0])
    ensures |held[0]| == 0 && HeadPlan(sdk, held).0 == 0 ==>
      exists k :: 1 <= k < Slots && Recoverable(sdk, held, k) &&
        HeadPlan(sdk, held).1 == sdk.searchLbrr(held[k], k) &&
        (forall j :: 1 <= j < k ==> !Recoverable(sdk, held, j)) &&
        |HeadPlan(sdk, held).1| > 0
  {
    FirstRecoveryIsFirst(sdk, held, 1);
    if |held[0]| == 0 && FirstRecovery(sdk, held, 1).Some? {
      var r := FirstRecovery(sdk, held, 1).value;
      assert Recoverable(sdk, held, r.slot);
    }
  }

  /**
   * The decode of a step: the present-packet loop on the planned bytes, or the lost-packet
   * loop with the frame count of the current control block; `out` starts empty either way.
   */
  function HeadDecode(sdk: Sdk, calls: seq<DecodeCall>, control: DecControl, held: seq<seq<byte>>): (r: LoopEnd)
    requires Terminates(sdk) && |held| == Slots
    ensures r.outcome.Ok? || r.outcome == Err(DecodeFailed) || r.outcome == Panic(OutputOverrun)
  {
    var plan := HeadPlan(sdk, held);
    if plan.0 == 0 then FrameLoop(sdk, calls, control, plan.1, [], 0, true)
    else ConcealLoop(sdk, calls, control, plan.1, control.framesPerPacket, [])
  }

  /**
   * The decode of a step ends without error, with a decode failure or with an overrun of
   * `out`; a decoder within the SILK limits, given a control block announcing at most five
   * frames per packet, never overruns and leaves such a control block behind.
   */
  lemma HeadDecodeEnds(sdk: Sdk, calls: seq<DecodeCall>, control: DecControl, held: seq<seq<byte>>, e: LoopEnd)
    requires Terminates(sdk) && |held| == Slots && e == HeadDecode(sdk, calls, control, held)
    ensures e.outcome.Ok? || e.outcome == Err(DecodeFailed) || e.outcome == Panic(OutputOverrun)
    ensures WithinLimits(sdk) && control.framesPerPacket <= MaxInputFrames ==>
      e.outcome != Panic(OutputOverrun) && e.control.framesPerPacket <= MaxInputFrames
  {
    var plan := HeadPlan(sdk, held);
    if plan.0 == 0 {
      FrameLoopStops(sdk, calls, control, plan.1, [], 0, true, e);
      if WithinLimits(sdk) {
        FrameLoopFits(sdk, calls, control, plan.1, [], 0, true, e);
      }
    } else {
      assert SamplesSince(sdk, calls, |calls|) == [];
      ConcealLoopStops(sdk, calls, control, plan.1, control.framesPerPacket, [], |calls|, e);
      if WithinLimits(sdk) && control.framesPerPacket <= MaxInputFrames {
        ConcealLoopFits(sdk, calls, control, plan.1, control.framesPerPacket, [], e);
      }
    }
  }

  /** How priming ends: the position after the two packets and the packets, or the outcome that ends the session. */
  datatype PrimeEnd = Primed(pos: nat, held: seq<seq<byte>>) | PrimeFailed(outcome: Outcome)

  /**
   * Priming from position `pos` with the packets `held` already in the window: each packet is
   * read behind those already held; a stream that ends inside it is an `UnexpectedEof` error,
   * and a negative length or a payload that does not fit the buffer panics on the slice.
   */
  function PrimeFrom(data: seq<byte>, pos: nat, held: seq<seq<byte>>): (r: PrimeEnd)
    requires pos <= |data| && |held| <= MaxLbrrDelay
    ensures r.Primed? ==> pos <= r.pos <= |data| && |r.held| == MaxLbrrDelay
    decreases MaxLbrrDelay - |held|
  {
    if |held| == MaxLbrrDelay then Primed(pos, held)
    else match NextPacket(data, pos, PayloadCapacity - HeldBytes(held))
      case Stored(payload, next) => PrimeFrom(data, next, held + [payload])
      case Truncated => PrimeFailed(Err(UnexpectedEof))
      case NegativeLength => PrimeFailed(Panic(SliceOutOfRange))
      case TooLarge => PrimeFailed(Panic(SliceOutOfRange))
  }

  /**
   * The session between two steps: the stream position, the two packets in the window, the
   * decoder's history and control block, the PCM written and the events sent.
   */
  datatype Between = Between(pos: nat, held: seq<seq<byte>>, calls: seq<DecodeCall>, control: DecControl,
                             pcm: seq<byte>, events: seq<Progress>)

  /** A step either leaves the session between steps again or ends it. */
  datatype StepEnd = Continue(next: Between) | Stop(outcome: Outcome, pcm: seq<byte>, events: seq<Progress>)

  /**
   * One step: a stream that ends inside the next packet, or a negative length, ends the
   * session without error; a payload that does not fit the buffer panics on the slice;
   * otherwise the packet joins the window, the head packet is decoded, its samples are written
   * as PCM, the window slides and a progress event with the new position is sent, which panics
   * when the channel is closed.
   */
  function SessionStep(sdk: Sdk, channel: Channel, data: seq<byte>, s: Between): (r: StepEnd)
    requires Terminates(sdk) && s.pos <= |data| && |s.held| == MaxLbrrDelay
    ensures r.Continue? ==> s.pos < r.next.pos <= |data| && |r.next.held| == MaxLbrrDelay
  {
    match NextPacket(data, s.pos, PayloadCapacity - HeldBytes(s.held))
    case Truncated => Stop(Ok, s.pcm, s.events)
    case NegativeLength => Stop(Ok, s.pcm, s.events)
    case TooLarge => Stop(Panic(SliceOutOfRange), s.pcm, s.events)
    case Stored(payload, pos) =>
      var held := s.held + [payload];
      var e := HeadDecode(sdk, s.calls, s.control, held);
      if !e.outcome.Ok? then Stop(e.outcome, s.pcm, s.events)
      else
        var pcm := s.pcm + EncodePcm(e.kept);
        if !Accepts(channel, |s.events|) then Stop(Panic(ChannelClosed), pcm, s.events)
        else Continue(Between(pos, held[1..], e.calls, e.control, pcm, s.events + [Progress(pos, |data|)]))
  }

  /** Steps until one ends the session. */
  function MainLoop(sdk: Sdk, channel: Channel, data: seq<byte>, s: Between): (r: StepEnd)
    requires Terminates(sdk) && s.pos <= |data| && |s.held| == MaxLbrrDelay
    ensures r.Stop?
    decreases |data| - s.pos
  {
    match SessionStep(sdk, channel, data, s)
    case Stop(o, pcm, events) => Stop(o, pcm, events)
    case Continue(next) => MainLoop(sdk, channel, data, next)
  }

  /**
   * The whole session on `file`. A header cut short is an `UnexpectedEof` error and a wrong
   * magic a `WrongHeader` error; then the decoder size query, the allocation and the
   * initialisation may each fail; priming may fail; then the steps run. The decoder state is
   * released only when the session ends without error or panic.
   */
  function Session(sdk: Sdk, channel: Channel, file: seq<byte>): Report
    requires Terminates(sdk)
  {
    match CheckHeader(file)
    case Rejected(e) =>
      Report(Err(if e == HeaderTruncated then UnexpectedEof else ErrorKind.WrongHeader), NotAllocated, [], [])
    case Accepted(end) =>
      if sdk.decoderSizeStatus != 0 then Report(Err(DecoderSizeFailed), NotAllocated, [], [])
      else if !sdk.allocationSucceeds then Report(Err(AllocationFailed), NotAllocated, [], [])
      else if sdk.initStatus != 0 then Report(Err(InitDecoderFailed), Allocated, [], [])
      else match PrimeFrom(file, end, [])
        case PrimeFailed(o) => Report(o, Allocated, [], [])
        case Primed(pos, held) =>
          var f := MainLoop(sdk, channel, file, Between(pos, held, [], InitialControl, [], []));
          Report(f.outcome, if f.outcome.Ok? then Released else Allocated, f.pcm, f.events)
  }

  /**
   * The session between steps agrees with the packets `read` since `start`: the window holds
   * the last two of them, and one event has been sent per packet beyond the first two.
   */
  ghost predicate Follows(data: seq<byte>, start: nat, s: Between, read: seq<seq<byte>>)
  {
    && |read| >= MaxLbrrDelay && ReadUpTo(data, start, s.pos, read)
    && s.held == read[|read| - MaxLbrrDelay..] && |s.events| + MaxLbrrDelay == |read|
  }

  /**
   * One read while priming, with fewer than two packets behind it and, on a container whose
   * lengths fit the window, room for a full packet: a truncated stream means the container has
   * fewer than two packets, and a length that is negative or does not fit means its lengths do
   * not fit the window.
   */
  lemma PrimeRead(data: seq<byte>, start: nat, pos: nat, read: seq<seq<byte>>, r: PacketRead)
    requires ReadUpTo(data, start, pos, read) && |read| < MaxLbrrDelay
    requires r == NextPacket(data, pos, PayloadCapacity - HeldBytes(read))
    ensures r.Stored? ==> ReadUpTo(data, start, r.next, read + [r.payload])
    ensures r.Truncated? ==> |ReadFrames(data[start..])| < MaxLbrrDelay
    ensures r.NegativeLength? || r.TooLarge? ==> !WellSized(data[start..])
  {
    Advance(data, start, pos, read, PayloadCapacity - HeldBytes(read), r);
  }

  /**
   * Priming reads the first two packets of the container; it fails with `UnexpectedEof` only
   * on a container of fewer than two packets, and panics only on one whose lengths do not fit
   * the window.
   */
  lemma {:induction false} PrimeReads(data: seq<byte>, start: nat, pos: nat, read: seq<seq<byte>>, p: PrimeEnd)
    requires ReadUpTo(data, start, pos, read) && |read| <= MaxLbrrDelay && p == PrimeFrom(data, pos, read)
    ensures p.Primed? ==> ReadUpTo(data, start, p.pos, p.held)
    ensures p.PrimeFailed? ==> p.outcome == Err(UnexpectedEof) || p.outcome == Panic(SliceOutOfRange)
    ensures p == PrimeFailed(Err(UnexpectedEof)) ==> |ReadFrames(data[start..])| < MaxLbrrDelay
    ensures p == PrimeFailed(Panic(SliceOutOfRange)) ==> !WellSized(data[start..])
    decreases MaxLbrrDelay - |read|
  {
    if |read| < MaxLbrrDelay {
      var r := NextPacket(data, pos, PayloadCapacity - HeldBytes(read));
      PrimeRead(data, start, pos, read, r);
      if r.Stored? {
        PrimeReads(data, start, r.next, read + [r.payload], p);
      }
    }
  }

  /**
   * How a step ends, by what the reader finds: it ends without error exactly at the end of the
   * stream or on a negative length, panics on a slice only when a payload does not fit, and
   * goes on only with a stored packet, which enters the window.
   */
  lemma StepReads(sdk: Sdk, channel: Channel, data: seq<byte>, s: Between, r: StepEnd, p: PacketRead)
    requires Terminates(sdk) && s.pos <= |data| && |s.held| == MaxLbrrDelay
    requires r == SessionStep(sdk, channel, data, s) && p == NextPacket(data, s.pos, PayloadCapacity - HeldBytes(s.held))
    ensures r.Stop? && r.outcome.Ok? ==> (p.Truncated? || p.NegativeLength?) && r.events == s.events
    ensures p.Truncated? || p.NegativeLength? ==> r == Stop(Ok, s.pcm, s.events)
    ensures r.Stop? && r.outcome == Panic(SliceOutOfRange) ==> p.TooLarge?
    ensures r.Continue? ==>
      && p.Stored? && r.next.pos == p.next && r.next.held == [s.held[1], p.payload]
      && |r.next.events| == |s.events| + 1
  {
    if p.Stored? {
      var held := s.held + [p.payload];
      HeadDecodeEnds(sdk, s.calls, s.control, held, HeadDecode(sdk, s.calls, s.control, held));
    }
  }

  /**
   * A step agrees with the container: it ends without error only when the container has no
   * packet left, so that every packet but the two in the window has been decoded; it panics on
   * a slice only when the container's lengths do not fit the window; a step that goes on has
   * read the next packet.
   */
  lemma StepFollows(sdk: Sdk, channel: Channel, data: seq<byte>, start: nat, s: Between,
                    read: seq<seq<byte>>, r: StepEnd)
    requires Terminates(sdk) && |s.held| == MaxLbrrDelay && Follows(data, start, s, read)
    requires r == SessionStep(sdk, channel, data, s)
    ensures r.Stop? && r.outcome.Ok? ==> |r.events| + MaxLbrrDelay == |ReadFrames(data[start..])|
    ensures r.Stop? && WellSized(data[start..]) ==> r.outcome != Panic(SliceOutOfRange)
    ensures r.Continue? ==> Follows(data, start, r.next, read + [r.next.held[1]])
  {
    var room := PayloadCapacity - HeldBytes(s.held);
    var p := NextPacket(data, s.pos, room);
    StepReads(sdk, channel, data, s, r, p);
    Advance(data, start, s.pos, read, room, p);
    if WellSized(data[start..]) {
      assert |read[|read| - 2]| <= MaxPacketBytes && |read[|read| - 1]| <= MaxPacketBytes;
      assert s.held[0] == read[|read| - 2] && s.held[1] == read[|read| - 1];
    }
    if r.Continue? {
      SlideTail(read, p.payload);
    }
  }

  /**
   * The steps end without error only when the container has no packet left, having decoded
   * every packet but the last two; they panic on a slice only when the container's lengths do
   * not fit the window.
   */
  lemma {:induction false} MainLoopFollows(sdk: Sdk, channel: Channel, data: seq<byte>, start: nat, s: Between,
                                           read: seq<seq<byte>>)
    requires Terminates(sdk) && s.pos <= |data| && |s.held| == MaxLbrrDelay && Follows(data, start, s, read)
    ensures MainLoop(sdk, channel, data, s).outcome.Ok? ==>
      |MainLoop(sdk, channel, data, s).events| + MaxLbrrDelay == |ReadFrames(data[start..])|
    ensures WellSized(data[start..]) ==> MainLoop(sdk, channel, data, s).outcome != Panic(SliceOutOfRange)
    decreases |data| - s.pos
  {
    var r := SessionStep(sdk, channel, data, s);
    StepFollows(sdk, channel, data, start, s, read, r);
    if r.Continue? {
      MainLoopFollows(sdk, channel, data, start, r.next, read + [r.next.held[1]]);
    }
  }

  /**
   * A step ends with one of the outcomes a step can produce, and sends one event exactly when
   * it goes on, the event carrying the new position and the file size.
   */
  lemma StepEnds(sdk: Sdk, channel: Channel, data: seq<byte>, s: Between, r: StepEnd)
    requires Terminates(sdk) && s.pos <= |data| && |s.held| == MaxLbrrDelay
    requires r == SessionStep(sdk, channel, data, s)
    ensures r.Stop? ==> r.outcome in {Ok, Err(DecodeFailed), Panic(SliceOutOfRange), Panic(OutputOverrun), Panic(ChannelClosed)}
    ensures r.Stop? ==> r.events == s.events && (r.outcome == Panic(ChannelClosed) ==> !Accepts(channel, |s.events|))
    ensures r.Continue? ==> Accepts(channel, |s.events|) && r.next.events == s.events + [Progress(r.next.pos, |data|)]
  {
    var p := NextPacket(data, s.pos, PayloadCapacity - HeldBytes(s.held));
    if p.Stored? {
      var held := s.held + [p.payload];
      HeadDecodeEnds(sdk, s.calls, s.control, held, HeadDecode(sdk, s.calls, s.control, held));
    }
  }

  /** A step only appends to the PCM output, and by whole 16-bit samples. */
  lemma StepPcm(sdk: Sdk, channel: Channel, data: seq<byte>, s: Between, r: StepEnd)
    requires Terminates(sdk) && s.pos <= |data| && |s.held| == MaxLbrrDelay
    requires r == SessionStep(sdk, channel, data, s)
    ensures var pcm := if r.Stop? then r.pcm else r.next.pcm;
      |pcm| >= |s.pcm| && pcm[..|s.pcm|] == s.pcm && |pcm| % 2 == |s.pcm| % 2
  {
    var p := NextPacket(data, s.pos, PayloadCapacity - HeldBytes(s.held));
    if p.Stored? {
      var held := s.held + [p.payload];
      var e := HeadDecode(sdk, s.calls, s.control, held);
      if e.outcome.Ok? {
        var bytes := EncodePcm(e.kept);
        EvenAppend(s.pcm, bytes, |e.kept|);
        assert (s.pcm + bytes)[..|s.pcm|] == s.pcm;
      }
    }
  }

  /** A decoder within the SILK limits never overruns `out` in a step and keeps announcing at most five frames per packet. */
  lemma StepFits(sdk: Sdk, channel: Channel, data: seq<byte>, s: Between, r: StepEnd)
    requires Terminates(sdk) && s.pos <= |data| && |s.held| == MaxLbrrDelay
    requires r == SessionStep(sdk, channel, data, s)
    requires WithinLimits(sdk) && s.control.framesPerPacket <= MaxInputFrames
    ensures r.Stop? ==> r.outcome != Panic(OutputOverrun)
    ensures r.Continue? ==> r.next.control.framesPerPacket <= MaxInputFrames
  {
    var p := NextPacket(data, s.pos, PayloadCapacity - HeldBytes(s.held));
    if p.Stored? {
      var held := s.held + [p.payload];
      HeadDecodeEnds(sdk, s.calls, s.control, held, HeadDecode(sdk, s.calls, s.control, held));
    }
  }

  /** The steps end with one of the outcomes a step can produce. */
  lemma {:induction false} MainLoopOutcomes(sdk: Sdk, channel: Channel, data: seq<byte>, s: Between)
    requires Terminates(sdk) && s.pos <= |data| && |s.held| == MaxLbrrDelay
    ensures MainLoop(sdk, channel, data, s).outcome in
      {Ok, Err(DecodeFailed), Panic(SliceOutOfRange), Panic(OutputOverrun), Panic(ChannelClosed)}
    decreases |data| - s.pos
  {
    var r := SessionStep(sdk, channel, data, s);
    StepEnds(sdk, channel, data, s, r);
    if r.Continue? {
      MainLoopOutcomes(sdk, channel, data, r.next);
    }
  }

  /** A decoder within the SILK limits never overruns `out` in any step. */
  lemma {:induction false} MainLoopFits(sdk: Sdk, channel: Channel, data: seq<byte>, s: Between)
    requires Terminates(sdk) && s.pos <= |data| && |s.held| == MaxLbrrDelay
    requires WithinLimits(sdk) && s.control.framesPerPacket <= MaxInputFrames
    ensures MainLoop(sdk, channel, data, s).outcome != Panic(OutputOverrun)
    decreases |data| - s.pos
  {
    var r := SessionStep(sdk, channel, data, s);
    StepFits(sdk, channel, data, s, r);
    if r.Continue? {
      MainLoopFits(sdk, channel, data, r.next);
    }
  }

  /**
   * The steps send one event per step that goes on, each accepted by the channel: an open
   * channel never makes the session panic, and a channel that closes after `n` events
   * receives at most `n`, and exactly `n` when its refusal is what ends the session.
   */
  lemma {:induction false} MainLoopChannel(sdk: Sdk, channel: Channel, data: seq<byte>, s: Between)
    requires Terminates(sdk) && s.pos <= |data| && |s.held| == MaxLbrrDelay
    requires channel.ClosesAfter? ==> |s.events| <= channel.accepted
    ensures channel.Open? ==> MainLoop(sdk, channel, data, s).outcome != Panic(ChannelClosed)
    ensures channel.ClosesAfter? ==> |MainLoop(sdk, channel, data, s).events| <= channel.accepted
    ensures MainLoop(sdk, channel, data, s).outcome == Panic(ChannelClosed) ==>
      channel == ClosesAfter(|MainLoop(sdk, channel, data, s).events|)
    decreases |data| - s.pos
  {
    var r := SessionStep(sdk, channel, data, s);
    StepEnds(sdk, channel, data, s, r);
    if r.Continue? {
      MainLoopChannel(sdk, channel, data, r.next);
    }
  }

  /**
   * The events of the steps report strictly increasing positions within the file, each
   * against the file size, and the PCM output grows by whole 16-bit samples.
   */
  lemma {:induction false} MainLoopOutput(sdk: Sdk, channel: Channel, data: seq<byte>, s: Between)
    requires Terminates(sdk) && s.pos <= |data| && |s.held| == MaxLbrrDelay
    requires EventsOrdered(s.events, s.pos, |data|)
    ensures EventsOrdered(MainLoop(sdk, channel, data, s).events, |data|, |data|)
    ensures |MainLoop(sdk, channel, data, s).pcm| >= |s.pcm|
    ensures MainLoop(sdk, channel, data, s).pcm[..|s.pcm|] == s.pcm
    ensures |MainLoop(sdk, channel, data, s).pcm| % 2 == |s.pcm| % 2
    decreases |data| - s.pos
  {
    var r := SessionStep(sdk, channel, data, s);
    StepEnds(sdk, channel, data, s, r);
    StepPcm(sdk, channel, data, s, r);
    if r.Continue? {
      var n := r.next;
      EventsAppend(s.events, s.pos, n.pos, |data|);
      MainLoopOutput(sdk, channel, data, n);
      PrefixTrans(s.pcm, n.pcm, MainLoop(sdk, channel, data, n).pcm);
    } else {
      EventsWiden(s.events, s.pos, |data|, |data|);
    }
  }

  /** The session between steps right after priming. */
  function Started(pos: nat, held: seq<seq<byte>>): Between
  {
    Between(pos, held, [], InitialControl, [], [])
  }

  /**
   * Priming after an accepted header reads the first two packets of the container, so that the
   * steps start in agreement with it; it fails with `UnexpectedEof` only on a container of
   * fewer than two packets and panics only on one whose lengths do not fit the window.
   */
  lemma SessionPrimes(file: seq<byte>, end: nat, p: PrimeEnd)
    requires CheckHeader(file) == Accepted(end) && p == PrimeFrom(file, end, [])
    ensures p.Primed? ==> Follows(file, end, Started(p.pos, p.held), p.held)
    ensures p.PrimeFailed? ==> p.outcome == Err(UnexpectedEof) || p.outcome == Panic(SliceOutOfRange)
    ensures p == PrimeFailed(Err(UnexpectedEof)) ==> |ReadFrames(file[end..])| < MaxLbrrDelay
    ensures p == PrimeFailed(Panic(SliceOutOfRange)) ==> !WellSized(file[end..])
  {
    ReadFromStart(file, end);
    PrimeReads(file, end, end, [], p);
    if p.Primed? {
      assert p.held[|p.held| - MaxLbrrDelay..] == p.held;
    }
  }

  /**
   * How a session ends: the decoder state is released exactly when it ends without error; it
   * is never allocated when the header is refused or the size query or the allocation fails,
   * and stays allocated after every other error or panic. A refused header leaves the output
   * empty and sends no event. Each set-up error is returned exactly
   * when its call fails after those before it succeeded, a wrong magic exactly when the header
   * check says so, and `UnexpectedEof` only for a header cut short or a container of fewer
   * than two packets.
   */
  lemma SessionOutcomes(sdk: Sdk, channel: Channel, file: seq<byte>)
    requires Terminates(sdk)
    ensures var rep := Session(sdk, channel, file);
      && (rep.decoder == Released <==> rep.outcome.Ok?)
      && (rep.decoder == NotAllocated <==>
            !CheckHeader(file).Accepted? || sdk.decoderSizeStatus != 0 || !sdk.allocationSucceeds)
      && (rep.outcome == Err(ErrorKind.WrongHeader) <==> CheckHeader(file) == Rejected(HeaderError.WrongHeader))
      && (rep.outcome == Err(DecoderSizeFailed) <==> CheckHeader(file).Accepted? && sdk.decoderSizeStatus != 0)
      && (rep.outcome == Err(AllocationFailed) <==>
            CheckHeader(file).Accepted? && sdk.decoderSizeStatus == 0 && !sdk.allocationSucceeds)
      && (rep.outcome == Err(InitDecoderFailed) <==>
            CheckHeader(file).Accepted? && sdk.decoderSizeStatus == 0 && sdk.allocationSucceeds && sdk.initStatus != 0)
      && (rep.outcome == Err(UnexpectedEof) ==>
            CheckHeader(file) == Rejected(HeaderTruncated) ||
            |ReadFrames(file[CheckHeader(file).end..])| < MaxLbrrDelay)
      && (CheckHeader(file) == Rejected(HeaderTruncated) ==> rep.outcome == Err(UnexpectedEof))
      && (!CheckHeader(file).Accepted? ==> rep.pcm == [] && rep.events == [])
  {
    match CheckHeader(file)
    case Rejected(_) =>
    case Accepted(end) =>
      var p := PrimeFrom(file, end, []);
      SessionPrimes(file, end, p);
      if p.Primed? {
        MainLoopOutcomes(sdk, channel, file, Started(p.pos, p.held));
      }
  }

  /**
   * A session that ends without error had an accepted header and decoded every packet of the
   * container but the last two, sending one progress event per packet decoded.
   */
  lemma SessionCountsPackets(sdk: Sdk, channel: Channel, file: seq<byte>)
    requires Terminates(sdk)
    ensures var rep := Session(sdk, channel, file);
      rep.outcome.Ok? ==>
        CheckHeader(file).Accepted? &&
        |rep.events| + MaxLbrrDelay == |ReadFrames(file[CheckHeader(file).end..])|
  {
    match CheckHeader(file)
    case Rejected(_) =>
    case Accepted(end) =>
      var p := PrimeFrom(file, end, []);
      SessionPrimes(file, end, p);
      if p.Primed? {
        MainLoopFollows(sdk, channel, file, end, Started(p.pos, p.held), p.held);
      }
  }

  /**
   * A container whose declared lengths fit the window (none above 5120 bytes, none negative
   * among the first two) never makes the session panic on a packet slice.
   */
  lemma SessionSized(sdk: Sdk, channel: Channel, file: seq<byte>)
    requires Terminates(sdk)
    ensures CheckHeader(file).Accepted? && WellSized(file[CheckHeader(file).end..]) ==>
      Session(sdk, channel, file).outcome != Panic(SliceOutOfRange)
  {
    match CheckHeader(file)
    case Rejected(_) =>
    case Accepted(end) =>
      var p := PrimeFrom(file, end, []);
      SessionPrimes(file, end, p);
      if p.Primed? {
        MainLoopFollows(sdk, channel, file, end, Started(p.pos, p.held), p.held);
      }
  }

  /** A decoder within the SILK limits never makes the session overrun its `out` buffer. */
  lemma SessionFits(sdk: Sdk, channel: Channel, file: seq<byte>)
    requires Terminates(sdk) && WithinLimits(sdk)
    ensures Session(sdk, channel, file).outcome != Panic(OutputOverrun)
  {
    match CheckHeader(file)
    case Rejected(_) =>
    case Accepted(end) =>
      var p := PrimeFrom(file, end, []);
      SessionPrimes(file, end, p);
      if p.Primed? {
        MainLoopFits(sdk, channel, file, Started(p.pos, p.held));
      }
  }

  /**
   * The session sends each progress event only once the channel accepts it: an open channel
   * never makes it panic, a channel that closes after `n` events receives at most `n`, and
   * exactly `n` when its refusal is what ends the session.
   */
  lemma SessionChannel(sdk: Sdk, channel: Channel, file: seq<byte>)
    requires Terminates(sdk)
    ensures var rep := Session(sdk, channel, file);
      && (channel.Open? ==> rep.outcome != Panic(ChannelClosed))
      && (channel.ClosesAfter? ==> |rep.events| <= channel.accepted)
      && (rep.outcome == Panic(ChannelClosed) ==> channel == ClosesAfter(|rep.events|))
  {
    match CheckHeader(file)
    case Rejected(_) =>
    case Accepted(end) =>
      var p := PrimeFrom(file, end, []);
      SessionPrimes(file, end, p);
      if p.Primed? {
        MainLoopChannel(sdk, channel, file, Started(p.pos, p.held));
      }
  }

  /**
   * The progress events of a session report strictly increasing positions within the file,
   * each against the file size, and its PCM output is whole 16-bit samples.
   */
  lemma SessionOutput(sdk: Sdk, channel: Channel, file: seq<byte>)
    requires Terminates(sdk)
    ensures var rep := Session(sdk, channel, file);
      EventsOrdered(rep.events, |file|, |file|) && |rep.pcm| % 2 == 0
  {
    match CheckHeader(file)
    case Rejected(_) =>
    case Accepted(end) =>
      var p := PrimeFrom(file, end, []);
      if p.Primed? {
        MainLoopOutput(sdk, channel, file, Started(p.pos, p.held));
      }
  }
}
