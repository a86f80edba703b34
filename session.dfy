/**
 * The decode session `silk_v3_decoder` as the program runs it: an input file with a read
 * cursor, the lookahead window, the `out` sample buffer, the decoder's control block and
 * state, the PCM output and the progress events, updated step by step. Each method is proved
 * to compute what the functions of `SessionSpec` describe, so the properties proved there hold
 * of the running session.
 */
module Session {
  import opened Base
  import opened Bytes
  import opened Container
  import opened Sdk
  import opened Window
  import opened InputStream
  import opened Outcomes
  import opened DecodeLoop
  import opened SessionSpec

  class DecodeSession {
    const sdk: Sdk
    const channel: Channel
    /** The container file and its read cursor. */
    const input: InputFile
    /** `payload`, `n_bytes_per_packet` and `payload_end`. */
    const window: LookaheadWindow
    /** The sample buffer `out`, 9600 samples; each step fills it from the start. */
    const out: array<i16>
    /** `dec_control`, updated by every decode call. */
    var control: DecControl
    /** Every decode call made so far, in order: the decoder's state. */
    var calls: seq<DecodeCall>
    /** The decoder state `ps_dec`. */
    var decoder: DecoderResource
    /** The bytes written to the output PCM file. */
    var pcm: seq<byte>
    /** The progress events sent. */
    var events: seq<Progress>

    ghost predicate Valid()
      reads this, input, window, window.lengths
    {
      input.Valid() && window.Valid() && out.Length == OutCapacity
    }

    /**
     * The session stands between two steps as `s` describes: the cursor, the two packets in
     * the window, the decoder, the PCM output and the events are those of `s`.
     */
    ghost predicate At(s: Between)
      reads this, input, window, window.payload, window.lengths
    {
      && Valid() && input.pos == s.pos && |s.held| == MaxLbrrDelay && window.Holds(s.held)
      && calls == s.calls && control == s.control && pcm == s.pcm && events == s.events
    }

    /** Opens the session on an in-memory file; the output file starts empty. */
    constructor (file: seq<byte>, sdk: Sdk, channel: Channel)
      ensures Valid() && window.Holds([])
      ensures fresh(input) && fresh(window) && fresh(window.payload) && fresh(window.lengths) && fresh(out)
      ensures this.sdk == sdk && this.channel == channel && input.data == file && input.pos == 0
      ensures control == InitialControl && calls == [] && decoder == NotAllocated
      ensures pcm == [] && events == []
    {
      this.sdk := sdk;
      this.channel := channel;
      input := new InputFile(file);
      window := new LookaheadWindow();
      out := new i16[OutCapacity](_ => 0);
      control := InitialControl;
      calls := [];
      decoder := NotAllocated;
      pcm := [];
      events := [];
    }

    /**
     * The header check: one byte is read, then the eight- or nine-byte magic it selects.
     * The result is the one `CheckHeader` gives for the whole file, and an accepted header
     * leaves the cursor on the first packet.
     */
    method ReadHeader() returns (r: HeaderResult)
      requires input.Valid() && input.pos == 0
      modifies input
      ensures input.Valid()
      ensures r == CheckHeader(input.data)
      ensures r.Accepted? ==> input.pos == r.end
    {
      var ok, first := input.ReadExact(1);
      if !ok {
        return Rejected(HeaderTruncated);
      }
      var magic;
      if first[0] != Marker {
        ok, magic := input.ReadExact(|SilkMagic|);
        if !ok {
          return Rejected(HeaderTruncated);
        }
        if magic != SilkMagic {
          return Rejected(HeaderError.WrongHeader);
        }
        return Accepted(1 + |SilkMagic|);
      } else {
        ok, magic := input.ReadExact(|MarkedMagic|);
        if !ok {
          return Rejected(HeaderTruncated);
        }
        if magic != MarkedMagic {
          return Rejected(HeaderError.WrongHeader);
        }
        return Accepted(1 + |MarkedMagic|);
      }
    }

    /**
     * Decoder set-up: the size query, the allocation, then the initialisation, each failure
     * ending the session. The state stays allocated when the initialisation fails.
     */
    method InitDecoder() returns (r: Outcome)
      requires decoder == NotAllocated
      modifies this`decoder
      ensures r.Ok? || r == Err(DecoderSizeFailed) || r == Err(AllocationFailed) || r == Err(InitDecoderFailed)
      ensures r == Err(DecoderSizeFailed) <==> sdk.decoderSizeStatus != 0
      ensures r == Err(AllocationFailed) <==> sdk.decoderSizeStatus == 0 && !sdk.allocationSucceeds
      ensures r == Err(InitDecoderFailed) <==>
        sdk.decoderSizeStatus == 0 && sdk.allocationSucceeds && sdk.initStatus != 0
      ensures decoder == (if sdk.decoderSizeStatus == 0 && sdk.allocationSucceeds then Allocated else NotAllocated)
    {
      if sdk.decoderSizeStatus != 0 {
        return Err(DecoderSizeFailed);
      }
      if !sdk.allocationSucceeds {
        return Err(AllocationFailed);
      }
      decoder := Allocated;
      if sdk.initStatus != 0 {
        return Err(InitDecoderFailed);
      }
      return Ok;
    }

    /** `free(ps_dec)` once the steps end without error. */
    method FreeDecoder()
      requires decoder == Allocated
      modifies this`decoder
      ensures decoder == Released
    {
      decoder := Released;
    }

    /** Reads a packet's 16-bit length field, low byte first; `None` when the file ends inside it. */
    method ReadLength() returns (n: Option<i16>)
      requires input.Valid()
      modifies input
      ensures input.Valid()
      ensures n == LengthField(input.data[old(input.pos)..])
      ensures n.Some? ==> input.pos == old(input.pos) + 2
    {
      var ok, field := input.ReadExact(2);
      if !ok {
        return None;
      }
      return Some(I16FromLE(field[0], field[1]));
    }

    /**
     * Reads `n` payload bytes into the window at its cursor and, when they were all there,
     * records them as the packet of `slot`, the next free one. The packets already held are kept
     * either way.
     */
    method ReadPayload(slot: nat, ghost held: seq<seq<byte>>, n: nat) returns (ok: bool)
      requires input.Valid() && window.Holds(held) && slot == |held| < Slots
      requires n <= MaxI16 && window.payloadEnd + n <= PayloadCapacity
      modifies input, window, window.payload, window.lengths
      ensures input.Valid()
      ensures ok <==> old(input.pos) + n <= |input.data|
      ensures ok ==> input.pos == old(input.pos) + n && window.Holds(held + [input.data[old(input.pos)..input.pos]])
      ensures !ok ==> window.Holds(held)
    {
      ghost var buf := window.payload[..];
      ghost var lens := window.lengths[..];
      ghost var end := window.payloadEnd;
      ok := input.ReadExactInto(window.payload, window.payloadEnd, n);
      if !ok {
        HoldsInSamePrefix(buf, window.payload[..], lens, end, held);
        return;
      }
      ghost var bytes := input.data[old(input.pos)..input.pos];
      window.Commit(slot, n);
      HoldsInAppend(buf, lens, end, held, bytes, window.payload[..], window.lengths[..]);
    }

    /**
     * Reads the next packet into `slot`, the next free one, at the window's cursor: the 16-bit
     * length, then, unless it is negative or the payload would not fit the buffer behind the
     * packets held, that many bytes. The outcome is the one `NextPacket` gives; a stored packet
     * joins the packets the window holds and leaves the cursor after it.
     */
    method ReadPacket(slot: nat, ghost held: seq<seq<byte>>) returns (r: PacketRead)
      requires input.Valid() && window.Holds(held) && slot == |held| < Slots
      modifies input, window, window.payload, window.lengths
      ensures input.Valid()
      ensures r == NextPacket(input.data, old(input.pos), PayloadCapacity - HeldBytes(held))
      ensures r.Stored? ==> input.pos == r.next && window.Holds(held + [r.payload])
      ensures !r.Stored? ==> window.Holds(held)
    {
      HoldsInEnd(window.payload[..], window.lengths[..], window.payloadEnd, held);
      var at := input.pos;
      var len := ReadLength();
      if len.None? {
        return Truncated;
      }
      var n := len.value;
      if n < 0 {
        return NegativeLength;
      }
      if window.payloadEnd + n as int > PayloadCapacity {
        return TooLarge;
      }
      var ok := ReadPayload(slot, held, n as int);
      if !ok {
        return Truncated;
      }
      return Stored(input.data[at + 2..input.pos], input.pos);
    }

    /**
     * Fills slots 0 and 1 with the first two packets after the header, as `PrimeFrom` reads
     * them: a file that ends inside a packet is an `UnexpectedEof` error, and a negative length
     * or a payload that does not fit the buffer panics when the buffer is sliced.
     */
    method Prime() returns (r: Outcome, ghost held: seq<seq<byte>>)
      requires input.Valid() && window.Holds([])
      modifies input, window, window.payload, window.lengths
      ensures input.Valid()
      ensures var p := PrimeFrom(input.data, old(input.pos), []);
        if p.Primed? then r.Ok? && input.pos == p.pos && held == p.held && window.Holds(held)
        else r == p.outcome
    {
      ghost var pos0 := input.pos;
      held := [];
      var i := 0;
      while i < MaxLbrrDelay
        invariant i == |held| <= MaxLbrrDelay && input.Valid() && window.Holds(held)
        invariant PrimeFrom(input.data, pos0, []) == PrimeFrom(input.data, input.pos, held)
      {
        var p := ReadPacket(i, held);
        match p
        case Truncated => return Err(UnexpectedEof), held;
        case NegativeLength => return Panic(SliceOutOfRange), held;
        case TooLarge => return Panic(SliceOutOfRange), held;
        case Stored(payload, _) => held := held + [payload];
        i := i + 1;
      }
      r := Ok;
    }

    /** The decoder writes `s` into `out` at the sample cursor `at`. */
    method WriteSamples(at: nat, s: seq<i16>)
      requires out.Length == OutCapacity && at + |s| <= OutCapacity
      modifies out
      ensures out[..at + |s|] == old(out[..at]) + s
    {
      forall k | 0 <= k < |s| {
        out[at + k] := s[k];
      }
      assert out[..at + |s|] == old(out[..at]) + s;
    }

    /** One decode call with the current control block, which takes the one the reply carries. */
    method DecodeCallOnce(lostFlag: int, bytes: seq<byte>) returns (reply: DecodeReply)
      modifies this`calls, this`control
      ensures reply == sdk.decode(old(calls), DecodeCall(old(control), lostFlag, bytes))
      ensures calls == old(calls) + [DecodeCall(old(control), lostFlag, bytes)] && control == reply.control
    {
      var call := DecodeCall(control, lostFlag, bytes);
      reply := sdk.decode(calls, call);
      calls := calls + [call];
      control := reply.control;
    }

    /**
     * The decode loop for a packet that is present (loss flag 0), as `FrameLoop` describes it:
     * decode calls until the decoder reports no more internal frames, each call's samples
     * written at the cursor `tot`; the sixth call in a row sets the cursor and the frame count
     * back to 0, dropping its own samples with the others. The cursor ends just past the samples the loop keeps.
     */
    method DecodeFrames(bytes: seq<byte>) returns (res: Outcome, tot: nat)
      requires out.Length == OutCapacity && Terminates(sdk)
      modifies this`calls, this`control, out
      ensures var e := FrameLoop(sdk, old(calls), old(control), bytes, [], 0, true);
        res == e.outcome && calls == e.calls && control == e.control && tot <= OutCapacity && out[..tot] == e.kept
    {
      ghost var e := FrameLoop(sdk, calls, control, bytes, [], 0, true);
      ghost var first := true;
      var frames: nat := 0;
      tot := 0;
      while true
        invariant first || control.moreInternalDecoderFrames > 0
        invariant tot <= OutCapacity && FrameLoop(sdk, calls, control, bytes, out[..tot], frames, first) == e
        decreases if first then 1 else 0, control.moreInternalDecoderFrames
      {
        var reply := DecodeCallOnce(0, bytes);
        if reply.status != 0 {
          return Err(DecodeFailed), tot;
        }
        if |reply.samples| > OutCapacity - tot {
          return Panic(OutputOverrun), tot;
        }
        WriteSamples(tot, reply.samples);
        tot := tot + |reply.samples|;
        frames := frames + 1;
        if frames > MaxInputFrames {
          tot := 0;
          frames := 0;
        }
        if control.moreInternalDecoderFrames == 0 {
          return Ok, tot;
        }
        first := false;
      }
    }

    /**
     * The decode loop for a lost packet (loss flag 1), as `ConcealLoop` describes it:
     * `framesPerPacket` calls, the count taken from the control block before the first of
     * them, every sample kept behind those before.
     */
    method DecodeConcealed(bytes: seq<byte>) returns (res: Outcome, tot: nat)
      requires out.Length == OutCapacity
      modifies this`calls, this`control, out
      ensures var e := ConcealLoop(sdk, old(calls), old(control), bytes, old(control).framesPerPacket, []);
        res == e.outcome && calls == e.calls && control == e.control && tot <= OutCapacity && out[..tot] == e.kept
    {
      ghost var e := ConcealLoop(sdk, calls, control, bytes, control.framesPerPacket, []);
      var count := control.framesPerPacket;
      var j := 0;
      tot := 0;
      while j < count
        invariant 0 <= j && (j <= count || j == 0)
        invariant tot <= OutCapacity && ConcealLoop(sdk, calls, control, bytes, count - j, out[..tot]) == e
      {
        var reply := DecodeCallOnce(1, bytes);
        if reply.status != 0 {
          return Err(DecodeFailed), tot;
        }
        if |reply.samples| > OutCapacity - tot {
          return Panic(OutputOverrun), tot;
        }
        WriteSamples(tot, reply.samples);
        tot := tot + |reply.samples|;
        j := j + 1;
      }
      res := Ok;
    }

    /**
     * The decode of a step once the new packet is in the window, as `HeadDecode` describes it:
     * a nonempty slot-0 packet is decoded as it is; an empty one is replaced by the first
     * redundancy payload found in slots 1 and 2, or else concealed, with as many bytes from the
     * start of the buffer as the new packet has.
     */
    method DecodeHead(ghost held: seq<seq<byte>>) returns (res: Outcome, tot: nat)
      requires Valid() && window.Holds(held) && |held| == Slots && Terminates(sdk)
      modifies this`calls, this`control, out
      ensures var e := HeadDecode(sdk, old(calls), old(control), held);
        res == e.outcome && calls == e.calls && control == e.control && tot <= OutCapacity && out[..tot] == e.kept
    {
      var buf, lens := window.payload[..], window.lengths[..];
      assert PacketOf(buf, lens, 0) == held[0] && PacketOf(buf, lens, 2) == held[2];
      if window.lengths[0] == 0 {
        var rec := window.SearchLbrr(sdk, held);
        if rec.Some? {
          res, tot := DecodeFrames(rec.value.payload);
        } else {
          HoldsInTile(buf, lens, window.payloadEnd, held);
          assert buf[..lens[2]] == buf[..window.payloadEnd][..lens[2]];
          res, tot := DecodeConcealed(window.payload[..window.lengths[2]]);
        }
      } else {
        res, tot := DecodeFrames(window.payload[..window.lengths[0]]);
      }
    }

    /**
     * One pass of the main loop, as `SessionStep` describes it: the next packet is read into
     * slot 2 (a stream that ends inside it, or a negative length, ends the loop; a payload
     * that does not fit panics), the head packet is decoded, the samples kept are written as
     * PCM, the window slides and the stream position is sent as progress.
     */
    method Step(ghost s: Between) returns (stop: bool, res: Outcome)
      requires At(s) && Terminates(sdk)
      modifies this`calls, this`control, this`pcm, this`events, input, window, window.payload, window.lengths, out
      ensures Valid()
      ensures var r := SessionStep(sdk, channel, input.data, s);
        if r.Stop? then stop && res == r.outcome && pcm == r.pcm && events == r.events
        else !stop && At(r.next)
    {
      ghost var r := SessionStep(sdk, channel, input.data, s);
      var p := ReadPacket(MaxLbrrDelay, s.held);
      if p.TooLarge? {
        return true, Panic(SliceOutOfRange);
      }
      if !p.Stored? {
        return true, Ok;
      }
      ghost var held := s.held + [p.payload];
      ghost var e := HeadDecode(sdk, s.calls, s.control, held);
      var tot;
      res, tot := DecodeHead(held);
      if !res.Ok? {
        return true, res;
      }
      pcm := pcm + EncodePcm(out[..tot]);
      window.DropHead(held);
      if !Accepts(channel, |events|) {
        return true, Panic(ChannelClosed);
      }
      events := events + [Progress(input.pos, |input.data|)];
      assert r == Continue(Between(input.pos, held[1..], calls, control, pcm, events));
      stop := false;
    }

    /** The main loop: steps until one ends the session, as `MainLoop` describes it. */
    method Run(ghost s: Between) returns (res: Outcome)
      requires At(s) && Terminates(sdk)
      modifies this`calls, this`control, this`pcm, this`events, input, window, window.payload, window.lengths, out
      ensures var f := MainLoop(sdk, channel, input.data, s);
        res == f.outcome && pcm == f.pcm && events == f.events
    {
      ghost var cur := s;
      while true
        invariant At(cur) && MainLoop(sdk, channel, input.data, cur) == MainLoop(sdk, channel, input.data, s)
        decreases |input.data| - input.pos
      {
        ghost var r := SessionStep(sdk, channel, input.data, cur);
        var stop;
        stop, res := Step(cur);
        if stop {
          return;
        }
        cur := r.next;
      }
    }
  }

  /**
   * `silk_v3_decoder` on the file `file`: the header check, the decoder set-up, the priming of
   * the window, the main loop, and the release of the decoder state when it ends without
   * error. The report is the one `Session` gives, so every property proved of `Session` holds
   * of it.
   */
  method SilkV3Decoder(file: seq<byte>, sdk: Sdk, channel: Channel) returns (report: Report)
    requires Terminates(sdk)
    ensures report == Session(sdk, channel, file)
  {
    var d := new DecodeSession(file, sdk, channel);
    var header := d.ReadHeader();
    if header.Rejected? {
      var kind := if header.error == HeaderTruncated then UnexpectedEof else ErrorKind.WrongHeader;
      return Report(Err(kind), NotAllocated, [], []);
    }
    var init := d.InitDecoder();
    if !init.Ok? {
      return Report(init, d.decoder, [], []);
    }
    var primed, held := d.Prime();
    if !primed.Ok? {
      return Report(primed, d.decoder, [], []);
    }
    var res := d.Run(Started(d.input.pos, held));
    if res.Ok? {
      d.FreeDecoder();
    }
    return Report(res, d.decoder, d.pcm, d.events);
  }
}
