/**
 * The SILK v3 voice container: a magic header followed by packets, each a signed 16-bit
 * length (low byte first) and that many payload bytes. A negative length or a stream that
 * ends inside a length or a payload ends the packet sequence.
 */
module Container {
  import opened Base
  import opened Bytes

  /** The ASCII bytes of "!SILK_V3". */
  const SilkMagic: seq<byte> := [0x21, 0x53, 0x49, 0x4C, 0x4B, 0x5F, 0x56, 0x33]
  /** The ASCII bytes of "#!SILK_V3", the form that follows a leading 0x02 marker byte. */
  const MarkedMagic: seq<byte> := [0x23] + SilkMagic
  /** The first byte that selects the 9-byte magic. */
  const Marker: byte := 0x02

  /** Why a header was refused: the stream ended inside it, or its magic is wrong. */
  datatype HeaderError = HeaderTruncated | WrongHeader

  /** Outcome of the header check: the offset of the first packet, or the error. */
  datatype HeaderResult = Accepted(end: nat) | Rejected(error: HeaderError)

  /** Form 1: the marker 0x02 followed by "#!SILK_V3". */
  predicate MarkedForm(file: seq<byte>)
  {
    |file| >= 1 + |MarkedMagic| && file[0] == Marker && file[1..1 + |MarkedMagic|] == MarkedMagic
  }

  /** Form 2: any first byte other than 0x02 followed by "!SILK_V3"; that byte is never compared. */
  predicate PlainForm(file: seq<byte>)
  {
    |file| >= 1 + |SilkMagic| && file[0] != Marker && file[1..1 + |SilkMagic|] == SilkMagic
  }

  /**
   * The header check as the decoder performs it: one byte is read; if it is not the marker,
   * eight more bytes are read and compared with "!SILK_V3", otherwise nine are read and
   * compared with "#!SILK_V3". A read that runs past the end of the stream fails first.
   */
  function CheckHeader(file: seq<byte>): (r: HeaderResult)
    ensures r.Accepted? ==> r.end <= |file|
  {
    if |file| < 1 then Rejected(HeaderTruncated)
    else if file[0] != Marker then
      if |file| < 1 + |SilkMagic| then Rejected(HeaderTruncated)
      else if file[1..1 + |SilkMagic|] == SilkMagic then Accepted(1 + |SilkMagic|)
      else Rejected(WrongHeader)
    else
      if |file| < 1 + |MarkedMagic| then Rejected(HeaderTruncated)
      else if file[1..1 + |MarkedMagic|] == MarkedMagic then Accepted(1 + |MarkedMagic|)
      else Rejected(WrongHeader)
  }

  /**
   * The header is accepted exactly when one of the two forms holds, and the first packet then
   * starts right after the magic; a stream too short to hold the magic its first byte selects
   * is a truncation, anything else is a wrong header.
   */
  lemma HeaderAcceptedIff(file: seq<byte>)
    ensures CheckHeader(file).Accepted? <==> MarkedForm(file) || PlainForm(file)
    ensures MarkedForm(file) ==> CheckHeader(file) == Accepted(10)
    ensures PlainForm(file) ==> CheckHeader(file) == Accepted(9)
    ensures CheckHeader(file) == Rejected(HeaderTruncated) <==>
      |file| < 1 || (file[0] == Marker && |file| < 10) || (file[0] != Marker && |file| < 9)
  {
  }

  /** Every first byte other than 0x02 is accepted in front of "!SILK_V3", whatever follows. */
  lemma PlainHeaderIgnoresFirstByte(b: byte, rest: seq<byte>)
    requires b != Marker
    ensures CheckHeader([b] + SilkMagic + rest) == Accepted(9)
  {
    assert ([b] + SilkMagic + rest)[1..9] == SilkMagic;
  }

  /** After the marker 0x02 the plain magic "!SILK_V3" is refused: the '#' is required. */
  lemma MarkerRequiresHash(rest: seq<byte>)
    requires |rest| >= 1
    ensures CheckHeader([Marker] + SilkMagic + rest) == Rejected(WrongHeader)
  {
    var f := [Marker] + SilkMagic + rest;
    assert f[1] == 0x21;
    assert f[1..10][0] != MarkedMagic[0];
  }

  /** One packet read from the front of a stream. */
  datatype FrameRead = Frame(payload: seq<byte>, next: nat) | EndOfStream

  /** The length field at the front of a stream, if two bytes remain. */
  function LengthField(s: seq<byte>): Option<i16>
  {
    if |s| < 2 then None else Some(I16FromLE(s[0], s[1]))
  }

  /**
   * Reads one packet: a short length field, a negative length or a short payload all end the
   * stream; otherwise the payload and the offset just past it.
   */
  function ReadFrame(s: seq<byte>): (r: FrameRead)
    ensures r.Frame? ==> 2 <= r.next <= |s| && r.payload == s[2..r.next]
    ensures r.Frame? <==> LengthField(s).Some? && 0 <= LengthField(s).value as int <= |s| - 2
  {
    match LengthField(s)
    case None => EndOfStream
    case Some(n) =>
      if n < 0 || |s| < 2 + n as int then EndOfStream else Frame(s[2..2 + n as int], 2 + n as int)
  }

  /** All packets of a stream, in order, up to the first end-of-stream condition. */
  function ReadFrames(s: seq<byte>): (r: seq<seq<byte>>)
    ensures 2 * |r| <= |s|
    decreases |s|
  {
    match ReadFrame(s)
    case EndOfStream => []
    case Frame(p, k) => [p] + ReadFrames(s[k..])
  }

  /** A packet as it is stored: its length as a 16-bit field, then its bytes. */
  function EncodeFrame(p: seq<byte>): (r: seq<byte>)
    requires |p| <= MaxI16
    ensures |r| == 2 + |p| && r[2..] == p
  {
    I16ToLE(|p| as i16) + p
  }

  /** Packets stored one after another. */
  function EncodeFrames(ps: seq<seq<byte>>): (r: seq<byte>)
    requires forall i :: 0 <= i < |ps| ==> |ps[i]| <= MaxI16
  {
    if ps == [] then [] else EncodeFrame(ps[0]) + EncodeFrames(ps[1..])
  }

  /** A stored packet is read back whole, and reading resumes right after it. */
  lemma ReadEncodedFrame(p: seq<byte>, rest: seq<byte>)
    requires |p| <= MaxI16
    ensures ReadFrame(EncodeFrame(p) + rest) == Frame(p, 2 + |p|)
    ensures (EncodeFrame(p) + rest)[2 + |p|..] == rest
  {
    var s := EncodeFrame(p) + rest;
    I16RoundTrip(|p| as i16);
    assert s[0] == I16ToLE(|p| as i16)[0] && s[1] == I16ToLE(|p| as i16)[1];
    assert s[2..2 + |p|] == p;
  }

  /** A stored packet in front of a stream is read first, then the packets of the stream. */
  lemma ReadFramesOfEncoded(p: seq<byte>, rest: seq<byte>)
    requires |p| <= MaxI16
    ensures ReadFrames(EncodeFrame(p) + rest) == [p] + ReadFrames(rest)
  {
    ReadEncodedFrame(p, rest);
  }

  /** Storing a nonempty list of packets stores the first, then the others. */
  lemma EncodeFramesFront(ps: seq<seq<byte>>, rest: seq<byte>)
    requires ps != [] && forall i :: 0 <= i < |ps| ==> |ps[i]| <= MaxI16
    ensures EncodeFrames(ps) + rest == EncodeFrame(ps[0]) + (EncodeFrames(ps[1..]) + rest)
  {
  }

  /** Packet framing is lossless: storing packets and reading them back gives the same packets. */
  lemma {:induction false} FramesRoundTrip(ps: seq<seq<byte>>, rest: seq<byte>)
    requires forall i :: 0 <= i < |ps| ==> |ps[i]| <= MaxI16
    ensures ReadFrames(EncodeFrames(ps) + rest) == ps + ReadFrames(rest)
  {
    if ps == [] {
      assert EncodeFrames(ps) + rest == rest;
    } else {
      EncodeFramesFront(ps, rest);
      ReadFramesOfEncoded(ps[0], EncodeFrames(ps[1..]) + rest);
      FramesRoundTrip(ps[1..], rest);
      AppendAssoc([ps[0]], ps[1..], ReadFrames(rest));
      assert [ps[0]] + ps[1..] == ps;
    }
  }

  /**
   * The length fields the reader meets, in order, including the one that ends the stream
   * (a negative length, or one whose payload runs past the end).
   */
  function DeclaredLengths(s: seq<byte>): (r: seq<int>)
    decreases |s|
  {
    match LengthField(s)
    case None => []
    case Some(n) =>
      if n < 0 || |s| < 2 + n as int then [n as int] else [n as int] + DeclaredLengths(s[2 + n as int..])
  }

  /**
   * Every length field the session reads, from the `done`-th packet on, fits the window
   * (at most 5120 bytes), and those of the first two packets, which prime the window, are
   * not negative.
   */
  predicate SizedFrom(s: seq<byte>, done: nat)
  {
    var d := DeclaredLengths(s);
    forall i :: 0 <= i < |d| ==> d[i] <= MaxPacketBytes && (done + i < MaxLbrrDelay ==> d[i] >= 0)
  }

  /** A container whose packets all fit the lookahead window. */
  predicate WellSized(s: seq<byte>)
  {
    SizedFrom(s, 0)
  }

  /** Reading one packet moves the sizing condition to the rest of the stream. */
  lemma SizedAfterFrame(s: seq<byte>, done: nat)
    requires SizedFrom(s, done) && ReadFrame(s).Frame?
    ensures |ReadFrame(s).payload| <= MaxPacketBytes
    ensures SizedFrom(s[ReadFrame(s).next..], done + 1)
  {
    var k := ReadFrame(s).next;
    var d := DeclaredLengths(s);
    assert d == [k - 2] + DeclaredLengths(s[k..]);
    assert d[0] <= MaxPacketBytes;
    forall i | 0 <= i < |DeclaredLengths(s[k..])|
      ensures DeclaredLengths(s[k..])[i] <= MaxPacketBytes
      ensures done + 1 + i < MaxLbrrDelay ==> DeclaredLengths(s[k..])[i] >= 0
    {
      assert DeclaredLengths(s[k..])[i] == d[i + 1];
    }
  }

  /**
   * How the session's reader takes the packet at position `at` of `data` when `room` bytes of
   * the window buffer are free: the stream ends inside the length field; a negative length; a
   * payload too large for the room, refused before it is read; the stream ends inside the
   * payload; or the packet is stored, with the position just past it.
   */
  datatype PacketRead = Stored(payload: seq<byte>, next: nat) | Truncated | NegativeLength | TooLarge

  function NextPacket(data: seq<byte>, at: nat, room: int): (r: PacketRead)
    requires at <= |data|
    ensures r.Stored? ==>
      && at + 2 <= r.next <= |data| && r.payload == data[at + 2..r.next]
      && |r.payload| <= room && |r.payload| <= MaxI16
  {
    match LengthField(data[at..])
    case None => Truncated
    case Some(n) =>
      if n < 0 then NegativeLength
      else if n as int > room then TooLarge
      else if |data| - at < 2 + n as int then Truncated
      else Stored(data[at + 2..at + 2 + n as int], at + 2 + n as int)
  }

  /** A packet at the front of a stream is followed by the packets after it. */
  lemma ReadFramesFront(s: seq<byte>)
    requires ReadFrame(s).Frame?
    ensures ReadFrames(s) == [ReadFrame(s).payload] + ReadFrames(s[ReadFrame(s).next..])
  {
  }

  /**
   * The reader agrees with the packet sequence: a stored packet is the next one and the rest
   * of the sequence follows it; a truncated stream or a negative length ends the sequence.
   */
  lemma NextPacketAt(data: seq<byte>, at: nat, room: int, r: PacketRead)
    requires at <= |data| && r == NextPacket(data, at, room)
    ensures r.Stored? ==> ReadFrames(data[at..]) == [r.payload] + ReadFrames(data[r.next..])
    ensures r.Truncated? || r.NegativeLength? ==> ReadFrames(data[at..]) == []
  {
    if r.Stored? {
      var s := data[at..];
      var k := r.next - at;
      SuffixSlices(data, at, 2, k);
      assert ReadFrame(s) == Frame(r.payload, k);
      ReadFramesFront(s);
      assert s[k..] == data[r.next..];
    }
  }

  /**
   * On a container whose remaining lengths fit the window, a stored packet is at most 5120
   * bytes and the rest still fits, a negative length only comes after the first two packets,
   * and a payload is refused only when less than 5120 bytes are free.
   */
  lemma NextPacketSized(data: seq<byte>, at: nat, room: int, done: nat, r: PacketRead)
    requires at <= |data| && r == NextPacket(data, at, room) && SizedFrom(data[at..], done)
    ensures r.Stored? ==> |r.payload| <= MaxPacketBytes && SizedFrom(data[r.next..], done + 1)
    ensures r.NegativeLength? ==> done >= MaxLbrrDelay
    ensures r.TooLarge? ==> room < MaxPacketBytes
  {
    var s := data[at..];
    if LengthField(s).Some? {
      FrontLength(s, done);
      if r.Stored? {
        SizedAfterFrame(s, done);
        assert s[r.next - at..] == data[r.next..];
      }
    }
  }

  /**
   * The first length field of a stream whose lengths fit the window is at most 5120, and not
   * negative when it is one of the first two.
   */
  lemma FrontLength(s: seq<byte>, done: nat)
    requires SizedFrom(s, done) && LengthField(s).Some?
    ensures LengthField(s).value as int <= MaxPacketBytes
    ensures done < MaxLbrrDelay ==> LengthField(s).value >= 0
  {
    assert DeclaredLengths(s)[0] == LengthField(s).value as int;
  }

  /**
   * The reader's place in a container whose packets start at `start`: `read` are the packets
   * taken so far, in order, and the cursor `pos` is just past them. On a container whose
   * lengths fit the window, every packet taken is at most 5120 bytes and the lengths still
   * to come fit as well.
   */
  predicate ReadUpTo(data: seq<byte>, start: nat, pos: nat, read: seq<seq<byte>>)
  {
    && start <= pos <= |data|
    && ReadFrames(data[start..]) == read + ReadFrames(data[pos..])
    && (WellSized(data[start..]) ==>
          && SizedFrom(data[pos..], |read|)
          && forall k :: 0 <= k < |read| ==> |read[k]| <= MaxPacketBytes)
  }

  /** Before any packet is read, the reader is at the start. */
  lemma ReadFromStart(data: seq<byte>, start: nat)
    requires start <= |data|
    ensures ReadUpTo(data, start, start, [])
  {
    assert [] + ReadFrames(data[start..]) == ReadFrames(data[start..]);
  }

  /** A stored packet moves from the packets still to come to those read. */
  lemma TakeStored(data: seq<byte>, start: nat, pos: nat, read: seq<seq<byte>>, room: int, r: PacketRead)
    requires ReadUpTo(data, start, pos, read) && r == NextPacket(data, pos, room) && r.Stored?
    ensures ReadUpTo(data, start, r.next, read + [r.payload])
  {
    NextPacketAt(data, pos, room, r);
    if WellSized(data[start..]) {
      NextPacketSized(data, pos, room, |read|, r);
    }
    var p := r.payload;
    var read' := read + [p];
    AppendAssoc(read, [p], ReadFrames(data[r.next..]));
    if WellSized(data[start..]) {
      assert forall k :: 0 <= k < |read'| ==> |read'[k]| <= MaxPacketBytes by {
        forall k | 0 <= k < |read'|
          ensures |read'[k]| <= MaxPacketBytes
        {
          if k < |read| {
            assert read'[k] == read[k];
          }
        }
      }
    }
  }

  /**
   * One step of the session's reader: a stored packet is the next packet of the container and
   * is added to those read; a truncated stream or a negative length means every packet has
   * been read. On a container whose lengths fit the window, a negative length only comes
   * after the first two packets, and a payload is refused only when less than 5120 bytes are
   * free.
   */
  lemma Advance(data: seq<byte>, start: nat, pos: nat, read: seq<seq<byte>>, room: int, r: PacketRead)
    requires ReadUpTo(data, start, pos, read) && r == NextPacket(data, pos, room)
    ensures r.Stored? ==> ReadUpTo(data, start, r.next, read + [r.payload])
    ensures r.Truncated? || r.NegativeLength? ==> ReadFrames(data[start..]) == read
    ensures r.NegativeLength? && WellSized(data[start..]) ==> |read| >= MaxLbrrDelay
    ensures r.TooLarge? && WellSized(data[start..]) ==> room < MaxPacketBytes
  {
    NextPacketAt(data, pos, room, r);
    if WellSized(data[start..]) {
      NextPacketSized(data, pos, room, |read|, r);
    }
    if r.Stored? {
      TakeStored(data, start, pos, read, room, r);
    }
  }
}
