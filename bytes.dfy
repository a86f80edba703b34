/**
 * Byte-level encodings used by the session: the 16-bit packet length field and the 16-bit PCM
 * samples written to the output file, both in the machine's byte order, which the model takes
 * to be little-endian.
 */
module Bytes {
  import opened Base

  /** Two bytes, low byte first, read as a two's-complement 16-bit integer. */
  function I16FromLE(lo: byte, hi: byte): (r: i16)
    ensures r < 0 <==> hi >= 0x80
    ensures r >= 0 ==> r as int == lo + 256 * hi
  {
    var u := lo + 256 * hi;
    if u >= 0x8000 then (u - 0x10000) as i16 else u as i16
  }

  /** A 16-bit integer as two bytes, low byte first (two's complement). */
  function I16ToLE(x: i16): (r: seq<byte>)
    ensures |r| == 2
  {
    var u := if x < 0 then x as int + 0x10000 else x as int;
    [(u % 256) as byte, (u / 256) as byte]
  }

  /** Reading back an encoded 16-bit integer gives the integer. */
  lemma I16RoundTrip(x: i16)
    ensures I16FromLE(I16ToLE(x)[0], I16ToLE(x)[1]) == x
  {
    var u := if x < 0 then x as int + 0x10000 else x as int;
    DivMod256(u % 256, u / 256);
  }

  /** Encoding a decoded pair of bytes gives the bytes: the length field is a bijection. */
  lemma I16BytesRoundTrip(lo: byte, hi: byte)
    ensures I16ToLE(I16FromLE(lo, hi)) == [lo, hi]
  {
    var x := I16FromLE(lo, hi);
    var v := if x < 0 then x as int + 0x10000 else x as int;
    assert v == lo + 256 * hi;
    DivMod256(lo, hi);
  }

  lemma DivMod256(l: int, h: int)
    requires 0 <= l < 256
    ensures (l + 256 * h) % 256 == l && (l + 256 * h) / 256 == h
  {
  }

  /** Samples as they are written to the output file: each one as two bytes, low byte first. */
  function EncodePcm(s: seq<i16>): (r: seq<byte>)
    ensures |r| == 2 * |s|
  {
    if s == [] then [] else I16ToLE(s[0]) + EncodePcm(s[1..])
  }

  /** The samples held in a PCM byte stream of even length. */
  function DecodePcm(b: seq<byte>): (r: seq<i16>)
    requires |b| % 2 == 0
    ensures 2 * |r| == |b|
  {
    if b == [] then [] else [I16FromLE(b[0], b[1])] + DecodePcm(b[2..])
  }

  /** Appending samples appends their encoding: the output file is a concatenation of writes. */
  lemma {:induction false} EncodePcmAppend(a: seq<i16>, b: seq<i16>)
    ensures EncodePcm(a + b) == EncodePcm(a) + EncodePcm(b)
  {
    if a == [] {
      assert a + b == b;
    } else {
      assert (a + b)[1..] == a[1..] + b;
      EncodePcmAppend(a[1..], b);
    }
  }

  /** The output file decodes back to exactly the samples written to it. */
  lemma {:induction false} PcmRoundTrip(s: seq<i16>)
    ensures DecodePcm(EncodePcm(s)) == s
  {
    if s != [] {
      var e := EncodePcm(s);
      assert e[2..] == EncodePcm(s[1..]);
      I16RoundTrip(s[0]);
      PcmRoundTrip(s[1..]);
    }
  }
}
