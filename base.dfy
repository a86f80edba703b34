/** Constants, the 16-bit integer type and small wrappers shared by the decoder model. */
module Base {

  /** Largest encoded size of one SILK frame, in bytes. */
  const MaxBytesPerFrame: nat := 1024
  /** Most frames one packet may carry; also the resync threshold of the decode loop. */
  const MaxInputFrames: nat := 5
  /** Duration of one frame in milliseconds. */
  const FrameLengthMs: nat := 20
  /** Highest output sample rate of the decoder API, in kHz. */
  const MaxApiFsKhz: nat := 48
  /** Number of packets the lookahead window holds behind the one being decoded. */
  const MaxLbrrDelay: nat := 2

  /** Number of length slots of the window (`n_bytes_per_packet`): `MaxLbrrDelay + 1`. */
  const Slots: nat := 3
  /** Largest packet the window is sized for: 1024 * 5 = 5120 bytes. */
  const MaxPacketBytes: nat := 5120
  /** Size of the window's byte buffer `payload`: 1024 * 5 * 3 = 15360. */
  const PayloadCapacity: nat := 15360
  /** Most samples one decode call produces: 20 ms at 48 kHz = 960. */
  const MaxFrameSamples: nat := 960
  /** Size of the sample buffer `out`: ((20 * 48) << 1) * 5 = 9600. */
  const OutCapacity: nat := 9600

  /** Largest value of a signed 16-bit integer. */
  const MaxI16: int := 0x7FFF

  /** An unsigned 8-bit byte (Rust `u8`). */
  type byte = x: int | 0 <= x < 0x100

  /** A signed 16-bit integer (Rust `i16`). */
  newtype i16 = x: int | -0x8000 <= x <= 0x7FFF

  datatype Option<+T> = None | Some(value: T)

  /** Concatenation is associative; stated for any element type so that it is proved once. */
  lemma AppendAssoc<T>(a: seq<T>, b: seq<T>, c: seq<T>)
    ensures a + (b + c) == (a + b) + c
  {
  }

  /** Slicing a suffix is slicing the whole sequence further along. */
  lemma SuffixSlices<T>(a: seq<T>, i: nat, j: nat, k: nat)
    requires i + k <= |a| && j <= k
    ensures a[i..][j..k] == a[i + j..i + k] && a[i..][k..] == a[i + k..]
  {
  }

  /** Sequences that agree on their first `n` elements agree on every slice within them. */
  lemma PrefixSlices<T>(a: seq<T>, b: seq<T>, n: nat, i: nat, j: nat)
    requires n <= |a| && n <= |b| && a[..n] == b[..n] && i <= j <= n
    ensures a[i..j] == b[i..j]
  {
    assert a[i..j] == a[..n][i..j] && b[i..j] == b[..n][i..j];
  }

  /** The three parts of a concatenation, sliced back out of it. */
  lemma ConcatSlices<T>(x: seq<T>, y: seq<T>, z: seq<T>)
    ensures (x + y + z)[..|x|] == x && (x + y + z)[|x|..|x| + |y|] == y
    ensures (x + y + z)[|x| + |y|..] == z
  {
  }

  /** A prefix of a prefix is a prefix. */
  lemma PrefixTrans<T>(a: seq<T>, b: seq<T>, c: seq<T>)
    requires |a| <= |b| <= |c| && b[..|a|] == a && c[..|b|] == b
    ensures c[..|a|] == a
  {
    assert c[..|a|] == c[..|b|][..|a|];
  }

  /** Appending to the last two elements and dropping the first gives the last two of the longer sequence. */
  lemma SlideTail<T>(a: seq<T>, x: T)
    requires |a| >= 2
    ensures (a[|a| - 2..] + [x])[1..] == (a + [x])[|a| - 1..]
  {
  }

  /** A slice of a slice is a slice of the whole. */
  lemma SliceOfSlice<T>(s: seq<T>, i: nat, j: nat, k: nat, l: nat)
    requires i <= j <= |s| && k <= l <= j - i
    ensures s[i..j][k..l] == s[i + k..i + l]
  {
    forall t | 0 <= t < l - k
      ensures s[i..j][k..l][t] == s[i + k..i + l][t]
    {
    }
  }

  /** A slice within the first part of a concatenation is a slice of that part. */
  lemma SliceOfConcat<T>(x: seq<T>, y: seq<T>, i: nat, j: nat)
    requires i <= j <= |x|
    ensures (x + y)[i..j] == x[i..j]
  {
  }

  /** Adding twice a number keeps the parity. */
  lemma {:induction false} AddEven(a: nat, n: nat)
    ensures (a + 2 * n) % 2 == a % 2
  {
    if n > 0 {
      AddEven(a, n - 1);
      assert a + 2 * n == (a + 2 * (n - 1)) + 2;
    }
  }

  /** Appending an even number of elements keeps the parity of the length. */
  lemma EvenAppend<T>(x: seq<T>, y: seq<T>, n: nat)
    requires |y| == 2 * n
    ensures |x + y| % 2 == |x| % 2
  {
    AddEven(|x|, n);
  }
}
