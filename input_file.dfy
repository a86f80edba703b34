/** The container file being decoded, held in memory with a read cursor. */
module InputStream {
  import opened Base

  class InputFile {
    /** The whole file; its length is what the file's metadata reports. */
    const data: seq<byte>
    /** The stream position. */
    var pos: nat

    ghost predicate Valid()
      reads this
    {
      pos <= |data|
    }

    constructor (data: seq<byte>)
      ensures Valid() && this.data == data && pos == 0
    {
      this.data := data;
      pos := 0;
    }

    /**
     * `read_exact` into a fresh buffer: succeeds when `n` bytes remain and returns them;
     * otherwise it fails having consumed the rest of the file.
     */
    method ReadExact(n: nat) returns (ok: bool, bytes: seq<byte>)
      requires Valid()
      modifies this
      ensures Valid()
      ensures ok <==> old(pos) + n <= |data|
      ensures ok ==> pos == old(pos) + n && bytes == data[old(pos)..pos]
      ensures !ok ==> pos == |data|
    {
      if pos + n <= |data| {
        ok, bytes := true, data[pos..pos + n];
        pos := pos + n;
      } else {
        ok, bytes := false, data[pos..];
        pos := |data|;
      }
    }

    /**
     * `read_exact` into `buf[from..from + n]`, in place. On success that range holds the next
     * `n` bytes of the file. On a short read the rest of the file is consumed and what the
     * range holds is unspecified; either way nothing outside the range changes.
     */
    method ReadExactInto(buf: array<byte>, from: nat, n: nat) returns (ok: bool)
      requires Valid() && from + n <= buf.Length
      modifies this, buf
      ensures Valid()
      ensures ok <==> old(pos) + n <= |data|
      ensures ok ==> pos == old(pos) + n
      ensures ok ==> buf[..] == old(buf[..from]) + data[old(pos)..pos] + old(buf[from + n..])
      ensures !ok ==> pos == |data|
      ensures buf[..from] == old(buf[..from]) && buf[from + n..] == old(buf[from + n..])
    {
      var avail := if pos + n <= |data| then n else |data| - pos;
      forall k | from <= k < from + avail {
        buf[k] := data[pos + (k - from)];
      }
      ok := avail == n;
      if ok {
        assert buf[..] == old(buf[..from]) + data[pos..pos + n] + old(buf[from + n..]);
      }
      pos := pos + avail;
    }
  }
}
