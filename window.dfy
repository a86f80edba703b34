/**
 * The lookahead window: a flat byte buffer `payload` holding up to three packets back to
 * back, the length of each in `lengths` (`n_bytes_per_packet`) and the cursor `payloadEnd`
 * just past the last buffered byte. Slot 0 is the packet to decode next; slots 1 and 2 are
 * the packets read after it, searched for redundancy (LBRR) data when slot 0 is lost.
 */
module Window {
  import opened Base
  import opened Sdk

  /** Where slot `k` starts in the buffer: the sum of the lengths of the slots before it. */
  function Offset(lens: seq<int>, k: nat): int
    requires |lens| == Slots && k <= Slots
  {
    (if k > 0 then lens[0] else 0) + (if k > 1 then lens[1] else 0) + (if k > 2 then lens[2] else 0)
  }

  /** Lengths that may be read as packet sizes. */
  predicate LengthsValid(lens: seq<int>)
  {
    |lens| == Slots && forall i :: 0 <= i < Slots ==> 0 <= lens[i] <= MaxI16
  }

  /** The bytes of slot `k`. */
  function PacketOf(buf: seq<byte>, lens: seq<int>, k: nat): (p: seq<byte>)
    requires LengthsValid(lens) && k < Slots && Offset(lens, k + 1) <= |buf|
    ensures |p| == lens[k]
  {
    buf[Offset(lens, k)..Offset(lens, k + 1)]
  }

  /** The buffer after `copy_within(n0..end, 0)`: bytes `[n0, end)` moved to the front, the rest untouched. */
  function SlidBuffer(buf: seq<byte>, n0: nat, end: nat): (r: seq<byte>)
    requires n0 <= end <= |buf|
    ensures |r| == |buf|
  {
    buf[n0..end] + buf[end - n0..]
  }

  /**
   * The buffer `buf`, with slot lengths `lens` and cursor `end`, holds the packets `held`, one
   * per slot from slot 0, back to back, with the cursor just past the last of them.
   */
  predicate HoldsIn(buf: seq<byte>, lens: seq<int>, end: nat, held: seq<seq<byte>>)
  {
    && LengthsValid(lens) && |held| <= Slots && end == Offset(lens, |held|) && end <= |buf|
    && forall k :: 0 <= k < |held| ==> PacketOf(buf, lens, k) == held[k]
  }

  /** Total size of up to three buffered packets. */
  function HeldBytes(held: seq<seq<byte>>): nat
    requires |held| <= Slots
  {
    (if |held| > 0 then |held[0]| else 0) + (if |held| > 1 then |held[1]| else 0) + (if |held| > 2 then |held[2]| else 0)
  }

  /** The cursor of a buffer holding packets is the total size of those packets. */
  lemma HoldsInEnd(buf: seq<byte>, lens: seq<int>, end: nat, held: seq<seq<byte>>)
    requires HoldsIn(buf, lens, end, held)
    ensures end == HeldBytes(held)
  {
    forall k | 0 <= k < |held|
      ensures lens[k] == |held[k]|
    {
      assert |PacketOf(buf, lens, k)| == lens[k];
    }
  }

  /** Only the buffered bytes matter: a buffer that agrees on them holds the same packets. */
  lemma HoldsInSamePrefix(buf: seq<byte>, buf': seq<byte>, lens: seq<int>, end: nat, held: seq<seq<byte>>)
    requires HoldsIn(buf, lens, end, held) && end <= |buf'| && buf'[..end] == buf[..end]
    ensures HoldsIn(buf', lens, end, held)
  {
    forall k | 0 <= k < |held|
      ensures PacketOf(buf', lens, k) == held[k]
    {
      PrefixSlices(buf', buf, end, Offset(lens, k), Offset(lens, k + 1));
    }
  }

  /**
   * Writing `bytes` at the cursor and recording their length in the next free slot makes the
   * buffer hold one more packet, `bytes`, after those it held.
   */
  lemma HoldsInAppend(buf: seq<byte>, lens: seq<int>, at: nat, held: seq<seq<byte>>, bytes: seq<byte>,
                      buf': seq<byte>, lens': seq<int>)
    requires HoldsIn(buf, lens, at, held) && |held| < Slots && |bytes| <= MaxI16 && at + |bytes| <= |buf|
    requires buf' == buf[..at] + bytes + buf[at + |bytes|..] && lens' == lens[|held| := |bytes|]
    ensures HoldsIn(buf', lens', at + |bytes|, held + [bytes])
  {
    ConcatSlices(buf[..at], bytes, buf[at + |bytes|..]);
    forall k | 0 <= k < |held| + 1
      ensures PacketOf(buf', lens', k) == (held + [bytes])[k]
    {
      if k < |held| {
        PrefixSlices(buf', buf, at, Offset(lens, k), Offset(lens, k + 1));
      }
    }
  }

  /**
   * Sliding a buffer that holds three packets (`copy_within` of the bytes after the first to
   * the front, and the lengths moved down one slot) leaves it holding the last two.
   */
  lemma HoldsInSlide(buf: seq<byte>, lens: seq<int>, end: nat, held: seq<seq<byte>>, buf': seq<byte>, lens': seq<int>)
    requires HoldsIn(buf, lens, end, held) && |held| == Slots
    requires buf' == SlidBuffer(buf, lens[0], end) && lens' == [lens[1], lens[2], lens[2]]
    ensures HoldsIn(buf', lens', end - lens[0], held[1..])
  {
    var a, b, c := lens[0], lens[1], lens[2];
    var x := buf[a..end];
    SliceOfConcat(x, buf[end - a..], 0, b);
    SliceOfConcat(x, buf[end - a..], b, b + c);
    SliceOfSlice(buf, a, end, 0, b);
    SliceOfSlice(buf, a, end, b, b + c);
    assert PacketOf(buf', lens', 0) == PacketOf(buf, lens, 1) == held[1];
    assert PacketOf(buf', lens', 1) == PacketOf(buf, lens, 2) == held[2];
    forall k | 0 <= k < 2
      ensures PacketOf(buf', lens', k) == held[1..][k]
    {
    }
  }

  /** A buffer holding three packets starts with their bytes, one after another. */
  lemma HoldsInTile(buf: seq<byte>, lens: seq<int>, end: nat, held: seq<seq<byte>>)
    requires HoldsIn(buf, lens, end, held) && |held| == Slots
    ensures buf[..end] == held[0] + held[1] + held[2]
  {
    var a, b, c := lens[0], lens[1], lens[2];
    assert PacketOf(buf, lens, 0) == held[0] && PacketOf(buf, lens, 1) == held[1] && PacketOf(buf, lens, 2) == held[2];
    assert buf[..a + b + c] == buf[..a] + buf[a..a + b] + buf[a + b..a + b + c];
  }

  /** A redundancy payload found for the lost packet, and the slot it was found in. */
  datatype Recovery = Recovery(slot: nat, payload: seq<byte>)

  /**
   * Among the buffered packets `held`, slot `k` holds a packet, and searching it (offset `k`
   * from the lost one) finds a payload.
   */
  predicate Recoverable(sdk: Sdk, held: seq<seq<byte>>, k: nat)
    requires k < |held|
  {
    |held[k]| > 0 && |sdk.searchLbrr(held[k], k)| > 0
  }

  /** The first slot from `from` on whose packet yields a redundancy payload, with that payload. */
  function FirstRecovery(sdk: Sdk, held: seq<seq<byte>>, from: nat): (r: Option<Recovery>)
    ensures r.Some? ==> from <= r.value.slot < |held| && Recoverable(sdk, held, r.value.slot)
    ensures r.Some? ==> r.value.payload == sdk.searchLbrr(held[r.value.slot], r.value.slot)
    decreases |held| - from
  {
    if from >= |held| then None
    else if Recoverable(sdk, held, from) then Some(Recovery(from, sdk.searchLbrr(held[from], from)))
    else FirstRecovery(sdk, held, from + 1)
  }

  /**
   * The recovery search picks the earliest slot that yields a payload: a payload is found
   * exactly when some slot from `from` on is recoverable, it comes from that slot's own
   * packet, and no earlier slot was recoverable.
   */
  lemma {:induction false} FirstRecoveryIsFirst(sdk: Sdk, held: seq<seq<byte>>, from: nat)
    ensures FirstRecovery(sdk, held, from).Some? <==>
      exists k :: from <= k < |held| && Recoverable(sdk, held, k)
    ensures FirstRecovery(sdk, held, from).Some? ==>
      var r := FirstRecovery(sdk, held, from).value;
      && from <= r.slot < |held|
      && Recoverable(sdk, held, r.slot)
      && r.payload == sdk.searchLbrr(held[r.slot], r.slot)
      && forall k :: from <= k < r.slot ==> !Recoverable(sdk, held, k)
    decreases |held| - from
  {
    if from < |held| && !Recoverable(sdk, held, from) {
      FirstRecoveryIsFirst(sdk, held, from + 1);
      if FirstRecovery(sdk, held, from).None? {
        forall k | from <= k < |held|
          ensures !Recoverable(sdk, held, k)
        {
          if k > from {
            assert !Recoverable(sdk, held, k);
          }
        }
      }
    }
  }

  class LookaheadWindow {
    /** The byte buffer, 1024 * 5 * 3 = 15360 bytes. */
    const payload: array<byte>
    /** The length of each slot's packet (`n_bytes_per_packet`, 16-bit values). */
    const lengths: array<int>
    /** One past the last buffered byte. */
    var payloadEnd: nat

    ghost predicate Valid()
      reads this, lengths
    {
      && payload.Length == PayloadCapacity
      && lengths.Length == Slots
      && payloadEnd <= PayloadCapacity
      && LengthsValid(lengths[..])
    }

    /** The buffer holds the packets `held`, one per slot from slot 0, back to back. */
    ghost predicate Holds(held: seq<seq<byte>>)
      reads this, payload, lengths
    {
      Valid() && HoldsIn(payload[..], lengths[..], payloadEnd, held)
    }

    /** A zeroed buffer, all lengths 0 and the cursor at 0: it holds no packet. */
    constructor ()
      ensures Holds([]) && fresh(payload) && fresh(lengths)
      ensures lengths[..] == [0, 0, 0]
    {
      payload := new byte[PayloadCapacity](_ => 0);
      lengths := new int[Slots](_ => 0);
      payloadEnd := 0;
      new;
      assert lengths[..] == [0, 0, 0];
    }

    /**
     * Records that `n` bytes were appended at the cursor as the packet of `slot`: the slot's
     * length becomes `n` and the cursor advances by `n`.
     */
    method Commit(slot: nat, n: int)
      requires Valid() && slot < Slots && 0 <= n <= MaxI16 && payloadEnd + n <= PayloadCapacity
      modifies this, lengths
      ensures Valid()
      ensures lengths[..] == old(lengths[..])[slot := n]
      ensures payloadEnd == old(payloadEnd) + n
    {
      lengths[slot] := n;
      payloadEnd := payloadEnd + n;
    }

    /**
     * Drops the packet of slot 0: `payload.copy_within(n0..payloadEnd, 0)`, the cursor moves back
     * by `n0`, and `lengths.copy_within(1.., 0)` turns `[n0, n1, n2]` into `[n1, n2, n2]`.
     */
    method Slide()
      requires Valid() && lengths[0] <= payloadEnd
      modifies this, payload, lengths
      ensures Valid()
      ensures payload[..] == SlidBuffer(old(payload[..]), old(lengths[0]), old(payloadEnd))
      ensures payloadEnd == old(payloadEnd) - old(lengths[0])
      ensures lengths[..] == [old(lengths[1]), old(lengths[2]), old(lengths[2])]
    {
      var n0 := lengths[0];
      var count := payloadEnd - n0;
      ghost var before := payload[..];
      var k := 0;
      while k < count
        invariant 0 <= k <= count
        invariant forall i :: 0 <= i < k ==> payload[i] == before[n0 + i]
        invariant forall i :: k <= i < payload.Length ==> payload[i] == before[i]
        invariant lengths[..] == old(lengths[..]) && payloadEnd == old(payloadEnd)
      {
        payload[k] := payload[n0 + k];
        k := k + 1;
      }
      assert payload[..] == SlidBuffer(before, n0, payloadEnd);
      payloadEnd := count;
      lengths[0] := lengths[1];
      lengths[1] := lengths[2];
    }

    /** Sliding a full window leaves it holding the packets of slots 1 and 2, now in slots 0 and 1. */
    method DropHead(ghost held: seq<seq<byte>>)
      requires Holds(held) && |held| == Slots
      modifies this, payload, lengths
      ensures Holds(held[1..])
    {
      ghost var buf, lens, end := payload[..], lengths[..], payloadEnd;
      Slide();
      HoldsInSlide(buf, lens, end, held, payload[..], lengths[..]);
    }

    /**
     * The redundancy search run when the packet of slot 0 is lost (empty), so that the buffer
     * starts with the packet of slot 1: slots 1 and 2 are visited
     * in order, an empty slot is skipped, and each other packet is searched, at the running
     * offset within the buffer, for data about the packet `i + 1` slots before it; the first
     * payload found is returned.
     */
    method SearchLbrr(sdk: Sdk, ghost held: seq<seq<byte>>) returns (r: Option<Recovery>)
      requires Holds(held) && |held| == Slots && |held[0]| == 0
      ensures r == FirstRecovery(sdk, held, 1)
    {
      assert lengths[0] == |PacketOf(payload[..], lengths[..], 0)| == 0;
      var offset := 0;
      var i := 0;
      while i < MaxLbrrDelay
        invariant 0 <= i <= MaxLbrrDelay
        invariant offset == Offset(lengths[..], i + 1)
        invariant FirstRecovery(sdk, held, 1) == FirstRecovery(sdk, held, i + 1)
      {
        var n := lengths[i + 1];
        assert payload[offset..offset + n] == held[i + 1] by {
          assert PacketOf(payload[..], lengths[..], i + 1) == held[i + 1];
        }
        if n > 0 {
          var fec := sdk.searchLbrr(payload[offset..offset + n], i + 1);
          if |fec| > 0 {
            return Some(Recovery(i + 1, fec));
          }
        }
        offset := offset + n;
        i := i + 1;
      }
      return None;
    }
  }
}
