/**
 Byte sequences standing for registered buffers.

 `ConnBuffer` refuses a copy whose range leaves the buffer and changes nothing;
 `Put` and `Slice` are that range-checked primitive:

 - `Put` writes at an offset, or leaves the buffer alone;
 - `Slice` reads at an offset, or gives nothing.

 What was put is read back, disjoint ranges do not disturb each other, and
 adjacent ranges join.
 */
module Bytes {

  newtype byte = x: int | 0 <= x < 256

  const MAX_U32: nat := 0xFFFF_FFFF

  type u32 = x: nat | x <= MAX_U32

  function Min(a: nat, b: nat): nat { if a <= b then a else b }

  function Max(a: nat, b: nat): nat { if a <= b then b else a }

  /** Writes `data` at `off`; a range outside the buffer is refused. */
  function Put(buf: seq<byte>, off: nat, data: seq<byte>): (r: seq<byte>)
    ensures |r| == |buf|
  {
    if off + |data| <= |buf| then buf[..off] + data + buf[off + |data|..] else buf
  }

  /** The `size` bytes at `off`; empty when the range leaves the buffer. */
  function Slice(buf: seq<byte>, off: nat, size: nat): (r: seq<byte>)
    ensures off + size <= |buf| ==> |r| == size
  {
    if off + size <= |buf| then buf[off..off + size] else []
  }

  lemma PutSame(buf: seq<byte>, off: nat, data: seq<byte>)
    requires off + |data| <= |buf|
    ensures Slice(Put(buf, off, data), off, |data|) == data
  {
  }

  lemma PutApart(buf: seq<byte>, off: nat, data: seq<byte>, o: nat, n: nat)
    requires off + |data| <= o || o + n <= off
    ensures Slice(Put(buf, off, data), o, n) == Slice(buf, o, n)
  {
    if off + |data| <= |buf| && o + n <= |buf| {
      var a, b := Slice(Put(buf, off, data), o, n), Slice(buf, o, n);
      assert forall i | 0 <= i < n :: a[i] == b[i];
    }
  }

  lemma PutAt(buf: seq<byte>, off: nat, data: seq<byte>, i: nat)
    requires off + |data| <= |buf| && i < |buf|
    ensures Put(buf, off, data)[i] == if off <= i < off + |data| then data[i - off] else buf[i]
  {
  }

  lemma SliceJoin(buf: seq<byte>, a: nat, m: nat, n: nat)
    requires a + m + n <= |buf|
    ensures Slice(buf, a, m + n) == Slice(buf, a, m) + Slice(buf, a + m, n)
  {
  }

  lemma PutJoin(buf: seq<byte>, off: nat, a: seq<byte>, b: seq<byte>)
    requires off + |a| + |b| <= |buf|
    ensures Put(Put(buf, off, a), off + |a|, b) == Put(buf, off, a + b)
  {
  }
}
