/**
 How `uhm_send` and `uhm_recv` cut one transfer into chunks. The sender derives
 the chunk size from its buffer and HMC_UHM_CHUNK; the receiver derives it again
 from the state block it was sent. Nothing but the block is shared.
 */
module UhmPlan {
  import opened Arith
  import opened Bytes

  datatype Params = Params(
    bufferSize: nat,          // buffer->buffer_size, equal on both peers
    envChunk: u32,            // HMC_UHM_CHUNK or its default
    sendInterval: u32,        // HMC_UHM_SIGNAL_INTERVAL at the sender
    sendPending: u32,         // HMC_UHM_PENDING_SIGNAL at the sender
    recvInterval: u32,        // the same two settings at the receiver
    recvPending: u32,
    sendQps: nat,             // num_qps_ of either endpoint
    recvQps: nat,
    capacity: nat,            // size of the receiver's output buffer
    input: seq<byte>,         // the payload; its length is send_flags
    half: nat,                // half_buffer_size
    chunk: nat,               // the sender's chunk_size
    count: nat)               // the sender's num_send_chunks
  {
    /** The three locals as the sender computes them (544, 555-557, 563). */
    predicate Wf()
    {
      && half == bufferSize / 2
      && chunk == Max(1, Min(envChunk, half))
      && count == CeilDiv(|input|, chunk)
    }

    /** Offset of chunk `k` in the payload. */
    function Off(k: nat): nat { k * chunk }

    /** The sender's size of chunk `k`. */
    function Size(k: nat): nat
    {
      if Off(k) <= |input| then Min(chunk, |input| - Off(k)) else 0
    }

    /** Where the half used by chunk `k` starts in either buffer. */
    function HalfOff(k: nat): nat { if k % 2 == 0 then 0 else half }

    function InputChunk(k: nat): seq<byte> { Slice(input, Off(k), Size(k)) }

    /** What `uhm_send` accepts (lines 541-553). */
    predicate Accepted() { half >= 1 && 1 <= |input| <= MAX_U32 }
  }

  /** The receiver's chunk size, from the `chunk_bytes` of the block. */
  function RecvChunk(chunkBytes: nat, half: nat): (c: nat)
    ensures 1 <= c
  {
    Max(1, Min(if chunkBytes == 0 then half else chunkBytes, half))
  }

  /** The receiver's size of chunk `k` once `accumulated` bytes are out. */
  function RecvSize(total: nat, count: nat, chunk: nat, accumulated: nat, k: nat): nat
  {
    if k + 1 == count then (if accumulated <= total then total - accumulated else 0) else chunk
  }

  /** Every chunk before the last is full, the last one holds the rest. */
  lemma {:induction false} ChunkFacts(p: Params, k: nat)
    requires p.Wf() && k < p.count
    ensures p.Off(k + 1) == p.Off(k) + p.chunk
    ensures p.Off(k) < |p.input|
    ensures 1 <= p.Size(k) <= p.chunk
    ensures k + 1 < p.count ==> p.Off(k + 1) < |p.input| && p.Size(k) == p.chunk
    ensures k + 1 == p.count ==> p.Off(k) + p.Size(k) == |p.input|
    ensures p.Off(k) + p.Size(k) <= |p.input|
    ensures |p.InputChunk(k)| == p.Size(k)
  {
    var c, n := p.chunk, p.count;
    CeilDivBounds(|p.input|, c);
    assert (k + 1) * c == k * c + c;
    assert n * c == (n - 1) * c + c;
    MulLe(k, n - 1, c);
    if k + 1 < n {
      MulLe(k + 1, n - 1, c);
    }
  }

  /** Bytes covered by the first `k` chunks. */
  function Covered(p: Params, k: nat): nat { Min(p.Off(k), |p.input|) }

  lemma {:induction false} CoveredStep(p: Params, k: nat)
    requires p.Wf() && k < p.count
    ensures Covered(p, k) == p.Off(k)
    ensures Covered(p, k + 1) == Covered(p, k) + p.Size(k)
    ensures Covered(p, p.count) == |p.input|
  {
    ChunkFacts(p, k);
    CeilDivBounds(|p.input|, p.chunk);
  }

  function SumSizes(p: Params, k: nat): nat
  {
    if k == 0 then 0 else SumSizes(p, k - 1) + p.Size(k - 1)
  }

  lemma {:induction false} SumIsCovered(p: Params, k: nat)
    requires p.Wf() && k <= p.count
    ensures SumSizes(p, k) == Covered(p, k)
  {
    if k > 0 {
      SumIsCovered(p, k - 1);
      CoveredStep(p, k - 1);
    }
  }

  /**
   The two sides agree without talking about it: same chunk size, same count,
   same size for every chunk; the sizes are positive, sum to the payload, and
   every staged range stays inside its own half.
   */
  lemma {:induction false} SplitAgreement(p: Params)
    requires p.Wf() && p.Accepted()
    ensures 1 <= p.chunk <= p.half
    ensures RecvChunk(p.chunk, p.half) == p.chunk
    ensures CeilDiv(|p.input|, RecvChunk(p.chunk, p.half)) == p.count >= 1
    ensures p.chunk <= MAX_U32
    ensures SumSizes(p, p.count) == |p.input|
    ensures forall k | 0 <= k < p.count ::
              && RecvSize(|p.input|, p.count, p.chunk, Covered(p, k), k) == p.Size(k)
              && 1 <= p.Size(k) <= p.chunk
              && p.HalfOff(k) + p.Size(k) <= p.HalfOff(k) + p.half <= p.bufferSize
  {
    CeilDivBounds(|p.input|, p.chunk);
    SumIsCovered(p, p.count);
    forall k | 0 <= k < p.count
      ensures RecvSize(|p.input|, p.count, p.chunk, Covered(p, k), k) == p.Size(k)
      ensures 1 <= p.Size(k) <= p.chunk
      ensures p.HalfOff(k) + p.Size(k) <= p.HalfOff(k) + p.half <= p.bufferSize
    {
      ChunkFacts(p, k);
      CoveredStep(p, k);
    }
  }
}
