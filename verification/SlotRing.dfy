/**
 `send_channel_slice_write_stage`: a transfer staged through a ring of slots.
 Each chunk is copied into its slot of the local buffer and written from there
 with a non-blocking put; a slot is refilled only after a wait on its last put.
 The NIC may execute outstanding puts in any order, which covers every number
 of queue pairs; a put reads its slot when it executes.
 */
module SlotRing {
  import opened Arith
  import opened Bytes

  /** One call: the ring computed at 367-373 and what is sent through it. */
  datatype Ring = Ring(chunk: nat, slots: nat, size: nat, window: nat, source: seq<byte>, remote0: seq<byte>) {
    predicate Ok() { chunk >= 1 && slots >= 1 && window >= 1 }

    function Count(): nat requires Ok() { CeilDiv(size, chunk) }

    function Slot(i: nat): (j: nat) requires Ok() ensures j < slots { i % slots }

    /** Chunk `i` goes through its slot, at the same offset on both sides. */
    function Off(i: nat): nat requires Ok() { Slot(i) * chunk }

    function Step(i: nat): nat { if i * chunk <= size then Min(chunk, size - i * chunk) else 0 }

    function SrcOff(i: nat): nat requires Ok() { (i * chunk) % window }

    /** The bytes staged for chunk `i`. */
    function Data(i: nat): seq<byte> requires Ok() { Slice(source, SrcOff(i), Step(i)) }

    predicate Hits(i: nat, x: nat) requires Ok() { Off(i) <= x < Off(i) + |Data(i)| }

    /** The peer's buffer after the first `k` chunks, had each put been blocking. */
    function Blocking(k: nat): (r: seq<byte>)
      requires Ok()
      ensures |r| == |remote0|
    {
      if k == 0 then remote0 else Put(Blocking(k - 1), Off(k - 1), Data(k - 1))
    }
  }

  /** Lines 367-371. */
  function RingFor(bufferSize: nat, stageChunk: nat, stageSlots: nat, size: nat, srcWindow: nat,
                   source: seq<byte>, remote0: seq<byte>): (r: Ring)
    requires bufferSize >= 2
    ensures r.Ok() && r.chunk <= bufferSize / 2 && r.slots * r.chunk <= bufferSize
    ensures r.size == size && r.source == source && r.remote0 == remote0
    ensures r.chunk == Max(1, Min(stageChunk, bufferSize / 2)) && r.window == Max(1, Min(size, srcWindow))
    ensures r.slots == Max(1, if stageSlots == 0 then Max(1, bufferSize / r.chunk)
                              else Min(stageSlots, Max(1, bufferSize / r.chunk)))
  {
    var chunk := Max(1, Min(stageChunk, bufferSize / 2));
    var byBuf := Max(1, bufferSize / chunk);
    var slots := Max(1, if stageSlots == 0 then byBuf else Min(stageSlots, byBuf));
    SlotsFit(bufferSize, chunk, slots);
    Ring(chunk, slots, size, Max(1, Min(size, srcWindow)), source, remote0)
  }

  lemma SlotsFit(b: nat, chunk: nat, slots: nat)
    requires 1 <= chunk <= b && 1 <= slots <= Max(1, b / chunk)
    ensures slots * chunk <= b
  {
    assert b == b / chunk * chunk + b % chunk;
    assert b / chunk >= 1;
    MulLe(slots, b / chunk, chunk);
  }

  /** Slots are inside the ring, and different slots are disjoint. */
  lemma SlotRanges(r: Ring, i: nat, j: nat)
    requires r.Ok()
    ensures |r.Data(i)| <= r.Step(i) <= r.chunk && r.Off(i) + r.chunk <= r.slots * r.chunk
    ensures r.Slot(i) != r.Slot(j) ==> r.Off(i) + r.chunk <= r.Off(j) || r.Off(j) + r.chunk <= r.Off(i)
  {
    MulLt(r.Slot(i), r.slots, r.chunk);
    if r.Slot(i) < r.Slot(j) {
      MulLt(r.Slot(i), r.Slot(j), r.chunk);
    } else if r.Slot(j) < r.Slot(i) {
      MulLt(r.Slot(j), r.Slot(i), r.chunk);
    }
  }

  /** Chunk `i` reaches beyond the source or the peer's buffer. */
  predicate Misfits(r: Ring, i: nat)
    requires r.Ok()
  {
    r.SrcOff(i) + r.Step(i) > |r.source| || r.Off(i) + r.Step(i) > |r.remote0|
  }

  // ---- invariants ----------------------------------------------------------

  /** An outstanding put still has its own bytes in its slot. */
  ghost predicate Staged(r: Ring, k: nat, local: seq<byte>, done: set<nat>)
    requires r.Ok()
  {
    forall i: nat | i < k && i !in done :: Slice(local, r.Off(i), |r.Data(i)|) == r.Data(i)
  }

  lemma StagedGrows(r: Ring, k: nat, local: seq<byte>, done: set<nat>, done': set<nat>)
    requires r.Ok() && Staged(r, k, local, done) && done <= done'
    ensures Staged(r, k, local, done')
  {
    hide Slice, Ring.Data, Ring.Off;
  }

  /** Every posted put is the last of its slot or done; its slot says which. */
  ghost predicate Recorded(r: Ring, k: nat, inflight: seq<nat>, done: set<nat>)
    requires r.Ok()
  {
    && |inflight| == r.slots
    && (forall j | 0 <= j < r.slots :: inflight[j] <= k)
    && (forall i: nat | i < k :: inflight[r.Slot(i)] >= i + 1)
    && (forall i: nat | i < k && i !in done :: inflight[r.Slot(i)] == i + 1)
  }

  /** Puts behind in the same slot are done once a later one is outstanding. */
  ghost predicate LastInSlot(r: Ring, k: nat, done: set<nat>)
    requires r.Ok()
  {
    forall i: nat, j: nat | i < j < k && i !in done :: r.Slot(i) != r.Slot(j)
  }

  /** The peer's buffer: as if all puts were blocking, minus the outstanding ones. */
  ghost predicate Delivered(r: Ring, k: nat, remote: seq<byte>, done: set<nat>)
    requires r.Ok()
  {
    && |remote| == |r.remote0|
    && (forall x: nat, i: nat | x < |remote| && i < k && i !in done && r.Hits(i, x) :: remote[x] == r.Blocking(i)[x])
    && (forall x: nat | x < |remote| && (forall i: nat | i < k && i !in done :: !r.Hits(i, x)) ::
          remote[x] == r.Blocking(k)[x])
  }

  /** Puts that do not hit a byte do not change it. */
  lemma {:induction false} Untouched(r: Ring, i: nat, k: nat, x: nat)
    requires r.Ok() && i <= k && x < |r.remote0|
    requires forall j | i <= j < k :: !r.Hits(j, x)
    ensures r.Blocking(k)[x] == r.Blocking(i)[x]
    decreases k
  {
    hide Ring.Data, Ring.Off;
    if i < k {
      Untouched(r, i, k - 1, x);
      BlockingAt(r, k - 1, x);
    }
  }

  lemma BlockingAt(r: Ring, i: nat, x: nat)
    requires r.Ok() && x < |r.remote0|
    ensures !r.Hits(i, x) ==> r.Blocking(i + 1)[x] == r.Blocking(i)[x]
    ensures r.Off(i) + |r.Data(i)| <= |r.remote0| && r.Hits(i, x) ==> r.Blocking(i + 1)[x] == r.Data(i)[x - r.Off(i)]
  {
    hide Ring.Data, Ring.Off;
    var b := r.Blocking(i);
    assert r.Blocking(i + 1) == Put(b, r.Off(i), r.Data(i));
    if r.Off(i) + |r.Data(i)| <= |b| {
      PutAt(b, r.Off(i), r.Data(i), x);
    }
  }

  /** After an outstanding put no later put touches its bytes. */
  lemma NoneAfter(r: Ring, k: nat, done: set<nat>, i: nat, x: nat)
    requires r.Ok() && LastInSlot(r, k, done) && i < k && i !in done && r.Hits(i, x) && x < |r.remote0|
    ensures r.Blocking(k)[x] == r.Blocking(i + 1)[x]
  {
    hide Ring.Data, Ring.Off;
    forall j | i + 1 <= j < k ensures !r.Hits(j, x) {
      SlotRanges(r, i, j);
      SlotRanges(r, j, i);
    }
    Untouched(r, i + 1, k, x);
  }

  /** Executing an outstanding put. */
  lemma ExecuteDelivers(r: Ring, k: nat, remote: seq<byte>, done: set<nat>, i: nat)
    requires r.Ok() && Delivered(r, k, remote, done) && LastInSlot(r, k, done) && i < k && i !in done
    requires r.Off(i) + |r.Data(i)| <= |remote|
    ensures Delivered(r, k, Put(remote, r.Off(i), r.Data(i)), done + {i})
  {
    hide Ring.Data, Ring.Off, Ring.Blocking, LastInSlot;
    var remote' := Put(remote, r.Off(i), r.Data(i));
    forall x: nat | x < |remote|
      ensures remote'[x] == if r.Hits(i, x) then r.Blocking(k)[x] else remote[x]
    {
      PutAt(remote, r.Off(i), r.Data(i), x);
      if r.Hits(i, x) {
        NoneAfter(r, k, done, i, x);
        BlockingAt(r, i, x);
      }
    }
    hide Put, Ring.Hits;
    forall x: nat, j: nat | x < |remote| && j < k && j !in done + {i} && r.Hits(j, x)
      ensures remote'[x] == r.Blocking(j)[x]
    {
      OneHit(r, k, done, i, j, x);
    }
    forall x: nat | x < |remote| && (forall j: nat | j < k && j !in done + {i} :: !r.Hits(j, x))
      ensures remote'[x] == r.Blocking(k)[x]
    {
      if !r.Hits(i, x) {
        assert forall j: nat | j < k && j !in done :: !r.Hits(j, x);
      }
    }
  }

  lemma OneHit(r: Ring, k: nat, done: set<nat>, i: nat, j: nat, x: nat)
    requires r.Ok() && LastInSlot(r, k, done) && i < k && j < k && i != j && i !in done && j !in done && r.Hits(j, x)
    ensures !r.Hits(i, x)
  {
    hide Ring.Data, Ring.Off;
    SlotRanges(r, i, j);
    SlotRanges(r, j, i);
  }

  /** Posting put `k` from a slot with nothing outstanding. */
  lemma PostDelivers(r: Ring, k: nat, remote: seq<byte>, done: set<nat>)
    requires r.Ok() && Delivered(r, k, remote, done) && k !in done
    requires forall i: nat | i < k && i !in done :: r.Slot(i) != r.Slot(k)
    ensures Delivered(r, k + 1, remote, done)
  {
    hide Ring.Data, Ring.Off, Ring.Blocking;
    forall x: nat, i: nat | x < |remote| && i < k + 1 && i !in done && r.Hits(i, x)
      ensures remote[x] == r.Blocking(i)[x]
    {
      if i == k {
        forall j: nat | j < k && j !in done ensures !r.Hits(j, x) {
          SlotRanges(r, j, k);
          SlotRanges(r, k, j);
        }
      }
    }
    forall x: nat | x < |remote| && (forall i: nat | i < k + 1 && i !in done :: !r.Hits(i, x))
      ensures remote[x] == r.Blocking(k + 1)[x]
    {
      BlockingAt(r, k, x);
    }
  }

  /** Staging chunk `k` into a slot with nothing outstanding. */
  lemma StageKeeps(r: Ring, k: nat, local: seq<byte>, done: set<nat>)
    requires r.Ok() && Staged(r, k, local, done) && r.slots * r.chunk <= |local|
    requires forall i: nat | i < k && i !in done :: r.Slot(i) != r.Slot(k)
    ensures Staged(r, k + 1, Put(local, r.Off(k), r.Data(k)), done)
  {
    hide Ring.Data, Ring.Off;
    var local' := Put(local, r.Off(k), r.Data(k));
    SlotRanges(r, k, k);
    forall i: nat | i < k + 1 && i !in done ensures Slice(local', r.Off(i), |r.Data(i)|) == r.Data(i) {
      if i == k {
        PutSame(local, r.Off(k), r.Data(k));
      } else {
        SlotRanges(r, i, k);
        PutApart(local, r.Off(k), r.Data(k), r.Off(i), |r.Data(i)|);
      }
    }
  }

  /** Posting put `k`: its slot now records it. */
  lemma PostRecords(r: Ring, k: nat, inflight: seq<nat>, done: set<nat>)
    requires r.Ok() && Recorded(r, k, inflight, done)
    requires forall i: nat | i < k && i !in done :: r.Slot(i) != r.Slot(k)
    ensures Recorded(r, k + 1, inflight[r.Slot(k) := k + 1], done)
  {
    hide Ring.Slot;
  }

  /** A wait on what the slot records leaves nothing outstanding in it. */
  lemma SlotIsFree(r: Ring, k: nat, inflight: seq<nat>, done: set<nat>, done': set<nat>)
    requires r.Ok() && Recorded(r, k, inflight, done) && done <= done'
    requires inflight[r.Slot(k)] != 0 ==> inflight[r.Slot(k)] - 1 in done'
    ensures forall i: nat | i < k && i !in done' :: r.Slot(i) != r.Slot(k)
    ensures Recorded(r, k, inflight, done')
  {
    hide Ring.Slot;
  }

  lemma StartRing(r: Ring, local: seq<byte>)
    requires r.Ok()
    ensures Staged(r, 0, local, {}) && Delivered(r, 0, r.remote0, {}) && Recorded(r, 0, seq(r.slots, _ => 0), {})
  {
  }

  /** Everything delivered: the peer's buffer is what blocking puts would leave. */
  lemma AllDelivered(r: Ring, k: nat, remote: seq<byte>, done: set<nat>)
    requires r.Ok() && Delivered(r, k, remote, done) && forall i: nat | i < k :: i in done
    ensures remote == r.Blocking(k)
  {
  }

  /** `sent` in terms of the chunk number. */
  predicate AtChunk(r: Ring, k: nat, sent: nat) requires r.Ok()
  {
    sent == Min(k * r.chunk, r.size) && k <= r.Count()
  }

  lemma ChunkLine(r: Ring, k: nat, sent: nat)
    requires r.Ok() && AtChunk(r, k, sent) && sent < r.size
    ensures var step := Min(r.chunk, r.size - sent);
            && AtChunk(r, k + 1, sent + step) && sent % r.window == r.SrcOff(k) && step == r.Step(k)
  {
    PieceStarts(r.size, r.chunk, k);
    assert (k + 1) * r.chunk == k * r.chunk + r.chunk;
  }

  lemma AtEnd(r: Ring, k: nat, sent: nat)
    requires r.Ok() && AtChunk(r, k, sent) && sent >= r.size
    ensures k == r.Count()
  {
    PieceStarts(r.size, r.chunk, k);
  }

  lemma StartLine(r: Ring)
    requires r.Ok()
    ensures AtChunk(r, 0, 0) && LastInSlot(r, 0, {})
  {
  }

  datatype Request = Request(off: nat, size: nat)

  // ---- where the bytes come from ---------------------------------------------

  /** If chunk `i` is the last of its slot, the slot holds the chunk's part of the source window. */
  predicate Landed(remote: seq<byte>, source: seq<byte>, size: nat, chunk: nat, slots: nat, window: nat, i: nat)
    requires slots >= 1 && window >= 1
  {
    i * chunk < size <= (i + slots) * chunk ==>
      var n := Min(chunk, size - i * chunk);
      && (i * chunk) % window + n <= |source| && (i % slots) * chunk + n <= |remote|
      && remote[(i % slots) * chunk..(i % slots) * chunk + n] == source[(i * chunk) % window..(i * chunk) % window + n]
  }

  /** All chunks were staged in full and fit into the peer's buffer. */
  ghost predicate Whole(r: Ring)
    requires r.Ok()
  {
    forall i: nat | i < r.Count() :: |r.Data(i)| == r.Step(i) && r.Off(i) + |r.Data(i)| <= |r.remote0|
  }

  lemma {:induction false} LaterChunks(r: Ring, i: nat, k: nat)
    requires r.Ok() && Whole(r) && i < k <= r.Count() && k <= i + r.slots
    ensures Slice(r.Blocking(k), r.Off(i), |r.Data(i)|) == r.Data(i)
    decreases k
  {
    hide Ring.Data, Ring.Off, Ring.Count, Put, Slice;
    if k == i + 1 {
      PutSame(r.Blocking(i), r.Off(i), r.Data(i));
    } else {
      LaterChunks(r, i, k - 1);
      ModDiffer(i, k - 1, r.slots);
      SlotRanges(r, i, k - 1);
      SlotRanges(r, k - 1, i);
      PutApart(r.Blocking(k - 1), r.Off(k - 1), r.Data(k - 1), r.Off(i), |r.Data(i)|);
    }
  }

  lemma LandsAt(r: Ring, i: nat)
    requires r.Ok() && Whole(r)
    ensures Landed(r.Blocking(r.Count()), r.source, r.size, r.chunk, r.slots, r.window, i)
  {
    if i * r.chunk < r.size <= (i + r.slots) * r.chunk {
      PieceStarts(r.size, r.chunk, i);
      PieceStarts(r.size, r.chunk, i + r.slots);
      hide Ring.Count, Ring.Blocking, Put;
      LaterChunks(r, i, r.Count());
      assert |r.Data(i)| == r.Step(i) && r.Off(i) + |r.Data(i)| <= |r.remote0|;
    }
  }

  /** Beyond the ring nothing changes. */
  lemma {:induction false} Beyond(r: Ring, k: nat, x: nat)
    requires r.Ok() && r.slots * r.chunk <= x < |r.remote0|
    ensures r.Blocking(k)[x] == r.remote0[x]
  {
    hide Ring.Data, Ring.Off, Put;
    if k > 0 {
      Beyond(r, k - 1, x);
      SlotRanges(r, k - 1, k - 1);
      MissedByte(r.Blocking(k - 1), r.Off(k - 1), r.Data(k - 1), x);
    }
  }

  lemma MissedByte(buf: seq<byte>, off: nat, data: seq<byte>, x: nat)
    requires x < |buf| && !(off <= x < off + |data|)
    ensures Put(buf, off, data)[x] == buf[x]
  {
  }

  /** In the first round, over a source without wrap-around, chunk `i` goes straight to its own place. */
  lemma StraightChunk(r: Ring, i: nat)
    requires r.Ok() && Whole(r) && i < r.Count() <= r.slots && r.window == r.size >= 1
    ensures r.Off(i) == i * r.chunk < r.size && r.Step(i) == Min(r.chunk, r.size - i * r.chunk)
    ensures r.Data(i) == Slice(r.source, i * r.chunk, r.Step(i)) && |r.Data(i)| == r.Step(i)
    ensures i * r.chunk + r.Step(i) <= |r.remote0|
    ensures i * r.chunk + r.Step(i) <= |r.source|
  {
    PieceStarts(r.size, r.chunk, i);
    DivModUnique(i, r.slots, 0, i);
    DivModUnique(i * r.chunk, r.size, 0, i * r.chunk);
  }

  /** So far it is a plain prefix. */
  lemma {:induction false} OneRound(r: Ring, k: nat)
    requires r.Ok() && Whole(r) && k <= r.Count() <= r.slots && r.window == r.size >= 1
    ensures var n := Min(k * r.chunk, r.size);
      n <= |r.source| && n <= |r.remote0| && r.Blocking(k) == Put(r.remote0, 0, Slice(r.source, 0, n))
  {
    hide Whole, Ring.Count, Ring.Data, Ring.Off, Ring.Step;
    if k == 0 {
      return;
    }
    hide Put, Slice;
    var i := k - 1;
    var m := i * r.chunk;
    OneRound(r, i);
    StraightChunk(r, i);
    Distribute(i, 1, r.chunk);
    SliceJoin(r.source, 0, m, r.Step(i));
    PutJoin(r.remote0, 0, Slice(r.source, 0, m), r.Data(i));
  }

  /** A transfer that fits into the ring and its source window is one plain copy. */
  lemma PlainTransfer(r: Ring)
    requires r.Ok() && Whole(r) && r.window == r.size >= 1 && r.size <= r.slots * r.chunk
    ensures r.size <= |r.source| && r.size <= |r.remote0|
    ensures r.Blocking(r.Count()) == r.source[..r.size] + r.remote0[r.size..]
  {
    CeilDivBounds(r.size, r.chunk);
    PieceStarts(r.size, r.chunk, r.slots);
    OneRound(r, r.Count());
  }

  /**
   What a successful call leaves in the peer's buffer, with the chunk size, the
   slot count and the source window as the call computes them: the last chunk of
   each slot, nothing beyond the ring, and one plain copy if all fits.
   */
  ghost predicate Arrived(remote: seq<byte>, remote0: seq<byte>, bufferSize: nat, source: seq<byte>, size: nat,
                          stageChunk: nat, stageSlots: nat, srcWindow: nat)
    requires |remote| == |remote0|
  {
    var chunk := Max(1, Min(stageChunk, bufferSize / 2));
    var fit := Max(1, bufferSize / chunk);
    var slots := Max(1, if stageSlots == 0 then fit else Min(stageSlots, fit));
    var window := Max(1, Min(size, srcWindow));
    && (forall i: nat :: Landed(remote, source, size, chunk, slots, window, i))
    && (forall x | slots * chunk <= x < |remote| :: remote[x] == remote0[x])
    && (size <= srcWindow && size <= slots * chunk ==>
          size <= |source| && size <= |remote| && remote == source[..size] + remote0[size..])
  }

  lemma BlockingArrives(r: Ring, bufferSize: nat, stageChunk: nat, stageSlots: nat, srcWindow: nat)
    requires bufferSize >= 2 && r.size >= 1
    requires r == RingFor(bufferSize, stageChunk, stageSlots, r.size, srcWindow, r.source, r.remote0) && Whole(r)
    ensures Arrived(r.Blocking(r.Count()), r.remote0, bufferSize, r.source, r.size, stageChunk, stageSlots, srcWindow)
  {
    hide Landed, Whole, Ring.Count, Ring.Blocking;
    var remote := r.Blocking(r.Count());
    forall i: nat ensures Landed(remote, r.source, r.size, r.chunk, r.slots, r.window, i) {
      LandsAt(r, i);
    }
    forall x | r.slots * r.chunk <= x < |remote| ensures remote[x] == r.remote0[x] {
      Beyond(r, r.Count(), x);
    }
    if r.size <= srcWindow && r.size <= r.slots * r.chunk { PlainTransfer(r); }
  }

  /** The staging buffer, the peer's buffer and the puts between them. */
  class Stage {
    var local: seq<byte>
    var remote: seq<byte>
    var puts: seq<Request>   // as posted; a put's id is its position plus one
    var done: set<nat>
    var faults: nat              // puts that were refused and waits that failed

    constructor (local: seq<byte>, remote: seq<byte>)
      ensures this.local == local && this.remote == remote && puts == [] && done == {} && faults == 0
    {
      this.local, this.remote, this.puts, this.done, this.faults := local, remote, [], {}, 0;
    }

    ghost predicate Sound(r: Ring)
      reads this
    {
      && r.Ok() && r.slots * r.chunk <= |local|
      && Staged(r, |puts|, local, done) && Delivered(r, |puts|, remote, done) && LastInSlot(r, |puts|, done)
      && (forall i | i in done :: i < |puts|)
      && (forall i: nat | i < |puts| :: puts[i] == Request(r.Off(i), |r.Data(i)|) && r.Off(i) + |r.Data(i)| <= |remote|)
    }

    /** The NIC executes any outstanding put; it delivers the bytes staged for it. */
    method Execute(i: nat, ghost r: Ring)
      requires Sound(r) && i < |puts| && i !in done
      modifies this`remote, this`done
      ensures Sound(r) && done == old(done) + {i}
      ensures remote == Put(old(remote), r.Off(i), r.Data(i))
      ensures remote == Put(old(remote), r.Off(i), Slice(local, r.Off(i), |r.Data(i)|))
    {
      hide Ring.Data, Ring.Off, Delivered, LastInSlot;
      ExecuteDelivers(r, |puts|, remote, done, i);
      FewerOutstanding(r, |puts|, local, done, done + {i});
      remote := Put(remote, puts[i].off, Slice(local, puts[i].off, puts[i].size));
      done := done + {i};
    }

    /** The NIC makes any amount of progress. */
    method Advance(ghost r: Ring)
      requires Sound(r)
      modifies this`remote, this`done
      ensures Sound(r) && old(done) <= done && |remote| == |old(remote)|
    {
      var steps: nat := *;
      while steps > 0
        invariant Sound(r) && old(done) <= done && |remote| == |old(remote)|
      {
        var i: nat := *;
        if i < |puts| && i !in done {
          Execute(i, r);
        }
        steps := steps - 1;
      }
    }

    /** wait_one: a wait on one put, which may time out. */
    method WaitOne(id: nat, ghost r: Ring) returns (ok: bool)
      requires Sound(r) && id <= |puts|
      modifies this`remote, this`done, this`faults
      ensures Sound(r) && old(done) <= done && |remote| == |old(remote)|
      ensures ok && id != 0 ==> id - 1 in done
      ensures faults == if ok then old(faults) else old(faults) + 1
    {
      if id == 0 {
        return true;
      }
      Advance(r);
      ok := id - 1 in done;
      if !ok { faults := faults + 1; }
    }

    /**
     On success nothing is outstanding and the peer's buffer is exactly what the
     same chunks sent by blocking puts, one after another, would have left.
     */
    method SendStaged(source: seq<byte>, size: nat, stageChunk: nat, stageSlots: nat, srcWindow: nat)
      returns (ok: bool)
      requires puts == [] && done == {}
      modifies this
      ensures |local| == |old(local)| && |remote| == |old(remote)|
      ensures size == 0 || |old(local)| < 2 ==> !ok && remote == old(remote) && local == old(local)
      ensures !ok && size > 0 && |old(local)| >= 2 ==>
                || faults > old(faults)
                || var r := RingFor(|old(local)|, stageChunk, stageSlots, size, srcWindow, source, old(remote));
                   exists i: nat | i < r.Count() :: Misfits(r, i)
      ensures ok ==>
                && size > 0 && |old(local)| >= 2
                && var r := RingFor(|old(local)|, stageChunk, stageSlots, size, srcWindow, source, old(remote));
                   && |puts| == r.Count() && (forall i: nat | i < |puts| :: i in done)
                   && (forall i: nat | i < |puts| :: |r.Data(i)| == r.Step(i))
                   && remote == r.Blocking(r.Count())
      ensures ok ==>
                Arrived(remote, old(remote), |old(local)|, source, size, stageChunk, stageSlots, srcWindow)
    {
      if size == 0 || |local| < 2 {
        return false;
      }
      var r := RingFor(|local|, stageChunk, stageSlots, size, srcWindow, source, remote);
      var inflight := new nat[r.slots](_ => 0);
      assert inflight[..] == seq(r.slots, _ => 0);
      StartRing(r, local);
      StartLine(r);
      hide Ring.Data, Ring.Off, Ring.Blocking, Ring.Count, RingFor, Arrived, Staged, Delivered, Recorded, LastInSlot;
      ok := FillSlots(r, inflight);
      if ok {
        ok := DrainSlots(r, inflight);
      }
      if ok {
        AllDelivered(r, |puts|, remote, done);
        assert Whole(r);
        BlockingArrives(r, |old(local)|, stageChunk, stageSlots, srcWindow);
      }
    }

    /** One iteration: wait for the slot, stage, put. */
    method SendChunk(r: Ring, inflight: array<nat>, sent: nat, step: nat) returns (ok: bool)
      requires Sound(r) && inflight.Length == r.slots && Recorded(r, |puts|, inflight[..], done)
      requires step == r.Step(|puts|) && sent % r.window == r.SrcOff(|puts|)
      modifies this, inflight
      ensures |local| == |old(local)| && |remote| == |old(remote)|
      ensures Sound(r)
      ensures ok ==> |puts| == old(|puts|) + 1 && Recorded(r, |puts|, inflight[..], done)
      ensures ok ==> |r.Data(|puts| - 1)| == step
      ensures !ok ==> |puts| == old(|puts|)
      ensures ok ==> faults == old(faults)
      ensures !ok <==> faults > old(faults) || Misfits(r, old(|puts|))
    {
      hide Ring.Data, Ring.Off, Ring.Slot, Ring.Step, Ring.SrcOff, Staged, Delivered, Recorded, LastInSlot, Put, Slice;
      var k := |puts|;
      var slot := r.Slot(k);
      var off := slot * r.chunk;
      RecordBound(r, k, inflight[..], done);
      ghost var was := done;
      if inflight[slot] != 0 {
        var waited := WaitOne(inflight[slot], r);
        if !waited {
          return false;
        }
      }
      Advance(r);
      SlotIsFree(r, k, inflight[..], was, done);
      // copyDeviceToHost: a range outside the source is refused
      if sent % r.window + step > |r.source| {
        return false;
      }
      var data := Slice(r.source, sent % r.window, step);
      DataIs(r, k, data);
      SlotRanges(r, k, k);
      SameLength(r, k, remote, done);
      StageKeeps(r, k, local, done);
      StillStaged(r, k, local, done);
      local := Put(local, off, data);
      ghost var staged := done;
      Advance(r);
      StagedGrows(r, k + 1, local, staged, done);
      SlotIsFree(r, k, inflight[..], was, done);
      // putNB: refused by a range check or by the verbs layer
      var accepted: bool := *;
      if off + step > |local| || off + step > |remote| {
        return false;
      }
      if !accepted {
        faults := faults + 1;
        return false;
      }
      PostDelivers(r, k, remote, done);
      PostRecords(r, k, inflight[..], done);
      PostLast(r, k, done);
      puts := puts + [Request(off, step)];
      inflight[slot] := k + 1;
      ok := true;
    }

    /** The sending loop (388-426). */
    method FillSlots(r: Ring, inflight: array<nat>) returns (ok: bool)
      requires Sound(r) && puts == [] && inflight.Length == r.slots && Recorded(r, 0, inflight[..], done)
      modifies this, inflight
      ensures |local| == |old(local)| && |remote| == |old(remote)|
      ensures Sound(r)
      ensures ok ==> |puts| == r.Count() && Recorded(r, |puts|, inflight[..], done)
      ensures ok ==> faults == old(faults)
      ensures !ok ==> faults > old(faults) || exists i: nat | i < r.Count() :: Misfits(r, i)
      ensures forall i: nat | i < |puts| :: |r.Data(i)| == r.Step(i)
    {
      StartLine(r);
      hide Ring.Data, Ring.Off, Ring.Step, Ring.Count, Ring.SrcOff, Staged, Delivered, Recorded, LastInSlot, AtChunk;
      var sent: nat := 0;
      while sent < r.size
        invariant Sound(r) && Recorded(r, |puts|, inflight[..], done) && AtChunk(r, |puts|, sent)
        invariant |local| == |old(local)| && |remote| == |old(remote)|
        invariant forall i: nat | i < |puts| :: |r.Data(i)| == r.Step(i)
        invariant faults == old(faults)
        decreases r.size - sent
      {
        ChunkLine(r, |puts|, sent);
        var step := Min(r.chunk, r.size - sent);
        var posted := SendChunk(r, inflight, sent, step);
        if !posted {
          return false;
        }
        sent := sent + step;
      }
      AtEnd(r, |puts|, sent);
      ok := true;
    }

    /** The final drain (428-435). */
    method DrainSlots(r: Ring, inflight: array<nat>) returns (ok: bool)
      requires Sound(r) && inflight.Length == r.slots && Recorded(r, |puts|, inflight[..], done)
      modifies this`remote, this`done, this`faults
      ensures Sound(r) && |remote| == |old(remote)|
      ensures ok ==> forall i: nat | i < |puts| :: i in done
      ensures ok <==> faults == old(faults)
      ensures faults >= old(faults)
    {
      hide Ring.Data, Ring.Off, Ring.Slot, Ring.Step, Staged, Delivered, Recorded, LastInSlot;
      var i := 0;
      while i < r.slots
        invariant i <= r.slots && |remote| == |old(remote)|
        invariant Sound(r) && Recorded(r, |puts|, inflight[..], done)
        invariant forall j | 0 <= j < i && inflight[j] != 0 :: inflight[j] - 1 in done
        invariant faults == old(faults)
      {
        RecordBound(r, |puts|, inflight[..], done);
        ghost var was := done;
        var waited := WaitOne(inflight[i], r);
        if !waited {
          return false;
        }
        MoreDone(r, |puts|, inflight[..], was, done);
        i := i + 1;
      }
      AllWaited(r, |puts|, inflight[..], done);
      ok := true;
    }
  }

  lemma SameLength(r: Ring, k: nat, remote: seq<byte>, done: set<nat>)
    requires r.Ok() && Delivered(r, k, remote, done)
    ensures |remote| == |r.remote0|
  {
  }

  lemma DataIs(r: Ring, k: nat, data: seq<byte>)
    requires r.Ok() && r.SrcOff(k) + r.Step(k) <= |r.source| && data == Slice(r.source, r.SrcOff(k), r.Step(k))
    ensures r.Data(k) == data && |data| == r.Step(k) && r.Off(k) == r.Slot(k) * r.chunk
  {
  }

  /** A chunk staged whose put is then refused leaves the earlier ones staged. */
  lemma StillStaged(r: Ring, k: nat, local: seq<byte>, done: set<nat>)
    requires r.Ok() && Staged(r, k + 1, Put(local, r.Off(k), r.Data(k)), done)
    ensures Staged(r, k, Put(local, r.Off(k), r.Data(k)), done)
  {
    hide Ring.Data, Ring.Off;
  }

  lemma FewerOutstanding(r: Ring, k: nat, local: seq<byte>, done: set<nat>, done': set<nat>)
    requires r.Ok() && Staged(r, k, local, done) && LastInSlot(r, k, done) && done <= done'
    ensures Staged(r, k, local, done') && LastInSlot(r, k, done')
  {
    hide Ring.Data, Ring.Off, Ring.Slot;
  }

  lemma MoreDone(r: Ring, k: nat, inflight: seq<nat>, done: set<nat>, done': set<nat>)
    requires r.Ok() && Recorded(r, k, inflight, done) && done <= done'
    ensures Recorded(r, k, inflight, done')
  {
    hide Ring.Slot;
  }

  lemma RecordBound(r: Ring, k: nat, inflight: seq<nat>, done: set<nat>)
    requires r.Ok() && Recorded(r, k, inflight, done)
    ensures |inflight| == r.slots && forall j | 0 <= j < r.slots :: inflight[j] <= k
  {
  }

  lemma PostLast(r: Ring, k: nat, done: set<nat>)
    requires r.Ok() && LastInSlot(r, k, done)
    requires forall i: nat | i < k && i !in done :: r.Slot(i) != r.Slot(k)
    ensures LastInSlot(r, k + 1, done)
  {
    hide Ring.Slot;
  }

  /** A wait on every slot leaves nothing outstanding. */
  lemma AllWaited(r: Ring, k: nat, inflight: seq<nat>, done: set<nat>)
    requires r.Ok() && Recorded(r, k, inflight, done)
    requires forall j | 0 <= j < r.slots && inflight[j] != 0 :: inflight[j] - 1 in done
    ensures forall i: nat | i < k :: i in done
  {
    hide Ring.Slot;
    assert forall i: nat | i < k :: inflight[r.Slot(i)] != 0;
  }
}
