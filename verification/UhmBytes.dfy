/**
 The bytes of the UHM transfer. `Refill` stages the next chunk without
 waiting for the write that last read that half, so the bytes are right only
 when the sender drains every flag before it refills, or when there are too few
 chunks for a half to be reused while its write is in flight.
 */
module UhmBytes {
  import opened Arith
  import opened Bytes
  import opened UhmPlan
  import opened UhmProtocol
  import opened UhmFlow

  /** Both sender settings at 1: every flag is waited for in its own iteration. */
  predicate DrainsEach(p: Params)
  {
    p.sendInterval <= 1 && p.sendPending <= 1
  }

  predicate RefillSafe(p: Params) { p.count <= 2 || DrainsEach(p) }

  /** Chunks staged into the sender's buffer. */
  function Filled(p: Params, pc: SendPc): nat
  {
    match pc
    case SBlockWait => 1
    case SSpin(k) => k + 1
    case SMark(k) => k + 1
    case SFlag(k) => k + 1
    case SRefill(k) => k + 1
    case SDrain(k) => k + 2
    case SDone => p.count
    case _ => 0
  }

  predicate Holds(p: Params, buf: seq<byte>, k: nat)
  {
    Slice(buf, p.HalfOff(k), p.Size(k)) == p.InputChunk(k)
  }

  /** Bytes handed to the caller so far. */
  ghost predicate Counted(p: Params, t: Receiver)
  {
    |t.out| == Covered(p, Copied(t)) <= p.capacity
  }

  /** With both settings at 1 no flag of an earlier iteration is outstanding. */
  ghost predicate Drained(p: Params, t: Sender)
  {
    DrainsEach(p) ==>
      && (!t.pc.SRefill? && !t.pc.SDrain? && !t.pc.SDone? ==> t.pending == [])
      && (t.pc.SRefill? || t.pc.SDrain? ==> t.pending == [Flag(t.pc.k)])
      && (InLoop(t.pc) ==> forall j: nat | j < t.pc.k :: Flag(j) in t.done)
  }

  /** A staged chunk stays in its half until its write has read it. */
  ghost predicate Staged(p: Params, filled: nat, buf: seq<byte>, sent: set<Op>)
  {
    forall j: nat | j < filled && j < p.count && Data(j) !in sent :: Holds(p, buf, j)
  }

  /** A delivered chunk stays in its half until it is copied out. */
  ghost predicate Landed(p: Params, copied: nat, buf: seq<byte>, sent: set<Op>)
  {
    forall j: nat | copied <= j && Data(j) in sent :: Holds(p, buf, j)
  }

  ghost predicate StagedOk(p: Params, t: Sender) { Staged(p, Filled(p, t.pc), t.buf, t.done) }

  ghost predicate LandedOk(p: Params, s: State) { Landed(p, Copied(s.rcv), s.rcv.buf, s.snd.done) }

  ghost predicate ByteInv(p: Params, s: State)
  {
    && Counted(p, s.rcv) && Drained(p, s.snd) && StagedOk(p, s.snd) && LandedOk(p, s)
    && s.rcv.out <= p.input
  }

  // ---- range facts ---------------------------------------------------------

  lemma ChunkRange(p: Params, k: nat)
    requires p.Wf() && p.Accepted() && k < p.count
    ensures |p.InputChunk(k)| == p.Size(k) <= p.half
    ensures p.HalfOff(k) + p.Size(k) <= p.bufferSize
  {
    ChunkFacts(p, k);
    SplitAgreement(p);
  }

  lemma PutOther(p: Params, buf: seq<byte>, k: nat, data: seq<byte>, j: nat)
    requires p.Wf() && p.Accepted() && j < p.count && |data| <= p.half && j % 2 != k % 2
    ensures Holds(p, Put(buf, p.HalfOff(k), data), j) == Holds(p, buf, j)
  {
    ChunkRange(p, j);
    PutApart(buf, p.HalfOff(k), data, p.HalfOff(j), p.Size(j));
  }

  lemma PutOwn(p: Params, buf: seq<byte>, k: nat)
    requires p.Wf() && p.Accepted() && k < p.count && |buf| == p.bufferSize
    ensures Holds(p, Put(buf, p.HalfOff(k), p.InputChunk(k)), k)
  {
    ChunkRange(p, k);
    PutSame(buf, p.HalfOff(k), p.InputChunk(k));
  }

  lemma PrefillBuffer(p: Params, buf: seq<byte>)
    requires p.Wf() && p.Accepted() && |buf| == p.bufferSize
    ensures Holds(p, Put(buf, 0, p.InputChunk(0)), 0)
  {
    SplitAgreement(p);
    PutOwn(p, buf, 0);
  }

  /** Staging chunk `k + 1` leaves chunk `k` alone. */
  lemma RefillBuffer(p: Params, buf: seq<byte>, k: nat)
    requires p.Wf() && p.Accepted() && k + 1 < p.count && |buf| == p.bufferSize
    ensures var buf' := Put(buf, p.HalfOff(k + 1), p.InputChunk(k + 1));
            Holds(p, buf', k + 1) && Holds(p, buf', k) == Holds(p, buf, k)
  {
    PutOwn(p, buf, k + 1);
    ChunkRange(p, k + 1);
    PutOther(p, buf, k + 1, p.InputChunk(k + 1), k);
  }

  /** Copying chunk `k` out of a half that holds it extends a prefix of the payload. */
  lemma CopyExtends(p: Params, out: seq<byte>, k: nat, buf: seq<byte>)
    requires p.Wf() && p.Accepted() && k < p.count && |buf| == p.bufferSize
    requires |out| == Covered(p, k)
    ensures var size := RecvSize(|p.input|, p.count, p.chunk, |out|, k);
            var out' := out + Slice(buf, p.HalfOff(k), size);
            && size == p.Size(k)
            && |out'| == |out| + size == Covered(p, k + 1)
            && (Holds(p, buf, k) && out <= p.input ==> out' <= p.input)
  {
    hide Params.Wf, CeilDiv, Slice;
    ChunkRange(p, k);
    CoveredStep(p, k);
    ChunkFacts(p, k);
    if out <= p.input { PrefixGrows(p.input, out, p.Size(k)); }
  }

  lemma PrefixGrows(whole: seq<byte>, part: seq<byte>, n: nat)
    requires part <= whole && |part| + n <= |whole|
    ensures part + Slice(whole, |part|, n) <= whole
  {
  }

  // ---- the sender's thread -------------------------------------------------

  lemma DrainedStep(p: Params, t: Sender, a: SendAct)
    requires SendShape(p, t) && Drained(p, t) && SendCan(p, t, a)
    ensures Drained(p, SendStep(p, t, a))
  {
    hide SendWrOk, OpPosted;
    if a.DrainFlags? && DrainsEach(p) {
      assert t.pending[0] in t.cq;
    }
  }

  /** What has been read out of the sender's buffer when it refills. */
  lemma RefillAllowed(p: Params, s: State, j: nat)
    requires Inv(p, s) && Drained(p, s.snd) && RefillSafe(p) && s.snd.pc.SRefill?
    requires j < s.snd.pc.k && s.snd.pc.k + 1 < p.count
    ensures Data(j) in s.snd.done
  {
    hide SendWrOk, Agreed, SendCells, RecvCells;
    if j + 2 <= s.snd.pc.k {
      OldDataDone(p, s, j);
    } else {
      assert Flag(j) in s.snd.done;
    }
  }

  /** A chunk two behind the last posted one has been delivered. */
  lemma OldDataDone(p: Params, s: State, j: nat)
    requires Inv(p, s) && j + 2 < DataPosted(p, s.snd.pc)
    ensures Data(j) in s.snd.done
  {
    hide SendWrOk, Agreed, SendCells, RecvCells;
    assert Ack(j) in s.rcv.done;
    assert Flag(j) in s.snd.done;
  }

  lemma RefillStaged(p: Params, t: Sender)
    requires p.Wf() && SendShape(p, t) && StagedOk(p, t) && t.pc.SRefill?
    requires t.pc.k + 1 < p.count ==> forall j: nat | j < t.pc.k :: Data(j) in t.done
    ensures StagedOk(p, SendStep(p, t, Refill))
  {
    hide Holds, Params.Wf, SendWrOk;
    var k := t.pc.k;
    if k + 1 < p.count {
      RefillBuffer(p, t.buf, k);
      assert Data(k) !in t.done ==> Holds(p, t.buf, k);
    }
  }

  lemma StagedStep(p: Params, s: State, a: SendAct)
    requires p.Wf() && Inv(p, s) && Drained(p, s.snd) && StagedOk(p, s.snd) && RefillSafe(p) && SendCan(p, s.snd, a)
    ensures StagedOk(p, SendStep(p, s.snd, a))
  {
    hide Holds, Params.Wf, SendWrOk, OpPosted, Agreed, Flow, SendCells, RecvCells, RecvShape;
    if a.Refill? {
      if s.snd.pc.k + 1 < p.count {
        forall j: nat | j < s.snd.pc.k ensures Data(j) in s.snd.done {
          RefillAllowed(p, s, j);
        }
      }
      RefillStaged(p, s.snd);
    } else if a.Prefill? {
      PrefillBuffer(p, s.snd.buf);
    }
  }

  lemma SendBytes(p: Params, s: State, a: SendAct)
    requires p.Wf() && Inv(p, s) && ByteInv(p, s) && RefillSafe(p) && SendCan(p, s.snd, a)
    ensures ByteInv(p, State(SendStep(p, s.snd, a), s.rcv))
  {
    hide Params.Wf, SendShape, Counted, Drained, Staged, Landed, Flow, SendCells, RecvCells, RecvShape;
    DrainedStep(p, s.snd, a);
    StagedStep(p, s, a);
    assert SendStep(p, s.snd, a).done == s.snd.done;
  }

  // ---- the receiver's thread -----------------------------------------------

  lemma CopyFacts(p: Params, s: State)
    requires Inv(p, s) && RecvCan(p, s.rcv, CopyOut)
    ensures p.Accepted() && Data(s.rcv.pc.k) in s.snd.done
  {
    hide SendWrOk, SendCells;
    assert Flag(s.rcv.pc.k) in s.snd.done;
    BlockIsAccepted(p, s);
  }

  lemma RecvBytes(p: Params, s: State, a: RecvAct)
    requires p.Wf() && Inv(p, s) && ByteInv(p, s) && RecvCan(p, s.rcv, a)
    ensures ByteInv(p, State(s.snd, RecvStep(p, s.rcv, a)))
  {
    hide Params.Wf, SendShape, SendCells, RecvCells, Drained, Staged, Holds, Covered, Flow;
    var t' := RecvStep(p, s.rcv, a);
    assert t'.buf == s.rcv.buf && Copied(s.rcv) <= Copied(t');
    if a.CopyOut? {
      CopyFacts(p, s);
      assert Holds(p, s.rcv.buf, s.rcv.pc.k);
      CopyExtends(p, s.rcv.out, s.rcv.pc.k, s.rcv.buf);
    } else {
      assert t'.out == s.rcv.out && Copied(t') == Copied(s.rcv);
    }
  }

  // ---- the NICs ------------------------------------------------------------

  /** While the data of `k` is in flight, only the other half can hold a chunk. */
  lemma OtherHalf(p: Params, s: State, i: nat, j: nat)
    requires Inv(p, s) && NicReady(s.snd.posted, s.snd.done, i) && s.snd.posted[i].op.Data?
    requires Copied(s.rcv) <= j && Data(j) in s.snd.done
    ensures j < p.count && j % 2 != s.snd.posted[i].op.k % 2
  {
    hide SendWrOk, Agreed, SendCells, RecvCells, RecvShape, Flow;
    var k := s.snd.posted[i].op.k;
    ExecutesInWindow(p, s, i);
    assert OpPosted(p, s.snd.pc, Data(j));
    if k + 2 < DataPosted(p, s.snd.pc) {
      OldDataDone(p, s, k);
    }
    assert j == k + 1 || j + 1 == k;
  }

  lemma DataLands(p: Params, s: State, i: nat)
    requires p.Wf() && Inv(p, s) && StagedOk(p, s.snd) && LandedOk(p, s)
    requires Enabled(p, s, SendNic(i)) && s.snd.posted[i].op.Data?
    ensures LandedOk(p, Apply(p, s, SendNic(i)))
  {
    hide Params.Wf, Holds, SendWrOk, Agreed, SendCells, RecvCells, Flow;
    var s' := Apply(p, s, SendNic(i));
    var k := s.snd.posted[i].op.k;
    ExecutesInWindow(p, s, i);
    DeliveredData(p, s, k);
    forall j: nat | Copied(s'.rcv) <= j && Data(j) in s'.snd.done ensures Holds(p, s'.rcv.buf, j) {
      if j != k {
        assert Data(j) in s.snd.done;
        OtherHalf(p, s, i, j);
        ChunkRange(p, k);
        PutOther(p, s.rcv.buf, k, p.InputChunk(k), j);
      }
    }
  }

  lemma DeliveredData(p: Params, s: State, k: nat)
    requires p.Wf() && p.Accepted() && k < p.count && |s.rcv.buf| == p.bufferSize && Holds(p, s.snd.buf, k)
    ensures Deliver(p, s.snd, s.rcv, Data(k)).buf == Put(s.rcv.buf, p.HalfOff(k), p.InputChunk(k))
    ensures Holds(p, Deliver(p, s.snd, s.rcv, Data(k)).buf, k)
  {
    PutOwn(p, s.rcv.buf, k);
  }

  lemma SendNicBytes(p: Params, s: State, i: nat)
    requires p.Wf() && Inv(p, s) && ByteInv(p, s) && Enabled(p, s, SendNic(i))
    ensures ByteInv(p, Apply(p, s, SendNic(i)))
  {
    hide Params.Wf, SendShape, SendCells, RecvCells, Holds, Covered, Flow, RecvShape;
    if s.snd.posted[i].op.Data? {
      DataLands(p, s, i);
    }
  }

  lemma RecvNicBytes(p: Params, s: State, i: nat)
    requires p.Wf() && Inv(p, s) && ByteInv(p, s) && Enabled(p, s, RecvNic(i))
    ensures ByteInv(p, Apply(p, s, RecvNic(i)))
  {
    hide Params.Wf, SendShape, SendCells, RecvCells, Holds, Covered, Flow, RecvShape;
  }

  // ---- runs ----------------------------------------------------------------

  lemma StepBytes(p: Params, s: State, a: Action)
    requires p.Wf() && Inv(p, s) && ByteInv(p, s) && RefillSafe(p) && Enabled(p, s, a)
    ensures ByteInv(p, Apply(p, s, a))
  {
    hide Inv, ByteInv, SendCan, RecvCan, SendStep, RecvStep;
    match a
    case SendDo(b) => SendBytes(p, s, b);
    case RecvDo(b) => RecvBytes(p, s, b);
    case SendNic(i) => SendNicBytes(p, s, i);
    case RecvNic(i) => RecvNicBytes(p, s, i);
  }

  lemma {:induction false} RunBytes(p: Params, run: seq<State>, acts: seq<Action>, n: nat)
    requires IsRun(p, run, acts) && RefillSafe(p) && n < |run|
    ensures p.Wf() && Inv(p, run[n]) && ByteInv(p, run[n])
  {
    hide Inv, Enabled, Apply;
    RunInv(p, run, acts, n);
    if n == 0 {
      assert Covered(p, 0) == 0;
    } else {
      hide ByteInv;
      RunBytes(p, run, acts, n - 1);
      StepBytes(p, run[n - 1], acts[n - 1]);
    }
  }

  /**
   End to end: in every interleaving of the two threads and the two NICs, for
   every payload, chunk size, buffer size, queue-pair count and receiver setting,
   the bytes copied out are a prefix of the payload, and when `uhm_recv` returns
   SUCCESS they are the payload and `*recv_flags` is its length.
   */
  lemma EndToEnd(p: Params, run: seq<State>, acts: seq<Action>, n: nat)
    requires IsRun(p, run, acts) && RefillSafe(p) && n < |run|
    ensures run[n].rcv.out <= p.input
    ensures run[n].rcv.pc.RDone? ==> run[n].rcv.out == p.input && run[n].rcv.total == |p.input|
  {
    hide IsRun, SendShape, SendCells, RecvCells, Drained, Staged, Landed, Flow, RecvShape;
    RunBytes(p, run, acts, n);
    if run[n].rcv.pc.RDone? {
      CeilDivBounds(|p.input|, p.chunk);
      assert |run[n].rcv.out| == |p.input|;
    }
  }
}
