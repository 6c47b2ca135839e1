/**
 Flow control of the UHM transfer, for every payload, chunk size, signal
 setting and queue-pair count: what every step of the four actors keeps.
 */
module UhmFlow {
  import opened Arith
  import opened Bytes
  import opened UhmPlan
  import opened UhmProtocol

  /** Acks posted by the receiver. */
  function AckPosted(r: Receiver): nat
  {
    match r.pc
    case RAck(k) => k
    case RGrant(k) => k
    case _ => Copied(r)
  }

  /** The i-th request of the sender: the block, then data and flag of each chunk. */
  predicate SendWrOk(p: Params, i: nat, w: Wr)
  {
    if i == 0 then w == Wr(Block, 0, true)
    else if i % 2 == 1 then w == Wr(Data(i / 2), QpOf(i / 2, p.sendQps), false)
    else w.op == Flag(i / 2 - 1) && w.qp == QpOf(i / 2 - 1, p.sendQps)
  }

  /** Whether the sender, at `pc`, has posted this request. */
  predicate OpPosted(p: Params, pc: SendPc, w: Op)
  {
    match w
    case Block => Started(pc)
    case Data(k) => k < DataPosted(p, pc)
    case Flag(k) => k < FlagPosted(p, pc)
    case Ack(_) => false
  }

  predicate InLoop(pc: SendPc) { pc.SSpin? || pc.SMark? || pc.SFlag? || pc.SRefill? || pc.SDrain? }

  predicate Looping(pc: RecvPc)
  {
    pc.RSpin? || pc.RGrant? || pc.RAck? || pc.RDrain? || pc.RDone?
  }

  /** Program counter, request log and completion queue of the sender fit together. */
  ghost predicate SendShape(p: Params, t: Sender)
  {
    && |t.buf| == p.bufferSize
    && (Started(t.pc) ==> p.Accepted())
    && (t.pc.SSpin? ==> t.pc.k <= p.count)
    && (InLoop(t.pc) && !t.pc.SSpin? ==> t.pc.k < p.count)
    && |t.posted| == (if Started(t.pc) then 1 + DataPosted(p, t.pc) + FlagPosted(p, t.pc) else 0)
    && (forall i | 0 <= i < |t.posted| :: SendWrOk(p, i, t.posted[i]))
    && (forall w | w in t.done :: OpPosted(p, t.pc, w))
    && (forall w | w in t.cq :: w in t.done)
    && (forall w | w in t.pending :: OpPosted(p, t.pc, w))
    && (InLoop(t.pc) || t.pc.SDone? ==> Block in t.done)
    && (forall k: nat | Flag(k) in t.done :: Data(k) in t.done)
  }

  /** The same for the receiver. */
  ghost predicate RecvShape(p: Params, t: Receiver)
  {
    && |t.buf| == p.bufferSize
    && (t.pc.RSpin? ==> t.pc.k <= t.count)
    && (t.pc.RGrant? || t.pc.RAck? || t.pc.RDrain? ==> t.pc.k < t.count)
    && |t.posted| == AckPosted(t)
    && (forall i | 0 <= i < |t.posted| :: t.posted[i].op == Ack(i) && t.posted[i].qp == QpOf(i, p.recvQps))
    && (forall w | w in t.done :: w.Ack? && w.k < |t.posted|)
    && (forall w | w in t.cq :: w in t.done)
    && (forall w | w in t.pending :: w.Ack? && w.k < |t.posted|)
  }

  /** The state block, and what the receiver computed from it. */
  ghost predicate Agreed(p: Params, s: State)
  {
    var snd, rcv := s.snd, s.rcv;
    && (Started(snd.pc) ==> snd.length == |p.input| && snd.chunkBytes == p.chunk)
    && (Block in snd.done ==> !rcv.pc.RIdle? && rcv.length == |p.input| && rcv.chunkBytes == p.chunk)
    && (rcv.pc.RWaitBlock? && Block !in snd.done ==> rcv.cells == Cells(CanRead, CanRead))
    && (rcv.pc.RRearm0? || rcv.pc.RRearm1? || Looping(rcv.pc) ==>
          && Block in snd.done
          && rcv.total == |p.input| && rcv.chunk == p.chunk && rcv.count == p.count)
    && Copied(rcv) <= p.count
  }

  /** Who is ahead of whom: data posted, chunks copied, writes and acks executed. */
  ghost predicate Flow(posted: nat, copied: nat, sent: set<Op>, acked: set<Op>)
  {
    && (forall j: nat | j + 2 < posted :: Ack(j) in acked)
    && (forall j: nat | j < copied :: Flag(j) in sent)
    && (copied > 0 ==> Block in sent)
  }

  /** What a sender cell means. */
  ghost predicate SendCells(started: bool, marked: nat, cells: Cells, acked: set<Op>)
  {
    && (started ==> forall j: nat | j < 2 && marked <= j :: cells.Get(j) == CanWrite)
    && (forall j: nat | j < marked <= j + 2 :: cells.Get(j) == if Ack(j) in acked then CanWrite else CanRead)
  }

  /** What a receiver cell means. */
  ghost predicate RecvCells(sent: set<Op>, granted: nat, cells: Cells)
  {
    Block in sent ==>
      forall j: nat | granted <= j <= granted + 1 && cells.Get(j) == CanRead :: Flag(j) in sent
  }

  ghost predicate Flowing(p: Params, s: State)
  {
    Flow(DataPosted(p, s.snd.pc), Copied(s.rcv), s.snd.done, s.rcv.done)
  }

  ghost predicate SendCellsOk(p: Params, s: State)
  {
    SendCells(Started(s.snd.pc), Marked(p, s.snd.pc), s.snd.cells, s.rcv.done)
  }

  ghost predicate RecvCellsOk(s: State)
  {
    RecvCells(s.snd.done, Granted(s.rcv), s.rcv.cells)
  }

  ghost predicate Inv(p: Params, s: State)
  {
    && SendShape(p, s.snd) && RecvShape(p, s.rcv) && Agreed(p, s) && Flowing(p, s)
    && SendCellsOk(p, s) && RecvCellsOk(s)
  }

  lemma InitInv(p: Params, s: State)
    requires Init(p, s)
    ensures Inv(p, s)
  {
  }

  // ---- the sender's thread -------------------------------------------------

  lemma LogStep(p: Params, t: Sender, a: SendAct)
    requires SendShape(p, t) && SendCan(p, t, a)
    ensures var t' := SendStep(p, t, a); forall i | 0 <= i < |t'.posted| :: SendWrOk(p, i, t'.posted[i])
  {
    var t' := SendStep(p, t, a);
    var n := |t.posted|;
    assert |t'.posted| == n + 1 ==> SendWrOk(p, n, t'.posted[n]);
    assert forall i | 0 <= i < n :: t'.posted[i] == t.posted[i];
  }

  lemma SendShapeStep(p: Params, t: Sender, a: SendAct)
    requires SendShape(p, t) && SendCan(p, t, a)
    ensures SendShape(p, SendStep(p, t, a))
  {
    hide SendWrOk;
    var t' := SendStep(p, t, a);
    LogStep(p, t, a);
    assert forall w | OpPosted(p, t.pc, w) :: OpPosted(p, t'.pc, w);
  }

  lemma SendStepFlow(p: Params, s: State, a: SendAct)
    requires Inv(p, s) && SendCan(p, s.snd, a)
    ensures Flowing(p, State(SendStep(p, s.snd, a), s.rcv))
  {
    hide RecvShape, Agreed, RecvCells, SendWrOk;
    if a.PostData? && s.snd.pc.k >= 2 {
      assert Ack(s.snd.pc.k - 2) in s.rcv.done;
    }
    assert SendStep(p, s.snd, a).done == s.snd.done;
  }

  lemma SendStepCells(p: Params, s: State, a: SendAct)
    requires Inv(p, s) && SendCan(p, s.snd, a)
    ensures SendCellsOk(p, State(SendStep(p, s.snd, a), s.rcv))
  {
    hide RecvShape, Agreed, RecvCells, Flow, SendWrOk;
    if a.MarkHalf? {
      var k := s.snd.pc.k;
      assert !OpPosted(p, s.snd.pc, Flag(k));
      AckNeedsFlag(p, s, k);
    }
  }

  lemma SendStepKeeps(p: Params, s: State, a: SendAct)
    requires Inv(p, s) && SendCan(p, s.snd, a)
    ensures Inv(p, State(SendStep(p, s.snd, a), s.rcv))
  {
    hide RecvShape, SendShape, Flow, SendCells;
    SendShapeStep(p, s.snd, a);
    SendStepFlow(p, s, a);
    SendStepCells(p, s, a);
    assert SendStep(p, s.snd, a).done == s.snd.done;
  }

  /** An ack comes after the flag it answers. */
  lemma AckNeedsFlag(p: Params, s: State, k: nat)
    requires RecvShape(p, s.rcv) && Flowing(p, s) && Flag(k) !in s.snd.done
    ensures Ack(k) !in s.rcv.done && Copied(s.rcv) <= k
  {
  }

  // ---- the receiver's thread -----------------------------------------------

  lemma RecvShapeStep(p: Params, t: Receiver, a: RecvAct)
    requires RecvShape(p, t) && RecvCan(p, t, a)
    ensures RecvShape(p, RecvStep(p, t, a))
  {
  }

  lemma RecvStepAgreed(p: Params, s: State, a: RecvAct)
    requires p.Wf() && Inv(p, s) && RecvCan(p, s.rcv, a)
    ensures Agreed(p, State(s.snd, RecvStep(p, s.rcv, a)))
  {
    hide SendShape, SendCells, RecvCells, Flow, CeilDiv, Params.Wf;
    if a.ReadBlock? {
      assert Block in s.snd.done;
      BlockIsAccepted(p, s);
      SplitAgreement(p);
    }
  }

  lemma RecvStepFlow(p: Params, s: State, a: RecvAct)
    requires Inv(p, s) && RecvCan(p, s.rcv, a)
    ensures Flowing(p, State(s.snd, RecvStep(p, s.rcv, a)))
  {
    hide SendShape, SendCells;
  }

  lemma RecvStepCells(p: Params, s: State, a: RecvAct)
    requires Inv(p, s) && RecvCan(p, s.rcv, a)
    ensures RecvCellsOk(State(s.snd, RecvStep(p, s.rcv, a)))
  {
    hide SendShape, SendCells, Flow;
  }

  lemma RecvStepKeeps(p: Params, s: State, a: RecvAct)
    requires p.Wf() && Inv(p, s) && RecvCan(p, s.rcv, a)
    ensures Inv(p, State(s.snd, RecvStep(p, s.rcv, a)))
  {
    hide SendShape, RecvShape, Agreed, Flow, RecvCells;
    RecvShapeStep(p, s.rcv, a);
    RecvStepAgreed(p, s, a);
    RecvStepFlow(p, s, a);
    RecvStepCells(p, s, a);
    assert RecvStep(p, s.rcv, a).done == s.rcv.done;
  }

  lemma BlockIsAccepted(p: Params, s: State)
    requires SendShape(p, s.snd) && Block in s.snd.done
    ensures p.Accepted()
  {
    assert OpPosted(p, s.snd.pc, Block);
  }

  // ---- the sender's NIC ----------------------------------------------------

  lemma SentShape(p: Params, t: Sender, i: nat)
    requires SendShape(p, t) && NicReady(t.posted, t.done, i)
    ensures SendShape(p, SentBy(t, t.posted[i]))
    ensures OpPosted(p, t.pc, t.posted[i].op)
  {
    var w := t.posted[i];
    assert SendWrOk(p, i, w);
    if w.op.Flag? {
      assert i >= 2 && SendWrOk(p, i - 1, t.posted[i - 1]);
      assert t.posted[i - 1].op == Data(w.op.k) && t.posted[i - 1].qp == w.qp;
    }
    hide SendWrOk;
  }

  /** Data and flags are posted only once the block has executed. */
  lemma BlockFirst(p: Params, t: Sender, w: Op)
    requires SendShape(p, t) && OpPosted(p, t.pc, w)
    ensures w.Block? || Block in t.done
  {
  }

  /** A flag in flight names one of the next two chunks, and its cell is intact. */
  lemma FlagLands(p: Params, s: State, k: nat)
    requires Inv(p, s) && OpPosted(p, s.snd.pc, Flag(k)) && Flag(k) !in s.snd.done
    ensures Granted(s.rcv) <= Copied(s.rcv) <= k <= Granted(s.rcv) + 1
    ensures s.snd.cells.Get(k) == CanRead
  {
    hide SendWrOk;
    AckNeedsFlag(p, s, k);
    if k >= 2 {
      assert Ack(k - 2) in s.rcv.done;
    }
  }

  lemma SendNicAgreed(p: Params, s: State, i: nat)
    requires Inv(p, s) && Enabled(p, s, SendNic(i))
    ensures Agreed(p, Apply(p, s, SendNic(i)))
  {
    hide SendShape, RecvShape, SendCells, RecvCells, Flow;
    SentShape(p, s.snd, i);
    BlockFirst(p, s.snd, s.snd.posted[i].op);
  }

  lemma SendNicFlow(p: Params, s: State, i: nat)
    requires Inv(p, s) && Enabled(p, s, SendNic(i))
    ensures Flowing(p, Apply(p, s, SendNic(i))) && SendCellsOk(p, Apply(p, s, SendNic(i)))
    ensures RecvShape(p, Apply(p, s, SendNic(i)).rcv)
  {
    hide SendShape, RecvCells, Agreed;
    var s' := Apply(p, s, SendNic(i));
    assert s'.rcv.posted == s.rcv.posted && s'.rcv.done == s.rcv.done && s'.rcv.pc == s.rcv.pc;
    assert s.snd.done <= s'.snd.done && s'.snd.cells == s.snd.cells && s'.snd.pc == s.snd.pc;
  }

  lemma SendNicCells(p: Params, s: State, i: nat)
    requires Inv(p, s) && Enabled(p, s, SendNic(i))
    ensures RecvCellsOk(Apply(p, s, SendNic(i)))
  {
    hide SendShape, RecvShape, SendCells, Agreed, Flow;
    SentShape(p, s.snd, i);
    var w := s.snd.posted[i].op;
    match w
    case Block => BlockCells(p, s);
    case Flag(k) => FlagLands(p, s, k); FlagCells(s.snd.done, Granted(s.rcv), s.rcv.cells, k);
    case _ =>
  }

  lemma FlagCells(sent: set<Op>, granted: nat, cells: Cells, k: nat)
    requires RecvCells(sent, granted, cells) && granted <= k <= granted + 1
    ensures RecvCells(sent + {Flag(k)}, granted, cells.Set(k, CanRead))
  {
  }

  lemma SendNicKeeps(p: Params, s: State, i: nat)
    requires Inv(p, s) && Enabled(p, s, SendNic(i))
    ensures Inv(p, Apply(p, s, SendNic(i)))
  {
    hide SendShape, RecvShape, SendCells, RecvCells, Agreed, Flow;
    SentShape(p, s.snd, i);
    SendNicAgreed(p, s, i);
    SendNicFlow(p, s, i);
    SendNicCells(p, s, i);
  }

  lemma BlockCells(p: Params, s: State)
    requires SendShape(p, s.snd) && SendCellsOk(p, s) && Started(s.snd.pc) && Block !in s.snd.done
    ensures s.snd.cells == Cells(CanWrite, CanWrite)
  {
    assert s.snd.cells.Get(0) == CanWrite && s.snd.cells.Get(1) == CanWrite;
  }

  // ---- the receiver's NIC --------------------------------------------------

  /** An ack in flight belongs to one of the last two marked chunks, and its cell is intact. */
  lemma AckLands(p: Params, s: State, k: nat)
    requires Inv(p, s) && k < |s.rcv.posted| && Ack(k) !in s.rcv.done
    ensures k < Marked(p, s.snd.pc) && DataPosted(p, s.snd.pc) <= k + 2
    ensures s.rcv.cells.Get(k) == CanWrite
  {
    hide SendWrOk;
    assert Flag(k) in s.snd.done;
    assert Flag(k + 2) !in s.snd.done;
  }

  lemma AckedShape(p: Params, t: Receiver, i: nat)
    requires RecvShape(p, t) && NicReady(t.posted, t.done, i)
    ensures RecvShape(p, AckedBy(t, t.posted[i])) && t.posted[i].op == Ack(i)
  {
  }

  lemma AckCells(marked: nat, cells: Cells, acked: set<Op>, k: nat)
    requires SendCells(true, marked, cells, acked) && k < marked <= k + 2
    ensures SendCells(true, marked, cells.Set(k, CanWrite), acked + {Ack(k)})
  {
  }

  lemma RecvNicKeeps(p: Params, s: State, i: nat)
    requires Inv(p, s) && Enabled(p, s, RecvNic(i))
    ensures Inv(p, Apply(p, s, RecvNic(i)))
  {
    hide SendWrOk, RecvShape, SendCells, RecvCells;
    AckedShape(p, s.rcv, i);
    AckLands(p, s, i);
    AckCells(Marked(p, s.snd.pc), s.snd.cells, s.rcv.done, i);
  }

  // ---- runs ----------------------------------------------------------------

  /** Every step of every actor keeps the invariant. */
  lemma StepInv(p: Params, s: State, a: Action)
    requires p.Wf() && Inv(p, s) && Enabled(p, s, a)
    ensures Inv(p, Apply(p, s, a))
  {
    hide Inv, SendCan, RecvCan, SendStep, RecvStep;
    match a
    case SendDo(b) => SendStepKeeps(p, s, b);
    case RecvDo(b) => RecvStepKeeps(p, s, b);
    case SendNic(i) => SendNicKeeps(p, s, i);
    case RecvNic(i) => RecvNicKeeps(p, s, i);
  }

  lemma {:induction false} RunInv(p: Params, run: seq<State>, acts: seq<Action>, n: nat)
    requires IsRun(p, run, acts) && n < |run|
    ensures p.Wf() && Inv(p, run[n])
  {
    hide Inv, Enabled, Apply;
    if n == 0 {
      InitInv(p, run[0]);
    } else {
      RunInv(p, run, acts, n - 1);
      StepInv(p, run[n - 1], acts[n - 1]);
    }
  }

  /** Data or flag of chunk `k` in flight: its half is free at the receiver. */
  lemma ExecutesInWindow(p: Params, s: State, i: nat)
    requires Inv(p, s) && NicReady(s.snd.posted, s.snd.done, i) && !s.snd.posted[i].op.Block?
    ensures var w := s.snd.posted[i].op;
            && (w.Data? || w.Flag?)
            && w.k < DataPosted(p, s.snd.pc) <= p.count
            && Copied(s.rcv) <= w.k
            && (w.k >= 2 ==> w.k - 2 < Copied(s.rcv) && Ack(w.k - 2) in s.rcv.done)
  {
    hide SendWrOk, SendCells, RecvCells, Agreed;
    SentShape(p, s.snd, i);
    var w := s.snd.posted[i].op;
    assert Flag(w.k) !in s.snd.done;
    AckNeedsFlag(p, s, w.k);
    if w.k >= 2 {
      assert Ack(w.k - 2) in s.rcv.done;
    }
  }

  /**
   Flow control, in every state of every run: when the data or the flag of chunk
   `k` executes, chunk `k - 2`, the last one to use that half, has been copied
   out and its ack has landed; and nothing executes into a half of a chunk that
   is already out.
   */
  lemma FlowControl(p: Params, run: seq<State>, acts: seq<Action>, n: nat)
    requires IsRun(p, run, acts) && n < |acts| && acts[n].SendNic?
    requires !run[n].snd.posted[acts[n].i].op.Block?
    ensures var w := run[n].snd.posted[acts[n].i].op;
            && (w.Data? || w.Flag?)
            && Copied(run[n].rcv) <= w.k
            && (w.k >= 2 ==> w.k - 2 < Copied(run[n].rcv) && Ack(w.k - 2) in run[n].rcv.done)
  {
    hide Inv;
    RunInv(p, run, acts, n);
    ExecutesInWindow(p, run[n], acts[n].i);
  }

  /**
   A flag or ack cell keeps the value its write is to carry until that write has
   executed, and the block keeps its contents likewise. Hence reading the source
   late is harmless for control words under every signal setting.
   */
  lemma ControlWordsStable(p: Params, run: seq<State>, acts: seq<Action>, n: nat)
    requires IsRun(p, run, acts) && n < |run|
    ensures var s := run[n];
            && (Started(s.snd.pc) && Block !in s.snd.done ==>
                  s.snd.cells == Cells(CanWrite, CanWrite) && s.snd.length == |p.input| && s.snd.chunkBytes == p.chunk)
            && (forall k: nat | k < FlagPosted(p, s.snd.pc) && Flag(k) !in s.snd.done ::
                  s.snd.cells.Get(k) == CanRead)
            && (forall k: nat | k < |s.rcv.posted| && Ack(k) !in s.rcv.done ::
                  s.rcv.cells.Get(k) == CanWrite)
  {
    hide IsRun, SendShape, RecvShape, SendCells, RecvCells, Flow;
    RunInv(p, run, acts, n);
    var s := run[n];
    if Started(s.snd.pc) && Block !in s.snd.done {
      BlockCells(p, s);
    }
    forall k: nat | k < FlagPosted(p, s.snd.pc) && Flag(k) !in s.snd.done
      ensures s.snd.cells.Get(k) == CanRead
    {
      FlagLands(p, s, k);
    }
    forall k: nat | k < |s.rcv.posted| && Ack(k) !in s.rcv.done
      ensures s.rcv.cells.Get(k) == CanWrite
    {
      AckLands(p, s, k);
    }
  }
}
