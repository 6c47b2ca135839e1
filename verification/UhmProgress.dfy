/**
 Progress of the UHM transfer. Every step lowers a rank, so runs are finite; a
 run can stop short of SUCCESS on both sides only if a chunk flag landed before
 the receiver re-armed its cell, and such a flag is never seen.
 */
module UhmProgress {
  import opened Arith
  import opened Bytes
  import opened UhmPlan
  import opened UhmProtocol
  import opened UhmFlow
  import opened UhmBytes
  import opened UhmExact

  // ---- runs are finite -----------------------------------------------------

  function SendLeft(p: Params, pc: SendPc): int
  {
    match pc
    case SIdle => 5 * p.count + 4
    case SPrefill => 5 * p.count + 3
    case SBlockWait => 5 * p.count + 2
    case SSpin(k) => 5 * (p.count - k) + 1
    case SMark(k) => 5 * (p.count - k)
    case SFlag(k) => 5 * (p.count - k) - 1
    case SRefill(k) => 5 * (p.count - k) - 2
    case SDrain(k) => 5 * (p.count - k) - 3
    case _ => 0
  }

  function RecvLeft(p: Params, pc: RecvPc): int
  {
    match pc
    case RIdle => 4 * p.count + 5
    case RWaitBlock => 4 * p.count + 4
    case RRearm0 => 4 * p.count + 3
    case RRearm1 => 4 * p.count + 2
    case RSpin(k) => 4 * (p.count - k) + 1
    case RGrant(k) => 4 * (p.count - k)
    case RAck(k) => 4 * (p.count - k) - 1
    case RDrain(k) => 4 * (p.count - k) - 2
    case _ => 0
  }

  function SendOps(p: Params): set<Op>
  {
    {Block} + (set k | 0 <= k < p.count :: Data(k)) + (set k | 0 <= k < p.count :: Flag(k))
  }

  function RecvOps(p: Params): set<Op> { set k | 0 <= k < p.count :: Ack(k) }

  /** Steps left to the threads plus writes left to the NICs. */
  function Rank(p: Params, s: State): int
  {
    SendLeft(p, s.snd.pc) + RecvLeft(p, s.rcv.pc)
    + |SendOps(p) - s.snd.done| + |RecvOps(p) - s.rcv.done|
  }

  lemma OneLess(u: set<Op>, done: set<Op>, w: Op)
    requires w in u && w !in done
    ensures |u - (done + {w})| == |u - done| - 1
  {
    assert u - (done + {w}) == (u - done) - {w};
  }

  lemma SendLeftFalls(p: Params, t: Sender, a: SendAct)
    requires SendShape(p, t) && SendCan(p, t, a)
    ensures SendLeft(p, SendStep(p, t, a).pc) < SendLeft(p, t.pc)
  {
    hide SendWrOk, OpPosted, Put, Slice;
  }

  lemma RecvLeftFalls(p: Params, s: State, a: RecvAct)
    requires RecvShape(p, s.rcv) && Agreed(p, s) && RecvCan(p, s.rcv, a)
    ensures RecvLeft(p, RecvStep(p, s.rcv, a).pc) < RecvLeft(p, s.rcv.pc)
  {
    hide RecvSize, Slice, CeilDiv, RecvChunk;
  }

  lemma LeftIsNat(p: Params, s: State)
    requires Inv(p, s)
    ensures SendLeft(p, s.snd.pc) >= 0 && RecvLeft(p, s.rcv.pc) >= 0
  {
    hide SendWrOk, SendCells, RecvCells, Flow;
  }

  lemma RankFalls(p: Params, s: State, a: Action)
    requires p.Wf() && Inv(p, s) && Enabled(p, s, a)
    ensures 0 <= Rank(p, Apply(p, s, a)) < Rank(p, s)
  {
    hide SendShape, RecvShape, SendCells, RecvCells, Agreed, Flow, SendOps, RecvOps, SendLeft, RecvLeft,
      SendCan, RecvCan, SendStep, RecvStep, Params.Wf;
    StepInv(p, s, a);
    LeftIsNat(p, Apply(p, s, a));
    match a
    case SendDo(b) =>
      SendLeftFalls(p, s.snd, b);
      SendDoneSame(p, s.snd, b);
    case RecvDo(b) =>
      RecvLeftFalls(p, s, b);
      RecvDoneSame(p, s.rcv, b);
    case SendNic(i) =>
      SentShape(p, s.snd, i);
      SendOpIn(p, s, s.snd.posted[i].op);
      OneLess(SendOps(p), s.snd.done, s.snd.posted[i].op);
    case RecvNic(i) =>
      RecvOpIn(p, s, i);
      OneLess(RecvOps(p), s.rcv.done, Ack(i));
  }

  lemma SendDoneSame(p: Params, t: Sender, a: SendAct)
    requires SendCan(p, t, a)
    ensures SendStep(p, t, a).done == t.done
  {
  }

  lemma RecvDoneSame(p: Params, t: Receiver, a: RecvAct)
    requires RecvCan(p, t, a)
    ensures RecvStep(p, t, a).done == t.done
  {
  }

  lemma SendOpIn(p: Params, s: State, w: Op)
    requires SendShape(p, s.snd) && OpPosted(p, s.snd.pc, w)
    ensures w in SendOps(p)
  {
  }

  lemma RecvOpIn(p: Params, s: State, i: nat)
    requires RecvShape(p, s.rcv) && Agreed(p, s) && i < |s.rcv.posted|
    ensures Ack(i) in RecvOps(p) && s.rcv.posted[i].op == Ack(i)
  {
  }

  /** No run is longer than the rank of its first state. */
  lemma {:induction false} RunsAreBounded(p: Params, run: seq<State>, acts: seq<Action>, n: nat)
    requires IsRun(p, run, acts) && n < |run|
    ensures 0 <= Rank(p, run[n]) <= Rank(p, run[0]) - n
  {
    hide Inv, Enabled, Apply, Rank;
    RunInv(p, run, acts, n);
    if n == 0 {
      RankOfFirst(p, run[0]);
    } else {
      RunsAreBounded(p, run, acts, n - 1);
      RunInv(p, run, acts, n - 1);
      RankFalls(p, run[n - 1], acts[n - 1]);
    }
  }

  lemma RankOfFirst(p: Params, s: State)
    requires Init(p, s)
    ensures Rank(p, s) >= 0
  {
  }

  // ---- completions are not lost --------------------------------------------

  /** A request being waited for is signaled, and once executed its completion is there. */
  ghost predicate SendSignals(t: Sender)
  {
    && (forall i | 0 <= i < |t.posted| && t.posted[i].op in t.pending :: t.posted[i].signaled)
    && (forall w | w in t.pending && w in t.done :: w in t.cq)
    && (forall w | w in t.pending :: w.Flag?)
    && ((t.pc.SPrefill? || t.pc.SBlockWait?) && Block in t.done ==> Block in t.cq)
  }

  ghost predicate RecvSignals(t: Receiver)
  {
    && (forall i | 0 <= i < |t.posted| && t.posted[i].op in t.pending :: t.posted[i].signaled)
    && (forall w | w in t.pending && w in t.done :: w in t.cq)
  }

  lemma LogOps(p: Params, t: Sender, i: nat)
    requires SendShape(p, t) && i < |t.posted|
    ensures OpPosted(p, t.pc, t.posted[i].op)
  {
    assert SendWrOk(p, i, t.posted[i]);
  }

  /** The next request is new: it is neither executed nor waited for. */
  lemma NextIsNew(p: Params, t: Sender, w: Op)
    requires SendShape(p, t) && !OpPosted(p, t.pc, w)
    ensures w !in t.done && w !in t.pending
  {
  }

  lemma SendSignalsStep(p: Params, t: Sender, a: SendAct)
    requires SendShape(p, t) && SendSignals(t) && SendCan(p, t, a)
    ensures SendSignals(SendStep(p, t, a))
  {
    hide SendWrOk, Put, Slice, SendShape;
    var t' := SendStep(p, t, a);
    match a
    case Start =>
      NextIsNew(p, t, Block);
    case PostData =>
      NextIsNew(p, t, Data(t.pc.k));
    case PostFlag =>
      var k := t.pc.k;
      NextIsNew(p, t, Flag(k));
      forall i | 0 <= i < |t'.posted| && t'.posted[i].op in t'.pending ensures t'.posted[i].signaled {
        if i < |t.posted| {
          LogOps(p, t, i);
        }
      }
    case _ =>
  }

  lemma SentSignals(p: Params, t: Sender, i: nat)
    requires SendShape(p, t) && SendSignals(t) && NicReady(t.posted, t.done, i)
    ensures SendSignals(SentBy(t, t.posted[i]))
  {
    hide SendShape;
    if t.posted[i].op.Block? {
      SentBlock(p, t, i);
    }
  }

  lemma SentBlock(p: Params, t: Sender, i: nat)
    requires SendShape(p, t) && i < |t.posted| && t.posted[i].op.Block?
    ensures t.posted[i].signaled
  {
    assert SendWrOk(p, i, t.posted[i]);
  }

  lemma RecvSignalsStep(p: Params, t: Receiver, a: RecvAct)
    requires RecvShape(p, t) && RecvSignals(t) && RecvCan(p, t, a)
    ensures RecvSignals(RecvStep(p, t, a))
  {
    hide Slice, RecvSize;
  }

  lemma StepSignals(p: Params, s: State, a: Action)
    requires Inv(p, s) && SendSignals(s.snd) && RecvSignals(s.rcv) && Enabled(p, s, a)
    ensures var s' := Apply(p, s, a); SendSignals(s'.snd) && RecvSignals(s'.rcv)
  {
    hide SendShape, RecvShape, SendCan, SendStep, RecvCan, RecvStep, SendCells, RecvCells, Agreed, Flow;
    match a
    case SendDo(b) => SendSignalsStep(p, s.snd, b);
    case RecvDo(b) => RecvSignalsStep(p, s.rcv, b);
    case SendNic(i) => SentSignals(p, s.snd, i);
    case RecvNic(i) =>
  }

  lemma {:induction false} RunSignals(p: Params, run: seq<State>, acts: seq<Action>, n: nat)
    requires IsRun(p, run, acts) && n < |run|
    ensures SendSignals(run[n].snd) && RecvSignals(run[n].rcv)
  {
    hide Inv, Enabled, Apply;
    if n > 0 {
      hide SendSignals, RecvSignals;
      RunSignals(p, run, acts, n - 1);
      RunInv(p, run, acts, n - 1);
      StepSignals(p, run[n - 1], acts[n - 1]);
    }
  }

  // ---- flags lost before the re-arm ----------------------------------------

  /**
   A chunk flag has landed where the receiver is yet to store CAN_WRITE over it,
   or has already done so.
   */
  ghost predicate Doomed(s: State)
  {
    var sent, t := s.snd.done, s.rcv;
    || ((t.pc.RWaitBlock? || t.pc.RRearm0?) && (Flag(0) in sent || Flag(1) in sent))
    || (t.pc.RRearm1? && ((Flag(0) in sent && t.cells.c0 == CanWrite) || Flag(1) in sent))
    || (Looping(t.pc) && exists j: nat :: Copied(t) <= j && Flag(j) in sent && t.cells.Get(j) == CanWrite)
  }

  lemma DoomedRecv(p: Params, s: State, a: RecvAct)
    requires Inv(p, s) && Doomed(s) && RecvCan(p, s.rcv, a)
    ensures var s' := State(s.snd, RecvStep(p, s.rcv, a)); Doomed(s') || s'.rcv.pc.RFailed?
  {
    hide SendShape, SendCells, RecvSize;
    var s' := State(s.snd, RecvStep(p, s.rcv, a));
    if a.Rearm1? {
      var j: nat := if Flag(1) in s.snd.done then 1 else 0;
      assert s'.rcv.cells.Get(j) == CanWrite && Flag(j) in s.snd.done;
    } else if Looping(s.rcv.pc) && !s'.rcv.pc.RFailed? {
      var j: nat :| Copied(s.rcv) <= j && Flag(j) in s.snd.done && s.rcv.cells.Get(j) == CanWrite;
      FlagWindow(p, s, j);
      assert Copied(s'.rcv) <= j && s'.rcv.cells.Get(j) == CanWrite;
    }
  }

  /** With room for the payload the receiver never returns ERROR. */
  lemma NoFailure(p: Params, s: State, a: RecvAct)
    requires p.Wf() && Inv(p, s) && Counted(p, s.rcv) && RecvCan(p, s.rcv, a)
    requires p.Accepted() && |p.input| <= p.capacity
    ensures !RecvStep(p, s.rcv, a).pc.RFailed?
  {
    hide SendShape, SendCells, RecvCells, Params.Wf, CeilDiv, Flow, Params.Size, Slice;
    if a.CopyOut? {
      CopyExtends(p, s.rcv.out, s.rcv.pc.k, s.rcv.buf);
      ChunkRange(p, s.rcv.pc.k);
      SizeFits(p, s.rcv.pc.k);
    }
  }

  lemma SizeFits(p: Params, k: nat)
    requires p.Wf() && k < p.count
    ensures p.Size(k) >= 1 && Covered(p, k) + p.Size(k) <= |p.input|
  {
    ChunkFacts(p, k);
    CoveredStep(p, k);
  }

  /** A landed flag not yet consumed belongs to the next two chunks. */
  lemma FlagWindow(p: Params, s: State, j: nat)
    requires Inv(p, s) && Flag(j) in s.snd.done && Copied(s.rcv) <= j
    ensures j <= AckPosted(s.rcv) + 1 && j < p.count
  {
    hide SendCells, RecvCells, Agreed, SendWrOk;
    assert OpPosted(p, s.snd.pc, Flag(j));
    if j >= 2 {
      assert Ack(j - 2) in s.rcv.done;
    }
  }

  lemma DoomedSendNic(p: Params, s: State, i: nat)
    requires Inv(p, s) && Doomed(s) && Enabled(p, s, SendNic(i))
    ensures Doomed(Apply(p, s, SendNic(i)))
  {
    hide SendShape, RecvShape, SendCells, RecvCells, Agreed, Flow, Put, Slice;
    var s' := Apply(p, s, SendNic(i));
    var w := s.snd.posted[i].op;
    SentShape(p, s.snd, i);
    DoomedBlock(p, s);
    if w.Flag? {
      FlagLands(p, s, w.k);
    }
    if Looping(s.rcv.pc) {
      var j: nat :| Copied(s.rcv) <= j && Flag(j) in s.snd.done && s.rcv.cells.Get(j) == CanWrite;
      FlagWindow(p, s, j);
      AckBound(p, s);
      if w.Flag? {
        assert w.k != j && w.k % 2 != j % 2;
      }
      assert Flag(j) in s'.snd.done && s'.rcv.cells.Get(j) == CanWrite && Copied(s'.rcv) == Copied(s.rcv);
    }
  }

  lemma AckBound(p: Params, s: State)
    requires RecvShape(p, s.rcv)
    ensures AckPosted(s.rcv) <= Granted(s.rcv)
  {
  }

  lemma DoomedBlock(p: Params, s: State)
    requires Inv(p, s) && Doomed(s)
    ensures Block in s.snd.done
  {
    hide SendWrOk, SendCells, RecvCells, Flow;
  }

  /** Once a flag is lost it stays lost, or the receiver gives up for want of room. */
  lemma DoomedStays(p: Params, s: State, a: Action)
    requires Inv(p, s) && (Doomed(s) || s.rcv.pc.RFailed?) && Enabled(p, s, a)
    ensures Doomed(Apply(p, s, a)) || Apply(p, s, a).rcv.pc.RFailed?
  {
    if s.rcv.pc.RFailed? {
      FailedStays(p, s, a);
    } else {
      hide Inv, SendCan, RecvCan, SendStep, RecvStep;
      match a
      case SendDo(b) => SendDoneSame(p, s.snd, b);
      case RecvDo(b) => DoomedRecv(p, s, b);
      case SendNic(i) => DoomedSendNic(p, s, i);
      case RecvNic(i) =>
    }
  }

  lemma FailedStays(p: Params, s: State, a: Action)
    requires s.rcv.pc.RFailed? && Enabled(p, s, a)
    ensures Apply(p, s, a).rcv.pc.RFailed?
  {
    hide SendCan, SendStep;
  }

  /** ... and a run that lost a flag never ends with SUCCESS at the receiver. */
  lemma {:induction false} DoomedNeverDone(p: Params, run: seq<State>, acts: seq<Action>, m: nat, n: nat)
    requires IsRun(p, run, acts) && m <= n < |run| && Doomed(run[m])
    ensures (Doomed(run[n]) || run[n].rcv.pc.RFailed?) && !run[n].rcv.pc.RDone?
  {
    hide Inv, Enabled, Apply, Doomed;
    RunInv(p, run, acts, n);
    if m < n {
      DoomedNeverDone(p, run, acts, m, n - 1);
      RunInv(p, run, acts, n - 1);
      DoomedStays(p, run[n - 1], acts[n - 1]);
    }
    if Doomed(run[n]) { NotBoth(p, run[n]); }
  }

  lemma NotBoth(p: Params, s: State)
    requires Inv(p, s) && Doomed(s)
    ensures !s.rcv.pc.RDone?
  {
    hide SendWrOk, SendCells, RecvCells, Flow;
    if s.rcv.pc.RDone? {
      var j: nat :| Copied(s.rcv) <= j && Flag(j) in s.snd.done && s.rcv.cells.Get(j) == CanWrite;
      FlagWindow(p, s, j);
    }
  }

  /** The sender's first data and flag land. */
  lemma FirstFlag(p: Params, run0: seq<State>, acts0: seq<Action>, s0: State)
    returns (run: seq<State>, acts: seq<Action>, s: State)
    requires p.count >= 1 && IsRun(p, run0, acts0) && |run0| > 0 && run0[|run0| - 1] == s0 && AtTop(p, s0.snd)
    requires s0.rcv.pc.RWaitBlock? || s0.rcv.pc.RRearm0?
    ensures IsRun(p, run, acts) && |run| > 0 && run[|run| - 1] == s
    ensures s.rcv.pc == s0.rcv.pc && Flag(0) in s.snd.done
    ensures s.rcv.cells.c0 == CanRead
  {
    hide IsRun, CeilDiv, Params.Wf, Put, Slice, Params.InputChunk;
    run, acts, s := Extend(p, run0, acts0, SendDo(PostData));
    run, acts, s := Extend(p, run, acts, SendDo(MarkHalf));
    run, acts, s := Extend(p, run, acts, SendDo(PostFlag));
    assert s.snd.posted[2].op == Flag(0);
    run, acts, s := Extend(p, run, acts, SendNic(1));
    run, acts, s := Extend(p, run, acts, SendNic(2));
  }

  /**
   For every accepted transfer some run loses flag 0 unread: it lands before the
   receiver looks at the block, whose cell then never says CAN_WRITE again.
   */
  lemma FlagCanBeMissed(p: Params) returns (run: seq<State>, acts: seq<Action>)
    requires p.Wf() && p.Accepted()
    ensures IsRun(p, run, acts) && |run| > 0
    ensures var s := run[|run| - 1]; Doomed(s) && s.rcv.pc.RWaitBlock? && s.rcv.cells.c0 == CanRead
  {
    hide IsRun, CeilDiv, Params.Wf;
    SplitAgreement(p);
    var s: State;
    run, acts, s := SendBlock(p);
    run, acts, s := FirstFlag(p, run, acts, s);
  }

  /** ... and some run loses it by overwriting: it lands between the look and the re-arming stores. */
  lemma FlagCanBeOverwritten(p: Params) returns (run: seq<State>, acts: seq<Action>)
    requires p.Wf() && p.Accepted()
    ensures IsRun(p, run, acts) && |run| > 0
    ensures var s := run[|run| - 1];
      Doomed(s) && s.rcv.pc == RSpin(0) && Flag(0) in s.snd.done && s.rcv.cells.c0 == CanWrite
  {
    hide IsRun, CeilDiv, Params.Wf;
    SplitAgreement(p);
    var s: State;
    run, acts, s := SendBlock(p);
    run, acts, s := Extend(p, run, acts, RecvDo(ReadBlock));
    assert AtTop(p, s.snd) && s.rcv.pc.RRearm0?;
    run, acts, s := FirstFlag(p, run, acts, s);
    run, acts, s := Extend(p, run, acts, RecvDo(Rearm0));
    run, acts, s := Extend(p, run, acts, RecvDo(Rearm1));
    assert s.rcv.cells.Get(0) == CanWrite && Copied(s.rcv) == 0;
  }

  // ---- no other way to stop ------------------------------------------------

  ghost predicate Stuck(p: Params, s: State) { forall a: Action :: !Enabled(p, s, a) }

  lemma {:induction false} SomeReady(posted: seq<Wr>, done: set<Op>, i: nat) returns (j: nat)
    requires i < |posted| && posted[i].op !in done
    ensures NicReady(posted, done, j)
  {
    if k: nat :| k < i && posted[k].op !in done {
      j := SomeReady(posted, done, k);
    } else {
      j := i;
    }
  }

  /** With every NIC idle, every posted request has executed and completed. */
  lemma NicsIdle(p: Params, s: State)
    requires Inv(p, s) && Stuck(p, s)
    ensures !s.rcv.pc.RIdle?
    ensures forall w | OpPosted(p, s.snd.pc, w) :: w in s.snd.done
    ensures forall k: nat | k < |s.rcv.posted| :: Ack(k) in s.rcv.done
  {
    hide SendCells, RecvCells, Flow, Agreed, SendCan, RecvCan, SendWrOk;
    assert !s.rcv.pc.RIdle? by {
      assert !Enabled(p, s, RecvDo(Arm));
      ArmEnabled(p, s.rcv);
    }
    forall j: nat ensures !NicReady(s.snd.posted, s.snd.done, j) && !NicReady(s.rcv.posted, s.rcv.done, j) {
      assert !Enabled(p, s, SendNic(j)) && !Enabled(p, s, RecvNic(j));
    }
    forall w | OpPosted(p, s.snd.pc, w) ensures w in s.snd.done {
      var i := IndexOf(p, s.snd, w);
      if w !in s.snd.done {
        var j := SomeReady(s.snd.posted, s.snd.done, i);
        assert false;
      }
    }
    forall k: nat | k < |s.rcv.posted| ensures Ack(k) in s.rcv.done {
      if Ack(k) !in s.rcv.done {
        var j := SomeReady(s.rcv.posted, s.rcv.done, k);
        assert false;
      }
    }
  }

  lemma ArmEnabled(p: Params, t: Receiver)
    ensures t.pc.RIdle? ==> RecvCan(p, t, Arm)
  {
  }

  lemma IndexOf(p: Params, t: Sender, w: Op) returns (i: nat)
    requires SendShape(p, t) && OpPosted(p, t.pc, w)
    ensures i < |t.posted| && t.posted[i].op == w
  {
    i := if w.Block? then 0 else if w.Data? then 1 + 2 * w.k else 2 + 2 * w.k;
    assert SendWrOk(p, i, t.posted[i]);
  }

  function SendNext(p: Params, t: Sender): SendAct
  {
    match t.pc
    case SPrefill => Prefill
    case SBlockWait => BlockWait
    case SSpin(k) => if k < p.count then PostData else SendReturn
    case SMark(_) => MarkHalf
    case SFlag(_) => PostFlag
    case SRefill(_) => Refill
    case SDrain(_) => DrainFlags
    case _ => Start
  }

  function RecvNext(t: Receiver): RecvAct
  {
    match t.pc
    case RWaitBlock => ReadBlock
    case RRearm0 => Rearm0
    case RRearm1 => Rearm1
    case RSpin(k) => if k < t.count then CopyOut else RecvReturn
    case RGrant(_) => Grant
    case RAck(_) => PostAck
    case RDrain(_) => DrainAcks
    case _ => Arm
  }

  /** A stuck sender has returned, or waits for an ack that is not posted. */
  lemma StuckSender(p: Params, s: State)
    requires Inv(p, s) && SendSignals(s.snd) && Stuck(p, s)
    ensures s.snd.pc.SDone? || s.snd.pc.SRefused?
            || (s.snd.pc.SSpin? && 2 <= s.snd.pc.k < p.count && AckPosted(s.rcv) + 2 <= s.snd.pc.k)
  {
    hide RecvCells, Agreed, SendWrOk;
    NicsIdle(p, s);
    var t := s.snd;
    assert !Enabled(p, s, SendDo(SendNext(p, t)));
    assert Completed(t.pending, t.cq);
    assert t.pc.SBlockWait? ==> OpPosted(p, t.pc, Block);
    assert t.pc.SSpin? && t.pc.k >= 2 ==> t.cells.Get(t.pc.k) == t.cells.Get(t.pc.k - 2);
  }

  /** A stuck receiver has returned, or waits for the block or for a flag. */
  lemma StuckReceiver(p: Params, s: State)
    requires Inv(p, s) && RecvSignals(s.rcv) && Stuck(p, s)
    ensures s.rcv.pc.RDone? || s.rcv.pc.RFailed?
            || (s.rcv.pc.RWaitBlock? && s.rcv.cells.c0 == CanRead)
            || (s.rcv.pc.RSpin? && s.rcv.pc.k < s.rcv.count && s.rcv.cells.Get(s.rcv.pc.k) == CanWrite)
  {
    hide SendCells, RecvCells, Agreed, SendWrOk, Flow;
    NicsIdle(p, s);
    var t := s.rcv;
    assert !Enabled(p, s, RecvDo(RecvNext(t)));
    assert Completed(t.pending, t.cq);
  }

  /** A state with no step left, and no flag lost, has SUCCESS on both sides. */
  lemma StuckIsDone(p: Params, s: State)
    requires p.Wf() && p.Accepted() && Inv(p, s) && SendSignals(s.snd) && RecvSignals(s.rcv)
    requires Stuck(p, s) && !s.rcv.pc.RFailed? && !s.snd.pc.SRefused? && !Doomed(s)
    ensures s.snd.pc.SDone? && s.rcv.pc.RDone?
  {
    hide SendWrOk, Enabled, SendCells, RecvCells, Stuck, Params.Wf, CeilDiv;
    NicsIdle(p, s);
    StuckSender(p, s);
    StuckReceiver(p, s);
    SplitAgreement(p);
    assert OpPosted(p, s.snd.pc, Flag(0));
    assert Flag(0) in s.snd.done;
    assert s.rcv.pc.RSpin? ==> OpPosted(p, s.snd.pc, Flag(s.rcv.pc.k));
  }

  lemma {:induction false} NeverRefused(p: Params, run: seq<State>, acts: seq<Action>, n: nat)
    requires IsRun(p, run, acts) && n < |run| && p.Accepted() && |p.input| <= p.capacity
    ensures !run[n].snd.pc.SRefused? && !run[n].rcv.pc.RFailed?
  {
    hide Inv, Counted, SendCan, SendStep, RecvCan, RecvStep;
    if n > 0 {
      NeverRefused(p, run, acts, n - 1);
      RunInv(p, run, acts, n - 1);
      RunCounted(p, run, acts, n - 1);
      match acts[n - 1] {
        case SendDo(b) => SendGoesOn(p, run[n - 1].snd, b);
        case RecvDo(b) => NoFailure(p, run[n - 1], b);
        case _ =>
      }
    }
  }

  lemma SendGoesOn(p: Params, t: Sender, a: SendAct)
    requires SendCan(p, t, a) && p.Accepted()
    ensures !SendStep(p, t, a).pc.SRefused?
  {
  }

  /** Both sides returned SUCCESS. */
  predicate BothDone(s: State) { s.snd.pc.SDone? && s.rcv.pc.RDone? }

  lemma DoneHasRoom(p: Params, s: State)
    requires p.Wf() && Inv(p, s) && Counted(p, s.rcv) && BothDone(s)
    ensures p.Accepted() && |p.input| <= p.capacity
  {
    hide SendWrOk, SendCells, RecvCells, Flow, CeilDiv, Params.Wf;
    SplitAgreement(p);
    CoveredStep(p, 0);
  }

  /**
   The outcome of a run that cannot be extended: SUCCESS on both sides if and
   only if the payload is accepted, the output buffer has room for it and no
   state on the way lost a flag; and then, with safe settings, the output is the
   payload.
   */
  lemma Outcome(p: Params, run: seq<State>, acts: seq<Action>)
    requires IsRun(p, run, acts) && Stuck(p, run[|run| - 1])
    ensures var last := run[|run| - 1];
            && (BothDone(last) <==>
                  p.Accepted() && |p.input| <= p.capacity && forall m | 0 <= m < |run| :: !Doomed(run[m]))
            && (BothDone(last) && RefillSafe(p) ==> last.rcv.out == p.input)
  {
    var n: nat := |acts|;
    assert n == |run| - 1 && p.Wf();
    hide IsRun, Inv, Doomed, Stuck, Counted, Params.Wf, SendSignals, RecvSignals;
    RunCounted(p, run, acts, n);
    RunSignals(p, run, acts, n);
    if BothDone(run[n]) { DoneHasRoom(p, run[n]); }
    if m :| 0 <= m < |run| && Doomed(run[m]) {
      DoomedNeverDone(p, run, acts, m, n);
    } else if p.Accepted() && |p.input| <= p.capacity {
      NeverRefused(p, run, acts, n);
      StuckIsDone(p, run[n]);
    }
    if RefillSafe(p) {
      EndToEnd(p, run, acts, n);
    }
  }

  /**
   From a state in which the receiver re-armed before any flag landed, no flag is
   ever lost.
   */
  lemma {:induction false} RearmedStaysLive(p: Params, run: seq<State>, acts: seq<Action>, m: nat, n: nat)
    requires IsRun(p, run, acts) && m <= n < |run|
    requires Looping(run[m].rcv.pc) && !Doomed(run[m])
    ensures run[n].rcv.pc.RFailed? || (Looping(run[n].rcv.pc) && !Doomed(run[n]))
  {
    hide Inv, Enabled, Apply, Doomed;
    if m < n {
      RearmedStaysLive(p, run, acts, m, n - 1);
      RunInv(p, run, acts, n - 1);
      LiveStep(p, run[n - 1], acts[n - 1]);
    }
  }

  /** So every continuation of it that cannot be extended succeeds on both sides, given room for the payload. */
  lemma RearmedSucceeds(p: Params, run: seq<State>, acts: seq<Action>, m: nat)
    requires IsRun(p, run, acts) && m < |run| && Looping(run[m].rcv.pc) && !Doomed(run[m])
    requires Stuck(p, run[|run| - 1])
    ensures BothDone(run[|run| - 1]) <==> |p.input| <= p.capacity
    ensures BothDone(run[|run| - 1]) && RefillSafe(p) ==> run[|run| - 1].rcv.out == p.input
  {
    var n := |run| - 1;
    hide IsRun, Inv, Doomed, Stuck;
    Outcome(p, run, acts);
    LoopingIsAccepted(p, run, acts, m);
    forall k | 0 <= k < |run| && |p.input| <= p.capacity ensures !Doomed(run[k]) {
      if k <= m {
        if Doomed(run[k]) { DoomedNeverDone(p, run, acts, k, m); }
      } else {
        RearmedStaysLive(p, run, acts, m, k);
        NeverRefused(p, run, acts, k);
      }
    }
  }

  lemma LoopingIsAccepted(p: Params, run: seq<State>, acts: seq<Action>, m: nat)
    requires IsRun(p, run, acts) && m < |run| && Looping(run[m].rcv.pc)
    ensures p.Accepted() && !run[m].rcv.pc.RFailed?
  {
    hide IsRun, SendCells, RecvCells, Flow;
    RunInv(p, run, acts, m);
    BlockThere(p, run[m]);
    BlockIsAccepted(p, run[m]);
  }

  lemma LiveRecv(p: Params, s: State, a: RecvAct)
    requires Inv(p, s) && RecvCan(p, s.rcv, a) && Looping(s.rcv.pc) && !Doomed(s)
    ensures var s' := State(s.snd, RecvStep(p, s.rcv, a));
            s'.rcv.pc.RFailed? || (Looping(s'.rcv.pc) && !Doomed(s'))
  {
    hide SendShape, SendCells, RecvCells, Agreed, RecvSize, Slice, Flow;
    var t' := RecvStep(p, s.rcv, a);
    if !t'.pc.RFailed? {
      forall j: nat | Copied(t') <= j && Flag(j) in s.snd.done ensures t'.cells.Get(j) == CanRead {
        assert s.rcv.cells.Get(j) != CanWrite;
        FlagWindow(p, s, j);
      }
    }
  }

  lemma LiveSendNic(p: Params, s: State, i: nat)
    requires Inv(p, s) && Enabled(p, s, SendNic(i)) && Looping(s.rcv.pc) && !Doomed(s)
    ensures var s' := Apply(p, s, SendNic(i)); Looping(s'.rcv.pc) && !Doomed(s')
  {
    hide SendShape, RecvShape, SendCells, RecvCells, Agreed, Slice, Put, Flow;
    var s' := Apply(p, s, SendNic(i));
    SentShape(p, s.snd, i);
    BlockThere(p, s);
    var w := s.snd.posted[i].op;
    if w.Flag? {
      FlagLands(p, s, w.k);
    }
    forall j: nat | Copied(s'.rcv) <= j && Flag(j) in s'.snd.done ensures s'.rcv.cells.Get(j) == CanRead {
      if w != Flag(j) {
        assert Flag(j) in s.snd.done && s.rcv.cells.Get(j) != CanWrite;
      }
    }
  }

  lemma LiveStep(p: Params, s: State, a: Action)
    requires Inv(p, s) && Enabled(p, s, a)
    requires s.rcv.pc.RFailed? || (Looping(s.rcv.pc) && !Doomed(s))
    ensures var s' := Apply(p, s, a); s'.rcv.pc.RFailed? || (Looping(s'.rcv.pc) && !Doomed(s'))
  {
    hide Inv, SendCan, SendStep, Doomed, Put, Slice, RecvSize;
    if !s.rcv.pc.RFailed? {
      match a {
        case SendDo(b) =>
          SendDoneSame(p, s.snd, b);
          LiveCells(s, Apply(p, s, a));
        case RecvDo(b) => LiveRecv(p, s, b);
        case SendNic(i) => LiveSendNic(p, s, i);
        case RecvNic(i) => LiveCells(s, Apply(p, s, a));
      }
    }
  }

  lemma BlockThere(p: Params, s: State)
    requires Agreed(p, s) && Looping(s.rcv.pc)
    ensures Block in s.snd.done
  {
  }

  lemma LiveCells(s: State, s': State)
    requires Looping(s.rcv.pc) && !Doomed(s)
    requires s'.rcv.pc == s.rcv.pc && s'.rcv.cells == s.rcv.cells && Copied(s'.rcv) == Copied(s.rcv)
    requires s'.snd.done == s.snd.done
    ensures !Doomed(s')
  {
  }
}
