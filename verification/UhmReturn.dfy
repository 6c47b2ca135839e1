/**
 What SUCCESS of `uhm_send` and `uhm_recv` means for the writes of the caller's
 own side: each waits only for its signaled flags, so this depends on which flags
 are signaled and on what the other side's answers imply.
 */
module UhmReturn {
  import opened Arith
  import opened Bytes
  import opened UhmPlan
  import opened UhmProtocol
  import opened UhmFlow
  import opened UhmBytes
  import opened UhmExact
  import opened UhmProgress

  /** Flag `k` of `n` is posted signaled, in closed form. */
  predicate SignaledAt(setting: nat, k: nat, n: nat)
  {
    k + 1 == n || (k + 1) % (if setting < 1 then 1 else setting) == 0
  }

  /** Posts so far, since the last signaled one. */
  lemma SignalIs(setting: nat, since: nat, k: nat, n: nat)
    requires k < n && since == k % Window(setting)
    ensures Signal(setting, since, k + 1 >= n) <==> SignaledAt(setting, k, n)
    ensures k + 1 < n ==>
      (if Signal(setting, since, k + 1 >= n) then 0 else since + 1) == (k + 1) % Window(setting)
  {
    StepMod(k, Window(setting));
  }

  // ---- the sender ----------------------------------------------------------

  ghost predicate SendWaits(p: Params, t: Sender)
  {
    && (FlagPosted(p, t.pc) < p.count ==> t.since == FlagPosted(p, t.pc) % Window(p.sendInterval))
    && (forall k: nat | k < FlagPosted(p, t.pc) && SignaledAt(p.sendInterval, k, p.count) ::
          Flag(k) in t.pending || Flag(k) in t.done)
    && (forall w | w in t.pending :: w.Flag? && SignaledAt(p.sendInterval, w.k, p.count))
    && (t.pc.SDone? ==> t.pending == [])
  }

  /** Writes of one queue pair execute in order. */
  ghost predicate Fifo(posted: seq<Wr>, done: set<Op>)
  {
    forall i, j | 0 <= i < j < |posted| && posted[i].qp == posted[j].qp && posted[j].op in done :: posted[i].op in done
  }

  lemma SendWaitsStep(p: Params, t: Sender, a: SendAct)
    requires SendShape(p, t) && SendWaits(p, t) && SendCan(p, t, a)
    ensures SendWaits(p, SendStep(p, t, a))
  {
    hide SendWrOk, Put, Slice, Signal, SignaledAt, CeilDiv;
    match a {
      case PostFlag => SignalIs(p.sendInterval, t.since, t.pc.k, p.count);
      case Start => MultipleMod(0, Window(p.sendInterval));
      case _ =>
    }
  }

  lemma SentWaits(p: Params, t: Sender, i: nat)
    requires SendWaits(p, t) && NicReady(t.posted, t.done, i)
    ensures SendWaits(p, SentBy(t, t.posted[i]))
  {
    hide SignaledAt;
  }

  lemma FifoPost(posted: seq<Wr>, done: set<Op>, w: Wr)
    requires Fifo(posted, done) && w.op !in done
    ensures Fifo(posted + [w], done)
  {
  }

  /** The head of a queue executes; requests are named apart. */
  lemma FifoExecute(posted: seq<Wr>, done: set<Op>, i: nat)
    requires Fifo(posted, done) && NicReady(posted, done, i)
    requires forall a, b | 0 <= a < b < |posted| :: posted[a].op != posted[b].op
    ensures Fifo(posted, done + {posted[i].op})
  {
  }

  lemma SendNames(p: Params, t: Sender)
    requires SendShape(p, t)
    ensures forall a, b | 0 <= a < b < |t.posted| :: t.posted[a].op != t.posted[b].op
  {
    forall a, b | 0 <= a < b < |t.posted| ensures t.posted[a].op != t.posted[b].op {
      assert SendWrOk(p, a, t.posted[a]) && SendWrOk(p, b, t.posted[b]);
    }
  }

  lemma SendFifoStep(p: Params, t: Sender, a: SendAct)
    requires SendShape(p, t) && Fifo(t.posted, t.done) && SendCan(p, t, a)
    ensures Fifo(SendStep(p, t, a).posted, SendStep(p, t, a).done)
  {
    hide Fifo, SendShape, Put, Slice, Signal;
    match a {
      case Start =>
        NextIsNew(p, t, Block);
        FifoPost(t.posted, t.done, Wr(Block, 0, true));
      case PostData =>
        NextIsNew(p, t, Data(t.pc.k));
        FifoPost(t.posted, t.done, Wr(Data(t.pc.k), QpOf(t.pc.k, p.sendQps), false));
      case PostFlag =>
        var sig := Signal(p.sendInterval, t.since, t.pc.k + 1 >= p.count);
        NextIsNew(p, t, Flag(t.pc.k));
        FifoPost(t.posted, t.done, Wr(Flag(t.pc.k), QpOf(t.pc.k, p.sendQps), sig));
      case _ =>
    }
  }

  // ---- the receiver --------------------------------------------------------

  ghost predicate RecvWaits(p: Params, t: Receiver)
  {
    && (Looping(t.pc) && AckPosted(t) < t.count ==> t.since == AckPosted(t) % Window(p.recvInterval))
    && (Looping(t.pc) ==> forall k: nat | k < AckPosted(t) && SignaledAt(p.recvInterval, k, t.count) ::
          Ack(k) in t.pending || Ack(k) in t.done)
    && (Looping(t.pc) ==> forall w | w in t.pending :: w.Ack? && SignaledAt(p.recvInterval, w.k, t.count))
    && (!Looping(t.pc) && !t.pc.RFailed? ==> t.pending == [])
    && (t.pc.RDone? ==> t.pending == [])
    && (!Looping(t.pc) && !t.pc.RFailed? ==> t.since == 0)
  }

  lemma RecvWaitsStep(p: Params, t: Receiver, a: RecvAct)
    requires RecvShape(p, t) && RecvWaits(p, t) && RecvCan(p, t, a)
    ensures RecvWaits(p, RecvStep(p, t, a))
  {
    hide Slice, RecvSize, Signal, SignaledAt, CeilDiv;
    match a {
      case PostAck => SignalIs(p.recvInterval, t.since, t.pc.k, t.count);
      case Rearm1 => MultipleMod(0, Window(p.recvInterval));
      case _ =>
    }
  }

  lemma AckedWaits(p: Params, t: Receiver, i: nat)
    requires RecvWaits(p, t) && NicReady(t.posted, t.done, i)
    ensures RecvWaits(p, AckedBy(t, t.posted[i]))
  {
    hide SignaledAt;
  }

  lemma RecvFifoStep(p: Params, t: Receiver, a: RecvAct)
    requires RecvShape(p, t) && Fifo(t.posted, t.done) && RecvCan(p, t, a)
    ensures Fifo(RecvStep(p, t, a).posted, RecvStep(p, t, a).done)
  {
    hide Fifo, Slice, RecvSize, Signal;
    if a.PostAck? {
      var k := t.pc.k;
      FifoPost(t.posted, t.done, Wr(Ack(k), QpOf(k, p.recvQps), Signal(p.recvInterval, t.since, k + 1 >= t.count)));
    }
  }

  // ---- runs ----------------------------------------------------------------

  ghost predicate Waits(p: Params, s: State)
  {
    && SendWaits(p, s.snd) && Fifo(s.snd.posted, s.snd.done)
    && RecvWaits(p, s.rcv) && Fifo(s.rcv.posted, s.rcv.done)
  }

  lemma StepWaits(p: Params, s: State, a: Action)
    requires Inv(p, s) && Waits(p, s) && Enabled(p, s, a)
    ensures Waits(p, Apply(p, s, a))
  {
    hide SendWaits, RecvWaits, Fifo, SendCan, SendStep, RecvCan, RecvStep, SendCells, RecvCells, Flow, Agreed;
    match a {
      case SendDo(b) =>
        SendWaitsStep(p, s.snd, b);
        SendFifoStep(p, s.snd, b);
      case RecvDo(b) =>
        RecvWaitsStep(p, s.rcv, b);
        RecvFifoStep(p, s.rcv, b);
      case SendNic(i) =>
        SentWaits(p, s.snd, i);
        SendNames(p, s.snd);
        FifoExecute(s.snd.posted, s.snd.done, i);
        DeliveredWaits(p, s.snd, s.rcv, s.snd.posted[i].op);
      case RecvNic(i) =>
        AckedWaits(p, s.rcv, i);
        FifoExecute(s.rcv.posted, s.rcv.done, i);
        AckDeliveredWaits(p, s.rcv, s.snd, s.rcv.posted[i].op);
    }
  }

  lemma DeliveredWaits(p: Params, from: Sender, t: Receiver, w: Op)
    requires RecvWaits(p, t)
    ensures RecvWaits(p, Deliver(p, from, t, w))
    ensures Deliver(p, from, t, w).posted == t.posted && Deliver(p, from, t, w).done == t.done
  {
    hide SignaledAt, Put, Slice;
  }

  lemma AckDeliveredWaits(p: Params, from: Receiver, t: Sender, w: Op)
    requires SendWaits(p, t)
    ensures SendWaits(p, DeliverAck(from, t, w))
    ensures DeliverAck(from, t, w).posted == t.posted && DeliverAck(from, t, w).done == t.done
  {
    hide SignaledAt;
  }

  lemma {:induction false} RunWaits(p: Params, run: seq<State>, acts: seq<Action>, n: nat)
    requires IsRun(p, run, acts) && n < |run|
    ensures Inv(p, run[n]) && Waits(p, run[n])
  {
    hide Inv, Enabled, Apply, Waits;
    RunInv(p, run, acts, n);
    if n == 0 {
      StartWaits(p, run[0]);
    } else {
      RunWaits(p, run, acts, n - 1);
      StepWaits(p, run[n - 1], acts[n - 1]);
    }
  }

  lemma StartWaits(p: Params, s: State)
    requires Init(p, s)
    ensures Waits(p, s)
  {
    MultipleMod(0, Window(p.sendInterval));
  }

  /** Whether a side that has `n` flags to write knows about the last but one when it returns. */
  predicate Sure(qps: nat, setting: nat, n: nat)
  {
    n <= 1 || qps <= 1 || (n - 1) % (if setting < 1 then 1 else setting) == 0
  }

  lemma LastSigned(setting: nat, n: nat)
    requires n >= 1
    ensures SignaledAt(setting, n - 1, n)
    ensures n >= 2 && (n - 1) % Window(setting) == 0 ==> SignaledAt(setting, n - 2, n)
  {
  }

  /**
   SUCCESS of `uhm_send`, in every run: all writes have executed, those of the
   last chunk but one only if they share the last one's queue pair or its flag is
   signaled.
   */
  lemma SendReturned(p: Params, run: seq<State>, acts: seq<Action>, n: nat, j: nat)
    requires IsRun(p, run, acts) && n < |run| && run[n].snd.pc.SDone?
    requires j < p.count && (j + 2 != p.count || Sure(p.sendQps, p.sendInterval, p.count))
    ensures Data(j) in run[n].snd.done && Flag(j) in run[n].snd.done
  {
    hide IsRun, SendCells, RecvCells, Agreed, SignaledAt;
    RunWaits(p, run, acts, n);
    var s := run[n];
    LastSigned(p.sendInterval, p.count);
    assert Flag(p.count - 1) in s.snd.done;
    if j + 2 < p.count {
      if Flag(j) !in s.snd.done { AckNeedsFlag(p, s, j); }
    } else if j + 2 == p.count && p.sendQps <= 1 {
      assert SendWrOk(p, 2 + 2 * j, s.snd.posted[2 + 2 * j]) && SendWrOk(p, 4 + 2 * j, s.snd.posted[4 + 2 * j]);
      OneQp(j, p.sendQps);
    }
  }

  lemma OneQp(j: nat, qps: nat)
    requires qps <= 1
    ensures QpOf(j, qps) == QpOf(j + 1, qps)
  {
  }

  /** The same for `uhm_recv` and its acks. */
  lemma RecvReturned(p: Params, run: seq<State>, acts: seq<Action>, n: nat, j: nat)
    requires IsRun(p, run, acts) && n < |run| && run[n].rcv.pc.RDone?
    requires j < p.count && (j + 2 != p.count || Sure(p.recvQps, p.recvInterval, p.count))
    ensures Ack(j) in run[n].rcv.done
  {
    hide IsRun, SendCells, RecvCells, SignaledAt;
    RunWaits(p, run, acts, n);
    var s := run[n];
    LastSigned(p.recvInterval, p.count);
    assert Ack(p.count - 1) in s.rcv.done;
    assert Flag(p.count - 1) in s.snd.done;
    assert OpPosted(p, s.snd.pc, Flag(p.count - 1));
    if j + 2 == p.count && p.recvQps <= 1 {
      assert s.rcv.posted[j].op == Ack(j) && s.rcv.posted[j + 1].op == Ack(j + 1);
      OneQp(j, p.recvQps);
    }
  }

  // ---- returns without a transfer --------------------------------------------

  ghost predicate SendAnswer(p: Params, pc: SendPc)
  {
    !pc.SIdle? ==>
      && (pc.SRefused? <==> |p.input| == 0 || p.bufferSize < 2 || |p.input| > 0xFFFF_FFFF)
      && (pc == SRefused(true) <==> |p.input| == 0)
  }

  /**
   `uhm_send` returns at once exactly for an empty payload, a buffer without two
   halves or a length beyond 32 bits, and with SUCCESS exactly for the first.
   */
  lemma {:induction false} RefusedExactly(p: Params, run: seq<State>, acts: seq<Action>, n: nat)
    requires IsRun(p, run, acts) && n < |run|
    ensures SendAnswer(p, run[n].snd.pc)
  {
    hide Apply, Enabled, SendAnswer;
    if n == 0 {
      assert SendAnswer(p, SIdle) by { NotYet(p); }
    } else {
      RefusedExactly(p, run, acts, n - 1);
      AnswerStep(p, run[n - 1], acts[n - 1]);
    }
  }

  lemma NotYet(p: Params)
    ensures SendAnswer(p, SIdle)
  {
  }

  lemma AnswerStep(p: Params, s: State, a: Action)
    requires p.Wf() && SendAnswer(p, s.snd.pc) && Enabled(p, s, a)
    ensures SendAnswer(p, Apply(p, s, a).snd.pc)
  {
    hide RecvCan, RecvStep, Put, Slice, CeilDiv, Signal;
  }

  /** `uhm_recv` fails only for a buffer without two halves or an output buffer without room. */
  lemma {:induction false} FailedOnly(p: Params, run: seq<State>, acts: seq<Action>, n: nat)
    requires IsRun(p, run, acts) && n < |run|
    ensures run[n].rcv.pc.RFailed? ==> p.bufferSize < 2 || |p.input| > p.capacity
    ensures p.bufferSize < 2 && !run[n].rcv.pc.RIdle? ==> run[n].rcv.pc.RFailed?
  {
    hide Apply, Enabled, Inv, Counted;
    if n > 0 {
      FailedOnly(p, run, acts, n - 1);
      RunCounted(p, run, acts, n - 1);
      FailStep(p, run[n - 1], acts[n - 1]);
    }
  }

  lemma FailStep(p: Params, s: State, a: Action)
    requires p.Wf() && Inv(p, s) && Counted(p, s.rcv) && Enabled(p, s, a)
    requires s.rcv.pc.RFailed? ==> p.bufferSize < 2 || |p.input| > p.capacity
    requires p.bufferSize < 2 && !s.rcv.pc.RIdle? ==> s.rcv.pc.RFailed?
    ensures var t := Apply(p, s, a).rcv;
      && (t.pc.RFailed? ==> p.bufferSize < 2 || |p.input| > p.capacity)
      && (p.bufferSize < 2 && !t.pc.RIdle? ==> t.pc.RFailed?)
  {
    hide SendCells, RecvCells, Flow, Counted, SendCan, SendStep, Put, Slice, RecvSize, RecvShape;
    if a.RecvDo? && |p.input| <= p.capacity && p.Accepted() { NoFailure(p, s, a.recv); }
    if Block in s.snd.done { BlockIsAccepted(p, s); }
  }
}
