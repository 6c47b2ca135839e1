/**
 Exactly when SUCCESS of `uhm_send` and `uhm_recv` means that all writes of that
 side have executed. Where it does not, one write is left to the very end: the
 data of the last chunk but one, or its ack.
 */
module UhmSure {
  import opened Arith
  import opened Bytes
  import opened UhmPlan
  import opened UhmProtocol
  import opened UhmFlow
  import opened UhmBytes
  import opened UhmExact
  import opened UhmProgress
  import opened UhmReturn

  /** No action but `x` is left. */
  ghost predicate Only(p: Params, s: State, x: Action) { forall a | Enabled(p, s, a) :: a == x }

  /** The receiver re-armed in time and has not given up. */
  ghost predicate Live(s: State) { Looping(s.rcv.pc) && !Doomed(s) && !s.rcv.pc.RFailed? }

  lemma StepLive(p: Params, s: State, a: Action)
    requires p.Wf() && p.Accepted() && |p.input| <= p.capacity
    requires Inv(p, s) && Counted(p, s.rcv) && Live(s) && Enabled(p, s, a)
    ensures Live(Apply(p, s, a))
  {
    hide Inv, Counted, Doomed, SendCan, SendStep, RecvCan, RecvStep, Params.Wf, Put, Slice;
    LiveStep(p, s, a);
    if a.RecvDo? { NoFailure(p, s, a.recv); }
  }

  /** Every run goes on, without `x`, until only `x` is left. */
  lemma {:induction false} Onward(p: Params, run0: seq<State>, acts0: seq<Action>, x: Action)
    returns (run: seq<State>, acts: seq<Action>, s: State)
    requires p.Accepted() && |p.input| <= p.capacity && (x.SendNic? || x.RecvNic?)
    requires IsRun(p, run0, acts0) && Live(run0[|run0| - 1]) && Spares(p, run0[|run0| - 1], x)
    ensures IsRun(p, run, acts) && |run| > 0 && run[|run| - 1] == s
    ensures Live(s) && Spares(p, s, x) && Only(p, s, x)
    decreases Rank(p, run0[|run0| - 1])
  {
    hide Inv, Enabled, Apply, Counted, Rank, Live, Spares;
    run, acts := run0, acts0;
    s := run[|run| - 1];
    if a :| Enabled(p, s, a) && a != x {
      RunCounted(p, run, acts, |run| - 1);
      assert p.Wf();
      hide IsRun;
      RankFalls(p, s, a);
      StepLive(p, s, a);
      StepSpares(p, s, a, x);
      var run1, acts1, s1 := Extend(p, run, acts, a);
      run, acts, s := Onward(p, run1, acts1, x);
    }
  }

  /** The write that `x` executes has not executed. */
  ghost predicate Spares(p: Params, s: State, x: Action)
  {
    && (x.SendNic? ==> p.count >= 2 && x.i == 1 + 2 * (p.count - 2) && Data(p.count - 2) !in s.snd.done)
    && (x.RecvNic? ==> p.count >= 2 && x.i == p.count - 2 && Ack(p.count - 2) !in s.rcv.done)
  }

  lemma StepSpares(p: Params, s: State, a: Action, x: Action)
    requires Inv(p, s) && Spares(p, s, x) && Enabled(p, s, a) && a != x
    ensures Spares(p, Apply(p, s, a), x)
  {
    hide SendCells, RecvCells, Agreed, Flow, Put, Slice, SendCan, RecvCan;
    match a {
      case SendDo(b) => SendDoneSame(p, s.snd, b);
      case RecvDo(b) =>
      case SendNic(i) => assert SendWrOk(p, i, s.snd.posted[i]);
      case RecvNic(i) => assert s.rcv.posted[i].op == Ack(i);
    }
  }

  // ---- what has executed when only `x` is left -------------------------------

  lemma {:induction false} HeadOfQueue(posted: seq<Wr>, done: set<Op>, i: nat) returns (j: nat)
    requires i < |posted| && posted[i].op !in done
    ensures j <= i && posted[j].qp == posted[i].qp && NicReady(posted, done, j)
  {
    if k: nat :| k < i && posted[k].qp == posted[i].qp && posted[k].op !in done {
      j := HeadOfQueue(posted, done, k);
    } else {
      j := i;
    }
  }

  lemma NextQpDiffers(k: nat, qps: nat)
    requires qps >= 2
    ensures QpOf(k, qps) != QpOf(k + 1, qps)
  {
    StepMod(k, qps);
  }

  /** The sender's writes have, but for the spared chunk's. */
  lemma SendExecuted(p: Params, s: State, x: Action, w: Op)
    requires Inv(p, s) && Spares(p, s, x) && Only(p, s, x) && !s.rcv.pc.RIdle? && OpPosted(p, s.snd.pc, w)
    requires x.SendNic? ==> p.sendQps >= 2 && w != Data(p.count - 2) && w != Flag(p.count - 2)
    ensures w in s.snd.done
  {
    hide SendCells, RecvCells, Agreed, Flow, SendCan, RecvCan, QpOf, RecvShape;
    var t := s.snd;
    if w !in t.done {
      var i := IndexOf(p, t, w);
      var j := HeadOfQueue(t.posted, t.done, i);
      assert SendWrOk(p, i, t.posted[i]) && SendWrOk(p, j, t.posted[j]);
      assert Enabled(p, s, SendNic(j));
      assert x == SendNic(j);
      NextQpDiffers(p.count - 2, p.sendQps);
      assert false;
    }
  }

  lemma RecvExecuted(p: Params, s: State, x: Action, k: nat)
    requires Inv(p, s) && Spares(p, s, x) && Only(p, s, x) && k < |s.rcv.posted|
    requires s.rcv.count == p.count
    requires x.RecvNic? ==> p.recvQps >= 2 && k != p.count - 2
    ensures Ack(k) in s.rcv.done
  {
    hide SendCells, RecvCells, Flow, SendCan, RecvCan, QpOf, SendShape;
    var t := s.rcv;
    if Ack(k) !in t.done {
      var j := HeadOfQueue(t.posted, t.done, k);
      assert Enabled(p, s, RecvNic(j));
      assert x == RecvNic(j);
      NextQpDiffers(p.count - 2, p.recvQps);
      assert false;
    }
  }

  /** What each side still waits for has completed. */
  lemma SendPendingDone(p: Params, s: State, x: Action)
    requires Inv(p, s) && Waits(p, s) && SendSignals(s.snd) && Spares(p, s, x) && Only(p, s, x) && !s.rcv.pc.RIdle?
    requires x.SendNic? ==> p.sendQps >= 2 && !Sure(p.sendQps, p.sendInterval, p.count)
    ensures Completed(s.snd.pending, s.snd.cq)
  {
    hide SendCells, RecvCells, Agreed, Flow, RecvWaits, RecvShape, Enabled;
    forall w | w in s.snd.pending ensures w in s.snd.cq {
      SendExecuted(p, s, x, w);
    }
  }

  lemma RecvPendingDone(p: Params, s: State, x: Action)
    requires Inv(p, s) && Waits(p, s) && RecvSignals(s.rcv) && Spares(p, s, x) && Only(p, s, x) && Looping(s.rcv.pc)
    requires s.rcv.count == p.count
    requires x.RecvNic? ==> p.recvQps >= 2 && !Sure(p.recvQps, p.recvInterval, p.count)
    ensures Completed(s.rcv.pending, s.rcv.cq)
  {
    hide SendCells, RecvCells, Agreed, Flow, SendWaits, SendShape, Enabled;
    forall w | w in s.rcv.pending ensures w in s.rcv.cq {
      RecvExecuted(p, s, x, w.k);
    }
  }

  // ---- who has returned ------------------------------------------------------

  /** Everything that holds at the end of such a run. */
  ghost predicate Ended(p: Params, s: State, x: Action)
  {
    && p.Wf() && Inv(p, s) && Waits(p, s) && SendSignals(s.snd) && RecvSignals(s.rcv) && Live(s)
    && Spares(p, s, x) && Only(p, s, x) && s.rcv.count == p.count && (x.SendNic? || x.RecvNic?)
    && (x.SendNic? ==> p.sendQps >= 2 && !Sure(p.sendQps, p.sendInterval, p.count))
    && (x.RecvNic? ==> p.recvQps >= 2 && !Sure(p.recvQps, p.recvInterval, p.count))
  }

  /** The sender has returned, or waits for an ack that is not there. */
  lemma SenderEnds(p: Params, s: State, x: Action)
    requires Ended(p, s, x)
    ensures s.snd.pc.SDone? || (s.snd.pc.SSpin? && 2 <= s.snd.pc.k < p.count && Ack(s.snd.pc.k - 2) !in s.rcv.done)
  {
    hide RecvCells, Flow, Waits, SendWrOk, Doomed, RecvShape, RecvSignals;
    SendPendingDone(p, s, x);
    BlockThere(p, s);
    var t := s.snd;
    assert OpPosted(p, t.pc, Block);
    assert !Enabled(p, s, SendDo(SendNext(p, t)));
    assert t.pc.SSpin? && t.pc.k >= 2 ==> t.cells.Get(t.pc.k) == t.cells.Get(t.pc.k - 2);
  }

  /** The receiver has returned, or waits for a flag that is not there. */
  lemma ReceiverEnds(p: Params, s: State, x: Action)
    requires Ended(p, s, x)
    ensures s.rcv.pc.RDone? || (s.rcv.pc.RSpin? && s.rcv.pc.k < p.count && Flag(s.rcv.pc.k) !in s.snd.done)
  {
    hide RecvCells, SendCells, Flow, Waits, SendWrOk, SendShape, SendSignals, Agreed;
    RecvPendingDone(p, s, x);
    var t := s.rcv;
    assert !Enabled(p, s, RecvDo(RecvNext(t)));
  }

  lemma SenderReturns(p: Params, s: State, i: nat)
    requires Ended(p, s, SendNic(i))
    ensures s.snd.pc.SDone? && Data(p.count - 2) !in s.snd.done
  {
    var x := SendNic(i);
    hide Ended, Inv;
    SenderEnds(p, s, x);
    ReceiverEnds(p, s, x);
    if !s.snd.pc.SDone? {
      SendersAck(p, s, x);
    }
    EndedSpares(p, s, x);
  }

  lemma EndedSpares(p: Params, s: State, x: Action)
    requires Ended(p, s, x)
    ensures Spares(p, s, x)
  {
  }

  /** The ack the sender waits for is on its way, since the flag it answers has landed. */
  lemma SendersAck(p: Params, s: State, x: Action)
    requires Ended(p, s, x) && x.SendNic? && s.snd.pc.SSpin? && 2 <= s.snd.pc.k < p.count
    requires s.rcv.pc.RDone? || (s.rcv.pc.RSpin? && s.rcv.pc.k < p.count && Flag(s.rcv.pc.k) !in s.snd.done)
    ensures Ack(s.snd.pc.k - 2) in s.rcv.done
  {
    hide SendCells, RecvCells, Flow, Waits, SendWrOk, SendSignals, RecvSignals, Doomed, Enabled, Only;
    var k := s.snd.pc.k;
    if s.rcv.pc.RSpin? && s.rcv.pc.k <= k - 2 {
      SendExecuted(p, s, x, Flag(s.rcv.pc.k));
      assert false;
    }
    RecvExecuted(p, s, x, k - 2);
  }

  lemma ReceiverReturns(p: Params, s: State, i: nat)
    requires Ended(p, s, RecvNic(i))
    ensures s.rcv.pc.RDone? && Ack(p.count - 2) !in s.rcv.done
  {
    var x := RecvNic(i);
    hide Ended, Inv;
    SenderEnds(p, s, x);
    ReceiverEnds(p, s, x);
    if !s.rcv.pc.RDone? {
      ReceiversFlag(p, s, x);
    }
    EndedSpares(p, s, x);
  }

  lemma ReceiversFlag(p: Params, s: State, x: Action)
    requires Ended(p, s, x) && x.RecvNic? && s.rcv.pc.RSpin? && s.rcv.pc.k < p.count
    requires s.snd.pc.SDone? || (s.snd.pc.SSpin? && 2 <= s.snd.pc.k < p.count && Ack(s.snd.pc.k - 2) !in s.rcv.done)
    ensures Flag(s.rcv.pc.k) in s.snd.done
  {
    hide SendCells, RecvCells, Flow, Waits, SendWrOk, SendSignals, RecvSignals, Doomed, Enabled, Only;
    var j := s.rcv.pc.k;
    if s.snd.pc.SSpin? && s.snd.pc.k <= j {
      RecvExecuted(p, s, x, s.snd.pc.k - 2);
      assert false;
    }
    SendExecuted(p, s, x, Flag(j));
  }

  // ---- the two theorems ------------------------------------------------------

  /** From the top of both loops to the end, without `x`. */
  lemma SparingRun(p: Params, x: Action) returns (run: seq<State>, acts: seq<Action>, s: State)
    requires p.Wf() && p.Accepted() && |p.input| <= p.capacity && p.count >= 2
    requires x == SendNic(1 + 2 * (p.count - 2)) || x == RecvNic(p.count - 2)
    requires x.SendNic? ==> p.sendQps >= 2 && !Sure(p.sendQps, p.sendInterval, p.count)
    requires x.RecvNic? ==> p.recvQps >= 2 && !Sure(p.recvQps, p.recvInterval, p.count)
    ensures IsRun(p, run, acts) && |run| > 0 && run[|run| - 1] == s && Ended(p, s, x)
  {
    hide IsRun, Inv, Waits, SendSignals, RecvSignals, Only, Params.Wf, Sure;
    run, acts, s := Bootstrap(p);
    assert Spares(p, s, x);
    assert Live(s);
    run, acts, s := Onward(p, run, acts, x);
    var n := |run| - 1;
    RunWaits(p, run, acts, n);
    RunSignals(p, run, acts, n);
    LoopCount(p, s);
  }

  lemma LoopCount(p: Params, s: State)
    requires Inv(p, s) && Looping(s.rcv.pc)
    ensures s.rcv.count == p.count
  {
  }

  /** SUCCESS of `uhm_send` means that all its writes have executed. */
  ghost predicate SendVouches(p: Params)
  {
    forall run: seq<State>, acts: seq<Action>, n: nat | IsRun(p, run, acts) && n < |run| && run[n].snd.pc.SDone? ::
      forall j: nat | j < p.count :: Data(j) in run[n].snd.done && Flag(j) in run[n].snd.done
  }

  /**
   Exactly when it does: at most one chunk, one queue pair, or an interval that
   divides the chunk count minus one.
   */
  lemma SendVouchesExactly(p: Params)
    requires p.Wf() && p.Accepted() && |p.input| <= p.capacity
    ensures SendVouches(p) <==> Sure(p.sendQps, p.sendInterval, p.count)
  {
    hide IsRun, Params.Wf;
    if Sure(p.sendQps, p.sendInterval, p.count) {
      forall run: seq<State>, acts: seq<Action>, n: nat | IsRun(p, run, acts) && n < |run| && run[n].snd.pc.SDone?
        ensures forall j: nat | j < p.count :: Data(j) in run[n].snd.done && Flag(j) in run[n].snd.done
      {
        forall j: nat | j < p.count ensures Data(j) in run[n].snd.done && Flag(j) in run[n].snd.done {
          SendReturned(p, run, acts, n, j);
        }
      }
    } else {
      hide Ended;
      var i := 1 + 2 * (p.count - 2);
      var run, acts, s := SparingRun(p, SendNic(i));
      SenderReturns(p, s, i);
      assert run[|run| - 1].snd.pc.SDone? && Data(p.count - 2) !in run[|run| - 1].snd.done;
    }
  }

  ghost predicate RecvVouches(p: Params)
  {
    forall run: seq<State>, acts: seq<Action>, n: nat | IsRun(p, run, acts) && n < |run| && run[n].rcv.pc.RDone? ::
      forall j: nat | j < p.count :: Ack(j) in run[n].rcv.done
  }

  /** The same for `uhm_recv` and its acks. */
  lemma RecvVouchesExactly(p: Params)
    requires p.Wf() && p.Accepted() && |p.input| <= p.capacity
    ensures RecvVouches(p) <==> Sure(p.recvQps, p.recvInterval, p.count)
  {
    hide IsRun, Params.Wf;
    if Sure(p.recvQps, p.recvInterval, p.count) {
      forall run: seq<State>, acts: seq<Action>, n: nat | IsRun(p, run, acts) && n < |run| && run[n].rcv.pc.RDone?
        ensures forall j: nat | j < p.count :: Ack(j) in run[n].rcv.done
      {
        forall j: nat | j < p.count ensures Ack(j) in run[n].rcv.done {
          RecvReturned(p, run, acts, n, j);
        }
      }
    } else {
      hide Ended;
      var run, acts, s := SparingRun(p, RecvNic(p.count - 2));
      ReceiverReturns(p, s, p.count - 2);
      assert run[|run| - 1].rcv.pc.RDone? && Ack(p.count - 2) !in run[|run| - 1].rcv.done;
    }
  }
}
