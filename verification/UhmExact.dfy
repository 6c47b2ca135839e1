/**
 Exactly when the UHM transfer delivers the payload. The refill in `uhm_send`
 does not wait for the write out of that half, so with three chunks or more any
 sender setting above 1 admits a run that hands the caller wrong bytes.
 */
module UhmExact {
  import opened Arith
  import opened Bytes
  import opened UhmPlan
  import opened UhmProtocol
  import opened UhmFlow
  import opened UhmBytes

  /** Nothing is ever copied out: the call is refused, or the first chunk does not fit. */
  predicate NothingOut(p: Params) { !p.Accepted() || p.capacity < p.Size(0) }

  /** What a caller can check before the call; it does not mention the payload's bytes. */
  predicate BytesSafe(p: Params)
  {
    || p.count <= 2
    || (Window(p.sendInterval) == 1 && Window(p.sendPending) == 1)
    || NothingOut(p)
  }

  /** In every run, for every payload of this length, a prefix is handed out. */
  ghost predicate AlwaysPrefix(p: Params)
  {
    forall input: seq<byte>, run: seq<State>, acts: seq<Action>, n: nat
      | |input| == |p.input| && IsRun(p.(input := input), run, acts) && n < |run| ::
      run[n].rcv.out <= input
  }

  // ---- the good direction --------------------------------------------------

  lemma CountedStep(p: Params, s: State, a: Action)
    requires p.Wf() && Inv(p, s) && Counted(p, s.rcv) && Enabled(p, s, a)
    ensures Counted(p, Apply(p, s, a).rcv)
  {
    hide Params.Wf, SendShape, SendCells, RecvCells, Holds, Covered, Flow, Put, Params.Size;
    if a == RecvDo(CopyOut) {
      CopyFacts(p, s);
      CopyExtends(p, s.rcv.out, s.rcv.pc.k, s.rcv.buf);
    } else {
      var t' := Apply(p, s, a).rcv;
      assert t'.out == s.rcv.out && Copied(t') == Copied(s.rcv);
    }
  }

  lemma {:induction false} RunCounted(p: Params, run: seq<State>, acts: seq<Action>, n: nat)
    requires IsRun(p, run, acts) && n < |run|
    ensures Inv(p, run[n]) && Counted(p, run[n].rcv)
  {
    hide Inv, Enabled, Apply;
    RunInv(p, run, acts, n);
    if n == 0 {
      assert Covered(p, 0) == 0;
    } else {
      hide Counted;
      RunInv(p, run, acts, n - 1);
      RunCounted(p, run, acts, n - 1);
      CountedStep(p, run[n - 1], acts[n - 1]);
    }
  }

  lemma NothingOutStays(p: Params, run: seq<State>, acts: seq<Action>, n: nat)
    requires IsRun(p, run, acts) && n < |run| && NothingOut(p)
    ensures run[n].rcv.out == []
  {
    hide IsRun, RecvShape, SendShape, SendCells, RecvCells;
    RunInv(p, run, acts, n);
    RunCounted(p, run, acts, n);
    var s := run[n];
    var k := Copied(s.rcv);
    if k > 0 {
      BlockIsAccepted(p, s);
      MulLe(1, k, p.chunk);
    }
  }

  // ---- the bad direction ---------------------------------------------------

  lemma Extend(p: Params, run: seq<State>, acts: seq<Action>, a: Action)
    returns (run': seq<State>, acts': seq<Action>, s': State)
    requires IsRun(p, run, acts) && Enabled(p, run[|run| - 1], a)
    ensures IsRun(p, run', acts') && |run'| > 0
    ensures s' == Apply(p, run[|run| - 1], a) && run'[|run'| - 1] == s'
  {
    hide Enabled, Apply, Init;
    s' := Apply(p, run[|run| - 1], a);
    run', acts' := run + [s'], acts + [a];
    forall i | 0 <= i < |acts'| ensures Enabled(p, run'[i], acts'[i]) && run'[i + 1] == Apply(p, run'[i], acts'[i]) {
      if i < |acts| {
        assert run'[i] == run[i] && run'[i + 1] == run[i + 1] && acts'[i] == acts[i];
      }
    }
  }

  /** The receiver has re-armed and waits for chunk 0. */
  predicate Waiting(p: Params, t: Receiver)
  {
    && t.pc == RSpin(0) && t.cells == Cells(CanWrite, CanWrite) && t.out == []
    && t.total == |p.input| && t.chunk == p.chunk && t.count == p.count
    && |t.buf| == p.bufferSize && t.posted == [] && t.done == {} && t.pending == []
  }

  /** A sender at the top of its loop with only the block behind it. */
  predicate AtTop(p: Params, t: Sender)
  {
    && t.pc == SSpin(0) && t.cells == Cells(CanWrite, CanWrite)
    && t.posted == [Wr(Block, 0, true)] && t.done == {Block}
    && t.pending == [] && t.since == 0 && |t.buf| == p.bufferSize
  }

  /** Both calls made, the block posted. */
  lemma BothCall(p: Params) returns (run: seq<State>, acts: seq<Action>, s: State)
    requires p.Wf() && p.Accepted()
    ensures IsRun(p, run, acts) && |run| > 0 && run[|run| - 1] == s
    ensures s.snd.pc == SPrefill && s.snd.cells == Cells(CanWrite, CanWrite)
    ensures s.snd.length == |p.input| && s.snd.chunkBytes == p.chunk && |s.snd.buf| == p.bufferSize
    ensures s.snd.posted == [Wr(Block, 0, true)] && s.snd.done == {} && s.snd.cq == {}
    ensures s.snd.pending == [] && s.snd.since == 0
    ensures s.rcv.pc == RWaitBlock && s.rcv.out == []
    ensures |s.rcv.buf| == p.bufferSize && s.rcv.posted == [] && s.rcv.done == {} && s.rcv.pending == []
  {
    hide IsRun, CeilDiv, Params.Wf;
    var z := seq(p.bufferSize, _ => 0 as byte);
    var c := Cells(CanWrite, CanWrite);
    s := State(Sender(SIdle, c, 0, 0, z, [], {}, {}, [], 0),
               Receiver(RIdle, c, 0, 0, z, [], 0, 0, 0, [], {}, {}, [], 0));
    run, acts := [s], [];
    FirstState(p, s);
    run, acts, s := Extend(p, run, acts, RecvDo(Arm));
    run, acts, s := Extend(p, run, acts, SendDo(Start));
  }

  /** The block crosses. */
  lemma SendBlock(p: Params) returns (run: seq<State>, acts: seq<Action>, s: State)
    requires p.Wf() && p.Accepted()
    ensures IsRun(p, run, acts) && |run| > 0 && run[|run| - 1] == s
    ensures AtTop(p, s.snd)
    ensures s.rcv.pc == RWaitBlock && s.rcv.cells == Cells(CanWrite, CanWrite) && s.rcv.out == []
    ensures s.rcv.length == |p.input| && s.rcv.chunkBytes == p.chunk
    ensures |s.rcv.buf| == p.bufferSize && s.rcv.posted == [] && s.rcv.done == {} && s.rcv.pending == []
  {
    hide IsRun, CeilDiv, Params.Wf, Put, Slice, Params.InputChunk;
    run, acts, s := BothCall(p);
    run, acts, s := Extend(p, run, acts, SendDo(Prefill));
    run, acts, s := Extend(p, run, acts, SendNic(0));
    run, acts, s := Extend(p, run, acts, SendDo(BlockWait));
  }

  /** Up to the top of both loops. */
  lemma Bootstrap(p: Params) returns (run: seq<State>, acts: seq<Action>, s: State)
    requires p.Wf() && p.Accepted()
    ensures IsRun(p, run, acts) && |run| > 0 && run[|run| - 1] == s
    ensures Waiting(p, s.rcv) && AtTop(p, s.snd)
  {
    hide IsRun, CeilDiv, Params.Wf, RecvChunk, AtTop;
    BlockReading(p);
    run, acts, s := SendBlock(p);
    run, acts, s := Extend(p, run, acts, RecvDo(ReadBlock));
    run, acts, s := Extend(p, run, acts, RecvDo(Rearm0));
    run, acts, s := Extend(p, run, acts, RecvDo(Rearm1));
  }

  lemma BlockReading(p: Params)
    requires p.Wf() && p.Accepted()
    ensures RecvChunk(p.chunk, p.half) == p.chunk && CeilDiv(|p.input|, p.chunk) == p.count
  {
    SplitAgreement(p);
  }

  lemma FirstState(p: Params, s: State)
    requires Init(p, s)
    ensures IsRun(p, [s], [])
  {
  }

  /** One iteration with no NIC step. */
  lemma Iterate0(p: Params, run0: seq<State>, acts0: seq<Action>, s0: State)
    returns (run: seq<State>, acts: seq<Action>, s: State)
    requires IsRun(p, run0, acts0) && |run0| > 0 && run0[|run0| - 1] == s0
    requires p.count >= 3 && !DrainsEach(p) && AtTop(p, s0.snd)
    ensures IsRun(p, run, acts) && |run| > 0 && run[|run| - 1] == s
    ensures s.rcv == s0.rcv && s.snd.done == {Block} && s.snd.pc == SSpin(1)
    ensures |s.snd.posted| == 3 && s.snd.posted[0] == Wr(Block, 0, true)
    ensures s.snd.posted[1] == Wr(Data(0), 0, false)
    ensures s.snd.posted[2].op == Flag(0) && s.snd.posted[2].qp == 0
    ensures s.snd.cells == Cells(CanRead, CanWrite) && |s.snd.buf| == p.bufferSize
  {
    hide IsRun, Put, Slice, Params.InputChunk;
    run, acts, s := Extend(p, run0, acts0, SendDo(PostData));
    run, acts, s := Extend(p, run, acts, SendDo(MarkHalf));
    run, acts, s := Extend(p, run, acts, SendDo(PostFlag));
    assert |s.snd.pending| < Window(p.sendPending);
    run, acts, s := Extend(p, run, acts, SendDo(Refill));
    run, acts, s := Extend(p, run, acts, SendDo(DrainFlags));
  }

  /** Two iterations with no NIC step: the refill overtakes the write of chunk 0. */
  lemma Overtake(p: Params, run0: seq<State>, acts0: seq<Action>, s0: State)
    returns (run: seq<State>, acts: seq<Action>, s: State, buf: seq<byte>)
    requires IsRun(p, run0, acts0) && |run0| > 0 && run0[|run0| - 1] == s0
    requires p.count >= 3 && !DrainsEach(p) && AtTop(p, s0.snd)
    ensures IsRun(p, run, acts) && |run| > 0 && run[|run| - 1] == s
    ensures s.rcv == s0.rcv && s.snd.done == {Block}
    ensures |s.snd.posted| == 5 && s.snd.posted[0] == Wr(Block, 0, true)
    ensures s.snd.posted[1] == Wr(Data(0), 0, false)
    ensures s.snd.posted[2].op == Flag(0) && s.snd.posted[2].qp == 0
    ensures s.snd.cells == Cells(CanRead, CanRead)
    ensures |buf| == p.bufferSize && s.snd.buf == Put(buf, 0, p.InputChunk(2))
  {
    hide IsRun, Put, Slice, Params.InputChunk;
    run, acts, s := Iterate0(p, run0, acts0, s0);
    run, acts, s := Extend(p, run, acts, SendDo(PostData));
    run, acts, s := Extend(p, run, acts, SendDo(MarkHalf));
    run, acts, s := Extend(p, run, acts, SendDo(PostFlag));
    buf := s.snd.buf;
    run, acts, s := Extend(p, run, acts, SendDo(Refill));
  }

  lemma LateValue(p: Params, buf: seq<byte>, rbuf: seq<byte>)
    requires p.Wf() && p.Accepted() && p.count >= 3 && |buf| == |rbuf| == p.bufferSize
    ensures RecvSize(|p.input|, p.count, p.chunk, 0, 0) == p.Size(0) >= 1
    ensures p.Off(2) < |p.input|
    ensures var late := Slice(Put(rbuf, 0, Slice(Put(buf, 0, p.InputChunk(2)), 0, p.Size(0))), 0, p.Size(0));
            |late| > 0 && late[0] == p.input[p.Off(2)]
  {
    ChunkRange(p, 0);
    ChunkRange(p, 2);
    ChunkFacts(p, 0);
    ChunkFacts(p, 2);
    CoveredStep(p, 0);
    SplitAgreement(p);
    var staged := Put(buf, 0, p.InputChunk(2));
    PutAt(buf, 0, p.InputChunk(2), 0);
    PutSame(rbuf, 0, Slice(staged, 0, p.Size(0)));
  }

  /** Chunk 0 is then read late, flagged and handed out: it starts with chunk 2. */
  lemma LateRead(p: Params, run0: seq<State>, acts0: seq<Action>, s0: State, buf: seq<byte>)
    returns (run: seq<State>, acts: seq<Action>, s: State)
    requires p.Wf() && p.Accepted() && p.count >= 3 && p.capacity >= p.Size(0)
    requires IsRun(p, run0, acts0) && |run0| > 0 && run0[|run0| - 1] == s0
    requires Waiting(p, s0.rcv) && s0.snd.done == {Block}
    requires |s0.snd.posted| == 5 && s0.snd.posted[0] == Wr(Block, 0, true)
    requires s0.snd.posted[1] == Wr(Data(0), 0, false)
    requires s0.snd.posted[2].op == Flag(0) && s0.snd.posted[2].qp == 0
    requires s0.snd.cells == Cells(CanRead, CanRead)
    requires |buf| == p.bufferSize && s0.snd.buf == Put(buf, 0, p.InputChunk(2))
    ensures IsRun(p, run, acts) && |run| > 0 && run[|run| - 1] == s
    ensures p.Off(2) < |p.input| && |s.rcv.out| > 0 && s.rcv.out[0] == p.input[p.Off(2)]
  {
    hide IsRun, Params.Wf, CeilDiv, Put, Slice, Params.Off, Params.Size, Params.InputChunk, RecvSize;
    LateValue(p, buf, s0.rcv.buf);
    run, acts, s := Extend(p, run0, acts0, SendNic(1));
    assert s.rcv == s0.rcv.(buf := Put(s0.rcv.buf, 0, Slice(s0.snd.buf, 0, p.Size(0))));
    run, acts, s := Extend(p, run, acts, SendNic(2));
    assert s.rcv.cells.Get(0) == CanRead;
    run, acts, s := Extend(p, run, acts, RecvDo(CopyOut));
    assert s.rcv.out == [] + Slice(Put(s0.rcv.buf, 0, Slice(s0.snd.buf, 0, p.Size(0))), 0, p.Size(0));
  }

  /** A payload whose first byte differs from all others, as long as `p.input`. */
  function Marked01(len: nat): seq<byte> { seq(len, i => if i == 0 then 1 as byte else 0 as byte) }

  lemma WrongBytes(p: Params)
    requires p.Wf() && !BytesSafe(p)
    ensures !AlwaysPrefix(p)
  {
    hide IsRun;
    var q := p.(input := Marked01(|p.input|));
    assert q.Wf() && q.Accepted() && q.Size(0) == p.Size(0);
    var run, acts, s := Bootstrap(q);
    var buf: seq<byte>;
    run, acts, s, buf := Overtake(q, run, acts, s);
    run, acts, s := LateRead(q, run, acts, s, buf);
    assert q.Off(2) > 0;
    assert !(run[|run| - 1].rcv.out <= q.input);
    assert IsRun(p.(input := q.input), run, acts);
  }

  /** The bytes are right in every run if and only if the settings are safe. */
  lemma BytesExact(p: Params)
    requires p.Wf()
    ensures AlwaysPrefix(p) <==> BytesSafe(p)
  {
    hide IsRun;
    if BytesSafe(p) {
      forall input: seq<byte>, run: seq<State>, acts: seq<Action>, n: nat
        | |input| == |p.input| && IsRun(p.(input := input), run, acts) && n < |run|
        ensures run[n].rcv.out <= input
      {
        var q := p.(input := input);
        if NothingOut(p) {
          assert NothingOut(q);
          NothingOutStays(q, run, acts, n);
        } else {
          EndToEnd(q, run, acts, n);
        }
      }
    } else {
      WrongBytes(p);
    }
  }
}
