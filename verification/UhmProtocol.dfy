/**
 The UHM double-buffered transfer as a transition system with four actors: the
 thread in `uhm_send`, the thread in `uhm_recv`, and the NIC of either peer.

 A posted RDMA write goes to the end of `posted`; it may execute once every
 earlier write on its queue pair has executed (each QP is a FIFO, different QPs
 are unordered). It reads its source when it executes, and, if signaled, then
 puts a completion in the completion queue. A request is named by what it carries
 (`next_wr_id_` only grows, so a wr_id names one request). The spinning of either thread is not a step.
 */
module UhmProtocol {
  import opened Arith
  import opened Bytes
  import opened UhmPlan

  datatype Mark = CanWrite | CanRead

  /** `uhm_buffer_state.state`, indexed by chunk number modulo 2. */
  datatype Cells = Cells(c0: Mark, c1: Mark) {
    function Get(k: nat): Mark { if k % 2 == 0 then c0 else c1 }
    function Set(k: nat, m: Mark): (r: Cells)
      ensures forall j: nat :: r.Get(j) == if j % 2 == k % 2 then m else Get(j)
    {
      if k % 2 == 0 then this.(c0 := m) else this.(c1 := m)
    }
  }

  datatype Op = Block | Data(k: nat) | Flag(k: nat) | Ack(k: nat)

  datatype Wr = Wr(op: Op, qp: nat, signaled: bool)

  datatype SendPc =
    | SIdle            // before the call
    | SRefused(ok: bool) // returned before posting anything, with SUCCESS or ERROR
    | SPrefill         // state block posted
    | SBlockWait       // first half staged
    | SSpin(k: nat)    // top of the loop, current_chunk == k
    | SMark(k: nat)    // data posted
    | SFlag(k: nat)    // cell set to CAN_READ
    | SRefill(k: nat)  // flag posted
    | SDrain(k: nat)   // next half staged
    | SDone            // returned SUCCESS

  datatype RecvPc =
    | RIdle
    | RWaitBlock       // armed
    | RRearm0          // block read
    | RRearm1
    | RSpin(k: nat)    // top of the loop
    | RGrant(k: nat)   // chunk copied out
    | RAck(k: nat)     // cell set to CAN_WRITE
    | RDrain(k: nat)   // ack posted
    | RDone            // returned SUCCESS
    | RFailed          // returned ERROR

  datatype Sender = Sender(
    pc: SendPc, cells: Cells, length: nat, chunkBytes: nat, buf: seq<byte>,
    posted: seq<Wr>, done: set<Op>, cq: set<Op>, pending: seq<Op>, since: nat)

  datatype Receiver = Receiver(
    pc: RecvPc, cells: Cells, length: nat, chunkBytes: nat, buf: seq<byte>,
    out: seq<byte>, total: nat, chunk: nat, count: nat,
    posted: seq<Wr>, done: set<Op>, cq: set<Op>, pending: seq<Op>, since: nat)

  datatype State = State(snd: Sender, rcv: Receiver)

  datatype SendAct =
    | Start | Prefill | BlockWait | PostData | MarkHalf | PostFlag | Refill | DrainFlags | SendReturn

  datatype RecvAct =
    | Arm | ReadBlock | Rearm0 | Rearm1 | CopyOut | Grant | PostAck | DrainAcks | RecvReturn

  datatype Action = SendDo(send: SendAct) | RecvDo(recv: RecvAct) | SendNic(i: nat) | RecvNic(i: nat)

  /** Cells, buffers and the block may hold anything left by earlier use. */
  predicate Init(p: Params, s: State)
  {
    && p.Wf()
    && s.snd.pc == SIdle && s.rcv.pc == RIdle
    && |s.snd.buf| == |s.rcv.buf| == p.bufferSize
    && s.snd.posted == [] && s.snd.done == {} && s.snd.cq == {}
    && s.snd.pending == [] && s.snd.since == 0
    && s.rcv.posted == [] && s.rcv.done == {} && s.rcv.cq == {}
    && s.rcv.pending == [] && s.rcv.since == 0 && s.rcv.out == []
  }

  predicate Completed(pending: seq<Op>, cq: set<Op>)
  {
    forall w | w in pending :: w in cq
  }

  /** FIFO per queue pair: the head of its queue executes next. */
  predicate NicReady(posted: seq<Wr>, done: set<Op>, i: nat)
  {
    && i < |posted| && posted[i].op !in done
    && forall j | 0 <= j < i && posted[j].qp == posted[i].qp :: posted[j].op in done
  }

  function Window(setting: nat): nat { Max(1, setting) }

  /** Whether the flag of this chunk is posted signaled (612-614, 803-805). */
  predicate Signal(setting: nat, since: nat, last: bool)
  {
    Window(setting) <= 1 || last || since + 1 >= Window(setting)
  }

  function QpOf(k: nat, qps: nat): nat { k % Max(qps, 1) }

  // ---- the thread in uhm_send ----------------------------------------------

  predicate SendCan(p: Params, t: Sender, a: SendAct)
  {
    match a
    case Start => t.pc.SIdle?
    case Prefill => t.pc.SPrefill?
    case BlockWait => t.pc.SBlockWait? && Block in t.cq
    case PostData => t.pc.SSpin? && t.pc.k < p.count && t.cells.Get(t.pc.k) == CanWrite
    case MarkHalf => t.pc.SMark?
    case PostFlag => t.pc.SFlag?
    case Refill => t.pc.SRefill?
    case DrainFlags => t.pc.SDrain? && (|t.pending| >= Window(p.sendPending) ==> Completed(t.pending, t.cq))
    case SendReturn => t.pc.SSpin? && t.pc.k >= p.count && Completed(t.pending, t.cq)
  }

  function SendStep(p: Params, t: Sender, a: SendAct): Sender
    requires SendCan(p, t, a)
  {
    match a
    case Start =>
      if !p.Accepted() then t.(pc := SRefused(|p.input| == 0)) else
      t.(pc := SPrefill, cells := Cells(CanWrite, CanWrite), length := |p.input|,
         chunkBytes := p.chunk, posted := t.posted + [Wr(Block, 0, true)])
    case Prefill =>
      t.(pc := SBlockWait, buf := Put(t.buf, 0, p.InputChunk(0)))
    case BlockWait =>
      t.(pc := SSpin(0), cq := t.cq - {Block})
    case PostData =>
      t.(pc := SMark(t.pc.k), posted := t.posted + [Wr(Data(t.pc.k), QpOf(t.pc.k, p.sendQps), false)])
    case MarkHalf =>
      t.(pc := SFlag(t.pc.k), cells := t.cells.Set(t.pc.k, CanRead))
    case PostFlag =>
      var k := t.pc.k;
      var sig := Signal(p.sendInterval, t.since, k + 1 >= p.count);
      t.(pc := SRefill(k), posted := t.posted + [Wr(Flag(k), QpOf(k, p.sendQps), sig)],
         pending := if sig then t.pending + [Flag(k)] else t.pending,
         since := if sig then 0 else t.since + 1)
    case Refill =>
      var k := t.pc.k;
      t.(pc := SDrain(k),
         buf := if k + 1 < p.count then Put(t.buf, p.HalfOff(k + 1), p.InputChunk(k + 1)) else t.buf)
    case DrainFlags =>
      if |t.pending| >= Window(p.sendPending)
      then t.(pc := SSpin(t.pc.k + 1), pending := [], cq := t.cq - set w | w in t.pending)
      else t.(pc := SSpin(t.pc.k + 1))
    case SendReturn =>
      t.(pc := SDone, pending := [], cq := t.cq - set w | w in t.pending)
  }

  // ---- the thread in uhm_recv ----------------------------------------------

  predicate RecvCan(p: Params, t: Receiver, a: RecvAct)
  {
    match a
    case Arm => t.pc.RIdle?
    case ReadBlock => t.pc.RWaitBlock? && t.cells.c0 == CanWrite
    case Rearm0 => t.pc.RRearm0?
    case Rearm1 => t.pc.RRearm1?
    case CopyOut => t.pc.RSpin? && t.pc.k < t.count && t.cells.Get(t.pc.k) == CanRead
    case Grant => t.pc.RGrant?
    case PostAck => t.pc.RAck?
    case DrainAcks => t.pc.RDrain? && (|t.pending| >= Window(p.recvPending) ==> Completed(t.pending, t.cq))
    case RecvReturn => t.pc.RSpin? && t.pc.k >= t.count && Completed(t.pending, t.cq)
  }

  function RecvStep(p: Params, t: Receiver, a: RecvAct): Receiver
    requires RecvCan(p, t, a)
  {
    match a
    case Arm =>
      if p.half == 0 then t.(pc := RFailed) else
      t.(pc := RWaitBlock, cells := Cells(CanRead, CanRead), length := 0, chunkBytes := 0)
    case ReadBlock =>
      if t.length == 0 then t.(pc := RFailed, total := 0) else
      var c := RecvChunk(t.chunkBytes, p.half);
      t.(pc := RRearm0, total := t.length, chunk := c, count := CeilDiv(t.length, c))
    case Rearm0 =>
      t.(pc := RRearm1, cells := t.cells.Set(0, CanWrite))
    case Rearm1 =>
      t.(pc := RSpin(0), cells := t.cells.Set(1, CanWrite))
    case CopyOut =>
      var k := t.pc.k;
      var size := RecvSize(t.total, t.count, t.chunk, |t.out|, k);
      if size == 0 || size > p.capacity || |t.out| + size > p.capacity
      then t.(pc := RFailed)
      else t.(pc := RGrant(k), out := t.out + Slice(t.buf, p.HalfOff(k), size))
    case Grant =>
      t.(pc := RAck(t.pc.k), cells := t.cells.Set(t.pc.k, CanWrite))
    case PostAck =>
      var k := t.pc.k;
      var sig := Signal(p.recvInterval, t.since, k + 1 >= t.count);
      t.(pc := RDrain(k), posted := t.posted + [Wr(Ack(k), QpOf(k, p.recvQps), sig)],
         pending := if sig then t.pending + [Ack(k)] else t.pending,
         since := if sig then 0 else t.since + 1)
    case DrainAcks =>
      if |t.pending| >= Window(p.recvPending)
      then t.(pc := RSpin(t.pc.k + 1), pending := [], cq := t.cq - set w | w in t.pending)
      else t.(pc := RSpin(t.pc.k + 1))
    case RecvReturn =>
      t.(pc := RDone, pending := [], cq := t.cq - set w | w in t.pending)
  }

  // ---- the two NICs --------------------------------------------------------

  /** The poster's side of an execution: done, and completed if signaled. */
  function SentBy(t: Sender, w: Wr): Sender
  {
    t.(done := t.done + {w.op}, cq := if w.signaled then t.cq + {w.op} else t.cq)
  }

  function AckedBy(t: Receiver, w: Wr): Receiver
  {
    t.(done := t.done + {w.op}, cq := if w.signaled then t.cq + {w.op} else t.cq)
  }

  /** What a sender's write does to the receiver; it reads its source now. */
  function Deliver(p: Params, from: Sender, t: Receiver, w: Op): Receiver
  {
    match w
    case Block => t.(cells := from.cells, length := from.length, chunkBytes := from.chunkBytes)
    case Data(k) => t.(buf := Put(t.buf, p.HalfOff(k), Slice(from.buf, p.HalfOff(k), p.Size(k))))
    case Flag(k) => t.(cells := t.cells.Set(k, from.cells.Get(k)))
    case Ack(_) => t
  }

  function DeliverAck(from: Receiver, t: Sender, w: Op): Sender
  {
    if w.Ack? then t.(cells := t.cells.Set(w.k, from.cells.Get(w.k))) else t
  }

  predicate Enabled(p: Params, s: State, a: Action)
  {
    match a
    case SendDo(b) => SendCan(p, s.snd, b)
    case RecvDo(b) => RecvCan(p, s.rcv, b)
    case SendNic(i) => NicReady(s.snd.posted, s.snd.done, i)
                       && (s.snd.posted[i].op.Block? ==> !s.rcv.pc.RIdle?)  // armed before the block lands
    case RecvNic(i) => NicReady(s.rcv.posted, s.rcv.done, i)
  }

  function Apply(p: Params, s: State, a: Action): State
    requires Enabled(p, s, a)
  {
    match a
    case SendDo(b) => State(SendStep(p, s.snd, b), s.rcv)
    case RecvDo(b) => State(s.snd, RecvStep(p, s.rcv, b))
    case SendNic(i) => var w := s.snd.posted[i]; State(SentBy(s.snd, w), Deliver(p, s.snd, s.rcv, w.op))
    case RecvNic(i) => var w := s.rcv.posted[i]; State(DeliverAck(s.rcv, s.snd, w.op), AckedBy(s.rcv, w))
  }

  /** A finite run: the states visited and the actions between them. */
  predicate IsRun(p: Params, run: seq<State>, acts: seq<Action>)
  {
    && |run| == |acts| + 1
    && Init(p, run[0])
    && forall i | 0 <= i < |acts| :: Enabled(p, run[i], acts[i]) && run[i + 1] == Apply(p, run[i], acts[i])
  }

  // ---- progress counters read off the program counters --------------------

  /** Chunks whose data write is posted. */
  function DataPosted(p: Params, pc: SendPc): nat
  {
    match pc
    case SSpin(k) => k
    case SMark(k) => k + 1
    case SFlag(k) => k + 1
    case SRefill(k) => k + 1
    case SDrain(k) => k + 1
    case SDone => p.count
    case _ => 0
  }

  /** Chunks whose cell is set to CAN_READ at the sender. */
  function Marked(p: Params, pc: SendPc): nat
  {
    if pc.SMark? then pc.k else DataPosted(p, pc)
  }

  /** Chunks whose flag write is posted. */
  function FlagPosted(p: Params, pc: SendPc): nat
  {
    if pc.SMark? || pc.SFlag? then pc.k else DataPosted(p, pc)
  }

  /** Chunks copied out of the receiver's buffer. */
  function Copied(r: Receiver): nat
  {
    match r.pc
    case RSpin(k) => k
    case RGrant(k) => k + 1
    case RAck(k) => k + 1
    case RDrain(k) => k + 1
    case RDone => r.count
    case RFailed => |r.posted|
    case _ => 0
  }

  /** Chunks whose half the receiver has given back in its own cell. */
  function Granted(r: Receiver): nat
  {
    if r.pc.RGrant? then r.pc.k else Copied(r)
  }

  predicate Started(pc: SendPc) { !pc.SIdle? && !pc.SRefused? }
}
