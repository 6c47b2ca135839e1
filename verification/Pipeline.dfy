/**
 `writeDataPipeline` and `readDataPipeline`: one transfer posted in chunks with
 selective signaling and a window of in-flight posts. The two differ only in
 which peer's memory is the source, so one `Channel` stands for both: `src` is
 read by the NIC, `dst` is written by it.
 */
module Pipeline {
  import opened Arith
  import opened Bytes

  datatype Status = Success | Error

  /** A posted request; its id is its position in the log. */
  datatype Wr = Wr(srcOff: nat, dstOff: nat, size: nat, qp: nat, signaled: bool)

  /** Environment settings, as read by envU32OrDefault. */
  datatype Env = Env(chunk: u32, inflight: u32, interval: u32)

  const DEFAULT_CHUNK: nat := 4 * 1024 * 1024

  function ChunkSize(arg: nat, env: Env): (c: nat)
    ensures c >= 1
  {
    var c := if arg == 0 then env.chunk else arg;
    if c == 0 then DEFAULT_CHUNK else c
  }

  function Inflight(arg: nat, env: Env): (w: nat)
    ensures w >= 1
  {
    var w := if arg == 0 then env.inflight else arg;
    if w == 0 then 32 else w
  }

  function Interval(w: nat, env: Env): (s: nat)
    requires w >= 1
    ensures 1 <= s <= w
  {
    Min(Max(1, env.interval), w)
  }

  // ---- the plan: which chunks are signaled, on which queue pair ------------

  predicate Signaled(i: nat, n: nat, s: nat)
    requires s >= 1
  {
    i + 1 == n || (i + 1) % s == 0
  }

  function QpOf(first: nat, i: nat, qps: nat): nat { if qps <= 1 then 0 else (first + i) % qps }

  /** FIFO per queue pair. */
  ghost predicate Closed(first: nat, qps: nat, done: set<nat>)
  {
    forall i: nat, j: nat | i < j && j in done && QpOf(first, i, qps) == QpOf(first, j, qps) :: i in done
  }

  /** Chunk `i` is signaled, or a later chunk on its queue pair is. */
  predicate Vouched(i: nat, n: nat, s: nat, first: nat, qps: nat)
    requires s >= 1
  {
    exists j | i <= j < n :: Signaled(j, n, s) && QpOf(first, i, qps) == QpOf(first, j, qps)
  }

  predicate EachVouched(n: nat, s: nat, first: nat, qps: nat)
    requires s >= 1
  {
    forall i: nat | i < n :: Vouched(i, n, s, first, qps)
  }

  /** What the NIC may have done when every signaled request of `n` has completed. */
  ghost predicate Outcome(n: nat, s: nat, first: nat, qps: nat, done: set<nat>)
    requires s >= 1
  {
    && Closed(first, qps, done)
    && (forall i | i in done :: i < n)
    && (forall i: nat | i < n && Signaled(i, n, s) :: i in done)
  }

  lemma VouchedDone(n: nat, s: nat, first: nat, qps: nat, done: set<nat>, i: nat)
    requires s >= 1 && Outcome(n, s, first, qps, done) && i < n && Vouched(i, n, s, first, qps)
    ensures i in done
  {
    var j :| i <= j < n && Signaled(j, n, s) && QpOf(first, i, qps) == QpOf(first, j, qps);
  }

  /** The settings under which every chunk is vouched for; the first queue pair does not matter. */
  predicate Settled(n: nat, s: nat, qps: nat)
    requires s >= 1
  {
    n <= 1 || qps <= 1 || s == 1 || (qps == 2 && (n - 1) % s == 0)
  }

  /**
   Waiting for the signaled requests waits for all of them, whatever the NIC
   does, if and only if the settings are settled: so three or more queue pairs
   with an interval above 1 fail for every transfer of two or more chunks.
   */
  lemma CompleteExactly(n: nat, s: nat, first: nat, qps: nat)
    requires s >= 1
    ensures (forall done: set<nat> | Outcome(n, s, first, qps, done) :: forall i: nat | i < n :: i in done)
       <==> Settled(n, s, qps)
  {
    hide Settled, Vouched;
    VouchedExactly(n, s, first, qps);
    if EachVouched(n, s, first, qps) {
      forall done: set<nat>, i: nat | Outcome(n, s, first, qps, done) && i < n ensures i in done {
        VouchedDone(n, s, first, qps, done, i);
      }
    } else {
      var i: nat :| i < n && !Vouched(i, n, s, first, qps);
      var done := Skipping(n, first, qps, i);
      SkippingIsOutcome(n, s, first, qps, i);
      assert i !in done;
    }
  }

  /** Everything except chunk `i` and what is queued behind it. */
  function Skipping(n: nat, first: nat, qps: nat, i: nat): set<nat>
  {
    set j: nat | j < n && (j < i || QpOf(first, i, qps) != QpOf(first, j, qps))
  }

  lemma SkippingIsOutcome(n: nat, s: nat, first: nat, qps: nat, i: nat)
    requires s >= 1 && i < n && !Vouched(i, n, s, first, qps)
    ensures Outcome(n, s, first, qps, Skipping(n, first, qps, i))
  {
  }

  /** Neighbours are on different queue pairs. */
  lemma NextQp(first: nat, i: nat, qps: nat)
    requires qps >= 2
    ensures QpOf(first, i, qps) != QpOf(first, i + 1, qps)
    ensures qps == 2 ==> QpOf(first, i, qps) == QpOf(first, i + 2, qps)
    ensures qps >= 3 ==> QpOf(first, i, qps) != QpOf(first, i + 2, qps)
  {
    StepMod(first + i, qps);
    StepMod(first + i + 1, qps);
  }

  /** With two queue pairs, chunks an even distance apart share theirs. */
  lemma {:induction false} SameParity(first: nat, i: nat, k: nat)
    ensures QpOf(first, i, 2) == QpOf(first, i + 2 * k, 2)
    decreases k
  {
    hide QpOf;
    if k > 0 {
      SameParity(first, i, k - 1);
      NextQp(first, i + 2 * (k - 1), 2);
    }
  }

  lemma SettledVouches(n: nat, s: nat, first: nat, qps: nat, i: nat)
    requires s >= 1 && Settled(n, s, qps) && i < n
    ensures Vouched(i, n, s, first, qps)
  {
    if s == 1 || i + 1 == n {
      assert Signaled(i, n, s);
    } else if qps <= 1 {
      assert Signaled(n - 1, n, s) && QpOf(first, i, qps) == QpOf(first, n - 1, qps);
    } else {
      var last := if (n - 1 - i) % 2 == 0 then n - 1 else n - 2;
      assert Signaled(n - 1, n, s) && Signaled(n - 2, n, s);
      SameParity(first, i, (last - i) / 2);
      assert QpOf(first, i, qps) == QpOf(first, last, qps);
    }
  }

  /** Otherwise the last chunk but one, or the one before it, has nothing signaled behind it. */
  lemma UnsettledMisses(n: nat, s: nat, first: nat, qps: nat) returns (i: nat)
    requires s >= 1 && !Settled(n, s, qps)
    ensures i < n && !Vouched(i, n, s, first, qps)
  {
    hide QpOf;
    NextQp(first, n - 2, qps);
    if (n - 1) % s != 0 {
      return n - 2;
    }
    assert n >= 3 by {
      if n == 2 { DivModUnique(1, s, 0, 1); }
    }
    NextQp(first, n - 3, qps);
    StepMod(n - 2, s);
    i := n - 3;
  }

  lemma VouchedExactly(n: nat, s: nat, first: nat, qps: nat)
    requires s >= 1
    ensures EachVouched(n, s, first, qps) <==> Settled(n, s, qps)
  {
    hide Settled, Vouched;
    if Settled(n, s, qps) {
      forall i: nat | i < n ensures Vouched(i, n, s, first, qps) {
        SettledVouches(n, s, first, qps, i);
      }
    } else {
      var i := UnsettledMisses(n, s, first, qps);
    }
  }

  // ---- bytes ---------------------------------------------------------------

  predicate Hits(w: Wr, x: nat) { w.dstOff <= x < w.dstOff + w.size }

  /** Executed requests have copied their range; other bytes are as before. */
  ghost predicate Copied(src: seq<byte>, dst0: seq<byte>, dst: seq<byte>, posted: seq<Wr>, done: set<nat>)
  {
    && |dst| == |dst0|
    && (forall i | i in done :: i < |posted|)
    && (forall i, x: nat | i in done && x < |dst| && Hits(posted[i], x) &&
                           x - posted[i].dstOff + posted[i].srcOff < |src| ::
          dst[x] == src[x - posted[i].dstOff + posted[i].srcOff])
    && (forall x: nat | x < |dst| && (forall i | i in done :: !Hits(posted[i], x)) :: dst[x] == dst0[x])
  }

  /** All requests shift by the same distance and stay in the ranges asked for. */
  ghost predicate OneShift(posted: seq<Wr>, srcOff: nat, dstOff: nat, size: nat)
  {
    forall i | 0 <= i < |posted| ::
      var w := posted[i];
      && srcOff <= w.srcOff && w.srcOff + w.size <= srcOff + size
      && w.dstOff == dstOff + (w.srcOff - srcOff)
  }

  lemma CopiedStep(src: seq<byte>, dst0: seq<byte>, dst: seq<byte>, posted: seq<Wr>, done: set<nat>, i: nat,
                   srcOff: nat, dstOff: nat, size: nat)
    requires Copied(src, dst0, dst, posted, done) && i < |posted|
    requires OneShift(posted, srcOff, dstOff, size) && srcOff + size <= |src| && dstOff + size <= |dst|
    ensures var w := posted[i];
      Copied(src, dst0, Put(dst, w.dstOff, Slice(src, w.srcOff, w.size)), posted, done + {i})
  {
    var w := posted[i];
    var data := Slice(src, w.srcOff, w.size);
    var dst' := Put(dst, w.dstOff, data);
    forall x: nat | x < |dst| ensures dst'[x] == if Hits(w, x) then src[x - w.dstOff + w.srcOff] else dst[x] {
      PutAt(dst, w.dstOff, data, x);
    }
    hide Put, Slice;
    forall x: nat | x < |dst| && (forall j | j in done + {i} :: !Hits(posted[j], x)) ensures dst'[x] == dst0[x] {
      assert i in done + {i};
      assert !Hits(w, x);
    }
  }

  /** A byte that no executed request hit is old; one that was hit is the source's. */
  lemma ByteIs(src: seq<byte>, dst0: seq<byte>, dst: seq<byte>, posted: seq<Wr>, done: set<nat>,
               srcOff: nat, dstOff: nat, size: nat, x: nat)
    requires Copied(src, dst0, dst, posted, done) && x < |dst|
    requires OneShift(posted, srcOff, dstOff, size) && srcOff + size <= |src| && dstOff + size <= |dst|
    ensures (exists i | i in done :: Hits(posted[i], x)) ==>
              dstOff <= x < dstOff + size && dst[x] == src[srcOff + (x - dstOff)]
    ensures !(exists i | i in done :: Hits(posted[i], x)) ==> dst[x] == dst0[x]
  {
    if i :| i in done && Hits(posted[i], x) {
      assert x - posted[i].dstOff + posted[i].srcOff == srcOff + (x - dstOff);
    }
  }

  // ---- arithmetic of chunks and windows ------------------------------------

  lemma ChunkOf(size: nat, c: nat, x: nat) returns (i: nat)
    requires c >= 1 && x < size
    ensures i < CeilDiv(size, c) && i * c <= x < i * c + Min(c, size - i * c)
  {
    i := x / c;
    assert x == i * c + x % c;
    PieceStarts(size, c, i);
  }

  /** A window that reaches its size contains a signaled request. */
  ghost function WindowSignal(base: nat, w: nat, s: nat, n: nat): (j: nat)
    requires 1 <= s <= w
    ensures base <= j < base + w && Signaled(j, n, s)
  {
    MultipleMod(base / s + 1, s);
    assert (base / s + 1) * s == base / s * s + s;
    assert base == base / s * s + base % s;
    base + (s - 1 - base % s)
  }

  /** Requests posted and not executed. */
  function Outstanding(n: nat, done: set<nat>): nat { |set i: nat | i < n && i !in done| }

  lemma {:induction false} OutstandingBound(n: nat, lo: nat, done: set<nat>)
    requires lo <= n && forall j: nat | j < lo :: j in done
    ensures Outstanding(n, done) <= n - lo
  {
    var u := set i: nat | i < n && i !in done;
    if n == lo {
      assert u == {};
    } else {
      OutstandingBound(n - 1, lo, done);
      var v := set i: nat | i < n - 1 && i !in done;
      if n - 1 in done {
        assert u == v;
      } else {
        assert u == v + {n - 1};
      }
    }
  }

  /** The deepest the send queue gets, for window `w` and interval `s` on one queue pair. */
  function Depth(w: nat, s: nat): int { w + s - Gcd(w, s) }

  /** The transfer the caller asked for. */
  datatype Job = Job(srcOff: nat, dstOff: nat, size: nat, c: nat, w: nat, s: nat, first: nat, dst0: seq<byte>) {
    predicate Ok(srcLen: nat)
    {
      c >= 1 && 1 <= s <= w && srcOff + size <= srcLen && dstOff + size <= |dst0|
    }
    function N(): nat requires c >= 1 { CeilDiv(size, c) }
  }

  /** The i-th request of a job. */
  predicate IsRequest(job: Job, qps: nat, i: nat, w: Wr)
    requires job.c >= 1 && job.s >= 1
  {
    && i * job.c < job.size
    && w.srcOff == job.srcOff + i * job.c && w.dstOff == job.dstOff + i * job.c
    && w.size == Min(job.c, job.size - i * job.c)
    && w.qp == QpOf(job.first, i, qps) && w.signaled == Signaled(i, job.N(), job.s)
  }

  ghost predicate AllRequests(job: Job, qps: nat, posted: seq<Wr>)
    requires job.c >= 1 && job.s >= 1
  {
    forall i | 0 <= i < |posted| :: IsRequest(job, qps, i, posted[i])
  }

  lemma RequestsShift(job: Job, qps: nat, posted: seq<Wr>)
    requires job.c >= 1 && job.s >= 1 && AllRequests(job, qps, posted)
    ensures OneShift(posted, job.srcOff, job.dstOff, job.size)
  {
    forall i | 0 <= i < |posted|
      ensures var w := posted[i];
              && job.srcOff <= w.srcOff && w.srcOff + w.size <= job.srcOff + job.size
              && w.dstOff == job.dstOff + (w.srcOff - job.srcOff)
    {
      assert IsRequest(job, qps, i, posted[i]);
    }
  }

  /** The requests of a whole job cover its range. */
  lemma HitBy(job: Job, qps: nat, posted: seq<Wr>, x: nat) returns (i: nat)
    requires job.c >= 1 && job.s >= 1 && AllRequests(job, qps, posted) && |posted| == job.N()
    requires job.dstOff <= x < job.dstOff + job.size
    ensures i < |posted| && Hits(posted[i], x)
  {
    i := ChunkOf(job.size, job.c, x - job.dstOff);
    assert IsRequest(job, qps, i, posted[i]);
  }

  /** All chunks executed: the destination is one plain copy of the source range. */
  lemma PlainCopy(job: Job, qps: nat, src: seq<byte>, dst: seq<byte>, posted: seq<Wr>, done: set<nat>)
    requires job.Ok(|src|) && AllRequests(job, qps, posted) && |posted| == job.N()
    requires Copied(src, job.dst0, dst, posted, done) && forall i: nat | i < |posted| :: i in done
    ensures dst == Put(job.dst0, job.dstOff, Slice(src, job.srcOff, job.size))
  {
    hide AllRequests, Copied, CeilDiv, OneShift, Hits;
    var data := Slice(src, job.srcOff, job.size);
    RequestsShift(job, qps, posted);
    assert |dst| == |job.dst0| by { SameLength(src, job.dst0, dst, posted, done); }
    forall x: nat | x < |dst| ensures dst[x] == Put(job.dst0, job.dstOff, data)[x] {
      PutAt(job.dst0, job.dstOff, data, x);
      ByteIs(src, job.dst0, dst, posted, done, job.srcOff, job.dstOff, job.size, x);
      if job.dstOff <= x < job.dstOff + job.size {
        var i := HitBy(job, qps, posted, x);
      }
    }
  }

  lemma SameLength(src: seq<byte>, dst0: seq<byte>, dst: seq<byte>, posted: seq<Wr>, done: set<nat>)
    requires Copied(src, dst0, dst, posted, done)
    ensures |dst| == |dst0| && forall i | i in done :: i < |posted|
  {
  }

  /** At any time: bytes outside the range are untouched, inside they are old or new. */
  ghost predicate Partial(job: Job, src: seq<byte>, dst: seq<byte>)
    requires job.Ok(|src|)
  {
    && |dst| == |job.dst0|
    && forall x: nat | x < |dst| ::
         || dst[x] == job.dst0[x]
         || (job.dstOff <= x < job.dstOff + job.size && dst[x] == src[job.srcOff + (x - job.dstOff)])
  }

  lemma CopiedIsPartial(job: Job, qps: nat, src: seq<byte>, dst: seq<byte>, posted: seq<Wr>, done: set<nat>)
    requires job.Ok(|src|) && AllRequests(job, qps, posted) && Copied(src, job.dst0, dst, posted, done)
    ensures Partial(job, src, dst)
  {
    hide AllRequests, Copied, CeilDiv, OneShift, Hits;
    RequestsShift(job, qps, posted);
    SameLength(src, job.dst0, dst, posted, done);
    forall x: nat | x < |dst|
      ensures dst[x] == job.dst0[x]
              || (job.dstOff <= x < job.dstOff + job.size && dst[x] == src[job.srcOff + (x - job.dstOff)])
    {
      ByteIs(src, job.dst0, dst, posted, done, job.srcOff, job.dstOff, job.size, x);
    }
  }

  /** The loop variables in terms of the chunk number. */
  predicate AtChunk(job: Job, i: nat, offset: nat, sinceLast: nat)
    requires job.s >= 1
  {
    offset == Min(i * job.c, job.size) && (offset < job.size ==> sinceLast == i % job.s)
  }

  predicate Aligned(job: Job, base: nat)
    requires job.s >= 1
  {
    Gcd(job.w, job.s) >= 1 && base % Gcd(job.w, job.s) == 0
  }

  /** One iteration: what is posted, and where the loop is afterwards. */
  lemma Iteration(job: Job, qps: nat, i: nat, offset: nat, sinceLast: nat)
    requires job.c >= 1 && job.s >= 1 && AtChunk(job, i, offset, sinceLast) && offset < job.size
    ensures var current := Min(job.c, job.size - offset);
            var isLast := offset + current >= job.size;
            var signaled := job.s <= 1 || isLast || sinceLast + 1 >= job.s;
            && i < job.N() && (isLast <==> i + 1 == job.N())
            && (signaled <==> Signaled(i, job.N(), job.s))
            && IsRequest(job, qps, i, Wr(job.srcOff + offset, job.dstOff + offset, current,
                                         QpOf(job.first, i, qps), signaled))
            && AtChunk(job, i + 1, offset + current, if signaled then 0 else sinceLast + 1)
  {
    PieceStarts(job.size, job.c, i);
    PieceStarts(job.size, job.c, i + 1);
    assert (i + 1) * job.c == i * job.c + job.c;
    StepMod(i, job.s);
  }

  lemma QpNext(first: nat, i: nat, nextQp: nat, qps: nat)
    requires qps > 1 ==> nextQp == first + i
    ensures QpOf(nextQp, 0, qps) == QpOf(first, i, qps)
  {
  }

  lemma FirstChunk(job: Job)
    requires job.s >= 1
    ensures AtChunk(job, 0, 0, 0) && Aligned(job, 0)
  {
    GcdDivides(job.w, job.s);
    MultipleMod(0, Gcd(job.w, job.s));
  }

  lemma NextWindow(job: Job, base: nat)
    requires job.s >= 1 && Aligned(job, base)
    ensures Aligned(job, base + job.w)
  {
    GcdDivides(job.w, job.s);
    SumOfMultiples(base, job.w, Gcd(job.w, job.s));
  }

  lemma LastChunk(job: Job, i: nat, offset: nat, sinceLast: nat)
    requires job.c >= 1 && job.s >= 1 && AtChunk(job, i, offset, sinceLast) && offset >= job.size
    ensures offset == job.size && i >= job.N()
  {
    PieceStarts(job.size, job.c, i);
  }

  /** What the poster and the NIC keep for a job. */
  ghost predicate Sound(job: Job, qps: nat, src: seq<byte>, dst: seq<byte>, posted: seq<Wr>, done: set<nat>)
  {
    && job.Ok(|src|) && AllRequests(job, qps, posted) && Copied(src, job.dst0, dst, posted, done)
    && Closed(job.first, qps, done)
  }

  lemma FreshSound(job: Job, qps: nat, src: seq<byte>)
    requires job.Ok(|src|)
    ensures Sound(job, qps, src, job.dst0, [], {})
  {
  }

  /** Posting the next request of the job; nothing has executed. */
  lemma PostSound(job: Job, qps: nat, src: seq<byte>, dst: seq<byte>, posted: seq<Wr>, done: set<nat>, w: Wr)
    requires Sound(job, qps, src, dst, posted, done) && IsRequest(job, qps, |posted|, w)
    ensures Sound(job, qps, src, dst, posted + [w], done)
  {
    hide IsRequest;
    assert forall i | i in done :: (posted + [w])[i] == posted[i];
  }

  /** Executing a request at the head of its queue. */
  lemma ExecuteSound(job: Job, qps: nat, src: seq<byte>, dst: seq<byte>, posted: seq<Wr>, done: set<nat>, i: nat)
    requires Sound(job, qps, src, dst, posted, done) && i < |posted|
    requires forall j | 0 <= j < i && posted[j].qp == posted[i].qp :: j in done
    ensures var w := posted[i];
      Sound(job, qps, src, Put(dst, w.dstOff, Slice(src, w.srcOff, w.size)), posted, done + {i})
  {
    hide Copied, OneShift, Put, Slice;
    RequestsShift(job, qps, posted);
    SameLength(src, job.dst0, dst, posted, done);
    CopiedStep(src, job.dst0, dst, posted, done, i, job.srcOff, job.dstOff, job.size);
    forall k: nat, j: nat | k < j && j in done + {i} && QpOf(job.first, k, qps) == QpOf(job.first, j, qps)
      ensures k in done + {i}
    {
      assert IsRequest(job, qps, k, posted[k]) && IsRequest(job, qps, j, posted[j]);
    }
  }

  /** Signaled requests before `base` are done, those since are pending. */
  ghost predicate Tracked(job: Job, base: nat, n: nat, done: set<nat>, pending: seq<nat>)
    requires job.s >= 1 && job.c >= 1
  {
    && (forall j: nat | j < base && Signaled(j, job.N(), job.s) :: j in done)
    && (forall j: nat | base <= j < n && Signaled(j, job.N(), job.s) :: j in pending)
  }

  lemma TrackGrows(job: Job, base: nat, n: nat, done: set<nat>, done': set<nat>, pending: seq<nat>)
    requires job.s >= 1 && job.c >= 1 && Tracked(job, base, n, done, pending) && done <= done'
    ensures Tracked(job, base, n, done', pending)
  {
    hide Signaled;
  }

  lemma TrackPost(job: Job, base: nat, n: nat, done: set<nat>, pending: seq<nat>)
    requires job.s >= 1 && job.c >= 1 && Tracked(job, base, n, done, pending)
    ensures Signaled(n, job.N(), job.s) ==> Tracked(job, base, n + 1, done, pending + [n])
    ensures !Signaled(n, job.N(), job.s) ==> Tracked(job, base, n + 1, done, pending)
  {
    hide Signaled;
  }

  lemma TrackWait(job: Job, base: nat, n: nat, done: set<nat>, pending: seq<nat>, done': set<nat>)
    requires job.s >= 1 && job.c >= 1 && Tracked(job, base, n, done, pending) && done <= done'
    requires forall i | i in pending :: i in done'
    ensures Tracked(job, n, n, done', [])
  {
    hide Signaled;
  }

  lemma TrackNothing(job: Job, done: set<nat>)
    requires job.s >= 1 && job.c >= 1
    ensures Tracked(job, 0, 0, done, [])
  {
  }

  /** What a finished loop means for the destination. */
  lemma Finish(job: Job, qps: nat, src: seq<byte>, dst: seq<byte>, posted: seq<Wr>, done: set<nat>)
    requires Sound(job, qps, src, dst, posted, done)
    ensures Partial(job, src, dst)
    ensures |posted| == job.N() && Tracked(job, |posted|, |posted|, done, []) ==>
              && Outcome(job.N(), job.s, job.first, qps, done)
              && (Settled(job.N(), job.s, qps) ==>
                    dst == Put(job.dst0, job.dstOff, Slice(src, job.srcOff, job.size)))
  {
    hide Copied, AllRequests, Put, Slice, CeilDiv, Closed, Settled;
    CopiedIsPartial(job, qps, src, dst, posted, done);
    SameLength(src, job.dst0, dst, posted, done);
    if |posted| == job.N() && Tracked(job, |posted|, |posted|, done, []) {
      assert Outcome(job.N(), job.s, job.first, qps, done);
      if Settled(job.N(), job.s, qps) {
        CompleteExactly(job.N(), job.s, job.first, qps);
        PlainCopy(job, qps, src, dst, posted, done);
      }
    }
  }

  /** The source skips the wait when nothing is pending: that never happens. */
  lemma BoundaryHasSignal(job: Job, base: nat, n: nat, done: set<nat>, pending: seq<nat>)
    requires job.c >= 1 && 1 <= job.s <= job.w && Tracked(job, base, n, done, pending)
    requires base < n && (n == base + job.w || n == job.N())
    ensures pending != []
  {
    var j := if n == job.N() then n - 1 else WindowSignal(base, job.w, job.s, job.N());
    assert Signaled(j, job.N(), job.s);
    assert j in pending;
  }

  lemma InRange(job: Job, qps: nat, src: seq<byte>, dst: seq<byte>, posted: seq<Wr>, done: set<nat>, offset: nat, n: nat)
    requires Sound(job, qps, src, dst, posted, done) && offset + n <= job.size
    ensures job.srcOff + offset + n <= |src| && job.dstOff + offset + n <= |dst|
  {
    hide AllRequests, Closed, CeilDiv;
  }

  lemma DepthIsNat(w: nat, s: nat)
    requires 1 <= s <= w
    ensures Depth(w, s) >= 0
  {
    GcdAtMost(w, s);
  }

  lemma DepthArith(base: nat, n: nat, w: nat, s: nat)
    requires 1 <= s && n < base + w && Gcd(w, s) >= 1 && base % Gcd(w, s) == 0
    ensures n + 1 - (base - base % s) <= Depth(w, s)
  {
    GcdDivides(w, s);
    RemainderOfMultiple(base, s, Gcd(w, s));
  }

  /** On one queue pair the queue stays within its depth when one more is posted. */
  lemma DepthBound(job: Job, src: seq<byte>, dst: seq<byte>, posted: seq<Wr>, done: set<nat>, qps: nat,
                   base: nat, pending: seq<nat>)
    requires Sound(job, qps, src, dst, posted, done) && qps <= 1
    requires base <= |posted| < job.N() && |posted| < base + job.w
    requires Tracked(job, base, |posted|, done, pending)
    requires Aligned(job, base)
    ensures Outstanding(|posted| + 1, done) <= Depth(job.w, job.s)
  {
    hide AllRequests, Copied, Outstanding, CeilDiv, Depth, Closed;
    DepthArith(base, |posted|, job.w, job.s);
    LastSignal(base, job.N(), job.s);
    var lo := base - base % job.s;
    forall j: nat | j < lo ensures j in done {
      OneQueue(job.first, qps, done, j, lo - 1);
    }
    OutstandingBound(|posted| + 1, lo, done);
  }

  lemma OneQueue(first: nat, qps: nat, done: set<nat>, j: nat, k: nat)
    requires Closed(first, qps, done) && qps <= 1 && j <= k && k in done
    ensures j in done
  {
    assert QpOf(first, j, qps) == QpOf(first, k, qps);
  }

  lemma LastSignal(base: nat, n: nat, s: nat)
    requires s >= 1 && base < n
    ensures 0 <= base - base % s <= base
    ensures base - base % s > 0 ==> Signaled(base - base % s - 1, n, s)
  {
    assert base == base / s * s + base % s;
    MultipleMod(base / s, s);
  }

  /** One connection: the memory read, the memory written, and the send queues. */
  class Channel {
    const qps: nat
    var src: seq<byte>
    var dst: seq<byte>
    var posted: seq<Wr>
    var done: set<nat>
    var nextQp: nat
    var peak: nat            // deepest send queue so far
    var faults: nat          // posts the card refused and waits that failed

    constructor (qps: nat, src: seq<byte>, dst: seq<byte>, nextQp: nat)
      ensures this.qps == qps && this.src == src && this.dst == dst && this.nextQp == nextQp
      ensures posted == [] && done == {} && peak == 0 && faults == 0
    {
      this.qps, this.src, this.dst, this.nextQp := qps, src, dst, nextQp;
      posted, done, peak, faults := [], {}, 0, 0;
    }

    predicate Ready(i: nat)
      reads this
    {
      i < |posted| && i !in done && forall j | 0 <= j < i && posted[j].qp == posted[i].qp :: j in done
    }

    ghost predicate SoundFor(job: Job)
      reads this
    {
      Sound(job, qps, src, dst, posted, done)
    }

    /** The NIC executes one request at the head of its queue. */
    method Execute(i: nat, ghost job: Job)
      requires SoundFor(job) && Ready(i)
      modifies this`dst, this`done
      ensures SoundFor(job) && done == old(done) + {i}
      ensures dst == Put(old(dst), posted[i].dstOff, Slice(src, posted[i].srcOff, posted[i].size))
    {
      ExecuteSound(job, qps, src, dst, posted, done, i);
      dst := Put(dst, posted[i].dstOff, Slice(src, posted[i].srcOff, posted[i].size));
      done := done + {i};
    }

    /** The NIC makes any amount of progress. */
    method Advance(ghost job: Job)
      requires SoundFor(job)
      modifies this`dst, this`done
      ensures SoundFor(job) && old(done) <= done
    {
      var steps: nat := *;
      while steps > 0
        invariant SoundFor(job) && old(done) <= done
      {
        var i: nat := *;
        if Ready(i) {
          Execute(i, job);
        }
        steps := steps - 1;
      }
    }

    /** waitWrIdMulti: SUCCESS only once every id has completed. */
    method WaitMulti(ids: seq<nat>, ghost job: Job) returns (ok: bool)
      requires SoundFor(job)
      modifies this`dst, this`done, this`faults
      ensures SoundFor(job) && old(done) <= done
      ensures ok ==> forall i | i in ids :: i in done
      ensures faults == if ok then old(faults) else old(faults) + 1
    {
      Advance(job);
      ok := forall i | i in ids :: i in done;
      if !ok { faults := faults + 1; }
    }

    /** writeDataNBInternal / readDataNBInternal. */
    method PostNB(srcOff: nat, dstOff: nat, size: nat, signaled: bool) returns (st: Status, id: nat)
      modifies this`posted, this`nextQp, this`peak, this`faults
      ensures st.Success? ==>
                && id == |old(posted)| && srcOff + size <= |src| && dstOff + size <= |dst|
                && posted == old(posted) + [Wr(srcOff, dstOff, size, QpOf(old(nextQp), 0, qps), signaled)]
                && nextQp == (if qps > 1 then old(nextQp) + 1 else old(nextQp))
                && peak == Max(old(peak), Outstanding(|posted|, done))
      ensures st.Error? ==> posted == old(posted) && peak == old(peak)
      ensures st.Error? ==> srcOff + size > |src| || dstOff + size > |dst| || faults == old(faults) + 1
      ensures st.Success? ==> faults == old(faults)
    {
      id := |posted|;
      if srcOff + size > |src| || dstOff + size > |dst| {
        return Error, id;
      }
      var qp := 0;
      if qps > 1 {
        qp := nextQp % qps;
        nextQp := nextQp + 1;
      }
      var accepted: bool := *;   // ibv_post_send
      if !accepted {
        faults := faults + 1;
        return Error, id;
      }
      posted := posted + [Wr(srcOff, dstOff, size, qp, signaled)];
      peak := Max(peak, Outstanding(|posted|, done));
      st := Success;
    }

    /**
     The pipeline. Whatever happens, bytes outside the range are untouched and
     bytes inside are old or new. On SUCCESS every request of the job is posted
     and every signaled one has completed; when the settings are settled, the
     destination is one plain copy of the source. On one queue pair the queue is
     never deeper than `Depth`.
     */
    method Transfer(srcOff: nat, dstOff: nat, size: nat, chunkArg: nat, inflightArg: nat, env: Env)
      returns (st: Status)
      requires posted == [] && done == {} && peak == 0
      modifies this`dst, this`posted, this`done, this`nextQp, this`peak, this`faults
      ensures st.Error? <==> srcOff + size > |src| || dstOff + size > |old(dst)| || faults > old(faults)
      ensures srcOff + size > |src| || dstOff + size > |old(dst)| ==> st.Error? && dst == old(dst) && posted == []
      ensures srcOff + size <= |src| && dstOff + size <= |old(dst)| ==>
                var c := if chunkArg != 0 then chunkArg else if env.chunk != 0 then env.chunk else 4 * 1024 * 1024;
                var w := if inflightArg != 0 then inflightArg else if env.inflight != 0 then env.inflight else 32;
                var s := if env.interval < 1 then 1 else if env.interval < w then env.interval else w;
                var job := Job(srcOff, dstOff, size, c, w, s, old(nextQp), old(dst));
                && Partial(job, src, dst)
                && (qps <= 1 ==> peak <= Depth(w, s))
                && (st.Success? ==>
                      && |posted| == job.N() && AllRequests(job, qps, posted)
                      && Outcome(job.N(), s, old(nextQp), qps, done)
                      && (Settled(job.N(), s, qps) || qps <= 1 || env.interval <= 1 ==>
                            dst == Put(old(dst), dstOff, Slice(src, srcOff, size))))
    {
      if srcOff + size > |src| || dstOff + size > |dst| {
        return Error;
      }
      var chunk := ChunkSize(chunkArg, env);
      var maxInflight := Inflight(inflightArg, env);
      var interval := Interval(maxInflight, env);
      ghost var job := Job(srcOff, dstOff, size, chunk, maxInflight, interval, nextQp, dst);
      FreshSound(job, qps, src);
      st := Loop(srcOff, dstOff, size, chunk, maxInflight, interval, job);
      Finish(job, qps, src, dst, posted, done);
    }

    /** The posting loop, for a job whose ranges are valid. */
    method Loop(srcOff: nat, dstOff: nat, size: nat, chunk: nat, maxInflight: nat, interval: nat, ghost job: Job)
      returns (st: Status)
      requires SoundFor(job) && posted == [] && peak == 0
      requires job == Job(srcOff, dstOff, size, chunk, maxInflight, interval, job.first, job.dst0)
      requires nextQp == job.first
      modifies this`dst, this`posted, this`done, this`nextQp, this`peak, this`faults
      ensures SoundFor(job)
      ensures st.Error? ==> faults > old(faults)
      ensures st.Success? ==> faults == old(faults)
      ensures qps <= 1 ==> peak <= Depth(maxInflight, interval)
      ensures st.Success? ==> |posted| == job.N() && Tracked(job, |posted|, |posted|, done, [])
    {
      hide Copied, Closed, AllRequests, IsRequest, Outstanding, Depth, Tracked;
      hide CeilDiv, Signaled, AtChunk, Aligned, QpOf;
      var pending: seq<nat> := [];
      var offset: nat, inflightPosts: nat, sinceLast: nat := 0, 0, 0;
      ghost var base: nat := 0;
      TrackNothing(job, done);
      FirstChunk(job);
      DepthIsNat(job.w, job.s);
      while offset < size
        invariant SoundFor(job) && AtChunk(job, |posted|, offset, sinceLast)
        invariant base + inflightPosts == |posted| <= job.N()
        invariant if offset < size then inflightPosts < maxInflight && Aligned(job, base) else inflightPosts == 0
        invariant Tracked(job, base, |posted|, done, pending)
        invariant inflightPosts == 0 ==> pending == []
        invariant qps > 1 ==> nextQp == job.first + |posted|
        invariant qps <= 1 ==> peak <= Depth(maxInflight, interval)
        invariant faults == old(faults)
        decreases size - offset
      {
        ghost var i, before := |posted|, posted;
        QpNext(job.first, i, nextQp, qps);
        Iteration(job, qps, i, offset, sinceLast);
        var current := Min(chunk, size - offset);
        var isLast := offset + current >= size;
        var signaled := interval <= 1 || isLast || sinceLast + 1 >= interval;
        ghost var earlier := done;
        Advance(job);
        TrackGrows(job, base, i, earlier, done, pending);
        if qps <= 1 {
          DepthBound(job, src, dst, posted, done, qps, base, pending);
        }
        InRange(job, qps, src, dst, posted, done, offset, current);
        var post, id := PostNB(srcOff + offset, dstOff + offset, current, signaled);
        if post.Error? {
          return Error;
        }
        PostSound(job, qps, src, dst, before, done, posted[i]);
        TrackPost(job, base, i, done, pending);
        if signaled {
          pending, sinceLast := pending + [id], 0;
        } else {
          sinceLast := sinceLast + 1;
        }
        offset, inflightPosts := offset + current, inflightPosts + 1;
        if inflightPosts >= maxInflight || isLast {
          BoundaryHasSignal(job, base, |posted|, done, pending);
          ghost var was := done;
          var ok := WaitMulti(pending, job);
          if !ok {
            return Error;
          }
          TrackWait(job, base, |posted|, was, pending, done);
          if !isLast {
            NextWindow(job, base);
          }
          base := |posted|;
          pending, inflightPosts := [], 0;
        }
      }
      LastChunk(job, |posted|, offset, sinceLast);
      st := Success;
    }
  }
}
