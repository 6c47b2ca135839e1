/**
 Direct all-to-all over `w` ranks, for any finite sequence of calls: load, connection rounds with a barrier after
 each, own block, one block put to every other rank in chunks, final barrier, copy-out. Ranks interleave freely.
 */
module AllToAll {
  import opened Arith
  import opened Bytes

  /** Bytes of `n` blocks. */
  function Blocks(n: nat, bpp: nat): nat { if n == 0 then 0 else Blocks(n - 1, bpp) + bpp }

  lemma {:induction false} BlocksIs(n: nat, bpp: nat)
    ensures Blocks(n, bpp) == n * bpp
  {
    if n > 0 {
      BlocksIs(n - 1, bpp);
      assert (n - 1) * bpp + bpp == n * bpp;
    }
  }

  lemma {:induction false} BlocksLt(a: nat, b: nat, bpp: nat)
    requires a < b
    ensures Blocks(a, bpp) + bpp <= Blocks(b, bpp)
  {
    if a + 1 < b { BlocksLt(a, b - 1, bpp); }
  }

  /** Layout of one call, the same on every rank. */
  datatype Call = Call(sendBase: nat, recvBase: nat, bpp: nat, chunk: nat)

  /** `input[c][r]` is what rank `r` sends in call `c`. */
  datatype World = World(w: nat, calls: seq<Call>, input: seq<seq<seq<byte>>>, size: nat) {
    function Total(c: nat): nat requires c < |calls| { Blocks(w, calls[c].bpp) }

    predicate CallOk(c: nat)
      requires c < |calls|
    {
      var k := calls[c];
      && k.chunk >= 1
      && k.sendBase + Total(c) <= size && k.recvBase + Total(c) <= size
      && (k.sendBase + Total(c) <= k.recvBase || k.recvBase + Total(c) <= k.sendBase)
    }

    predicate Ok()
    {
      && w >= 1 && |input| == |calls|
      && (forall c | 0 <= c < |calls| :: CallOk(c) && |input[c]| == w)
      && (forall c, r | 0 <= c < |calls| && 0 <= r < w :: |input[c][r]| == Total(c))
    }
  }

  datatype Phase =
    | Load
    | Round(s: nat)                   // about to connect and enter barrier s
    | Barrier(b: nat)                 // waiting at barrier b; b == w is the final one
    | SelfCopy
    | Putting(dst: nat, moved: nat)
    | Unload

  datatype Rank = Rank(call: nat, phase: Phase)

  datatype State = State(ranks: seq<Rank>, bufs: seq<seq<byte>>, outs: seq<seq<seq<byte>>>)

  predicate Init(e: World, s: State)
  {
    && e.Ok() && |s.ranks| == |s.bufs| == |s.outs| == e.w
    && forall r | 0 <= r < e.w :: s.ranks[r] == Rank(0, Load) && |s.bufs[r]| == e.size && s.outs[r] == []
  }

  /** Barriers of the current call that the rank has entered. */
  function Entered(e: World, k: Rank): nat
  {
    match k.phase
    case Load => 0
    case Round(s) => if s >= 1 then s - 1 else 0
    case Barrier(b) => b
    case SelfCopy => e.w - (if e.w >= 1 then 1 else 0)
    case Putting(_, _) => e.w - (if e.w >= 1 then 1 else 0)
    case Unload => e.w
  }

  /** Barriers of the current call that the rank has left. */
  function LeftB(e: World, k: Rank): nat
  {
    if k.phase.Barrier? then (if k.phase.b >= 1 then k.phase.b - 1 else 0) else Entered(e, k)
  }

  /** The rank has entered barrier `b` of call `c`, or is past it. */
  predicate Reached(e: World, k: Rank, c: nat, b: nat)
  {
    k.call > c || (k.call == c && Entered(e, k) >= b)
  }

  predicate Enabled(e: World, s: State, r: nat)
  {
    && r < |s.ranks| && s.ranks[r].call < |e.calls|
    && (s.ranks[r].phase.Barrier? ==>
          forall q | 0 <= q < |s.ranks| :: Reached(e, s.ranks[q], s.ranks[r].call, s.ranks[r].phase.b))
  }

  function Block(base: nat, i: nat, bpp: nat): nat { base + Blocks(i, bpp) }

  /** Where the rank goes next. */
  function Next(e: World, r: nat, k: Rank): Rank
    requires k.call < |e.calls|
  {
    var c := e.calls[k.call];
    match k.phase
    case Load => k.(phase := if e.w == 1 then SelfCopy else Round(1))
    case Round(s) => k.(phase := Barrier(s))
    case Barrier(b) => k.(phase := if b == e.w then Unload else if b + 1 < e.w then Round(b + 1) else SelfCopy)
    case SelfCopy => k.(phase := if e.w == 1 then Unload else Putting(0, 0))
    case Putting(dst, moved) =>
      if dst >= e.w then k.(phase := Barrier(e.w))
      else if dst == r || moved >= c.bpp then k.(phase := Putting(dst + 1, 0))
      else k.(phase := Putting(dst, moved + Min(c.chunk, c.bpp - moved)))
    case Unload => Rank(k.call + 1, Load)
  }

  /** Whether this step is a put, and of how much. */
  predicate IsPut(e: World, r: nat, k: Rank)
    requires k.call < |e.calls|
  {
    k.phase.Putting? && k.phase.dst < e.w && k.phase.dst != r && k.phase.moved < e.calls[k.call].bpp
  }

  function Bufs(e: World, s: State, r: nat): seq<seq<byte>>
    requires r < |s.ranks| == |s.bufs| == e.w && s.ranks[r].call < |e.calls| == |e.input|
    requires |e.input[s.ranks[r].call]| == e.w
  {
    var k := s.ranks[r];
    var c := e.calls[k.call];
    match k.phase
    case Load => s.bufs[r := Put(s.bufs[r], c.sendBase, e.input[k.call][r])]
    case SelfCopy =>
      s.bufs[r := Put(s.bufs[r], Block(c.recvBase, r, c.bpp), Slice(s.bufs[r], Block(c.sendBase, r, c.bpp), c.bpp))]
    case Putting(dst, moved) =>
      if !IsPut(e, r, k) then s.bufs else
      var n := Min(c.chunk, c.bpp - moved);
      s.bufs[dst := Put(s.bufs[dst], Block(c.recvBase, r, c.bpp) + moved,
                        Slice(s.bufs[r], Block(c.sendBase, dst, c.bpp) + moved, n))]
    case _ => s.bufs
  }

  function Apply(e: World, s: State, r: nat): State
    requires e.Ok() && |s.ranks| == |s.bufs| == |s.outs| == e.w && Enabled(e, s, r)
  {
    var k := s.ranks[r];
    var outs := if k.phase.Unload?
                then s.outs[r := s.outs[r] + [Slice(s.bufs[r], e.calls[k.call].recvBase, e.Total(k.call))]]
                else s.outs;
    State(s.ranks[r := Next(e, r, k)], Bufs(e, s, r), outs)
  }

  /** A rank's place in the program is a real one. */
  predicate RankOk(e: World, k: Rank)
  {
    && k.call <= |e.calls| && (k.call == |e.calls| ==> k.phase.Load?)
    && match k.phase
       case Round(s) => 1 <= s < e.w
       case Barrier(b) => e.w >= 2 && 1 <= b <= e.w
       case Putting(dst, moved) => e.w >= 2 && dst <= e.w && moved <= e.calls[k.call].bpp && (dst == e.w ==> moved == 0)
       case _ => true
  }

  predicate Shape(e: World, s: State)
  {
    && e.Ok() && |s.ranks| == |s.bufs| == |s.outs| == e.w
    && (forall r | 0 <= r < e.w :: RankOk(e, s.ranks[r]))
    && (forall r | 0 <= r < e.w :: |s.bufs[r]| == e.size)
    && (forall r | 0 <= r < e.w :: |s.outs[r]| == s.ranks[r].call)
  }

  /** `q` has entered every barrier that `k` has left. */
  predicate Met(e: World, k: Rank, q: Rank)
  {
    && (LeftB(e, k) > 0 ==> Reached(e, q, k.call, LeftB(e, k)))
    && (LeftB(e, k) == 0 && k.call > 0 ==> Reached(e, q, k.call - 1, e.w))
  }

  ghost predicate Sync(e: World, s: State)
    requires |s.ranks| == e.w
  {
    e.w >= 2 ==> forall r, q | 0 <= r < e.w && 0 <= q < e.w :: Met(e, s.ranks[r], s.ranks[q])
  }

  lemma NextOk(e: World, r: nat, k: Rank)
    requires e.Ok() && RankOk(e, k) && k.call < |e.calls| && r < e.w
    ensures RankOk(e, Next(e, r, k))
  {
    assert e.CallOk(k.call);
  }

  lemma ShapeStep(e: World, s: State, r: nat)
    requires Shape(e, s) && Enabled(e, s, r)
    ensures Shape(e, Apply(e, s, r))
  {
    hide Next, RankOk, Put, Slice, World.CallOk, Block;
    NextOk(e, r, s.ranks[r]);
    NextCall(e, r, s.ranks[r]);
  }

  lemma NextCall(e: World, r: nat, k: Rank)
    requires k.call < |e.calls|
    ensures Next(e, r, k).call == if k.phase.Unload? then k.call + 1 else k.call
  {
  }

  /** Steps only move forward through the barriers. */
  lemma ReachedNext(e: World, r: nat, k: Rank, c: nat, b: nat)
    requires e.Ok() && RankOk(e, k) && k.call < |e.calls| && Reached(e, k, c, b)
    ensures Reached(e, Next(e, r, k), c, b)
  {
  }

  lemma MetNextSelf(e: World, r: nat, k: Rank, q: Rank)
    requires e.Ok() && e.w >= 2 && RankOk(e, k) && k.call < |e.calls| && Met(e, k, q)
    requires k.phase.Barrier? ==> Reached(e, q, k.call, k.phase.b)
    ensures Met(e, Next(e, r, k), q)
  {
  }

  lemma MetNextOther(e: World, r: nat, k: Rank, q: Rank)
    requires e.Ok() && RankOk(e, q) && q.call < |e.calls| && Met(e, k, q)
    ensures Met(e, k, Next(e, r, q))
  {
    hide Next, LeftB, RankOk;
    if LeftB(e, k) > 0 { ReachedNext(e, r, q, k.call, LeftB(e, k)); }
    else if k.call > 0 { ReachedNext(e, r, q, k.call - 1, e.w); }
  }

  lemma MetItself(e: World, k: Rank)
    requires e.w >= 2 && RankOk(e, k)
    ensures Met(e, k, k)
  {
  }

  lemma SyncStep(e: World, s: State, r: nat)
    requires Shape(e, s) && Sync(e, s) && Enabled(e, s, r)
    ensures Sync(e, Apply(e, s, r))
  {
    hide Next, RankOk, Met, Reached, Bufs;
    if e.w >= 2 {
      var t := Apply(e, s, r);
      NextOk(e, r, s.ranks[r]);
      MetItself(e, t.ranks[r]);
      forall p, q | 0 <= p < e.w && 0 <= q < e.w ensures Met(e, t.ranks[p], t.ranks[q]) {
        assert Met(e, s.ranks[p], s.ranks[q]);
        if p == r && q != r {
          MetNextSelf(e, r, s.ranks[r], s.ranks[q]);
        } else if p != r && q == r {
          MetNextOther(e, r, s.ranks[p], s.ranks[r]);
        }
      }
    }
  }

  /**
   While a rank puts, every rank is in the same call, has copied its send buffer
   in and has not copied its receive buffer out.
   */
  lemma PutSafe(e: World, s: State, r: nat, d: nat)
    requires Shape(e, s) && Sync(e, s) && r < e.w && d < e.w && s.ranks[r].phase.Putting?
    ensures s.ranks[d].call == s.ranks[r].call
    ensures !s.ranks[d].phase.Load? && !s.ranks[d].phase.Unload?
  {
    assert RankOk(e, s.ranks[r]) && RankOk(e, s.ranks[d]);
    assert Met(e, s.ranks[r], s.ranks[d]) && Met(e, s.ranks[d], s.ranks[r]);
  }

  /** Bytes of the block from `s` to `d` in call `c` that have been delivered. */
  function Amount(e: World, s: nat, k: Rank, d: nat, c: nat): nat
    requires c < |e.calls|
  {
    if k.call != c then (if k.call > c then e.calls[c].bpp else 0)
    else match k.phase
      case Load => 0
      case Round(_) => 0
      case SelfCopy => 0
      case Barrier(b) => if b == e.w then e.calls[c].bpp else 0
      case Unload => e.calls[c].bpp
      case Putting(dst, moved) =>
        if s == d || d < dst then e.calls[c].bpp else if d == dst then moved else 0
  }

  /** Only a put to `d`, or the copy of the own block, changes what `d` has got. */
  lemma AmountNext(e: World, r: nat, k: Rank, d: nat, c: nat)
    requires e.Ok() && RankOk(e, k) && k.call < |e.calls| && c < |e.calls| && d < e.w && r < e.w
    requires !(IsPut(e, r, k) && k.phase.dst == d)
    requires !(k.phase.SelfCopy? && d == r)
    ensures Amount(e, r, Next(e, r, k), d, c) == Amount(e, r, k, d, c)
  {
  }

  /** A rank that has not started its call has received none of it. */
  lemma NothingEarly(e: World, s: State, r: nat, d: nat)
    requires Shape(e, s) && Sync(e, s) && r < e.w && d < e.w
    requires s.ranks[d].call < |e.calls|
    ensures s.ranks[d].phase.Load? ==> Amount(e, r, s.ranks[r], d, s.ranks[d].call) == 0
    ensures s.ranks[d].phase.Unload? ==>
      Amount(e, r, s.ranks[r], d, s.ranks[d].call) == e.calls[s.ranks[d].call].bpp
    ensures r != d && s.ranks[d].phase.Unload? && s.ranks[d].call + 1 < |e.calls| ==>
      Amount(e, r, s.ranks[r], d, s.ranks[d].call + 1) == 0
  {
    assert RankOk(e, s.ranks[r]) && RankOk(e, s.ranks[d]);
    if e.w >= 2 {
      assert Met(e, s.ranks[r], s.ranks[d]) && Met(e, s.ranks[d], s.ranks[r]);
    }
  }

  /** The first `m` bytes of the block from `s` to `d` are in `d`'s receive region. */
  predicate Delivered(e: World, buf: seq<byte>, s: nat, d: nat, c: nat, m: nat)
    requires c < |e.calls| == |e.input| && s < |e.input[c]|
  {
    Slice(buf, Block(e.calls[c].recvBase, s, e.calls[c].bpp), m)
      == Slice(e.input[c][s], Block(0, d, e.calls[c].bpp), m)
  }

  predicate Staged(e: World, buf: seq<byte>, r: nat, c: nat)
    requires c < |e.calls| == |e.input| && r < |e.input[c]|
  {
    Slice(buf, e.calls[c].sendBase, e.Total(c)) == e.input[c][r]
  }

  /** `out` is row `d` of the transpose: block `s` is what `s` sent to `d`. */
  predicate Transposed(e: World, out: seq<byte>, d: nat, c: nat)
    requires e.Ok() && c < |e.calls|
  {
    && |out| == e.Total(c)
    && forall s | 0 <= s < e.w ::
         Slice(out, Block(0, s, e.calls[c].bpp), e.calls[c].bpp)
           == Slice(e.input[c][s], Block(0, d, e.calls[c].bpp), e.calls[c].bpp)
  }

  ghost predicate StagedAll(e: World, s: State)
    requires Shape(e, s)
  {
    forall r | 0 <= r < e.w && !s.ranks[r].phase.Load? ::
      s.ranks[r].call < |e.calls| && Staged(e, s.bufs[r], r, s.ranks[r].call)
  }

  ghost predicate DeliveredAll(e: World, s: State)
    requires Shape(e, s)
  {
    forall p, d | 0 <= p < e.w && 0 <= d < e.w && s.ranks[d].call < |e.calls| ::
      Delivered(e, s.bufs[d], p, d, s.ranks[d].call, Amount(e, p, s.ranks[p], d, s.ranks[d].call))
  }

  ghost predicate OutsAll(e: World, s: State)
    requires Shape(e, s)
  {
    forall r, c | 0 <= r < e.w && 0 <= c < s.ranks[r].call :: Transposed(e, s.outs[r][c], r, c)
  }

  ghost predicate Inv(e: World, s: State)
  {
    Shape(e, s) && Sync(e, s) && StagedAll(e, s) && DeliveredAll(e, s) && OutsAll(e, s)
  }

  // ---- Blocks of one call.

  lemma SliceOfSlice(buf: seq<byte>, a: nat, n: nat, i: nat, m: nat)
    requires a + n <= |buf| && i + m <= n
    ensures Slice(Slice(buf, a, n), i, m) == Slice(buf, a + i, m)
  {
    var x, y := Slice(Slice(buf, a, n), i, m), Slice(buf, a + i, m);
    var z := Slice(buf, a, n);
    assert |x| == m == |y|;
    forall j | 0 <= j < m ensures x[j] == y[j] {
      assert x[j] == z[i + j];
    }
  }

  lemma BlockIn(e: World, c: nat, i: nat)
    requires e.Ok() && c < |e.calls| && i < e.w
    ensures Block(0, i, e.calls[c].bpp) + e.calls[c].bpp <= e.Total(c)
    ensures forall base: nat :: Block(base, i, e.calls[c].bpp) == base + Block(0, i, e.calls[c].bpp)
  {
    BlocksLt(i, e.w, e.calls[c].bpp);
  }

  lemma BlocksApart(base: nat, i: nat, j: nat, bpp: nat)
    requires i != j
    ensures Block(base, i, bpp) + bpp <= Block(base, j, bpp) || Block(base, j, bpp) + bpp <= Block(base, i, bpp)
  {
    if i < j { BlocksLt(i, j, bpp); } else { BlocksLt(j, i, bpp); }
  }

  /** Writing part of one block of `d`'s receive region: it arrives, the rest is untouched. */
  lemma BlockWrite(e: World, buf: seq<byte>, r: nat, d: nat, c: nat, m: nat, data: seq<byte>)
    requires e.Ok() && c < |e.calls| && r < e.w && d < e.w && |buf| == e.size
    requires m + |data| <= e.calls[c].bpp && Delivered(e, buf, r, d, c, m)
    requires data == Slice(e.input[c][r], Block(0, d, e.calls[c].bpp) + m, |data|)
    ensures Delivered(e, Put(buf, Block(e.calls[c].recvBase, r, e.calls[c].bpp) + m, data), r, d, c, m + |data|)
  {
    hide Put, Slice, Block;
    var k := e.calls[c];
    var off := Block(k.recvBase, r, k.bpp);
    var t := Put(buf, off + m, data);
    BlockIn(e, c, r);
    BlockIn(e, c, d);
    assert e.CallOk(c);
    assert |e.input[c][r]| == e.Total(c);
    PutSame(buf, off + m, data);
    PutApart(buf, off + m, data, off, m);
    SliceJoin(t, off, m, |data|);
    SliceJoin(e.input[c][r], Block(0, d, k.bpp), m, |data|);
  }

  lemma OthersKept(e: World, buf: seq<byte>, r: nat, d: nat, c: nat, m: nat, data: seq<byte>, p: nat, a: nat)
    requires e.Ok() && c < |e.calls| && r < e.w && d < e.w && |buf| == e.size && p < e.w
    requires m + |data| <= e.calls[c].bpp && a <= e.calls[c].bpp && p != r
    requires Delivered(e, buf, p, d, c, a)
    ensures Delivered(e, Put(buf, Block(e.calls[c].recvBase, r, e.calls[c].bpp) + m, data), p, d, c, a)
  {
    hide Put, Slice, Block;
    var k := e.calls[c];
    BlocksApart(k.recvBase, r, p, k.bpp);
    PutApart(buf, Block(k.recvBase, r, k.bpp) + m, data, Block(k.recvBase, p, k.bpp), a);
  }

  lemma StagedKept(e: World, buf: seq<byte>, r: nat, d: nat, c: nat, m: nat, data: seq<byte>)
    requires e.Ok() && c < |e.calls| && r < e.w && d < e.w && |buf| == e.size
    requires m + |data| <= e.calls[c].bpp && Staged(e, buf, d, c)
    ensures Staged(e, Put(buf, Block(e.calls[c].recvBase, r, e.calls[c].bpp) + m, data), d, c)
  {
    hide Put, Slice, Block;
    var k := e.calls[c];
    BlockIn(e, c, r);
    assert e.CallOk(c);
    PutApart(buf, Block(k.recvBase, r, k.bpp) + m, data, k.sendBase, e.Total(c));
  }

  /** What a rank sends to `d` is what its caller gave it for `d`. */
  lemma StagedPiece(e: World, buf: seq<byte>, r: nat, d: nat, c: nat, m: nat, n: nat)
    requires e.Ok() && c < |e.calls| && r < e.w && d < e.w && |buf| == e.size
    requires m + n <= e.calls[c].bpp && Staged(e, buf, r, c)
    ensures |Slice(buf, Block(e.calls[c].sendBase, d, e.calls[c].bpp) + m, n)| == n
    ensures Slice(buf, Block(e.calls[c].sendBase, d, e.calls[c].bpp) + m, n)
         == Slice(e.input[c][r], Block(0, d, e.calls[c].bpp) + m, n)
  {
    hide Put, Slice, Block;
    var k := e.calls[c];
    BlockIn(e, c, d);
    assert e.CallOk(c);
    SliceOfSlice(buf, k.sendBase, e.Total(c), Block(0, d, k.bpp) + m, n);
  }

  lemma UnloadTransposes(e: World, buf: seq<byte>, d: nat, c: nat)
    requires e.Ok() && c < |e.calls| && d < e.w && |buf| == e.size
    requires forall p | 0 <= p < e.w :: Delivered(e, buf, p, d, c, e.calls[c].bpp)
    ensures Transposed(e, Slice(buf, e.calls[c].recvBase, e.Total(c)), d, c)
  {
    hide Put, Slice, Block;
    var k := e.calls[c];
    assert e.CallOk(c);
    var out := Slice(buf, k.recvBase, e.Total(c));
    forall p | 0 <= p < e.w
      ensures Slice(out, Block(0, p, k.bpp), k.bpp) == Slice(e.input[c][p], Block(0, d, k.bpp), k.bpp)
    {
      BlockIn(e, c, p);
      SliceOfSlice(buf, k.recvBase, e.Total(c), Block(0, p, k.bpp), k.bpp);
      assert Delivered(e, buf, p, d, c, k.bpp);
    }
  }

  // ---- One step.

  /** A chunk of the block from `r` to `d` lands (`m` bytes of it were there). */
  lemma WriteStep(e: World, s: State, r: nat, d: nat, m: nat, n: nat)
    requires Inv(e, s) && Enabled(e, s, r) && d < e.w
    requires var k := s.ranks[r]; var c := e.calls[k.call];
      && ((k.phase.SelfCopy? && d == r && m == 0 && n == c.bpp)
          || (IsPut(e, r, k) && d == k.phase.dst && m == k.phase.moved && n == Min(c.chunk, c.bpp - m)))
    ensures Inv(e, Apply(e, s, r))
  {
    hide Next, RankOk, Met, Reached, Put, Slice, Block, World.CallOk, Amount, Staged, Delivered, Sync;
    var k := s.ranks[r];
    var c := e.calls[k.call];
    var t := Apply(e, s, r);
    ShapeStep(e, s, r);
    SyncStep(e, s, r);
    NextCall(e, r, k);
    if k.phase.Putting? { PutSafe(e, s, r, d); }
    assert s.ranks[d].call == k.call;
    assert Staged(e, s.bufs[r], r, k.call);
    assert Staged(e, s.bufs[d], d, k.call);
    StagedPiece(e, s.bufs[r], r, d, k.call, m, n);
    assert Block(c.sendBase, d, c.bpp) + 0 == Block(c.sendBase, d, c.bpp);
    var data := Slice(s.bufs[r], Block(c.sendBase, d, c.bpp) + m, n);
    WriteTarget(e, s, r, d, m, n);
    assert t.bufs == s.bufs[d := Put(s.bufs[d], Block(c.recvBase, r, c.bpp) + m, data)];
    StagedKept(e, s.bufs[d], r, d, k.call, m, data);
    WriteStaged(e, s, t, r, d);
    assert Delivered(e, s.bufs[d], r, d, k.call, Amount(e, r, k, d, k.call));
    WriteAmount(e, r, k, d, m, n);
    BlockWrite(e, s.bufs[d], r, d, k.call, m, data);
    forall p, q | 0 <= p < e.w && 0 <= q < e.w && t.ranks[q].call < |e.calls|
      ensures Delivered(e, t.bufs[q], p, q, t.ranks[q].call, Amount(e, p, t.ranks[p], q, t.ranks[q].call))
    {
      assert Delivered(e, s.bufs[q], p, q, s.ranks[q].call, Amount(e, p, s.ranks[p], q, s.ranks[q].call));
      assert t.ranks[q].call == s.ranks[q].call;
      if p == r && q != d {
        AmountNext(e, r, k, q, s.ranks[q].call);
      } else if p != r && q == d {
        AmountAtMost(e, p, s.ranks[p], q, k.call);
        OthersKept(e, s.bufs[d], r, d, k.call, m, data, p, Amount(e, p, s.ranks[p], q, k.call));
      }
    }
    WriteOuts(e, s, t);
  }

  lemma AmountAtMost(e: World, p: nat, k: Rank, d: nat, c: nat)
    requires c < |e.calls| && RankOk(e, k)
    ensures Amount(e, p, k, d, c) <= e.calls[c].bpp
  {
  }

  lemma WriteAmount(e: World, r: nat, k: Rank, d: nat, m: nat, n: nat)
    requires e.Ok() && RankOk(e, k) && k.call < |e.calls| && r < e.w && d < e.w
    requires var c := e.calls[k.call];
      && ((k.phase.SelfCopy? && d == r && m == 0 && n == c.bpp)
          || (IsPut(e, r, k) && d == k.phase.dst && m == k.phase.moved && n == Min(c.chunk, c.bpp - m)))
    ensures Amount(e, r, k, d, k.call) == m
    ensures Amount(e, r, Next(e, r, k), d, k.call) == m + n && m + n <= e.calls[k.call].bpp
  {
  }

  lemma WriteTarget(e: World, s: State, r: nat, d: nat, m: nat, n: nat)
    requires Shape(e, s) && Enabled(e, s, r) && d < e.w
    requires var k := s.ranks[r]; var c := e.calls[k.call];
      && ((k.phase.SelfCopy? && d == r && m == 0 && n == c.bpp)
          || (IsPut(e, r, k) && d == k.phase.dst && m == k.phase.moved && n == Min(c.chunk, c.bpp - m)))
    ensures var k := s.ranks[r]; var c := e.calls[k.call];
      Apply(e, s, r).bufs == s.bufs[d := Put(s.bufs[d], Block(c.recvBase, r, c.bpp) + m,
                                             Slice(s.bufs[r], Block(c.sendBase, d, c.bpp) + m, n))]
  {
    hide Put, Slice, Block, Next, World.CallOk;
    var k := s.ranks[r];
    var c := e.calls[k.call];
    assert k.phase.SelfCopy? ==> Block(c.sendBase, d, c.bpp) + m == Block(c.sendBase, d, c.bpp);
  }

  lemma WriteStaged(e: World, s: State, t: State, r: nat, d: nat)
    requires Inv(e, s) && Shape(e, t) && r < e.w && d < e.w && !s.ranks[r].phase.Load?
    requires forall q | 0 <= q < e.w :: t.ranks[q].call == s.ranks[q].call && (q != r ==> t.ranks[q] == s.ranks[q])
    requires forall q | 0 <= q < e.w && q != d :: t.bufs[q] == s.bufs[q]
    requires s.ranks[d].call < |e.calls| && Staged(e, t.bufs[d], d, s.ranks[d].call)
    ensures StagedAll(e, t)
  {
    hide RankOk, Staged, World.CallOk, DeliveredAll, OutsAll, Sync;
    forall q | 0 <= q < e.w && !t.ranks[q].phase.Load?
      ensures t.ranks[q].call < |e.calls| && Staged(e, t.bufs[q], q, t.ranks[q].call)
    {
    }
  }

  lemma CallsBound(e: World, s: State)
    requires Shape(e, s)
    ensures forall r | 0 <= r < e.w :: s.ranks[r].call <= |e.calls|
  {
    forall r | 0 <= r < e.w ensures s.ranks[r].call <= |e.calls| { assert RankOk(e, s.ranks[r]); }
  }

  lemma WriteOuts(e: World, s: State, t: State)
    requires Shape(e, s) && OutsAll(e, s) && Shape(e, t) && t.outs == s.outs
    ensures OutsAll(e, t)
  {
    hide Transposed, RankOk, World.CallOk;
  }

  lemma LoadStep(e: World, s: State, r: nat)
    requires Inv(e, s) && Enabled(e, s, r) && s.ranks[r].phase.Load?
    ensures Inv(e, Apply(e, s, r))
  {
    hide Next, RankOk, Met, Reached, Put, Slice, Block, Amount, Staged, Delivered, Sync;
    var k := s.ranks[r];
    var c := e.calls[k.call];
    var t := Apply(e, s, r);
    ShapeStep(e, s, r);
    SyncStep(e, s, r);
    NextCall(e, r, k);
    assert e.CallOk(k.call);
    LoadStages(e, s.bufs[r], r, k.call);
    forall q | 0 <= q < e.w && !t.ranks[q].phase.Load?
      ensures t.ranks[q].call < |e.calls| && Staged(e, t.bufs[q], q, t.ranks[q].call)
    {
      assert q != r ==> t.ranks[q] == s.ranks[q];
    }
    forall p, q | 0 <= p < e.w && 0 <= q < e.w && t.ranks[q].call < |e.calls|
      ensures Delivered(e, t.bufs[q], p, q, t.ranks[q].call, Amount(e, p, t.ranks[p], q, t.ranks[q].call))
    {
      assert Delivered(e, s.bufs[q], p, q, s.ranks[q].call, Amount(e, p, s.ranks[p], q, s.ranks[q].call));
      assert t.ranks[q].call == s.ranks[q].call;
      if p == r { AmountNext(e, r, k, q, s.ranks[q].call); }
      if q == r {
        NothingEarly(e, s, p, r);
        DeliveredNone(e, t.bufs[q], p, q, k.call);
      }
    }
    WriteOuts(e, s, t);
  }

  lemma LoadStages(e: World, buf: seq<byte>, r: nat, c: nat)
    requires e.Ok() && c < |e.calls| && r < e.w && |buf| == e.size
    ensures Staged(e, Put(buf, e.calls[c].sendBase, e.input[c][r]), r, c)
  {
    assert e.CallOk(c);
    PutSame(buf, e.calls[c].sendBase, e.input[c][r]);
  }

  lemma DeliveredNone(e: World, buf: seq<byte>, p: nat, d: nat, c: nat)
    requires e.Ok() && c < |e.calls| && p < e.w && d < e.w
    ensures Delivered(e, buf, p, d, c, 0)
  {
  }

  lemma UnloadStep(e: World, s: State, r: nat)
    requires Inv(e, s) && Enabled(e, s, r) && s.ranks[r].phase.Unload?
    ensures Inv(e, Apply(e, s, r))
  {
    hide RankOk, Met, Reached, Put, Slice, Block, World.CallOk, Amount, Staged, Delivered, Sync, Transposed;
    var k := s.ranks[r];
    var t := Apply(e, s, r);
    ShapeStep(e, s, r);
    SyncStep(e, s, r);
    forall p | 0 <= p < e.w ensures Delivered(e, s.bufs[r], p, r, k.call, e.calls[k.call].bpp) {
      assert Delivered(e, s.bufs[r], p, r, k.call, Amount(e, p, s.ranks[p], r, k.call));
      NothingEarly(e, s, p, r);
    }
    UnloadTransposes(e, s.bufs[r], r, k.call);
    assert forall q | 0 <= q < e.w :: RankOk(e, t.ranks[q]) && t.ranks[q].call <= |e.calls| by { CallsBound(e, t); }
    forall q, c | 0 <= q < e.w && 0 <= c < t.ranks[q].call ensures Transposed(e, t.outs[q][c], q, c) {
      if q == r && c == k.call {
        assert t.outs[q][c] == Slice(s.bufs[r], e.calls[c].recvBase, e.Total(c));
      } else {
        assert t.outs[q][c] == s.outs[q][c];
      }
    }
    UnloadDelivers(e, s, r);
  }

  lemma UnloadDelivers(e: World, s: State, r: nat)
    requires Inv(e, s) && Enabled(e, s, r) && s.ranks[r].phase.Unload? && Shape(e, Apply(e, s, r))
    ensures DeliveredAll(e, Apply(e, s, r))
  {
    hide RankOk, Met, Reached, Put, Slice, Block, World.CallOk, Amount, Staged, Delivered, Sync, Transposed;
    var k := s.ranks[r];
    var t := Apply(e, s, r);
    forall p, q | 0 <= p < e.w && 0 <= q < e.w && t.ranks[q].call < |e.calls|
      ensures Delivered(e, t.bufs[q], p, q, t.ranks[q].call, Amount(e, p, t.ranks[p], q, t.ranks[q].call))
    {
      if q == r {
        NothingEarly(e, s, p, r);
        AmountAtLoad(e, r, r, k.call + 1);
        DeliveredNone(e, t.bufs[q], p, q, k.call + 1);
      } else {
        assert Delivered(e, s.bufs[q], p, q, s.ranks[q].call, Amount(e, p, s.ranks[p], q, s.ranks[q].call));
        if p == r { AmountNext(e, r, k, q, s.ranks[q].call); }
      }
    }
  }

  lemma AmountAtLoad(e: World, p: nat, d: nat, c: nat)
    requires c < |e.calls|
    ensures Amount(e, p, Rank(c, Load), d, c) == 0
  {
  }

  lemma QuietStep(e: World, s: State, r: nat)
    requires Inv(e, s) && Enabled(e, s, r)
    requires var ph := s.ranks[r].phase; !ph.Load? && !ph.Unload? && !ph.SelfCopy? && !IsPut(e, r, s.ranks[r])
    ensures Inv(e, Apply(e, s, r))
  {
    hide Next, RankOk, Met, Reached, Put, Slice, Block, World.CallOk, Amount, Staged, Delivered, Sync;
    var k := s.ranks[r];
    var t := Apply(e, s, r);
    ShapeStep(e, s, r);
    SyncStep(e, s, r);
    NextCall(e, r, k);
    assert t.bufs == s.bufs;
    forall p, q | 0 <= p < e.w && 0 <= q < e.w && t.ranks[q].call < |e.calls|
      ensures Delivered(e, t.bufs[q], p, q, t.ranks[q].call, Amount(e, p, t.ranks[p], q, t.ranks[q].call))
    {
      assert Delivered(e, s.bufs[q], p, q, s.ranks[q].call, Amount(e, p, s.ranks[p], q, s.ranks[q].call));
      assert t.ranks[q].call == s.ranks[q].call;
      if p == r { AmountNext(e, r, k, q, s.ranks[q].call); }
    }
    assert Staged(e, s.bufs[r], r, k.call);
    WriteStaged(e, s, t, r, r);
    WriteOuts(e, s, t);
  }

  lemma StepInv(e: World, s: State, r: nat)
    requires Inv(e, s) && Enabled(e, s, r)
    ensures Inv(e, Apply(e, s, r))
  {
    hide Sync, StagedAll, DeliveredAll, OutsAll, RankOk, Next, World.CallOk;
    var k := s.ranks[r];
    match k.phase {
      case Load => LoadStep(e, s, r);
      case Unload => UnloadStep(e, s, r);
      case SelfCopy => WriteStep(e, s, r, r, 0, e.calls[k.call].bpp);
      case Putting(dst, moved) =>
        if IsPut(e, r, k) {
          WriteStep(e, s, r, dst, moved, Min(e.calls[k.call].chunk, e.calls[k.call].bpp - moved));
        } else {
          QuietStep(e, s, r);
        }
      case _ => QuietStep(e, s, r);
    }
  }

  // ---- Whole runs.

  /** From `s`, the ranks step in the order `run`. */
  ghost predicate IsRun(e: World, s: State, run: seq<nat>, t: State)
    requires e.Ok() && |s.ranks| == |s.bufs| == |s.outs| == e.w
    decreases |run|
  {
    if run == [] then t == s
    else Enabled(e, s, run[0]) && IsRun(e, Apply(e, s, run[0]), run[1..], t)
  }

  lemma InitInv(e: World, s: State)
    requires Init(e, s)
    ensures Inv(e, s)
  {
    forall p, d | 0 <= p < e.w && 0 <= d < e.w && s.ranks[d].call < |e.calls|
      ensures Delivered(e, s.bufs[d], p, d, s.ranks[d].call, Amount(e, p, s.ranks[p], d, s.ranks[d].call))
    {
      DeliveredNone(e, s.bufs[d], p, d, 0);
    }
  }

  lemma {:induction false} RunInv(e: World, s: State, run: seq<nat>, t: State)
    requires Inv(e, s) && IsRun(e, s, run, t)
    ensures Inv(e, t)
    decreases |run|
  {
    hide Sync, StagedAll, DeliveredAll, OutsAll, Apply;
    if run != [] {
      StepInv(e, s, run[0]);
      RunInv(e, Apply(e, s, run[0]), run[1..], t);
    }
  }

  lemma FromStart(e: World, i: State, run: seq<nat>, s: State)
    requires Init(e, i) && IsRun(e, i, run, s)
    ensures Inv(e, s)
  {
    hide Inv, Apply;
    InitInv(e, i);
    RunInv(e, i, run, s);
  }

  /**
   In every interleaving, every call that a rank has returned from gave it the
   transpose: block `src` of its receive buffer is block `r` of what `src` sent.
   */
  lemma Transpose(e: World, i: State, run: seq<nat>, s: State, r: nat, c: nat)
    requires Init(e, i) && IsRun(e, i, run, s) && r < |s.ranks| && c < s.ranks[r].call
    ensures e.Ok() && c < |e.calls| && r < |s.outs| && c < |s.outs[r]|
    ensures Transposed(e, s.outs[r][c], r, c)
  {
    hide Sync, StagedAll, DeliveredAll, World.CallOk, Amount, Slice;
    FromStart(e, i, run, s);
    CallsBound(e, s);
  }

  /**
   No receive region is written by a call its owner has not entered, or between
   the owner's last barrier and its copy-out: a put of call `c` only ever meets
   ranks that are inside call `c`, loaded and not yet unloading.
   */
  lemma PutsStayInCall(e: World, i: State, run: seq<nat>, s: State, r: nat, d: nat)
    requires Init(e, i) && IsRun(e, i, run, s) && r < |s.ranks| && d < |s.ranks| && s.ranks[r].phase.Putting?
    ensures s.ranks[d].call == s.ranks[r].call
    ensures !s.ranks[d].phase.Load? && !s.ranks[d].phase.Unload?
  {
    hide Sync, StagedAll, DeliveredAll, OutsAll, World.CallOk, RankOk;
    FromStart(e, i, run, s);
    PutSafe(e, s, r, d);
  }

  // ---- Progress.

  predicate Returned(e: World, s: State) { forall r | 0 <= r < |s.ranks| :: s.ranks[r].call >= |e.calls| }

  /** `a` is not ahead of `b`. */
  predicate NotAhead(e: World, a: Rank, b: Rank)
  {
    a.call < b.call || (a.call == b.call && Entered(e, a) <= Entered(e, b))
  }

  lemma {:induction false} Hindmost(e: World, ranks: seq<Rank>) returns (m: nat)
    requires |ranks| >= 1
    ensures m < |ranks| && forall q | 0 <= q < |ranks| :: NotAhead(e, ranks[m], ranks[q])
  {
    hide Entered;
    if |ranks| == 1 { return 0; }
    var last := |ranks| - 1;
    m := Hindmost(e, ranks[..last]);
    assert forall q | 0 <= q < last :: NotAhead(e, ranks[m], ranks[..last][q]);
    if !NotAhead(e, ranks[m], ranks[last]) {
      m := last;
    }
  }

  /** The barriers cannot deadlock: the hindmost rank can always step. */
  lemma NoDeadlock(e: World, i: State, run: seq<nat>, s: State)
    requires Init(e, i) && IsRun(e, i, run, s)
    ensures Returned(e, s) || exists r :: Enabled(e, s, r)
  {
    hide Sync, StagedAll, DeliveredAll, OutsAll, World.CallOk;
    FromStart(e, i, run, s);
    var m := Hindmost(e, s.ranks);
    if s.ranks[m].call < |e.calls| {
      assert RankOk(e, s.ranks[m]);
      forall q | 0 <= q < |s.ranks| && s.ranks[m].phase.Barrier?
        ensures Reached(e, s.ranks[q], s.ranks[m].call, s.ranks[m].phase.b)
      {
        assert NotAhead(e, s.ranks[m], s.ranks[q]);
      }
      assert Enabled(e, s, m);
    } else {
      forall q | 0 <= q < |s.ranks| ensures s.ranks[q].call >= |e.calls| {
        assert NotAhead(e, s.ranks[m], s.ranks[q]);
      }
    }
  }

  /** Steps of call `c`, an upper bound. */
  function Cost(e: World, c: nat): nat requires c < |e.calls| { 2 * e.w + 4 + e.w * (e.calls[c].bpp + 1) }

  function Costs(e: World, c: nat): nat
    requires c <= |e.calls|
    decreases |e.calls| - c
  {
    if c == |e.calls| then 0 else Cost(e, c) + Costs(e, c + 1)
  }

  /** How far into its call a rank is. */
  function Done(e: World, k: Rank): nat
    requires k.call < |e.calls|
  {
    var b := e.calls[k.call].bpp;
    match k.phase
    case Load => 0
    case Round(s) => if s >= 1 then 2 * s - 1 else 0
    case Barrier(i) => if i == e.w then 2 * e.w + 2 + e.w * (b + 1) else 2 * i
    case SelfCopy => 2 * e.w
    case Putting(dst, moved) => 2 * e.w + 1 + dst * (b + 1) + moved
    case Unload => 2 * e.w + 3 + e.w * (b + 1)
  }

  function StepsLeft(e: World, k: Rank): int
    requires k.call <= |e.calls|
  {
    if k.call == |e.calls| then 0 else Costs(e, k.call) - Done(e, k)
  }

  lemma DoneInside(e: World, k: Rank)
    requires e.Ok() && RankOk(e, k) && k.call < |e.calls|
    ensures Done(e, k) < Cost(e, k.call)
  {
    if k.phase.Putting? {
      var b := e.calls[k.call].bpp;
      if k.phase.dst < e.w { MulLt(k.phase.dst, e.w, b + 1); }
    }
  }

  lemma DoneGrows(e: World, r: nat, k: Rank)
    requires e.Ok() && RankOk(e, k) && k.call < |e.calls| && !k.phase.Unload?
    ensures Done(e, Next(e, r, k)) > Done(e, k)
  {
    assert e.CallOk(k.call);
    var b := e.calls[k.call].bpp;
    if k.phase.Putting? {
      assert (k.phase.dst + 1) * (b + 1) == k.phase.dst * (b + 1) + b + 1;
    } else if k.phase.SelfCopy? {
      assert 0 * (b + 1) == 0;
      assert e.w * (b + 1) >= 0;
    }
  }

  lemma LeftFalls(e: World, r: nat, k: Rank)
    requires e.Ok() && RankOk(e, k) && k.call < |e.calls| && r < e.w
    ensures RankOk(e, Next(e, r, k)) && 0 <= StepsLeft(e, Next(e, r, k)) < StepsLeft(e, k)
  {
    hide Next, Done, Cost, RankOk;
    var n := Next(e, r, k);
    NextOk(e, r, k);
    NextCall(e, r, k);
    DoneInside(e, k);
    CallBound(e, n);
    if n.call < |e.calls| { DoneInside(e, n); }
    if k.phase.Unload? { FreshDone(e, r, k); } else { DoneGrows(e, r, k); }
  }

  lemma CallBound(e: World, k: Rank)
    requires RankOk(e, k)
    ensures k.call <= |e.calls|
  {
  }

  lemma FreshDone(e: World, r: nat, k: Rank)
    requires k.call < |e.calls| && k.phase.Unload?
    ensures k.call + 1 < |e.calls| ==> Done(e, Next(e, r, k)) == 0
  {
  }

  function SumLeft(e: World, ranks: seq<Rank>): int
    requires forall r | 0 <= r < |ranks| :: ranks[r].call <= |e.calls|
  {
    if ranks == [] then 0 else StepsLeft(e, ranks[0]) + SumLeft(e, ranks[1..])
  }

  lemma {:induction false} SumLeftUpdate(e: World, ranks: seq<Rank>, r: nat, k: Rank)
    requires r < |ranks| && k.call <= |e.calls| && forall i | 0 <= i < |ranks| :: ranks[i].call <= |e.calls|
    ensures SumLeft(e, ranks[r := k]) == SumLeft(e, ranks) - StepsLeft(e, ranks[r]) + StepsLeft(e, k)
  {
    hide StepsLeft;
    if r == 0 {
      assert ranks[r := k][1..] == ranks[1..];
    } else {
      SumLeftUpdate(e, ranks[1..], r - 1, k);
      assert ranks[r := k][1..] == ranks[1..][r - 1 := k];
    }
  }

  lemma {:induction false} SumLeftNat(e: World, ranks: seq<Rank>)
    requires e.Ok() && forall r | 0 <= r < |ranks| :: RankOk(e, ranks[r])
    ensures forall r | 0 <= r < |ranks| :: ranks[r].call <= |e.calls|
    ensures SumLeft(e, ranks) >= 0
  {
    hide Done, Cost, World.Ok;
    if ranks != [] {
      var k := ranks[0];
      if k.call < |e.calls| { DoneInside(e, k); }
      SumLeftNat(e, ranks[1..]);
    }
  }

  /** No run is longer than the steps left at its start, so every run can finish and must. */
  lemma {:induction false} RunsAreBounded(e: World, s: State, run: seq<nat>, t: State)
    requires Inv(e, s) && IsRun(e, s, run, t)
    ensures forall r | 0 <= r < e.w :: s.ranks[r].call <= |e.calls|
    ensures |run| <= SumLeft(e, s.ranks)
    decreases |run|
  {
    hide Sync, StagedAll, DeliveredAll, OutsAll, Next, RankOk, Bufs, StepsLeft;
    CallsBound(e, s);
    SumLeftNat(e, s.ranks);
    if run != [] {
      var r := run[0];
      LeftFalls(e, r, s.ranks[r]);
      CallBound(e, Next(e, r, s.ranks[r]));
      SumLeftUpdate(e, s.ranks, r, Next(e, r, s.ranks[r]));
      StepInv(e, s, r);
      RunsAreBounded(e, Apply(e, s, r), run[1..], t);
    }
  }

  /** A run that cannot be extended has returned every call on every rank, with the transpose. */
  lemma EveryCallCompletes(e: World, i: State, run: seq<nat>, s: State)
    requires Init(e, i) && IsRun(e, i, run, s) && forall r :: !Enabled(e, s, r)
    ensures Returned(e, s) && Inv(e, s)
    ensures forall r, c | 0 <= r < e.w && 0 <= c < |e.calls| ::
      r < |s.outs| && c < |s.outs[r]| && Transposed(e, s.outs[r][c], r, c)
  {
    hide Sync, StagedAll, DeliveredAll, Enabled, Transposed;
    NoDeadlock(e, i, run, s);
    FromStart(e, i, run, s);
  }
}
