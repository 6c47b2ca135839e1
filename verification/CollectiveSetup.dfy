/**
 Around the direct all-to-all: who dials whom in which round, the chunk loop of
 one put or get, and the layout that the arguments of a call give.
 */
module AllToAllSetup {
  import opened Arith
  import opened Bytes
  import opened AllToAll

  // ---- The connection rounds.

  /** Whom rank `r` dials in round `s`, if anyone: only larger ranks are dialled. */
  function Dials(w: nat, r: nat, s: nat): (peer: set<nat>)
    requires w >= 1
  {
    var peer := (r + s) % w;
    if r < peer then {peer} else {}
  }

  lemma PeerIs(w: nat, r: nat, s: nat)
    requires r < w && 1 <= s < w
    ensures (r + s) % w == if r + s < w then r + s else r + s - w
  {
    if r + s < w { DivModUnique(r + s, w, 0, r + s); } else { DivModUnique(r + s, w, 1, r + s - w); }
  }

  /** Ranks `a` and `b` are connected in exactly one round, `b - a`, by the smaller one. */
  lemma EachPairOnce(w: nat, a: nat, b: nat, s: nat)
    requires a < w && b < w && a != b && 1 <= s < w
    ensures b in Dials(w, a, s) <==> a < b && s == b - a
  {
    PeerIs(w, a, s);
  }

  /** In a round a rank is dialled by at most one other, and dials at most one. */
  lemma RoundIsMatching(w: nat, a: nat, b: nat, s: nat, t: nat)
    requires a < w && b < w && 1 <= s < w && t in Dials(w, a, s)
    ensures t < w && Dials(w, a, s) == {t}
    ensures t in Dials(w, b, s) ==> a == b
  {
    PeerIs(w, a, s);
    PeerIs(w, b, s);
  }

  // ---- The chunk loop.

  /** Putting or getting a range in chunks is one plain copy of the range, in as few operations as fit. */
  method MoveChunked(from: seq<byte>, fromOff: nat, to: seq<byte>, toOff: nat, nbytes: nat, chunk: nat)
    returns (r: seq<byte>, pieces: nat)
    requires chunk >= 1 && fromOff + nbytes <= |from| && toOff + nbytes <= |to|
    ensures r == Put(to, toOff, Slice(from, fromOff, nbytes))
    ensures pieces == CeilDiv(nbytes, chunk)
  {
    hide Put, Slice, CeilDiv;
    r, pieces := to, 0;
    var moved := 0;
    PutNothing(to, toOff, from, fromOff);
    while moved < nbytes
      invariant moved <= nbytes
      invariant r == Put(to, toOff, Slice(from, fromOff, moved))
      invariant moved == Min(nbytes, pieces * chunk)
      invariant pieces > 0 ==> (pieces - 1) * chunk < nbytes
    {
      var n := Min(chunk, nbytes - moved);
      PutJoin(to, toOff, Slice(from, fromOff, moved), Slice(from, fromOff + moved, n));
      SliceJoin(from, fromOff, moved, n);
      r := Put(r, toOff + moved, Slice(from, fromOff + moved, n));
      Distribute(pieces, 1, chunk);
      moved, pieces := moved + n, pieces + 1;
    }
    PieceStarts(nbytes, chunk, pieces);
    if pieces > 0 { PieceStarts(nbytes, chunk, pieces - 1); }
  }

  lemma PutNothing(to: seq<byte>, toOff: nat, from: seq<byte>, fromOff: nat)
    ensures Put(to, toOff, Slice(from, fromOff, 0)) == to
  {
  }

  // ---- Argument checks.

  datatype Bias = Default | At(bias: nat)

  /** The layout `alltoall` computes, or nothing when it raises. */
  function Plan(w: nat, nSend: nat, nRecv: nat, sendBias: nat, recvBias: Bias, chunk: nat, size: nat): (p: seq<Call>)
  {
    if nSend != nRecv || w == 0 || nSend % w != 0 then []
    else
      var recv := if recvBias.Default? then sendBias + nSend else recvBias.bias;
      if recv + nSend > size then [] else [Call(sendBias, recv, nSend / w, chunk)]
  }

  /** Without an explicit receive offset an accepted call is well laid out: that is all a run needs. */
  lemma DefaultLayoutOk(w: nat, nSend: nat, nRecv: nat, sendBias: nat, chunk: nat, size: nat, input: seq<seq<byte>>)
    requires chunk >= 1 && |input| == w && forall r | 0 <= r < w :: |input[r]| == nSend
    ensures var p := Plan(w, nSend, nRecv, sendBias, Default, chunk, size);
      && (p != [] <==> nSend == nRecv && w >= 1 && nSend % w == 0 && sendBias + 2 * nSend <= size)
      && (p != [] ==> p == [Call(sendBias, sendBias + nSend, nSend / w, chunk)] && World(w, p, [input], size).Ok())
  {
    var p := Plan(w, nSend, nRecv, sendBias, Default, chunk, size);
    if p != [] {
      var e := World(w, p, [input], size);
      assert nSend == nSend / w * w + nSend % w;
      BlocksIs(w, nSend / w);
      assert e.Total(0) == nSend;
      assert e.CallOk(0);
    }
  }

  /**
   With an explicit receive offset only the receive region is checked: an accepted
   call is well laid out exactly when the send region also fits and the two are
   apart, which is left to the caller.
   */
  lemma ExplicitLayoutExactly(w: nat, nSend: nat, nRecv: nat, sendBias: nat, bias: nat, chunk: nat, size: nat,
                              input: seq<seq<byte>>)
    requires chunk >= 1 && |input| == w && forall r | 0 <= r < w :: |input[r]| == nSend
    ensures var p := Plan(w, nSend, nRecv, sendBias, At(bias), chunk, size);
      && (p != [] <==> nSend == nRecv && w >= 1 && nSend % w == 0 && bias + nSend <= size)
      && (p != [] ==> p == [Call(sendBias, bias, nSend / w, chunk)])
      && (p != [] ==>
            (World(w, p, [input], size).Ok() <==>
               sendBias + nSend <= size && (sendBias + nSend <= bias || bias + nSend <= sendBias)))
  {
    var p := Plan(w, nSend, nRecv, sendBias, At(bias), chunk, size);
    if p != [] {
      var e := World(w, p, [input], size);
      assert nSend == nSend / w * w + nSend % w;
      BlocksIs(w, nSend / w);
      assert e.Total(0) == nSend;
      assert e.Ok() ==> e.CallOk(0);
      assert e.CallOk(0) <==> sendBias + nSend <= size && (sendBias + nSend <= bias || bias + nSend <= sendBias);
    }
  }
}
