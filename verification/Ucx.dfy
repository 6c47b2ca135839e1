/**
 The UCX endpoint's table of requests in flight and its multi-wait: ids are
 exchanged for their requests up front, and the requests are then polled and
 removed by swapping with the last. `finished(t, r)` says whether the `t`-th
 status check finds request `r` finished, `failed(r)` whether it then reports an
 error: both kinds of finished request are freed alike.
 */
module Ucx {
  import opened Common

  datatype Status = Success | Timeout | Failed

  /** The outcome of a non-blocking put or get: refused, done at once, or a request to wait for. */
  datatype Posted = Refused | Immediate | Request(req: nat)

  /** A request freed at check `at`, with the status that check reported. */
  datatype Freed = Freed(req: nat, at: nat, ok: bool)

  // ---- Exchanging ids for requests.

  /** `ok` is false when some id is not in flight; what was taken before it stays taken. */
  datatype Taken = Taken(reqs: seq<nat>, left: map<nat, nat>, ok: bool)

  function Take(inflight: map<nat, nat>, ids: seq<nat>): Taken
    decreases |ids|
  {
    if ids == [] then Taken([], inflight, true)
    else if ids[0] == 0 then Take(inflight, ids[1..])
    else if ids[0] !in inflight then Taken([], inflight, false)
    else
      var rest := Take(inflight - {ids[0]}, ids[1..]);
      Taken([inflight[ids[0]]] + rest.reqs, rest.left, rest.ok)
  }

  /** All ids other than 0 are in flight and named once. */
  ghost predicate Waitable(inflight: map<nat, nat>, ids: seq<nat>)
  {
    && (forall i | 0 <= i < |ids| && ids[i] != 0 :: ids[i] in inflight)
    && (forall i, j | 0 <= i < j < |ids| && ids[i] != 0 :: ids[i] != ids[j])
  }

  lemma {:induction false} TakeExactly(inflight: map<nat, nat>, ids: seq<nat>)
    ensures Take(inflight, ids).ok <==> Waitable(inflight, ids)
    decreases |ids|
  {
    if ids != [] {
      var m := if ids[0] == 0 then inflight else inflight - {ids[0]};
      TakeExactly(m, ids[1..]);
      if ids[0] == 0 || ids[0] in inflight {
        WaitableStep(inflight, ids);
      } else {
        assert !Waitable(inflight, ids);
      }
    }
  }

  lemma WaitableStep(inflight: map<nat, nat>, ids: seq<nat>)
    requires ids != [] && (ids[0] == 0 || ids[0] in inflight)
    ensures Waitable(inflight, ids)
       <==> Waitable(if ids[0] == 0 then inflight else inflight - {ids[0]}, ids[1..])
  {
    var m := if ids[0] == 0 then inflight else inflight - {ids[0]};
    if Waitable(m, ids[1..]) {
      forall i | 0 <= i < |ids| && ids[i] != 0 ensures ids[i] in inflight {
        if i > 0 { assert ids[1..][i - 1] in m; }
      }
      forall i, j | 0 <= i < j < |ids| && ids[i] != 0 ensures ids[i] != ids[j] {
        if i > 0 {
          assert ids[1..][i - 1] != ids[1..][j - 1];
        } else if ids[j] != 0 {
          assert ids[1..][j - 1] in m;
        }
      }
    }
    if Waitable(inflight, ids) {
      forall i | 0 <= i < |ids[1..]| && ids[1..][i] != 0 ensures ids[1..][i] in m {
        assert ids[1..][i] == ids[i + 1];
      }
      forall i, j | 0 <= i < j < |ids[1..]| && ids[1..][i] != 0 ensures ids[1..][i] != ids[1..][j] {
        assert ids[1..][i] == ids[i + 1] && ids[1..][j] == ids[j + 1];
      }
    }
  }

  /** The requests taken are distinct, are no longer in the table, and were in it. */
  lemma {:induction false} TakeDistinct(inflight: map<nat, nat>, ids: seq<nat>)
    requires Injective(inflight)
    ensures var t := Take(inflight, ids);
      && t.left.Keys <= inflight.Keys && (forall k | k in t.left :: t.left[k] == inflight[k])
      && (forall r | r in t.reqs :: r in inflight.Values && r !in t.left.Values)
      && (forall i, j | 0 <= i < j < |t.reqs| :: t.reqs[i] != t.reqs[j])
    decreases |ids|
  {
    if ids != [] {
      if ids[0] == 0 {
        TakeDistinct(inflight, ids[1..]);
      } else if ids[0] in inflight {
        var m := inflight - {ids[0]};
        var r := inflight[ids[0]];
        TakeDistinct(m, ids[1..]);
        var rest := Take(m, ids[1..]);
        var t := Take(inflight, ids);
        assert r !in m.Values;
        forall x | x in t.reqs ensures x in inflight.Values && x !in t.left.Values {
          if x in rest.reqs {
            assert x in m.Values;
            var k :| k in m && m[k] == x;
            assert inflight[k] == x;
          }
        }
        forall i, j | 0 <= i < j < |t.reqs| ensures t.reqs[i] != t.reqs[j] {
          assert t.reqs[j] == rest.reqs[j - 1];
          if i == 0 {
            assert rest.reqs[j - 1] in m.Values;
          } else {
            assert t.reqs[i] == rest.reqs[i - 1];
          }
        }
      }
    }
  }

  // ---- The compacting poll.

  function SwapRemove(reqs: seq<nat>, i: nat): (r: seq<nat>)
    requires i < |reqs|
    ensures |r| == |reqs| - 1
  {
    reqs[i := reqs[|reqs| - 1]][..|reqs| - 1]
  }

  lemma SwapRemoves(reqs: seq<nat>, i: nat)
    requires i < |reqs|
    ensures multiset(SwapRemove(reqs, i)) + multiset{reqs[i]} == multiset(reqs)
    ensures forall j | 0 <= j < i :: SwapRemove(reqs, i)[j] == reqs[j]
  {
    var n := |reqs| - 1;
    var r := SwapRemove(reqs, i);
    assert reqs == reqs[..n] + [reqs[n]];
    if i < n {
      assert reqs[..n] == reqs[..i] + [reqs[i]] + reqs[i + 1..n];
      assert r == reqs[..i] + [reqs[n]] + reqs[i + 1..n];
    } else {
      assert r == reqs[..n];
    }
  }

  function Requests(freed: seq<Freed>): seq<nat> { seq(|freed|, i requires 0 <= i < |freed| => freed[i].req) }

  lemma RequestsSnoc(freed: seq<Freed>, f: Freed)
    ensures Requests(freed + [f]) == Requests(freed) + [f.req]
  {
  }

  /** Every request freed had finished when it was freed, and each check has its own time. */
  predicate FreedOk(freed: seq<Freed>, finished: (nat, nat) -> bool, failed: nat -> bool, from: nat, now: nat)
  {
    forall i | 0 <= i < |freed| ::
      from <= freed[i].at < now && finished(freed[i].at, freed[i].req) && freed[i].ok == !failed(freed[i].req)
  }

  lemma FreedSnoc(freed: seq<Freed>, finished: (nat, nat) -> bool, failed: nat -> bool, from: nat, now: nat, req: nat)
    requires FreedOk(freed, finished, failed, from, now) && from <= now && finished(now, req)
    ensures FreedOk(freed + [Freed(req, now, !failed(req))], finished, failed, from, now + 1)
  {
  }

  /** Some check between `from` and `now` found the request unfinished. */
  ghost predicate Running(finished: (nat, nat) -> bool, from: nat, now: nat, r: nat)
  {
    exists t :: from <= t < now && !finished(t, r)
  }

  // ---- What the loops compute.

  datatype Swept = Swept(left: seq<nat>, freed: seq<Freed>, now: nat)

  /** The rest of a pass, from position `i` on. */
  function Sweep(reqs: seq<nat>, i: nat, freed: seq<Freed>, finished: (nat, nat) -> bool, failed: nat -> bool, now: nat)
    : (r: Swept)
    requires i <= |reqs|
    ensures |r.left| + |r.freed| == |reqs| + |freed|
    decreases |reqs| - i
  {
    if i == |reqs| then Swept(reqs, freed, now)
    else if finished(now, reqs[i]) then
      Sweep(SwapRemove(reqs, i), i, freed + [Freed(reqs[i], now, !failed(reqs[i]))], finished, failed, now + 1)
    else Sweep(reqs, i + 1, freed, finished, failed, now + 1)
  }

  datatype Waited = Waited(status: Status, left: seq<nat>, freed: seq<Freed>, now: nat)

  /** The rest of the poll, when the time is up at the idle pass after `patience` more. */
  function Watch(left: seq<nat>, freed: seq<Freed>, finished: (nat, nat) -> bool, failed: nat -> bool, now: nat,
                 patience: nat): Waited
    decreases |left|, patience
  {
    if left == [] then Waited(Success, left, freed, now)
    else
      var p := Sweep(left, 0, [], finished, failed, now);
      if p.freed != [] then Watch(p.left, freed + p.freed, finished, failed, p.now, patience)
      else if patience == 0 then Waited(Timeout, p.left, freed, p.now)
      else Watch(p.left, freed, finished, failed, p.now, patience - 1)
  }

  /** What `waitWrIdMulti` returns and frees, as the transport decides. */
  function Wait(inflight: map<nat, nat>, ids: seq<nat>, finished: (nat, nat) -> bool, failed: nat -> bool,
                patience: nat): Waited
  {
    var t := Take(inflight, ids);
    if t.ok then Watch(t.reqs, [], finished, failed, 0, patience) else Waited(Failed, t.reqs, [], 0)
  }

  /** One pass over the requests: frees the finished ones, keeps the others. */
  method Pass(start: seq<nat>, finished: (nat, nat) -> bool, failed: nat -> bool, from: nat)
    returns (reqs: seq<nat>, freed: seq<Freed>, now: nat)
    ensures Swept(reqs, freed, now) == Sweep(start, 0, [], finished, failed, from)
    ensures from <= now && FreedOk(freed, finished, failed, from, now)
    ensures multiset(Requests(freed)) + multiset(reqs) == multiset(start)
    ensures |reqs| + |freed| == |start|
    ensures forall r | r in reqs :: Running(finished, from, now, r)
  {
    hide SwapRemove, FreedOk, Requests;
    reqs, freed, now := start, [], from;
    NoneFreed(finished, failed, from);
    var i := 0;
    while i < |reqs|
      invariant i <= |reqs| && from <= now && FreedOk(freed, finished, failed, from, now)
      invariant Sweep(start, 0, [], finished, failed, from) == Sweep(reqs, i, freed, finished, failed, now)
      invariant multiset(Requests(freed)) + multiset(reqs) == multiset(start)
      invariant |reqs| + |freed| == |start|
      invariant forall j | 0 <= j < i :: Running(finished, from, now, reqs[j])
      decreases |reqs| - i
    {
      var req := reqs[i];
      if !finished(now, req) {
        FreedLater(freed, finished, failed, from, now);
        i := i + 1;
      } else {
        FreedSnoc(freed, finished, failed, from, now, req);
        RequestsSnoc(freed, Freed(req, now, !failed(req)));
        SwapRemoves(reqs, i);
        freed := freed + [Freed(req, now, !failed(req))];
        reqs := SwapRemove(reqs, i);
      }
      now := now + 1;
    }
  }

  lemma NoneFreed(finished: (nat, nat) -> bool, failed: nat -> bool, from: nat)
    ensures FreedOk([], finished, failed, from, from) && Requests([]) == []
  {
  }

  lemma FreedLater(freed: seq<Freed>, finished: (nat, nat) -> bool, failed: nat -> bool, from: nat, now: nat)
    requires FreedOk(freed, finished, failed, from, now)
    ensures FreedOk(freed, finished, failed, from, now + 1)
  {
  }

  lemma FreedJoin(a: seq<Freed>, b: seq<Freed>, finished: (nat, nat) -> bool, failed: nat -> bool,
                  from: nat, mid: nat, now: nat)
    requires from <= mid <= now && FreedOk(a, finished, failed, from, mid) && FreedOk(b, finished, failed, mid, now)
    ensures FreedOk(a + b, finished, failed, from, now)
    ensures multiset(Requests(a + b)) == multiset(Requests(a)) + multiset(Requests(b))
  {
    assert Requests(a + b) == Requests(a) + Requests(b);
  }

  /**
   Polls until every request is freed, or until an idle pass finds the time up:
   only an idle pass looks at the clock, and the one after `patience` others is
   the first to find it late.
   */
  method Poll(start: seq<nat>, finished: (nat, nat) -> bool, failed: nat -> bool, patience: nat)
    returns (status: Status, left: seq<nat>, freed: seq<Freed>, now: nat)
    ensures Waited(status, left, freed, now) == Watch(start, [], finished, failed, 0, patience)
    ensures status == Success || status == Timeout
    ensures FreedOk(freed, finished, failed, 0, now)
    ensures multiset(Requests(freed)) + multiset(left) == multiset(start)
    ensures status == Success <==> left == []
    ensures forall r | r in left :: Running(finished, 0, now, r)
    ensures status == Success ==> (AllOk(freed) <==> forall r | r in start :: !failed(r))
    ensures (forall t, r :: finished(t, r)) ==> status == Success
  {
    hide FreedOk, Requests;
    var pass := 0;
    left, freed, now := start, [], 0;
    NoneFreed(finished, failed, 0);
    while left != []
      invariant FreedOk(freed, finished, failed, 0, now)
      invariant multiset(Requests(freed)) + multiset(left) == multiset(start)
      invariant pass <= patience
      invariant Watch(start, [], finished, failed, 0, patience)
             == Watch(left, freed, finished, failed, now, patience - pass)
      decreases |left|, patience - pass
    {
      var kept, gone, later := Pass(left, finished, failed, now);
      FreedJoin(freed, gone, finished, failed, 0, now, later);
      assert gone == [] ==> freed + gone == freed;
      left, freed, now := kept, freed + gone, later;
      if gone == [] {
        if pass == patience {
          assert left[0] in left;
          return Timeout, left, freed, now;
        }
        pass := pass + 1;
      }
    }
    status := Success;
    OutcomesOf(start, freed, finished, failed, now);
  }

  predicate AllOk(freed: seq<Freed>) { forall f | f in freed :: f.ok }

  /** With every request freed, the statuses seen are the requests' own. */
  lemma OutcomesOf(start: seq<nat>, freed: seq<Freed>, finished: (nat, nat) -> bool, failed: nat -> bool, now: nat)
    requires FreedOk(freed, finished, failed, 0, now) && multiset(Requests(freed)) == multiset(start)
    ensures AllOk(freed) <==> forall r | r in start :: !failed(r)
  {
    if AllOk(freed) {
      forall r | r in start ensures !failed(r) {
        assert r in multiset(start) && r in Requests(freed);
        var i :| 0 <= i < |freed| && Requests(freed)[i] == r;
        assert freed[i] in freed;
      }
    }
    if forall r | r in start :: !failed(r) {
      forall f | f in freed ensures f.ok {
        var i :| 0 <= i < |freed| && freed[i] == f;
        assert Requests(freed)[i] == f.req;
        assert f.req in multiset(start);
      }
    }
  }

  // ---- The endpoint.

  class Endpoint {
    var inflight: map<nat, nat>
    var nextId: nat
    var freed: seq<Freed>

    /** Ids in flight were handed out, and no request is listed twice. */
    ghost predicate Valid()
      reads this
    {
      (forall id | id in inflight :: 1 <= id <= nextId) && Injective(inflight)
    }

    constructor ()
      ensures Valid() && inflight == map[] && freed == []
    {
      inflight, nextId, freed := map[], 0, [];
    }

    /** `writeDataNB` and `readDataNB` past their range checks: a new id, never 0 and never one in use. */
    method PostNB(posted: Posted) returns (status: Status, id: nat)
      requires Valid() && (posted.Request? ==> posted.req !in inflight.Values)
      modifies this`inflight, this`nextId
      ensures Valid()
      ensures posted.Request? ==>
        status == Success && id != 0 && id !in old(inflight) && inflight == old(inflight)[id := posted.req]
      ensures !posted.Request? ==> id == 0 && inflight == old(inflight) && (status == Success <==> posted.Immediate?)
    {
      id := 0;
      if posted.Refused? { return Failed, 0; }
      if posted.Immediate? { return Success, 0; }
      nextId := nextId + 1;
      id := nextId;
      forall p | p in inflight ensures inflight[p] != posted.req { assert inflight[p] in inflight.Values; }
      inflight := inflight[id := posted.req];
      status := Success;
    }

    /** The id loop of `waitWrIdMulti`: each id leaves the table as it is found. */
    method TakeAll(ids: seq<nat>) returns (reqs: seq<nat>, ok: bool)
      modifies this`inflight
      ensures Taken(reqs, inflight, ok) == Take(old(inflight), ids)
    {
      reqs := [];
      var i := 0;
      while i < |ids|
        invariant i <= |ids|
        invariant var t := Take(inflight, ids[i..]);
          Take(old(inflight), ids) == Taken(reqs + t.reqs, t.left, t.ok)
      {
        assert ids[i..][0] == ids[i] && ids[i..][1..] == ids[i + 1..];
        if ids[i] != 0 {
          if ids[i] !in inflight { return reqs, false; }
          reqs := reqs + [inflight[ids[i]]];
          inflight := inflight - {ids[i]};
        }
        i := i + 1;
      }
      ok := true;
    }

    /**
     Fails exactly when an id other than 0 is unknown or repeated. Otherwise
     each taken request is freed at most once, only when finished; on success
     all are, on a timeout the rest are still running and no longer listed.
     SUCCESS says nothing about errors: see `TrustExactly`.
     */
    method WaitMulti(ids: seq<nat>, finished: (nat, nat) -> bool, failed: nat -> bool, patience: nat)
      returns (status: Status, left: seq<nat>, gone: seq<Freed>, now: nat)
      requires Valid()
      modifies this`inflight, this`freed
      ensures Valid() && freed == old(freed) + gone
      ensures Waited(status, left, gone, now) == Wait(old(inflight), ids, finished, failed, patience)
      ensures status == Failed <==> !Waitable(old(inflight), ids)
      ensures inflight == Take(old(inflight), ids).left
      ensures status == Failed ==> gone == [] && left == Take(old(inflight), ids).reqs
      ensures status != Failed ==> (status == Success <==> left == []) && FreedOk(gone, finished, failed, 0, now)
      ensures multiset(Requests(gone)) + multiset(left) == multiset(Take(old(inflight), ids).reqs)
      ensures forall i, j | 0 <= i < j < |gone| :: gone[i].req != gone[j].req
      ensures status == Success ==> (AllOk(gone) <==> forall r | r in Take(old(inflight), ids).reqs :: !failed(r))
      ensures (forall t, r :: finished(t, r)) ==> status != Timeout
      ensures status == Timeout ==> forall r | r in left :: Running(finished, 0, now, r)
    {
      hide FreedOk, Requests, Waitable;
      TakeExactly(inflight, ids);
      TakeDistinct(inflight, ids);
      var reqs, ok := TakeAll(ids);
      now := 0;
      if !ok {
        status, left, gone := Failed, reqs, [];
        NoneFreed(finished, failed, 0);
        return;
      }
      status, left, gone, now := Poll(reqs, finished, failed, patience);
      freed := freed + gone;
      FreedOnce(reqs, left, gone);
    }
  }

  // ---- When SUCCESS can be relied on.

  lemma {:induction false} TakeNothing(inflight: map<nat, nat>, ids: seq<nat>)
    requires Take(inflight, ids).ok
    ensures Take(inflight, ids).reqs == [] <==> forall i | 0 <= i < |ids| :: ids[i] == 0
    decreases |ids|
  {
    if ids != [] && ids[0] == 0 {
      TakeNothing(inflight, ids[1..]);
      assert forall i | 1 <= i < |ids| :: ids[i] == ids[1..][i - 1];
    }
  }

  /** A transport on which everything finishes at once, with an error. */
  predicate AtOnce(t: nat, r: nat) { true }

  predicate Each(r: nat) { true }

  predicate NoneOk(freed: seq<Freed>) { forall i | 0 <= i < |freed| :: !freed[i].ok }

  /** When everything has finished with an error, one pass frees it all. */
  lemma {:induction false} SweepFailed(reqs: seq<nat>, freed: seq<Freed>, now: nat)
    requires NoneOk(freed)
    ensures var r := Sweep(reqs, 0, freed, AtOnce, Each, now); r.left == [] && NoneOk(r.freed)
    decreases |reqs|
  {
    hide SwapRemove;
    if reqs != [] {
      SweepFailed(SwapRemove(reqs, 0), freed + [Freed(reqs[0], now, false)], now + 1);
    }
  }

  /** If every taken request fails, the wait still returns SUCCESS. */
  lemma AllFailed(inflight: map<nat, nat>, ids: seq<nat>)
    requires Waitable(inflight, ids)
    ensures var w := Wait(inflight, ids, AtOnce, Each, 0);
      w.status == Success && NoneOk(w.freed) && |w.freed| == |Take(inflight, ids).reqs|
  {
    hide Waitable, SwapRemove;
    TakeExactly(inflight, ids);
    var reqs := Take(inflight, ids).reqs;
    SweepFailed(reqs, [], 0);
    var p := Sweep(reqs, 0, [], AtOnce, Each, 0);
    assert [] + p.freed == p.freed;
    assert Watch(p.left, p.freed, AtOnce, Each, p.now, 0).status == Success;
    var w := Watch(reqs, [], AtOnce, Each, 0, 0);
    if reqs != [] {
      assert p.freed != [] && w == Watch(p.left, [] + p.freed, AtOnce, Each, p.now, 0);
    }
    assert w == Wait(inflight, ids, AtOnce, Each, 0);
  }

  /** Whatever the transport does, SUCCESS means that all transfers succeeded. */
  ghost predicate Trusted(inflight: map<nat, nat>, ids: seq<nat>)
  {
    forall finished: (nat, nat) -> bool, failed: nat -> bool, patience: nat ::
      var w := Wait(inflight, ids, finished, failed, patience);
      w.status == Success ==> AllOk(w.freed)
  }

  /**
   Exactly when SUCCESS can be relied on: the ids all stand for transfers that
   were complete when they were posted. With any request to wait for, some
   outcome is SUCCESS with every transfer failed.
   */
  lemma TrustExactly(inflight: map<nat, nat>, ids: seq<nat>)
    requires Waitable(inflight, ids)
    ensures Trusted(inflight, ids) <==> forall i | 0 <= i < |ids| :: ids[i] == 0
  {
    hide Waitable;
    TakeExactly(inflight, ids);
    TakeNothing(inflight, ids);
    AllFailed(inflight, ids);
    var w := Wait(inflight, ids, AtOnce, Each, 0);
    if Take(inflight, ids).reqs != [] {
      assert w.freed[0] in w.freed && !AllOk(w.freed);
    }
  }

  /** Distinct requests are freed at most once each. */
  lemma FreedOnce(reqs: seq<nat>, left: seq<nat>, gone: seq<Freed>)
    requires forall i, j | 0 <= i < j < |reqs| :: reqs[i] != reqs[j]
    requires multiset(Requests(gone)) + multiset(left) == multiset(reqs)
    ensures forall i, j | 0 <= i < j < |gone| :: gone[i].req != gone[j].req
  {
    var rs := Requests(gone);
    forall i, j | 0 <= i < j < |gone| ensures gone[i].req != gone[j].req {
      CountsTwo(rs, i, j);
      DistinctCounts(reqs, rs[i]);
      assert multiset(rs)[rs[i]] <= multiset(reqs)[rs[i]];
    }
  }

  lemma CountsTwo(rs: seq<nat>, i: nat, j: nat)
    requires i < j < |rs|
    ensures rs[i] == rs[j] ==> multiset(rs)[rs[i]] >= 2
  {
    assert rs == rs[..i] + [rs[i]] + rs[i + 1..j] + [rs[j]] + rs[j + 1..];
  }

  lemma {:induction false} DistinctCounts(rs: seq<nat>, x: nat)
    requires forall i, j | 0 <= i < j < |rs| :: rs[i] != rs[j]
    ensures multiset(rs)[x] <= 1
  {
    if rs != [] {
      var n := |rs| - 1;
      assert rs == rs[..n] + [rs[n]];
      DistinctCounts(rs[..n], x);
      if rs[n] == x {
        assert x !in rs[..n];
      }
    }
  }
}
