/**
 The send queue of a pipelined transfer on one queue pair: how deep it gets, over
 every interleaving of posting, executing and waiting. `n` chunks, a window of
 `w` posts between waits, every `s`-th post and the last one signaled.
 */
module Window {
  import opened Arith
  import opened Bytes
  import opened Pipeline

  /** Posts before the current window, posts so far, and how many have executed. */
  datatype Queue = Queue(base: nat, posted: nat, done: nat)

  datatype Move = Post | Execute | Wait

  predicate Can(n: nat, w: nat, s: nat, q: Queue, m: Move)
    requires s >= 1
  {
    match m
    case Post => q.posted < n && q.posted < q.base + w
    case Execute => q.done < q.posted
    case Wait =>
      && q.base < q.posted && (q.posted == q.base + w || q.posted == n)
      && forall j | q.base <= j < q.posted && Signaled(j, n, s) :: j < q.done
  }

  function Do(q: Queue, m: Move): Queue
  {
    match m
    case Post => q.(posted := q.posted + 1)
    case Execute => q.(done := q.done + 1)
    case Wait => q.(base := q.posted)
  }

  predicate IsRun(n: nat, w: nat, s: nat, q: Queue, run: seq<Move>, r: Queue)
    requires s >= 1
    decreases |run|
  {
    if run == [] then r == q else Can(n, w, s, q, run[0]) && IsRun(n, w, s, Do(q, run[0]), run[1..], r)
  }

  // ---- Never deeper.

  /** The last signaled post before the window has executed, and so has everything before it. */
  predicate Inv(n: nat, w: nat, s: nat, q: Queue)
    requires s >= 1 && w >= 1
  {
    && q.done <= q.posted && q.base <= q.posted <= n && q.posted <= q.base + w
    && (q.base < n ==> Gcd(w, s) >= 1 && q.base % Gcd(w, s) == 0 && q.base - q.base % s <= q.done)
    && (q.base == n ==> q.done == n)
  }

  lemma StepInv(n: nat, w: nat, s: nat, q: Queue, m: Move)
    requires s >= 1 && w >= 1 && Inv(n, w, s, q) && Can(n, w, s, q, m)
    ensures Inv(n, w, s, Do(q, m))
  {
    if m.Wait? {
      if q.posted == n {
        assert Signaled(n - 1, n, s);
      } else {
        GcdDivides(w, s);
        SumOfMultiples(q.base, w, Gcd(w, s));
        WaitCovers(n, w, s, q);
      }
    }
  }

  lemma WaitCovers(n: nat, w: nat, s: nat, q: Queue)
    requires s >= 1 && w >= 1 && Inv(n, w, s, q) && Can(n, w, s, q, Wait) && q.posted < n
    ensures q.posted - q.posted % s <= q.done
  {
    LastSignal(q.posted, n, s);
    var lo := q.posted - q.posted % s;
    if 0 < lo {
      if lo <= q.base {
        assert q.posted == q.posted / s * s + q.posted % s;
        MultipleMod(q.posted / s, s);
        MultipleBelow(lo, q.base, s);
      } else {
        assert Signaled(lo - 1, n, s);
      }
    }
  }

  lemma {:induction false} RunInv(n: nat, w: nat, s: nat, q: Queue, run: seq<Move>, r: Queue)
    requires s >= 1 && w >= 1 && Inv(n, w, s, q) && IsRun(n, w, s, q, run, r)
    ensures Inv(n, w, s, r)
    decreases |run|
  {
    hide Inv, Can, Do;
    if run != [] {
      StepInv(n, w, s, q, run[0]);
      RunInv(n, w, s, Do(q, run[0]), run[1..], r);
    }
  }

  lemma StartInv(n: nat, w: nat, s: nat)
    requires s >= 1 && w >= 1
    ensures Inv(n, w, s, Queue(0, 0, 0))
  {
    GcdDivides(w, s);
    MultipleMod(0, Gcd(w, s));
  }

  lemma NeverDeeper(n: nat, w: nat, s: nat, run: seq<Move>, r: Queue)
    requires 1 <= s <= w && IsRun(n, w, s, Queue(0, 0, 0), run, r)
    ensures r.posted - r.done <= Depth(w, s)
  {
    hide IsRun;
    StartInv(n, w, s);
    RunInv(n, w, s, Queue(0, 0, 0), run, r);
    GcdDivides(w, s);
    GcdAtMost(w, s);
    if r.base < n {
      RemainderOfMultiple(r.base, s, Gcd(w, s));
    }
  }

  // ---- That deep.

  lemma {:induction false} Join(n: nat, w: nat, s: nat, q: Queue, a: seq<Move>, m: Queue, b: seq<Move>, r: Queue)
    requires s >= 1 && IsRun(n, w, s, q, a, m) && IsRun(n, w, s, m, b, r)
    ensures IsRun(n, w, s, q, a + b, r)
    decreases |a|
  {
    hide Can, Do;
    if a == [] {
      assert a + b == b;
    } else {
      Join(n, w, s, Do(q, a[0]), a[1..], m, b, r);
      assert (a + b)[1..] == a[1..] + b;
    }
  }

  lemma {:induction false} PostMany(n: nat, w: nat, s: nat, q: Queue, k: nat) returns (run: seq<Move>)
    requires s >= 1 && q.posted + k <= n && q.posted + k <= q.base + w
    ensures IsRun(n, w, s, q, run, q.(posted := q.posted + k))
    decreases k
  {
    if k == 0 {
      return [];
    }
    run := PostMany(n, w, s, Do(q, Post), k - 1);
    assert ([Post] + run)[1..] == run;
    run := [Post] + run;
  }

  lemma {:induction false} ExecuteMany(n: nat, w: nat, s: nat, q: Queue, k: nat) returns (run: seq<Move>)
    requires s >= 1 && q.done + k <= q.posted
    ensures IsRun(n, w, s, q, run, q.(done := q.done + k))
    decreases k
  {
    if k == 0 {
      return [];
    }
    run := ExecuteMany(n, w, s, Do(q, Execute), k - 1);
    assert ([Execute] + run)[1..] == run;
    run := [Execute] + run;
  }

  /** At a boundary, with no more executed than the waits asked for. */
  function Lazy(p: nat, s: nat): Queue requires s >= 1 { Queue(p, p, p - p % s) }

  lemma LazyWaits(n: nat, w: nat, s: nat, base: nat)
    requires 1 <= s <= w && base + w < n
    ensures Can(n, w, s, Queue(base, base + w, base + w - (base + w) % s), Wait)
  {
    var p := base + w;
    forall j | base <= j < p && Signaled(j, n, s) ensures j < p - p % s {
      assert (j + 1) % s == 0;
      MultipleBelow(j + 1, p, s);
    }
  }

  lemma LazyWindow(n: nat, w: nat, s: nat, base: nat) returns (run: seq<Move>)
    requires 1 <= s <= w && base + w < n
    ensures IsRun(n, w, s, Lazy(base, s), run, Lazy(base + w, s))
  {
    hide IsRun, Can;
    var q := Lazy(base, s);
    run := PostMany(n, w, s, q, w);
    var q1 := q.(posted := base + w);
    LazyLess(base, base + w, s);
    var more := ExecuteMany(n, w, s, q1, (base + w - (base + w) % s) - q1.done);
    var q2 := Queue(base, base + w, base + w - (base + w) % s);
    Join(n, w, s, q, run, q1, more, q2);
    run := run + more;
    LazyWaits(n, w, s, base);
    OneMove(n, w, s, q2, Wait);
    Join(n, w, s, q, run, q2, [Wait], Lazy(base + w, s));
    run := run + [Wait];
  }

  lemma OneMove(n: nat, w: nat, s: nat, q: Queue, m: Move)
    requires s >= 1 && Can(n, w, s, q, m)
    ensures IsRun(n, w, s, q, [m], Do(q, m))
  {
    assert [m][1..] == [];
  }

  lemma LazyLess(a: nat, b: nat, s: nat)
    requires s >= 1 && a <= b
    ensures a - a % s <= b - b % s
  {
    assert a == a / s * s + a % s;
    MultipleMod(a / s, s);
    MultipleBelow(a - a % s, b, s);
  }

  lemma {:induction false} LazyRun(n: nat, w: nat, s: nat, m: nat) returns (run: seq<Move>)
    requires 1 <= s <= w && m * w < n
    ensures IsRun(n, w, s, Queue(0, 0, 0), run, Lazy(m * w, s))
    decreases m
  {
    if m == 0 {
      MultipleMod(0, s);
      return [];
    }
    hide IsRun;
    Distribute(m, 1, w);
    run := LazyRun(n, w, s, m - 1);
    var more := LazyWindow(n, w, s, (m - 1) * w);
    Join(n, w, s, Queue(0, 0, 0), run, Lazy((m - 1) * w, s), more, Lazy(m * w, s));
    run := run + more;
  }

  lemma ReachesDepth(w: nat, s: nat) returns (n: nat, run: seq<Move>, r: Queue)
    requires 1 <= s <= w
    ensures IsRun(n, w, s, Queue(0, 0, 0), run, r) && r.posted - r.done == Depth(w, s)
  {
    hide IsRun;
    var m := LargestRemainder(w, s);
    n := m * w + w + 1;
    run := LazyRun(n, w, s, m);
    var q := Lazy(m * w, s);
    var more := PostMany(n, w, s, q, w);
    r := q.(posted := q.posted + w);
    Join(n, w, s, Queue(0, 0, 0), run, q, more, r);
    run := run + more;
  }

  /** No transfer, in any interleaving, has more than `limit` requests outstanding. */
  ghost predicate Fits(w: nat, s: nat, limit: int)
    requires s >= 1
  {
    forall n, run, r | IsRun(n, w, s, Queue(0, 0, 0), run, r) :: r.posted - r.done <= limit
  }

  /** Exactly how deep the queue gets, over all transfers and interleavings. */
  lemma DepthExactly(w: nat, s: nat, limit: int)
    requires 1 <= s <= w
    ensures Fits(w, s, limit) <==> Depth(w, s) <= limit
  {
    hide IsRun, Depth;
    if Depth(w, s) <= limit {
      forall n, run, r | IsRun(n, w, s, Queue(0, 0, 0), run, r) ensures r.posted - r.done <= limit {
        NeverDeeper(n, w, s, run, r);
      }
    } else {
      var n, run, r := ReachesDepth(w, s);
    }
  }

  lemma SixteenDivides()
    ensures Gcd(32, 16) == 16
  {
    assert Gcd(16, 0) == 16;
  }

  /** With default settings the queue of `max_wr` entries never overflows, exactly from 32 entries on. */
  lemma DefaultsFit(maxWr: nat)
    requires 16 <= maxWr <= 65535
    ensures var env := Env(DEFAULT_CHUNK, Max(32, maxWr / 2), 16);
            var w := Inflight(0, env);
            Fits(w, Interval(w, env), maxWr) <==> maxWr >= 32
  {
    hide Fits;
    var w := Max(32, maxWr / 2);
    DepthExactly(w, 16, maxWr);
    GcdDivides(w, 16);
    GcdAtMost(w, 16);
    SixteenDivides();
  }
}
