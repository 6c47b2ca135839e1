/**
 Threads waiting on one completion queue: `waitWrIdMulti` and `waitWrId` of the
 RDMA endpoint, interleaved at lock granularity. One thread at a time polls the
 queue (`cq_poll_mu_`); completions it polls for others go to the shared set
 `completed_wr_ids_` (`completed_mu_`, held for single set operations only).
 */
module Waiters {

  datatype Cqe = Cqe(id: nat, ok: bool)

  datatype Status = Success | Error | Timeout

  datatype Pc =
    | First             // before the first look at the completed set
    | WantPoll          // waiting for cq_poll_mu_
    | Second            // holds it, before the second look
    | Polling           // at the top of the polling loop
    | Processing        // working through the polled batch
    | Returned(status: Status)

  /** `single` is waitWrId, which returns in the middle of a batch. */
  datatype Thread = Thread(single: bool, targets: set<nat>, pending: set<nat>, pc: Pc, batch: seq<Cqe>)

  datatype Holder = Free | Held(t: nat)

  datatype State = State(
    threads: map<nat, Thread>,
    completed: set<nat>,   // completed_wr_ids_
    holder: Holder,        // cq_poll_mu_
    cq: seq<Cqe>,
    arrived: set<nat>,     // ids the NIC has completed
    polled: set<nat>,      // ids polled with a success status
    lost: set<nat>)        // polled successes dropped by an early return

  datatype Action =
    | Arrive(e: Cqe)
    | Look(t: nat)         // either look at the completed set
    | Acquire(t: nat)
    | Poll(t: nat, n: nat)
    | Take(t: nat)         // next entry of the batch
    | EndBatch(t: nat)
    | Expire(t: nat)

  function OkIds(b: seq<Cqe>): set<nat> { set e | e in b && e.ok :: e.id }

  predicate AtMostOne(ids: set<nat>) { forall x, y | x in ids && y in ids :: x == y }

  predicate Init(s: State)
  {
    && (forall t | t in s.threads ::
          var h := s.threads[t];
          h.pc == First && h.pending == h.targets && h.batch == [] && (h.single ==> AtMostOne(h.targets)))
    && (forall t, u | t in s.threads && u in s.threads && t != u :: s.threads[t].targets !! s.threads[u].targets)
    && s.completed == {} && s.holder == Free && s.cq == [] && s.arrived == {} && s.polled == {} && s.lost == {}
  }

  predicate At(s: State, t: nat, pc: Pc) { t in s.threads && s.threads[t].pc == pc }

  predicate Enabled(s: State, a: Action)
  {
    match a
    case Arrive(e) => e.id !in s.arrived          // a request completes once
    case Look(t) => At(s, t, First) || At(s, t, Second)
    case Acquire(t) => At(s, t, WantPoll) && s.holder == Free
    case Poll(t, n) => At(s, t, Polling) && 1 <= n <= |s.cq|
    case Take(t) => At(s, t, Processing) && s.threads[t].batch != []
    case EndBatch(t) => At(s, t, Processing) && s.threads[t].batch == []
    case Expire(t) => At(s, t, Polling) && !s.threads[t].single
  }

  /** What the next batch entry does to the thread that polled it. */
  datatype Verdict = Fail | Hit | Share

  function Judge(h: Thread): Verdict
    requires h.batch != []
  {
    if !h.batch[0].ok then Fail else if h.batch[0].id in h.pending then Hit else Share
  }

  function Looked(s: State, t: nat): State
    requires t in s.threads
  {
    var h := s.threads[t];
    var left := h.pending - s.completed;
    var second := h.pc.Second?;
    var pc := if left == {} then Returned(Success) else if second then Polling else WantPoll;
    s.(threads := s.threads[t := h.(pending := left, pc := pc)],
       completed := s.completed - h.pending,
       holder := if second && left == {} then Free else s.holder)
  }

  function Polled(s: State, t: nat, n: nat): State
    requires t in s.threads && n <= |s.cq|
  {
    s.(threads := s.threads[t := s.threads[t].(pc := Processing, batch := s.cq[..n])],
       cq := s.cq[n..], polled := s.polled + OkIds(s.cq[..n]))
  }

  /** Returns in the middle of a batch: what is left of it is dropped. */
  function Quit(s: State, t: nat, h: Thread, st: Status): State
    requires h.batch != []
  {
    s.(threads := s.threads[t := h.(pc := Returned(st), batch := [])], holder := Free,
       lost := s.lost + OkIds(h.batch[1..]))
  }

  function Took(s: State, t: nat): State
    requires t in s.threads && s.threads[t].batch != []
  {
    var h := s.threads[t];
    var e, rest := h.batch[0], h.batch[1..];
    match Judge(h)
    case Fail => Quit(s, t, h, Error)
    case Hit =>
      if h.single then Quit(s, t, h.(pending := h.pending - {e.id}), Success)
      else s.(threads := s.threads[t := h.(pending := h.pending - {e.id}, batch := rest)])
    case Share => s.(threads := s.threads[t := h.(batch := rest)], completed := s.completed + {e.id})
  }

  function Left(s: State, t: nat, st: Status): State
    requires t in s.threads
  {
    s.(threads := s.threads[t := s.threads[t].(pc := Returned(st))], holder := Free)
  }

  function Apply(s: State, a: Action): State
    requires Enabled(s, a)
  {
    match a
    case Arrive(e) => s.(cq := s.cq + [e], arrived := s.arrived + {e.id})
    case Look(t) => Looked(s, t)
    case Acquire(t) => s.(threads := s.threads[t := s.threads[t].(pc := Second)], holder := Held(t))
    case Poll(t, n) => Polled(s, t, n)
    case Take(t) => Took(s, t)
    case EndBatch(t) =>
      if s.threads[t].pending == {} then Left(s, t, Success)
      else s.(threads := s.threads[t := s.threads[t].(pc := Polling)])
    case Expire(t) => Left(s, t, Timeout)
  }

  predicate IsRun(run: seq<State>, acts: seq<Action>)
  {
    && |run| == |acts| + 1 && Init(run[0])
    && forall i | 0 <= i < |acts| :: Enabled(run[i], acts[i]) && run[i + 1] == Apply(run[i], acts[i])
  }

  // ---- the invariant -------------------------------------------------------

  predicate InPoll(pc: Pc) { pc.Second? || pc.Polling? || pc.Processing? }

  predicate Distinct(b: seq<Cqe>) { forall i, j | 0 <= i < j < |b| :: b[i].id != b[j].id }

  /** Entries polled by the lock holder and not yet looked at. */
  function InHand(s: State): seq<Cqe>
  {
    if s.holder.Held? && s.holder.t in s.threads then s.threads[s.holder.t].batch else []
  }

  predicate Taken(s: State, id: nat)
  {
    exists t | t in s.threads :: id in s.threads[t].targets && id !in s.threads[t].pending
  }

  /** Thread-local facts. */
  ghost predicate ThreadsOk(s: State)
  {
    && (forall t | t in s.threads :: s.threads[t].pending <= s.threads[t].targets)
    && (forall t | t in s.threads :: InPoll(s.threads[t].pc) <==> s.holder == Held(t))
    && (forall t | t in s.threads && !s.threads[t].pc.Processing? :: s.threads[t].batch == [])
    && (forall t, u | t in s.threads && u in s.threads && t != u :: s.threads[t].targets !! s.threads[u].targets)
    && (forall t | t in s.threads && s.threads[t].pc == Returned(Success) :: s.threads[t].pending == {})
    && (forall t | t in s.threads && s.threads[t].single :: AtMostOne(s.threads[t].targets))
    && (s.holder.Held? ==> s.holder.t in s.threads)
  }

  /** A request is in the queue, in hand, or dealt with, never twice. */
  ghost predicate QueuesOk(s: State)
  {
    && Distinct(s.cq) && Distinct(InHand(s))
    && (forall e | e in s.cq :: e.id in s.arrived && e.id !in s.polled)
    && (forall e | e in InHand(s) :: e.id in s.arrived && (e.ok <==> e.id in s.polled))
    && (forall e, f | e in s.cq && f in InHand(s) :: e.id != f.id)
    && s.polled <= s.arrived
  }

  /** Each polled success is in exactly one place, and nothing else is anywhere. */
  ghost predicate Conserved(s: State, id: nat)
  {
    var a, b, c, d := id in s.completed, Taken(s, id), id in OkIds(InHand(s)), id in s.lost;
    && (id in s.polled <==> a || b || c || d)
    && !(a && b) && !(a && c) && !(a && d) && !(b && c) && !(b && d) && !(c && d)
  }

  /** Past its second look, the poller has no pending id in the shared set. */
  ghost predicate PollerClean(s: State)
  {
    forall t | t in s.threads && (s.threads[t].pc.Polling? || s.threads[t].pc.Processing?) ::
      s.threads[t].pending !! s.completed
  }

  ghost predicate Inv(s: State)
  {
    ThreadsOk(s) && QueuesOk(s) && PollerClean(s) && forall id: nat :: Conserved(s, id)
  }

  lemma InitInv(s: State)
    requires Init(s)
    ensures Inv(s)
  {
  }

  // ---- who has taken what --------------------------------------------------

  lemma TakenIs(s: State, t: nat, id: nat)
    requires ThreadsOk(s) && t in s.threads && id in s.threads[t].targets
    ensures Taken(s, id) <==> id !in s.threads[t].pending
  {
  }

  /** Changing one thread's pending set only matters for its own targets. */
  lemma TakenAfter(s: State, s': State, t: nat, id: nat)
    requires ThreadsOk(s) && t in s.threads && t in s'.threads
    requires s'.threads == s.threads[t := s'.threads[t]] && s'.threads[t].targets == s.threads[t].targets
    ensures Taken(s', id) <==> if id in s.threads[t].targets then id !in s'.threads[t].pending else Taken(s, id)
  {
    if id in s.threads[t].targets {
      assert forall u | u in s.threads && u != t :: id !in s.threads[u].targets;
    } else {
      if u :| u in s.threads && id in s.threads[u].targets && id !in s.threads[u].pending {
        assert s'.threads[u] == s.threads[u];
      }
      if u :| u in s'.threads && id in s'.threads[u].targets && id !in s'.threads[u].pending {
        assert s'.threads[u] == s.threads[u];
      }
    }
  }

  lemma HolderIs(s: State, t: nat)
    requires ThreadsOk(s) && t in s.threads && InPoll(s.threads[t].pc)
    ensures s.holder == Held(t) && InHand(s) == s.threads[t].batch
  {
  }

  lemma NotHolder(s: State, t: nat)
    requires ThreadsOk(s) && t in s.threads && !s.threads[t].pc.Processing?
    ensures s.threads[t].batch == [] && (s.holder == Held(t) ==> InHand(s) == [])
  {
  }

  /** A step of the lock holder that only moves itself. */
  lemma HolderMoves(s: State, s': State, t: nat)
    requires ThreadsOk(s) && t in s.threads && InPoll(s.threads[t].pc) && t in s'.threads
    requires s'.threads == s.threads[t := s'.threads[t]]
    requires var h, h' := s.threads[t], s'.threads[t];
      && h'.targets == h.targets && h'.single == h.single && h'.pending <= h.pending
      && (h'.pc == Returned(Success) ==> h'.pending == {}) && (!h'.pc.Processing? ==> h'.batch == [])
      && s'.holder == if InPoll(h'.pc) then Held(t) else Free
    ensures ThreadsOk(s')
  {
    hide AtMostOne;
  }

  // ---- Arrive --------------------------------------------------------------

  lemma ArriveInv(s: State, e: Cqe)
    requires Inv(s) && Enabled(s, Arrive(e))
    ensures Inv(Apply(s, Arrive(e)))
  {
    var s' := Apply(s, Arrive(e));
    assert InHand(s') == InHand(s);
    forall id: nat ensures Conserved(s', id) {
      assert Conserved(s, id);
      assert Taken(s', id) == Taken(s, id);
    }
  }

  // ---- Look ----------------------------------------------------------------

  lemma LookThreads(s: State, t: nat)
    requires Inv(s) && Enabled(s, Look(t))
    ensures ThreadsOk(Looked(s, t)) && PollerClean(Looked(s, t))
  {
    hide Conserved, QueuesOk;
    var s', h := Looked(s, t), s.threads[t];
    forall u | u in s.threads ensures s'.threads[u].targets == s.threads[u].targets {
    }
  }

  lemma LookInv(s: State, t: nat)
    requires Inv(s) && Enabled(s, Look(t))
    ensures Inv(Looked(s, t))
  {
    var s', h := Looked(s, t), s.threads[t];
    LookThreads(s, t);
    NotHolder(s, t);
    assert InHand(s') == InHand(s);
    forall id: nat ensures Conserved(s', id) {
      assert Conserved(s, id);
      TakenAfter(s, s', t, id);
      if id in h.targets {
        TakenIs(s, t, id);
      }
    }
  }

  // ---- Acquire, EndBatch, Expire: program counters only ---------------------

  lemma AcquireThreads(s: State, t: nat)
    requires Inv(s) && Enabled(s, Acquire(t))
    ensures ThreadsOk(Apply(s, Acquire(t))) && PollerClean(Apply(s, Acquire(t)))
  {
    hide Conserved, QueuesOk, InHand, AtMostOne;
  }

  lemma PcThreads(s: State, a: Action)
    requires Inv(s) && Enabled(s, a) && (a.EndBatch? || a.Expire?)
    ensures ThreadsOk(Apply(s, a)) && PollerClean(Apply(s, a))
  {
    hide Conserved, QueuesOk, InHand, AtMostOne;
    HolderIs(s, a.t);
    HolderMoves(s, Apply(s, a), a.t);
  }

  lemma PcHand(s: State, a: Action)
    requires Inv(s) && Enabled(s, a) && (a.Acquire? || a.EndBatch? || a.Expire?)
    ensures InHand(Apply(s, a)) == InHand(s)
  {
    hide Conserved, QueuesOk, PollerClean, AtMostOne;
    if !a.Acquire? {
      HolderIs(s, a.t);
    }
  }

  lemma PcInv(s: State, a: Action)
    requires Inv(s) && Enabled(s, a) && (a.Acquire? || a.EndBatch? || a.Expire?)
    ensures Inv(Apply(s, a))
  {
    var s' := Apply(s, a);
    if a.Acquire? { AcquireThreads(s, a.t); } else { PcThreads(s, a); }
    PcHand(s, a);
    hide PollerClean, InHand, OkIds, AtMostOne;
    forall id: nat ensures Conserved(s', id) {
      assert Conserved(s, id);
      TakenAfter(s, s', a.t, id);
      if id in s.threads[a.t].targets {
        TakenIs(s, a.t, id);
      }
    }
  }

  // ---- Poll ----------------------------------------------------------------

  lemma PollThreads(s: State, t: nat, n: nat)
    requires Inv(s) && Enabled(s, Poll(t, n))
    ensures ThreadsOk(Polled(s, t, n)) && PollerClean(Polled(s, t, n))
    ensures InHand(s) == [] && InHand(Polled(s, t, n)) == s.cq[..n]
  {
    hide Conserved, QueuesOk;
    HolderIs(s, t);
  }

  lemma SplitQueue(q: seq<Cqe>, n: nat)
    requires Distinct(q) && n <= |q|
    ensures Distinct(q[..n]) && Distinct(q[n..])
    ensures forall e | e in q[..n] || e in q[n..] :: e in q
    ensures forall e, f | e in q[n..] && f in q[..n] :: e.id != f.id
    ensures forall e | e in q[..n] && e.id in OkIds(q[..n]) :: e.ok
  {
    var b, rest := q[..n], q[n..];
    forall e, f | e in rest && f in b ensures e.id != f.id {
      var i :| 0 <= i < |rest| && rest[i] == e;
      var k :| 0 <= k < |b| && b[k] == f;
      assert q[k] == f && q[n + i] == e;
    }
    forall e | e in b && e.id in OkIds(b) ensures e.ok {
      var f :| f in b && f.ok && f.id == e.id;
      var i :| 0 <= i < |b| && b[i] == e;
      var k :| 0 <= k < |b| && b[k] == f;
      assert i == k;
    }
  }

  lemma PollQueues(s: State, t: nat, n: nat)
    requires Inv(s) && Enabled(s, Poll(t, n))
    ensures QueuesOk(Polled(s, t, n))
    ensures forall id | id in OkIds(s.cq[..n]) :: id !in s.polled
  {
    PollThreads(s, t, n);
    hide Conserved, ThreadsOk, PollerClean, InHand, Distinct;
    SplitQueue(s.cq, n);
  }

  lemma PollInv(s: State, t: nat, n: nat)
    requires Inv(s) && Enabled(s, Poll(t, n))
    ensures Inv(Polled(s, t, n))
  {
    hide QueuesOk, PollerClean, InHand;
    var s' := Polled(s, t, n);
    PollThreads(s, t, n);
    PollQueues(s, t, n);
    forall id: nat ensures Conserved(s', id) {
      assert Conserved(s, id);
      TakenAfter(s, s', t, id);
      if id in s.threads[t].targets {
        TakenIs(s, t, id);
      }
    }
  }

  // ---- Take ----------------------------------------------------------------

  lemma OkIdsHead(b: seq<Cqe>)
    requires b != [] && Distinct(b)
    ensures OkIds(b) == OkIds(b[1..]) + (if b[0].ok then {b[0].id} else {})
    ensures b[0].id !in OkIds(b[1..]) && Distinct(b[1..])
    ensures forall e | e in b[1..] :: e in b && e.id != b[0].id
  {
    var rest := b[1..];
    assert forall e | e in rest :: exists i :: 0 < i < |b| && b[i] == e;
    assert b == [b[0]] + rest;
  }

  lemma TakeThreads(s: State, t: nat)
    requires Inv(s) && Enabled(s, Take(t))
    ensures ThreadsOk(Took(s, t)) && PollerClean(Took(s, t))
    ensures InHand(s) == s.threads[t].batch
    ensures InHand(Took(s, t)) == if Took(s, t).holder == Free then [] else s.threads[t].batch[1..]
  {
    hide Conserved, QueuesOk, PollerClean, OkIds;
    var h := s.threads[t];
    HolderIs(s, t);
    LastTarget(s, t);
    HolderMoves(s, Took(s, t), t);
    TakeClean(s, t);
  }

  /** A `waitWrId` that finds its target has nothing left to wait for. */
  lemma LastTarget(s: State, t: nat)
    requires ThreadsOk(s) && t in s.threads && s.threads[t].batch != []
    ensures var h := s.threads[t]; h.single && Judge(h).Hit? ==> h.pending - {h.batch[0].id} == {}
  {
    var h := s.threads[t];
    assert h.single ==> AtMostOne(h.targets);
  }

  lemma TakeClean(s: State, t: nat)
    requires ThreadsOk(s) && PollerClean(s) && Enabled(s, Take(t))
    ensures PollerClean(Took(s, t))
  {
    hide AtMostOne, OkIds;
    HolderIs(s, t);
  }

  lemma TakeQueues(s: State, t: nat)
    requires Inv(s) && Enabled(s, Take(t))
    ensures QueuesOk(Took(s, t))
  {
    hide Conserved, ThreadsOk, PollerClean, InHand;
    TakeThreads(s, t);
    OkIdsHead(s.threads[t].batch);
  }

  lemma TakeConserved(s: State, t: nat, id: nat)
    requires Inv(s) && Enabled(s, Take(t))
    ensures Conserved(Took(s, t), id)
  {
    hide PollerClean, InHand, OkIds, Taken, AtMostOne;
    var s', h := Took(s, t), s.threads[t];
    TakeThreads(s, t);
    OkIdsHead(h.batch);
    assert Conserved(s, id);
    TakenAfter(s, s', t, id);
    if id in h.targets {
      TakenIs(s, t, id);
    }
    assert OkIds([]) == {} by { NoOkIds(); }
  }

  lemma NoOkIds()
    ensures OkIds([]) == {}
  {
  }

  lemma TakeInv(s: State, t: nat)
    requires Inv(s) && Enabled(s, Take(t))
    ensures Inv(Took(s, t))
  {
    hide ThreadsOk, PollerClean, QueuesOk, Conserved, Took;
    TakeThreads(s, t);
    TakeQueues(s, t);
    forall id: nat ensures Conserved(Took(s, t), id) {
      TakeConserved(s, t, id);
    }
  }

  // ---- runs ----------------------------------------------------------------

  lemma StepInv(s: State, a: Action)
    requires Inv(s) && Enabled(s, a)
    ensures Inv(Apply(s, a))
  {
    hide Inv;
    match a
    case Arrive(e) => ArriveInv(s, e);
    case Look(t) => LookInv(s, t);
    case Poll(t, n) => PollInv(s, t, n);
    case Take(t) => TakeInv(s, t);
    case _ => PcInv(s, a);
  }

  lemma {:induction false} RunInv(run: seq<State>, acts: seq<Action>, n: nat)
    requires IsRun(run, acts) && n < |run|
    ensures Inv(run[n])
  {
    hide Inv, Enabled, Apply;
    if n == 0 {
      InitInv(run[0]);
    } else {
      RunInv(run, acts, n - 1);
      StepInv(run[n - 1], acts[n - 1]);
    }
  }

  /**
   Conservation, in every state of every run: a polled success is in exactly one
   of four places (shared set, taken by the thread that wants it, in the poller's
   hand, dropped), and only polled successes are in any of them.
   */
  lemma Conservation(run: seq<State>, acts: seq<Action>, n: nat, id: nat)
    requires IsRun(run, acts) && n < |run|
    ensures var s := run[n];
            var places := [id in s.completed, Taken(s, id), id in OkIds(InHand(s)), id in s.lost];
            && (id in s.polled ==> exists i | 0 <= i < 4 :: places[i])
            && (id !in s.polled ==> forall i | 0 <= i < 4 :: !places[i])
            && (forall i, j | 0 <= i < j < 4 :: !(places[i] && places[j]))
  {
    hide ThreadsOk, QueuesOk, PollerClean, Taken, InHand, OkIds;
    RunInv(run, acts, n);
    var s := run[n];
    assert Conserved(s, id);
    var places := [id in s.completed, Taken(s, id), id in OkIds(InHand(s)), id in s.lost];
    assert id in s.polled ==> places[0] || places[1] || places[2] || places[3];
  }

  /** SUCCESS means that every target's completion was polled, with success. */
  lemma SuccessIsSound(run: seq<State>, acts: seq<Action>, n: nat, t: nat)
    requires IsRun(run, acts) && n < |run| && At(run[n], t, Returned(Success))
    ensures run[n].threads[t].targets <= run[n].polled
  {
    hide QueuesOk, PollerClean;
    RunInv(run, acts, n);
    forall id | id in run[n].threads[t].targets ensures id in run[n].polled {
      assert Conserved(run[n], id);
      assert Taken(run[n], id);
    }
  }

  /**
   After its second look the holder of the poll lock never has a pending id in
   the shared set; at the top of its loop none of its pending ids has been
   polled by anyone, unless an early return dropped it.
   */
  lemma PollerWaitsForTheQueue(run: seq<State>, acts: seq<Action>, n: nat, t: nat)
    requires IsRun(run, acts) && n < |run| && t in run[n].threads
    requires run[n].threads[t].pc.Polling? || run[n].threads[t].pc.Processing?
    ensures run[n].threads[t].pending !! run[n].completed
    ensures run[n].threads[t].pc.Polling? ==> run[n].threads[t].pending * run[n].polled <= run[n].lost
  {
    hide QueuesOk;
    RunInv(run, acts, n);
    var s := run[n];
    if s.threads[t].pc.Polling? {
      HolderIs(s, t);
      forall id | id in s.threads[t].pending && id in s.polled ensures id in s.lost {
        assert Conserved(s, id);
        TakenIs(s, t, id);
      }
    }
  }

  /** Nothing a waiting thread wants is out of its reach, unless dropped. */
  lemma NothingStolen(run: seq<State>, acts: seq<Action>, n: nat, t: nat, id: nat)
    requires IsRun(run, acts) && n < |run| && t in run[n].threads
    requires id in run[n].threads[t].pending && id in run[n].polled && id !in run[n].lost
    ensures id in run[n].completed || id in OkIds(InHand(run[n]))
  {
    hide QueuesOk, PollerClean;
    RunInv(run, acts, n);
    assert Conserved(run[n], id);
    TakenIs(run[n], t, id);
  }

  // ---- what is dropped -----------------------------------------------------

  /** An early return with successes behind it in the batch. */
  predicate Drops(s: State, a: Action)
    requires Enabled(s, a)
  {
    a.Take? && var h := s.threads[a.t];
               (Judge(h).Fail? || (Judge(h).Hit? && h.single)) && OkIds(h.batch[1..]) != {}
  }

  /** `waitWrIdMulti` returns early only on a failed completion. */
  predicate Multi(s: State) { forall t | t in s.threads :: !s.threads[t].single }

  /** No completion fails. */
  predicate AllSucceed(acts: seq<Action>) { forall m | 0 <= m < |acts| && acts[m].Arrive? :: acts[m].e.ok }

  lemma {:induction false} KindsStay(run: seq<State>, acts: seq<Action>, n: nat)
    requires IsRun(run, acts) && n < |run| && Multi(run[0])
    ensures Multi(run[n])
  {
    if n > 0 {
      KindsStay(run, acts, n - 1);
    }
  }

  lemma {:induction false} LostByStep(run: seq<State>, acts: seq<Action>, n: nat)
    requires IsRun(run, acts) && n < |run| && forall m | 0 <= m < n :: !Drops(run[m], acts[m])
    ensures run[n].lost == {}
  {
    if n > 0 {
      LostByStep(run, acts, n - 1);
    }
  }

  /** Only `waitWrIdMulti`, only successful completions: nothing is ever dropped. */
  lemma MultiLosesNothing(run: seq<State>, acts: seq<Action>, n: nat)
    requires IsRun(run, acts) && n < |run| && Multi(run[0])
    requires AllSucceed(acts)
    ensures run[n].lost == {}
  {
    hide Apply, Inv;
    forall m | 0 <= m < n ensures !Drops(run[m], acts[m]) {
      KindsStay(run, acts, m);
      AllOk(run, acts, m);
      RunInv(run, acts, m);
      if acts[m].Take? {
        assert Enabled(run[m], acts[m]);
        HandIsOk(run[m], acts[m].t);
      }
    }
    LostByStep(run, acts, n);
  }

  lemma HandIsOk(s: State, t: nat)
    requires Inv(s) && At(s, t, Processing) && s.threads[t].batch != []
    requires forall e | e in InHand(s) :: e.ok
    ensures !Judge(s.threads[t]).Fail?
  {
    HolderIs(s, t);
    assert s.threads[t].batch[0] in InHand(s);
  }

  lemma {:induction false} AllOk(run: seq<State>, acts: seq<Action>, n: nat)
    requires IsRun(run, acts) && n < |run|
    requires AllSucceed(acts)
    ensures forall e | e in run[n].cq :: e.ok
    ensures forall e | e in InHand(run[n]) :: e.ok
  {
    if n > 0 {
      AllOk(run, acts, n - 1);
      RunInv(run, acts, n - 1);
      OkStep(run[n - 1], acts[n - 1]);
    }
  }

  lemma OkStep(s: State, a: Action)
    requires Inv(s) && Enabled(s, a) && (a.Arrive? ==> a.e.ok)
    requires forall e | e in s.cq :: e.ok
    requires forall e | e in InHand(s) :: e.ok
    ensures forall e | e in Apply(s, a).cq :: e.ok
    ensures forall e | e in InHand(Apply(s, a)) :: e.ok
  {
    hide QueuesOk, PollerClean, Conserved;
    match a
    case Take(t) => TakeThreads(s, t);
    case Poll(t, n) => PollThreads(s, t, n);
    case Look(t) => NotHolder(s, t);
    case Arrive(e) =>
    case _ => PcHand(s, a);
  }

  lemma TargetsStay(s: State, a: Action, t: nat)
    requires Enabled(s, a) && t in s.threads
    ensures var s' := Apply(s, a); t in s'.threads && s'.threads[t].targets == s.threads[t].targets && s.lost <= s'.lost
  {
  }

  lemma LostIsPending(s: State, t: nat, id: nat)
    requires Inv(s) && t in s.threads && id in s.lost && id in s.threads[t].targets
    ensures id in s.threads[t].pending && !At(s, t, Returned(Success))
  {
    hide QueuesOk, PollerClean, InHand;
    assert Conserved(s, id);
    TakenIs(s, t, id);
  }

  /** A dropped completion never comes back: a thread that wants it never succeeds. */
  lemma {:induction false} LostStaysLost(run: seq<State>, acts: seq<Action>, m: nat, n: nat, t: nat, id: nat)
    requires IsRun(run, acts) && m <= n < |run| && t in run[m].threads
    requires id in run[m].lost && id in run[m].threads[t].targets
    ensures t in run[n].threads && id in run[n].lost && id in run[n].threads[t].targets
    ensures id in run[n].threads[t].pending && !At(run[n], t, Returned(Success))
  {
    hide Inv, Enabled, Apply;
    if m < n {
      LostStaysLost(run, acts, m, n - 1, t, id);
      TargetsStay(run[n - 1], acts[n - 1], t);
    }
    RunInv(run, acts, n);
    LostIsPending(run[n], t, id);
  }

  lemma Extend(run: seq<State>, acts: seq<Action>, a: Action)
    returns (run': seq<State>, acts': seq<Action>, s': State)
    requires IsRun(run, acts) && Enabled(run[|run| - 1], a)
    ensures IsRun(run', acts') && |run'| > 0
    ensures run'[0] == run[0] && acts' == acts + [a]
    ensures s' == Apply(run[|run| - 1], a) && run'[|run'| - 1] == s'
  {
    hide Enabled, Apply, Init;
    s' := Apply(run[|run| - 1], a);
    run', acts' := run + [s'], acts + [a];
    forall i | 0 <= i < |acts'| ensures Enabled(run'[i], acts'[i]) && run'[i + 1] == Apply(run'[i], acts'[i]) {
      if i < |acts| {
        assert run'[i] == run[i] && run'[i + 1] == run[i + 1] && acts'[i] == acts[i];
      }
    }
  }

  // ---- exactly when a completion someone waits for can be dropped -----------

  /** Some thread's target has been dropped. */
  ghost predicate Victim(s: State)
  {
    exists t, id :: t in s.threads && id in s.threads[t].targets && id in s.lost
  }

  /** ... and that thread has not returned: it will never succeed. */
  ghost predicate WaitingVictim(s: State)
  {
    exists t, id ::
      t in s.threads && !s.threads[t].pc.Returned? && id in s.threads[t].targets && id in s.lost
  }

  predicate Waits(h: Thread) { h.targets != {} }

  /** A `waitWrId` runs beside another wait. */
  predicate Risky(s: State)
  {
    exists t, u :: t in s.threads && u in s.threads && t != u && s.threads[t].single
                   && Waits(s.threads[t]) && Waits(s.threads[u])
  }

  /** Two waits run side by side. */
  predicate Crowded(s: State)
  {
    exists t, u :: t in s.threads && u in s.threads && t != u && Waits(s.threads[t]) && Waits(s.threads[u])
  }

  lemma StepKinds(s: State, a: Action)
    requires Enabled(s, a)
    ensures Apply(s, a).threads.Keys == s.threads.Keys
    ensures forall t | t in s.threads ::
      Apply(s, a).threads[t].targets == s.threads[t].targets && Apply(s, a).threads[t].single == s.threads[t].single
  {
  }

  /** Who still polls has something to wait for. */
  ghost predicate Busy(s: State)
  {
    forall t | t in s.threads ::
      var h := s.threads[t];
      && (h.pc.WantPoll? || h.pc.Second? || h.pc.Polling? ==> h.pending != {})
      && (h.pc.Processing? ==> Waits(h))
  }

  lemma StepBusy(s: State, a: Action)
    requires ThreadsOk(s) && Busy(s) && Enabled(s, a)
    ensures Busy(Apply(s, a))
  {
  }

  lemma {:induction false} RunBusy(run: seq<State>, acts: seq<Action>, n: nat)
    requires IsRun(run, acts) && n < |run|
    ensures Busy(run[n])
  {
    hide Inv, Busy, Enabled, Apply;
    if n == 0 {
      InitBusy(run[0]);
    } else {
      RunBusy(run, acts, n - 1);
      RunInv(run, acts, n - 1);
      ThreadsOf(run[n - 1]);
      StepBusy(run[n - 1], acts[n - 1]);
    }
  }

  lemma InitBusy(s: State)
    requires Init(s)
    ensures Busy(s)
  {
  }

  lemma ThreadsOf(s: State)
    requires Inv(s)
    ensures ThreadsOk(s)
  {
  }

  lemma ReturnedStays(s: State, a: Action, t: nat)
    requires Enabled(s, a) && t in s.threads && s.threads[t].pc.Returned?
    ensures t in Apply(s, a).threads && Apply(s, a).threads[t].pc.Returned?
  {
  }

  /** What a step drops is the rest of a returning thread's batch, and none of a `waitWrId`'s own. */
  lemma StepDrops(s: State, a: Action, id: nat)
    requires Inv(s) && Busy(s) && Enabled(s, a) && id in Apply(s, a).lost && id !in s.lost
    ensures a.Take? && Waits(s.threads[a.t]) && Apply(s, a).threads[a.t].pc.Returned?
    ensures !Judge(s.threads[a.t]).Fail? ==> s.threads[a.t].single && id !in s.threads[a.t].targets
  {
    hide Conserved, PollerClean;
    var h := s.threads[a.t];
    HolderIs(s, a.t);
    OkIdsHead(h.batch);
  }

  lemma {:induction false} SafeNeverDrops(run: seq<State>, acts: seq<Action>, n: nat)
    requires IsRun(run, acts) && n < |run| && AllSucceed(acts) && !Risky(run[0])
    ensures !Victim(run[n]) && !Risky(run[n])
  {
    hide Inv, Busy, Enabled, Apply;
    if n > 0 {
      SafeNeverDrops(run, acts, n - 1);
      RunInv(run, acts, n - 1);
      RunBusy(run, acts, n - 1);
      AllOk(run, acts, n - 1);
      SafeStep(run[n - 1], acts[n - 1]);
    }
  }

  lemma SafeStep(s: State, a: Action)
    requires Inv(s) && Busy(s) && Enabled(s, a) && !Risky(s) && !Victim(s)
    requires forall e | e in InHand(s) :: e.ok
    ensures !Victim(Apply(s, a)) && !Risky(Apply(s, a))
  {
    hide Inv, Busy, Apply;
    var s' := Apply(s, a);
    StepKinds(s, a);
    forall t, id | t in s'.threads && id in s'.threads[t].targets ensures id !in s'.lost {
      assert id !in s.lost;
      if id in s'.lost {
        StepDrops(s, a, id);
        HandIsOk(s, a.t);
        assert false;
      }
    }
  }

  lemma {:induction false} AloneNeverDrops(run: seq<State>, acts: seq<Action>, n: nat)
    requires IsRun(run, acts) && n < |run| && !Crowded(run[0])
    ensures !WaitingVictim(run[n]) && !Crowded(run[n])
  {
    hide Inv, Busy, Enabled, Apply;
    if n > 0 {
      AloneNeverDrops(run, acts, n - 1);
      RunInv(run, acts, n - 1);
      RunBusy(run, acts, n - 1);
      AloneStep(run[n - 1], acts[n - 1]);
    }
  }

  lemma AloneStep(s: State, a: Action)
    requires Inv(s) && Busy(s) && Enabled(s, a) && !Crowded(s) && !WaitingVictim(s)
    ensures !WaitingVictim(Apply(s, a)) && !Crowded(Apply(s, a))
  {
    hide Inv, Busy, Apply;
    var s' := Apply(s, a);
    StepKinds(s, a);
    forall t, id | t in s'.threads && !s'.threads[t].pc.Returned? && id in s'.threads[t].targets
      ensures id !in s'.lost
    {
      if s.threads[t].pc.Returned? { ReturnedStays(s, a, t); }
      assert id !in s.lost;
      if id in s'.lost {
        StepDrops(s, a, id);
        assert false;
      }
    }
  }

  // ---- the dropping run, from any such start ---------------------------------

  lemma SecondIsOk(e: Cqe, f: Cqe)
    requires f.ok
    ensures f.id in OkIds([e, f][1..])
  {
    assert f in [e, f][1..];
  }

  lemma LookAtNothing(s: State, t: nat)
    requires t in s.threads && s.completed == {} && s.threads[t].pending != {}
    ensures Looked(s, t) == s.(threads := s.threads[t := s.threads[t].(
                                 pc := if s.threads[t].pc.Second? then Polling else WantPoll)])
  {
    var h := s.threads[t];
    assert h.pending - s.completed == h.pending && s.completed - h.pending == s.completed;
  }

  /** Both completions arrive. */
  lemma Gather(s0: State, e: Cqe, f: Cqe) returns (run: seq<State>, acts: seq<Action>, s: State)
    requires Init(s0) && e.id != f.id
    ensures IsRun(run, acts) && run[0] == s0 && run[|run| - 1] == s && acts == [Arrive(e), Arrive(f)]
    ensures s == s0.(cq := [e, f], arrived := {e.id, f.id})
  {
    run, acts := [s0], [];
    assert IsRun(run, acts);
    hide IsRun, Init;
    assert s0.cq == [] && s0.arrived == {} by { StartsEmpty(s0); }
    run, acts, s := Extend(run, acts, Arrive(e));
    run, acts, s := Extend(run, acts, Arrive(f));
  }

  lemma StartsEmpty(s: State)
    requires Init(s)
    ensures s.cq == [] && s.arrived == {} && s.completed == {} && s.lost == {} && s.holder == Free
    ensures forall t | t in s.threads :: s.threads[t].pc == First && s.threads[t].pending == s.threads[t].targets
  {
  }

  /** Thread `t` finds nothing, gets the poll lock and finds nothing again. */
  lemma GetLock(run0: seq<State>, acts0: seq<Action>, s0: State, t: nat)
    returns (run: seq<State>, acts: seq<Action>, s: State)
    requires IsRun(run0, acts0) && run0[|run0| - 1] == s0
    requires At(s0, t, First) && s0.threads[t].pending != {} && s0.completed == {} && s0.holder == Free
    ensures IsRun(run, acts) && run[0] == run0[0] && run[|run| - 1] == s
    ensures acts == acts0 + [Look(t), Acquire(t), Look(t)]
    ensures s == s0.(threads := s0.threads[t := s0.threads[t].(pc := Polling)], holder := Held(t))
  {
    hide IsRun, Init;
    var h := s0.threads[t];
    LookAtNothing(s0, t);
    run, acts, s := Extend(run0, acts0, Look(t));
    assert s.threads == s0.threads[t := h.(pc := WantPoll)];
    run, acts, s := Extend(run, acts, Acquire(t));
    assert s.threads == s0.threads[t := h.(pc := Second)];
    LookAtNothing(s, t);
    run, acts, s := Extend(run, acts, Look(t));
    assert s.threads == s0.threads[t := h.(pc := Polling)];
  }

  /** Thread `t` returns on the first entry of its batch; the second was another thread's. */
  lemma Drop(s0: State, t: nat, u: nat, e: Cqe, id: nat) returns (run: seq<State>, acts: seq<Action>)
    requires Init(s0) && t in s0.threads && u in s0.threads && t != u
    requires e.id in s0.threads[t].targets && id in s0.threads[u].targets && (e.ok ==> s0.threads[t].single)
    ensures IsRun(run, acts) && run[0] == s0 && (e.ok ==> AllSucceed(acts))
    ensures var s := run[|run| - 1];
      u in s.threads && s.threads[u] == s0.threads[u] && id in s.lost
  {
    var f := Cqe(id, true);
    StartsEmpty(s0);
    OwnIds(s0, t, u, e.id, id);
    hide IsRun, OkIds, Init, AllSucceed;
    var s: State;
    run, acts, s := Gather(s0, e, f);
    run, acts, s := GetLock(run, acts, s, t);
    run, acts, s := Extend(run, acts, Poll(t, 2));
    assert s.threads[t].batch == [e, f] && s.threads[t].pending == s0.threads[t].pending;
    run, acts, s := Extend(run, acts, Take(t));
    SecondIsOk(e, f);
    assert acts == [Arrive(e), Arrive(f)] + [Look(t), Acquire(t), Look(t)] + [Poll(t, 2)] + [Take(t)];
    TheySucceed(e, f, t);
  }

  lemma OwnIds(s: State, t: nat, u: nat, x: nat, y: nat)
    requires Init(s) && t in s.threads && u in s.threads && t != u
    requires x in s.threads[t].targets && y in s.threads[u].targets
    ensures x != y
  {
    assert s.threads[t].targets !! s.threads[u].targets;
  }

  lemma TheySucceed(e: Cqe, f: Cqe, t: nat)
    ensures e.ok && f.ok ==>
      AllSucceed([Arrive(e), Arrive(f)] + [Look(t), Acquire(t), Look(t)] + [Poll(t, 2)] + [Take(t)])
  {
  }

  /**
   With only successful completions: in no run is any thread's completion dropped
   if and only if no `waitWrId` is called beside another wait.
   */
  lemma DropsExactly(s: State)
    requires Init(s)
    ensures (forall run, acts | IsRun(run, acts) && run[0] == s && AllSucceed(acts) ::
               forall n | 0 <= n < |run| :: !Victim(run[n]))
       <==> !Risky(s)
  {
    if !Risky(s) {
      forall run, acts, n | IsRun(run, acts) && run[0] == s && AllSucceed(acts) && 0 <= n < |run|
        ensures !Victim(run[n])
      {
        SafeNeverDrops(run, acts, n);
      }
    } else {
      var t, u :| t in s.threads && u in s.threads && t != u && s.threads[t].single
                  && Waits(s.threads[t]) && Waits(s.threads[u]);
      var x :| x in s.threads[t].targets;
      var id :| id in s.threads[u].targets;
      hide Init, IsRun;
      var run, acts := Drop(s, t, u, Cqe(x, true), id);
      assert Victim(run[|run| - 1]);
    }
  }

  /**
   With failures allowed: in no run is a completion dropped that a thread still
   waits for if and only if no two waits run side by side, of either kind.
   */
  lemma FailuresDropExactly(s: State)
    requires Init(s)
    ensures (forall run, acts | IsRun(run, acts) && run[0] == s :: forall n | 0 <= n < |run| :: !WaitingVictim(run[n]))
       <==> !Crowded(s)
  {
    if !Crowded(s) {
      forall run, acts, n | IsRun(run, acts) && run[0] == s && 0 <= n < |run| ensures !WaitingVictim(run[n]) {
        AloneNeverDrops(run, acts, n);
      }
    } else {
      var t, u :| t in s.threads && u in s.threads && t != u && Waits(s.threads[t]) && Waits(s.threads[u]);
      var x :| x in s.threads[t].targets;
      var id :| id in s.threads[u].targets;
      assert s.threads[u].pc == First;
      hide Init, IsRun;
      var run, acts := Drop(s, t, u, Cqe(x, false), id);
      assert WaitingVictim(run[|run| - 1]);
    }
  }

  // ---- progress --------------------------------------------------------------

  /** Only the NIC or a timeout could still act. */
  ghost predicate Quiet(s: State) { forall a | Enabled(s, a) :: a.Arrive? || a.Expire? }

  /** Every completion is in the queue, in hand or polled. */
  ghost predicate Somewhere(s: State)
  {
    forall id | id in s.arrived :: id in s.polled || (exists e :: e in s.cq && e.id == id)
  }

  lemma StepSomewhere(s: State, a: Action)
    requires Inv(s) && Somewhere(s) && Enabled(s, a) && (a.Arrive? ==> a.e.ok)
    requires forall e | e in s.cq :: e.ok
    ensures Somewhere(Apply(s, a))
  {
    hide Inv;
    var s' := Apply(s, a);
    forall id | id in s'.arrived ensures id in s'.polled || (exists e :: e in s'.cq && e.id == id) {
      if a.Arrive? && id == a.e.id {
        assert a.e in s'.cq;
      } else if e :| e in s.cq && e.id == id {
        if a.Poll? {
          assert s.cq == s.cq[..a.n] + s.cq[a.n..];
        } else {
          assert e in s'.cq;
        }
      }
    }
  }

  /** No thread has returned anything but SUCCESS. */
  ghost predicate NoneFailed(s: State)
  {
    forall t | t in s.threads && s.threads[t].pc.Returned? :: s.threads[t].pc.status.Success?
  }

  lemma StepNoneFailed(s: State, a: Action)
    requires Inv(s) && NoneFailed(s) && Enabled(s, a) && !a.Expire?
    requires forall e | e in InHand(s) :: e.ok
    ensures NoneFailed(Apply(s, a))
  {
    hide Conserved, QueuesOk, PollerClean;
    if a.Take? { HandIsOk(s, a.t); }
  }

  predicate NoExpiry(acts: seq<Action>) { forall m | 0 <= m < |acts| :: !acts[m].Expire? }

  lemma {:induction false} RunHealthy(run: seq<State>, acts: seq<Action>, n: nat)
    requires IsRun(run, acts) && n < |run| && AllSucceed(acts) && NoExpiry(acts)
    ensures Somewhere(run[n]) && NoneFailed(run[n])
  {
    hide Inv, Enabled, Apply;
    if n > 0 {
      RunHealthy(run, acts, n - 1);
      RunInv(run, acts, n - 1);
      AllOk(run, acts, n - 1);
      StepSomewhere(run[n - 1], acts[n - 1]);
      StepNoneFailed(run[n - 1], acts[n - 1]);
    }
  }

  /** In a quiet state the poller, if any, waits for something that never arrived or was dropped. */
  lemma QuietPoller(s: State, t: nat)
    requires Inv(s) && Busy(s) && Quiet(s) && Somewhere(s) && t in s.threads && !s.threads[t].pc.Returned?
    ensures exists u, id :: u in s.threads && id in s.threads[u].targets && (id !in s.arrived || id in s.lost)
  {
    hide QueuesOk, PollerClean, Apply, Conserved;
    assert !Enabled(s, Look(t)) && !Enabled(s, Acquire(t)) && !Enabled(s, Take(t)) && !Enabled(s, EndBatch(t));
    assert s.holder.Held?;
    var u := s.holder.t;
    assert InPoll(s.threads[u].pc);
    assert !Enabled(s, Look(u)) && !Enabled(s, Take(u)) && !Enabled(s, EndBatch(u)) && !Enabled(s, Poll(u, 1));
    assert s.threads[u].pc.Polling? && s.cq == [];
    var id :| id in s.threads[u].pending;
    PendingIsUnpolled(s, u, id);
  }

  lemma PendingIsUnpolled(s: State, t: nat, id: nat)
    requires Inv(s) && t in s.threads && s.threads[t].pc.Polling? && id in s.threads[t].pending
    ensures id in s.polled ==> id in s.lost
  {
    hide QueuesOk;
    HolderIs(s, t);
    assert Conserved(s, id);
    TakenIs(s, t, id);
  }

  /**
   Progress: with only successful completions, all targets completed and no
   timeout, a run in which no thread can act has SUCCESS everywhere, provided no
   `waitWrId` was called beside another wait.
   */
  lemma EveryWaitSucceeds(run: seq<State>, acts: seq<Action>)
    requires IsRun(run, acts) && AllSucceed(acts) && NoExpiry(acts) && !Risky(run[0])
    requires var s := run[|run| - 1]; Quiet(s) && forall t | t in s.threads :: s.threads[t].targets <= s.arrived
    ensures var s := run[|run| - 1]; forall t | t in s.threads :: s.threads[t].pc == Returned(Success)
  {
    hide Inv, Busy, Enabled, Apply, Quiet, Somewhere;
    var n := |run| - 1;
    var s := run[n];
    RunInv(run, acts, n);
    RunBusy(run, acts, n);
    RunHealthy(run, acts, n);
    SafeNeverDrops(run, acts, n);
    forall t | t in s.threads ensures s.threads[t].pc == Returned(Success) {
      if !s.threads[t].pc.Returned? {
        QuietPoller(s, t);
        assert false;
      }
    }
  }

  // ---- bounded runs ----------------------------------------------------------

  /** Stages a thread has still to leave. */
  function Level(pc: Pc): nat
  {
    match pc
    case First => 4
    case WantPoll => 3
    case Second => 2
    case Polling => 1
    case Processing => 1
    case Returned(_) => 0
  }

  function Those(s: State, k: nat): set<nat> { set t | t in s.threads && Level(s.threads[t].pc) >= k }

  function Levels(s: State): nat { |Those(s, 1)| + |Those(s, 2)| + |Those(s, 3)| + |Those(s, 4)| }

  /** Entries of the poller's batch, plus its step to the end of it. */
  function BatchSteps(s: State): nat
  {
    if s.holder.Held? && s.holder.t in s.threads && s.threads[s.holder.t].pc.Processing? then |InHand(s)| + 1 else 0
  }

  /** Steps the threads can make without another completion. */
  function Budget(s: State): nat { Levels(s) + 3 * |s.cq| + BatchSteps(s) }

  lemma SubsetSize(a: set<nat>, b: set<nat>)
    requires a <= b
    ensures |a| <= |b| && (a != b ==> |a| < |b|)
  {
    assert b == a + (b - a);
    assert |b| == |a| + |b - a|;
  }

  lemma LevelsFall(s: State, s': State, t: nat)
    requires t in s.threads && t in s'.threads && s'.threads == s.threads[t := s'.threads[t]]
    requires Level(s'.threads[t].pc) <= Level(s.threads[t].pc)
    ensures Levels(s') <= Levels(s)
    ensures Level(s'.threads[t].pc) < Level(s.threads[t].pc) ==> Levels(s') < Levels(s)
  {
    forall k: nat ensures |Those(s', k)| <= |Those(s, k)| {
      SubsetSize(Those(s', k), Those(s, k));
    }
    if Level(s'.threads[t].pc) < Level(s.threads[t].pc) {
      var k := Level(s.threads[t].pc);
      assert t in Those(s, k) && t !in Those(s', k);
      SubsetSize(Those(s', k), Those(s, k));
      assert k == 1 || k == 2 || k == 3 || k == 4;
    }
  }

  lemma BudgetFalls(s: State, a: Action)
    requires Inv(s) && Enabled(s, a)
    ensures a.Arrive? ==> Budget(Apply(s, a)) == Budget(s) + 3
    ensures !a.Arrive? ==> Budget(Apply(s, a)) < Budget(s)
  {
    hide Conserved, QueuesOk, PollerClean, Levels, OkIds;
    var s' := Apply(s, a);
    if a.Arrive? {
      assert Levels(s') == Levels(s) by { SameLevels(s, s'); }
    } else {
      LevelsFall(s, s', a.t);
      if InPoll(s.threads[a.t].pc) { HolderIs(s, a.t); }
    }
  }

  lemma SameLevels(s: State, s': State)
    requires s'.threads == s.threads
    ensures Levels(s') == Levels(s)
  {
  }

  function Arrivals(acts: seq<Action>): nat
  {
    if acts == [] then 0
    else Arrivals(acts[..|acts| - 1]) + (if acts[|acts| - 1].Arrive? then 1 else 0)
  }

  lemma StartLevels(s: State)
    requires Init(s)
    ensures Budget(s) == 4 * |s.threads|
  {
    forall k: nat | k <= 4 ensures Those(s, k) == s.threads.Keys {
    }
  }

  /** Waiting does not go on by itself: four steps a thread and four a completion, at most. */
  lemma {:induction false} RunsAreBounded(run: seq<State>, acts: seq<Action>, n: nat)
    requires IsRun(run, acts) && n < |run|
    ensures n + Budget(run[n]) <= 4 * |run[0].threads| + 4 * Arrivals(acts[..n])
  {
    hide Inv, Enabled, Apply, Budget;
    if n == 0 {
      StartLevels(run[0]);
    } else {
      RunsAreBounded(run, acts, n - 1);
      RunInv(run, acts, n - 1);
      BudgetFalls(run[n - 1], acts[n - 1]);
      assert acts[..n][..n - 1] == acts[..n - 1] && acts[..n][n - 1] == acts[n - 1];
    }
  }

  // ---- what the other statuses mean ------------------------------------------

  /** This step makes `t` fail: it takes an entry of its batch that is not a success. */
  predicate FailsAt(s: State, a: Action, t: nat)
  {
    a == Take(t) && t in s.threads && s.threads[t].batch != [] && !s.threads[t].batch[0].ok
  }

  lemma StepStatus(s: State, a: Action, t: nat)
    requires Enabled(s, a) && t in s.threads
    ensures t in Apply(s, a).threads && Apply(s, a).threads[t].single == s.threads[t].single
    ensures At(Apply(s, a), t, Returned(Timeout)) <==> At(s, t, Returned(Timeout)) || a == Expire(t)
    ensures At(Apply(s, a), t, Returned(Error)) <==> At(s, t, Returned(Error)) || FailsAt(s, a, t)
  {
    hide OkIds;
  }

  /**
   TIMEOUT is returned exactly by threads whose time ran out, and ERROR exactly by
   threads that took a failed completion from their batch.
   */
  lemma {:induction false} StatusExactly(run: seq<State>, acts: seq<Action>, n: nat, t: nat)
    requires IsRun(run, acts) && n < |run| && t in run[0].threads
    ensures t in run[n].threads && run[n].threads[t].single == run[0].threads[t].single
    ensures At(run[n], t, Returned(Timeout)) <==> exists m | 0 <= m < n :: acts[m] == Expire(t)
    ensures At(run[n], t, Returned(Error)) <==> exists m | 0 <= m < n :: FailsAt(run[m], acts[m], t)
  {
    hide Enabled, Apply, FailsAt;
    if n > 0 {
      StatusExactly(run, acts, n - 1, t);
      StepStatus(run[n - 1], acts[n - 1], t);
      assert acts[n - 1] == Expire(t) ==> exists m | 0 <= m < n :: acts[m] == Expire(t);
    }
  }

  /** No ERROR without a failed completion, and no TIMEOUT from `waitWrId`. */
  lemma NoOtherErrors(run: seq<State>, acts: seq<Action>, n: nat, t: nat)
    requires IsRun(run, acts) && n < |run| && t in run[0].threads
    ensures AllSucceed(acts) ==> !At(run[n], t, Returned(Error))
    ensures run[0].threads[t].single ==> !At(run[n], t, Returned(Timeout))
  {
    hide Apply, Inv;
    StatusExactly(run, acts, n, t);
    if AllSucceed(acts) {
      forall m | 0 <= m < n ensures !FailsAt(run[m], acts[m], t) {
        RunInv(run, acts, m);
        AllOk(run, acts, m);
        if FailsAt(run[m], acts[m], t) {
          assert Enabled(run[m], acts[m]);
          HandIsOk(run[m], t);
        }
      }
    }
    forall m | 0 <= m < n && acts[m] == Expire(t) ensures !run[0].threads[t].single {
      StatusExactly(run, acts, m, t);
      assert Enabled(run[m], acts[m]);
    }
  }
}
