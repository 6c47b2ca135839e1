/**
 The endpoint registry: a map from peer to entry behind one mutex, each entry
 with its own mutex around the endpoint it owns. Any number of threads each run
 one call (`withEndpoint`, the two removals, an add); every mutex operation and
 every access to shared state is its own step. A callback holds the entry's
 mutex while it runs and takes neither mutex itself.
 */
module Registry {
  import opened Common

  datatype Endpoint = Endpoint(id: nat, conn: nat)

  datatype Entry = Entry(key: nat, ep: Option<Endpoint>, lock: Option<nat>)

  datatype Op =
    | With(key: nat)
    | Remove(key: nat)
    | RemoveIf(key: nat, expected: nat)
    | Add(key: nat, given: Option<Endpoint>)

  datatype Status = Success | NotFound | Error

  datatype Pc =
    | Start
    | InMap                                      // holds the map mutex
    | Wait(e: nat)                               // about to lock the entry
    | WaitBoth(e: nat)                           // the same, still holding the map mutex
    | Locked(e: nat)
    | LockedBoth(e: nat)
    | Using(e: nat, ep: Endpoint)                // the callback is running
    | Dropping(victim: Option<Endpoint>)         // owns what it is about to destroy
    | Done(status: Status)

  datatype Thread = Thread(op: Op, pc: Pc)

  datatype State = State(threads: seq<Thread>, mapLock: Option<nat>, peers: map<nat, nat>,
                         entries: seq<Entry>, destroyed: seq<Endpoint>)

  ghost predicate Init(s: State)
  {
    && s.mapLock == None && s.peers == map[] && s.entries == [] && s.destroyed == []
    && (forall t | 0 <= t < |s.threads| :: s.threads[t].pc == Start)
    && (forall t, u | 0 <= t < |s.threads| && 0 <= u < |s.threads| && t != u ::
          s.threads[t].op.Add? && s.threads[u].op.Add? && s.threads[t].op.given.Some?
          ==> s.threads[t].op.given != s.threads[u].op.given)
  }

  // ---- Steps.

  predicate Enabled(s: State, t: nat)
  {
    && t < |s.threads|
    && match s.threads[t].pc
       case Start => s.mapLock == None || s.threads[t].op == Add(s.threads[t].op.key, None)
       case Wait(e) => e < |s.entries| && s.entries[e].lock == None
       case WaitBoth(e) => e < |s.entries| && s.entries[e].lock == None
       case Locked(e) => e < |s.entries|
       case LockedBoth(e) => e < |s.entries|
       case Using(e, _) => e < |s.entries|
       case InMap => true
       case Dropping(_) => true
       case Done(_) => false
  }

  function Goto(s: State, t: nat, pc: Pc): State
    requires t < |s.threads|
  {
    s.(threads := s.threads[t := s.threads[t].(pc := pc)])
  }

  function Destroy(s: State, o: Option<Endpoint>): State
  {
    if o.Some? then s.(destroyed := s.destroyed + [o.value]) else s
  }

  function SetEntry(s: State, e: nat, ep: Option<Endpoint>, lock: Option<nat>): State
    requires e < |s.entries|
  {
    s.(entries := s.entries[e := s.entries[e].(ep := ep, lock := lock)])
  }

  /** What the call does while it holds the map mutex, which all but `RemoveIf` then release. */
  function MapStep(s: State, t: nat): State
    requires t < |s.threads|
  {
    var free := s.(mapLock := None);
    var op := s.threads[t].op;
    var found := op.key in s.peers && s.peers[op.key] < |s.entries|;
    match op
    case With(k) => if found then Goto(free, t, Wait(s.peers[k])) else Goto(free, t, Done(NotFound))
    case Remove(k) =>
      if found then Goto(free.(peers := s.peers - {k}), t, Wait(s.peers[k])) else Goto(free, t, Done(Success))
    case RemoveIf(k, _) => if found then Goto(s, t, WaitBoth(s.peers[k])) else Goto(free, t, Done(Success))
    case Add(k, given) =>
      if found then
        var e := s.peers[k];
        Goto(SetEntry(Destroy(free, s.entries[e].ep), e, given, s.entries[e].lock), t, Done(Success))
      else
        Goto(free.(entries := s.entries + [Entry(k, given, None)], peers := s.peers[k := |s.entries|]),
             t, Done(Success))
  }

  /** What the call does once it also holds the entry's mutex. */
  function EntryStep(s: State, t: nat, e: nat): State
    requires t < |s.threads| && e < |s.entries|
  {
    var ep := s.entries[e].ep;
    if s.threads[t].op.With? then
      if ep.Some? then Goto(s, t, Using(e, ep.value)) else Goto(SetEntry(s, e, ep, None), t, Done(Error))
    else
      Goto(SetEntry(s, e, None, None), t, Dropping(ep))
  }

  function MatchStep(s: State, t: nat, e: nat): State
    requires t < |s.threads| && e < |s.entries|
  {
    var ep := s.entries[e].ep;
    var op := s.threads[t].op;
    var free := SetEntry(s, e, ep, None).(mapLock := None);
    if ep.None? then Goto(free.(peers := s.peers - {op.key}), t, Done(Success))
    else if op.RemoveIf? && ep.value.conn == op.expected then
      Goto(SetEntry(free, e, None, None).(peers := s.peers - {op.key}), t, Dropping(ep))
    else Goto(free, t, Done(Success))
  }

  function Step(s: State, t: nat): State
    requires Enabled(s, t)
  {
    match s.threads[t].pc
    case Start =>
      if s.threads[t].op.Add? && s.threads[t].op.given.None? then Goto(s, t, Done(Success))
      else Goto(s.(mapLock := Some(t)), t, InMap)
    case InMap => MapStep(s, t)
    case Wait(e) => Goto(SetEntry(s, e, s.entries[e].ep, Some(t)), t, Locked(e))
    case WaitBoth(e) => Goto(SetEntry(s, e, s.entries[e].ep, Some(t)), t, LockedBoth(e))
    case Locked(e) => EntryStep(s, t, e)
    case LockedBoth(e) => MatchStep(s, t, e)
    case Using(e, _) => Goto(SetEntry(s, e, s.entries[e].ep, None), t, Done(Success))
    case Dropping(o) => Goto(Destroy(s, o), t, Done(Success))
    case Done(_) => s
  }

  // ---- Locks.

  predicate Mapped(peers: map<nat, nat>, k: nat, e: nat) { k in peers && peers[k] == e }

  /** What a thread knows at each point of its call. */
  predicate ThreadOk(t: nat, th: Thread, lock: Option<nat>, peers: map<nat, nat>, es: seq<Entry>)
  {
    match th.pc
    case Start => true
    case InMap => lock == Some(t) && (th.op.Add? ==> th.op.given.Some?)
    case Wait(e) =>
      && e < |es| && es[e].key == th.op.key && (th.op.With? || th.op.Remove?)
      && (th.op.Remove? ==> !Mapped(peers, th.op.key, e))
    case WaitBoth(e) => lock == Some(t) && e < |es| && th.op.RemoveIf? && Mapped(peers, th.op.key, e)
    case Locked(e) =>
      && e < |es| && es[e].key == th.op.key && es[e].lock == Some(t) && (th.op.With? || th.op.Remove?)
      && (th.op.Remove? ==> !Mapped(peers, th.op.key, e))
    case LockedBoth(e) =>
      lock == Some(t) && e < |es| && es[e].lock == Some(t) && th.op.RemoveIf? && Mapped(peers, th.op.key, e)
    case Using(e, _) => th.op.With? && e < |es| && es[e].key == th.op.key && es[e].lock == Some(t)
    case Dropping(o) =>
      && (th.op.Remove? || th.op.RemoveIf?)
      && (th.op.RemoveIf? ==> o.Some? && o.value.conn == th.op.expected)
    case Done(_) => true
  }

  predicate Knows(t: nat, s: State)
    requires t < |s.threads|
  {
    ThreadOk(t, s.threads[t], s.mapLock, s.peers, s.entries)
  }

  predicate HoldsMap(th: Thread) { th.pc.InMap? || th.pc.WaitBoth? || th.pc.LockedBoth? }

  predicate HoldsEntry(th: Thread, e: nat)
  {
    (th.pc.Locked? || th.pc.LockedBoth? || th.pc.Using?) && th.pc.e == e
  }

  predicate PeersOk(peers: map<nat, nat>, es: seq<Entry>)
  {
    forall k | k in peers :: peers[k] < |es| && es[peers[k]].key == k && es[peers[k]].ep.Some?
  }

  predicate LocksOk(threads: seq<Thread>, lock: Option<nat>, es: seq<Entry>)
  {
    && (lock.Some? ==> lock.value < |threads| && HoldsMap(threads[lock.value]))
    && (forall e | 0 <= e < |es| && es[e].lock.Some? ::
          es[e].lock.value < |threads| && HoldsEntry(threads[es[e].lock.value], e))
  }

  ghost predicate Inv(s: State)
  {
    && PeersOk(s.peers, s.entries)
    && LocksOk(s.threads, s.mapLock, s.entries)
    && forall t | 0 <= t < |s.threads| :: Knows(t, s)
  }

  /** A change by another thread that thread `u` cannot notice. */
  ghost predicate Frame(u: nat, s: State, n: State)
  {
    && (s.mapLock == Some(u) ==> n.mapLock == Some(u) && n.peers == s.peers)
    && |n.entries| >= |s.entries|
    && (forall e | 0 <= e < |s.entries| :: n.entries[e].key == s.entries[e].key)
    && (forall e | 0 <= e < |s.entries| && s.entries[e].lock == Some(u) :: n.entries[e].lock == Some(u))
    && (forall k, e | 0 <= e < |s.entries| && Mapped(n.peers, k, e) :: Mapped(s.peers, k, e))
  }

  lemma FrameKeeps(u: nat, th: Thread, s: State, n: State)
    requires ThreadOk(u, th, s.mapLock, s.peers, s.entries) && Frame(u, s, n)
    ensures ThreadOk(u, th, n.mapLock, n.peers, n.entries)
  {
  }

  lemma MapFrame(s: State, t: nat, u: nat)
    requires Enabled(s, t) && s.threads[t].pc.InMap?
    requires Knows(t, s) && u != t
    ensures Frame(u, s, MapStep(s, t))
  {
  }

  lemma StepFrame(s: State, t: nat, u: nat)
    requires Enabled(s, t)
    requires Knows(t, s) && u != t
    ensures Frame(u, s, Step(s, t))
  {
    hide MapStep;
    if s.threads[t].pc.InMap? { MapFrame(s, t, u); }
  }

  lemma MapSelf(s: State, t: nat)
    requires Enabled(s, t) && s.threads[t].pc.InMap?
    requires Knows(t, s) && PeersOk(s.peers, s.entries)
    ensures t < |MapStep(s, t).threads| && Knows(t, MapStep(s, t))
  {
  }

  lemma StepSelf(s: State, t: nat)
    requires Enabled(s, t)
    requires Knows(t, s) && PeersOk(s.peers, s.entries)
    ensures t < |Step(s, t).threads| && Knows(t, Step(s, t))
  {
    hide MapStep;
    if s.threads[t].pc.InMap? { MapSelf(s, t); }
  }

  lemma MapPeers(s: State, t: nat)
    requires Enabled(s, t) && s.threads[t].pc.InMap?
    requires Knows(t, s) && PeersOk(s.peers, s.entries)
    ensures PeersOk(MapStep(s, t).peers, MapStep(s, t).entries)
  {
  }

  lemma StepPeers(s: State, t: nat)
    requires Enabled(s, t)
    requires Knows(t, s) && PeersOk(s.peers, s.entries)
    ensures PeersOk(Step(s, t).peers, Step(s, t).entries)
  {
    hide MapStep;
    if s.threads[t].pc.InMap? { MapPeers(s, t); }
  }

  lemma MapLocks(s: State, t: nat)
    requires Enabled(s, t) && s.threads[t].pc.InMap?
    requires Knows(t, s) && LocksOk(s.threads, s.mapLock, s.entries)
    ensures LocksOk(MapStep(s, t).threads, MapStep(s, t).mapLock, MapStep(s, t).entries)
  {
  }

  lemma StepLocks(s: State, t: nat)
    requires Enabled(s, t)
    requires Knows(t, s) && LocksOk(s.threads, s.mapLock, s.entries)
    ensures LocksOk(Step(s, t).threads, Step(s, t).mapLock, Step(s, t).entries)
  {
    hide MapStep;
    if s.threads[t].pc.InMap? { MapLocks(s, t); }
  }

  lemma StepInv(s: State, t: nat)
    requires Inv(s) && Enabled(s, t)
    ensures Inv(Step(s, t))
  {
    hide ThreadOk, LocksOk, PeersOk, Frame, Enabled;
    var n := Step(s, t);
    StepThreads(s, t);
    StepSelf(s, t);
    StepPeers(s, t);
    StepLocks(s, t);
    forall u | 0 <= u < |n.threads| ensures Knows(u, n) {
      if u != t {
        assert Knows(u, s);
        StepFrame(s, t, u);
        FrameKeeps(u, s.threads[u], s, n);
      }
    }
  }

  lemma StepThreads(s: State, t: nat)
    requires Enabled(s, t)
    ensures t < |s.threads| && |Step(s, t).threads| == |s.threads|
    ensures forall u | 0 <= u < |s.threads| :: Step(s, t).threads[u].op == s.threads[u].op
    ensures forall u | 0 <= u < |s.threads| && u != t :: Step(s, t).threads[u] == s.threads[u]
  {
  }

  // ---- Ownership: where each endpoint is.

  datatype Place = InEntry(e: nat) | InThread(t: nat) | Grave(i: nat)

  /** The endpoint a call owns: one still to be added, or one about to be destroyed. */
  function Holds(th: Thread): Option<Endpoint>
  {
    if th.pc.Dropping? then th.pc.victim
    else if th.op.Add? && (th.pc.Start? || th.pc.InMap?) then th.op.given
    else None
  }

  function Owns(s: State, p: Place): Option<Endpoint>
  {
    match p
    case InEntry(e) => if e < |s.entries| then s.entries[e].ep else None
    case InThread(t) => if t < |s.threads| then Holds(s.threads[t]) else None
    case Grave(i) => if i < |s.destroyed| then Some(s.destroyed[i]) else None
  }

  /** No endpoint is in two places; in particular none is destroyed twice. */
  ghost predicate Unique(s: State)
  {
    forall p, q | p != q && Owns(s, p).Some? :: Owns(s, p) != Owns(s, q)
  }

  /** The entry the step of `t` moves an endpoint out of or into, if any. */
  function Touched(s: State, t: nat): nat
    requires Enabled(s, t)
  {
    var th := s.threads[t];
    match th.pc
    case InMap => if th.op.key in s.peers && s.peers[th.op.key] < |s.entries| then s.peers[th.op.key] else |s.entries|
    case Locked(e) => e
    case LockedBoth(e) => e
    case _ => 0
  }

  /** Where what is at `p` after the step was before it. */
  function Back(s: State, t: nat, p: Place): Place
    requires Enabled(s, t)
  {
    var th := s.threads[t];
    var e := Touched(s, t);
    if th.pc.InMap? && th.op.Add? then
      if p == InEntry(e) then InThread(t) else if p == Grave(|s.destroyed|) then InEntry(e) else p
    else if th.pc.Locked? || th.pc.LockedBoth? then
      if p == InThread(t) then InEntry(e) else p
    else if th.pc.Dropping? then
      if p == Grave(|s.destroyed|) then InThread(t) else p
    else p
  }

  function Forth(s: State, t: nat, p: Place): Place
    requires Enabled(s, t)
  {
    var th := s.threads[t];
    var e := Touched(s, t);
    if th.pc.InMap? && th.op.Add? then
      if p == InThread(t) then InEntry(e) else if p == InEntry(e) then Grave(|s.destroyed|) else p
    else if (th.pc.Locked? || th.pc.LockedBoth?) && Step(s, t).threads[t].pc.Dropping? then
      if p == InEntry(e) then InThread(t) else p
    else if th.pc.Dropping? then
      if p == InThread(t) then Grave(|s.destroyed|) else p
    else p
  }

  lemma MapBack(s: State, t: nat, p: Place)
    requires Enabled(s, t) && Knows(t, s) && s.threads[t].pc.InMap?
    ensures Owns(MapStep(s, t), p).Some? ==> Owns(s, Back(s, t, p)) == Owns(MapStep(s, t), p)
  {
    hide EntryStep, MatchStep;
  }

  lemma MapForth(s: State, t: nat, p: Place)
    requires Enabled(s, t) && Knows(t, s) && s.threads[t].pc.InMap?
    ensures Owns(s, p).Some? ==> Owns(MapStep(s, t), Forth(s, t, p)) == Owns(s, p)
  {
    hide EntryStep, MatchStep;
  }

  lemma EntryMoves(s: State, t: nat, p: Place)
    requires Enabled(s, t) && Knows(t, s) && s.threads[t].pc.Locked?
    ensures var n := EntryStep(s, t, s.threads[t].pc.e);
      Owns(n, p).Some? ==> Owns(s, Back(s, t, p)) == Owns(n, p)
    ensures Owns(s, p).Some? ==> Owns(EntryStep(s, t, s.threads[t].pc.e), Forth(s, t, p)) == Owns(s, p)
  {
    hide MapStep, MatchStep;
  }

  lemma MatchMoves(s: State, t: nat, p: Place)
    requires Enabled(s, t) && Knows(t, s) && s.threads[t].pc.LockedBoth?
    ensures var n := MatchStep(s, t, s.threads[t].pc.e);
      Owns(n, p).Some? ==> Owns(s, Back(s, t, p)) == Owns(n, p)
    ensures Owns(s, p).Some? ==> Owns(MatchStep(s, t, s.threads[t].pc.e), Forth(s, t, p)) == Owns(s, p)
  {
    hide MapStep, EntryStep;
  }

  lemma OtherMoves(s: State, t: nat, p: Place)
    requires Enabled(s, t)
    requires !s.threads[t].pc.InMap? && !s.threads[t].pc.Locked? && !s.threads[t].pc.LockedBoth?
    ensures Owns(Step(s, t), p).Some? ==> Owns(s, Back(s, t, p)) == Owns(Step(s, t), p)
    ensures Owns(s, p).Some? ==> Owns(Step(s, t), Forth(s, t, p)) == Owns(s, p)
  {
    hide MapStep, EntryStep, MatchStep;
  }

  lemma StepMoves(s: State, t: nat, p: Place)
    requires Enabled(s, t) && Knows(t, s)
    ensures Owns(Step(s, t), p).Some? ==> Owns(s, Back(s, t, p)) == Owns(Step(s, t), p)
    ensures Owns(s, p).Some? ==> Owns(Step(s, t), Forth(s, t, p)) == Owns(s, p)
  {
    hide MapStep, EntryStep, MatchStep, Owns, Back, Forth, Knows;
    match s.threads[t].pc {
      case InMap => MapBack(s, t, p); MapForth(s, t, p);
      case Locked(_) => EntryMoves(s, t, p);
      case LockedBoth(_) => MatchMoves(s, t, p);
      case _ => OtherMoves(s, t, p);
    }
  }

  lemma KnowsAll(s: State, t: nat)
    requires Inv(s) && Enabled(s, t)
    ensures t < |s.threads| && Knows(t, s)
  {
  }

  /** Nothing comes from two places, and nothing comes to two. */
  lemma BackApart(s: State, t: nat, p: Place, q: Place)
    requires Enabled(s, t) && Knows(t, s) && p != q && Owns(Step(s, t), p).Some? && Owns(Step(s, t), q).Some?
    ensures Back(s, t, p) != Back(s, t, q)
  {
  }

  lemma StepUnique(s: State, t: nat)
    requires Inv(s) && Unique(s) && Enabled(s, t)
    ensures Unique(Step(s, t))
  {
    hide Step, Inv, Owns;
    var n := Step(s, t);
    KnowsAll(s, t);
    forall p, q | p != q && Owns(n, p).Some? ensures Owns(n, p) != Owns(n, q) {
      StepMoves(s, t, p);
      StepMoves(s, t, q);
      if Owns(n, q).Some? { BackApart(s, t, p, q); }
    }
  }

  /** Some removal is on its way to empty entry `e`. */
  ghost predicate Doomed(s: State, e: nat)
  {
    exists t :: 0 <= t < |s.threads| && Reaps(s.threads[t], e)
  }

  predicate Reaps(th: Thread, e: nat) { th.op.Remove? && (th.pc.Wait? || th.pc.Locked?) && th.pc.e == e }

  predicate Listed(s: State, e: nat) { e < |s.entries| && Mapped(s.peers, s.entries[e].key, e) }

  /** An entry that still owns an endpoint can be found, or is being removed. */
  ghost predicate NoLeak(s: State)
  {
    forall e | 0 <= e < |s.entries| && s.entries[e].ep.Some? :: Listed(s, e) || Doomed(s, e)
  }

  /** An entry leaves the map only with its endpoint taken, or with its remover on the way. */
  lemma StepListed(s: State, t: nat, e: nat)
    requires Enabled(s, t) && Knows(t, s) && PeersOk(s.peers, s.entries)
    requires e < |s.entries| && Listed(s, e)
    ensures var n := Step(s, t); Listed(n, e) || n.entries[e].ep.None? || Reaps(n.threads[t], e)
  {
  }

  lemma StepReaps(s: State, t: nat, e: nat)
    requires Enabled(s, t) && Knows(t, s) && e < |s.entries| && Reaps(s.threads[t], e)
    ensures var n := Step(s, t); n.entries[e].ep.None? || Reaps(n.threads[t], e)
  {
    hide MapStep, MatchStep;
  }

  /** Endpoints enter entries only through adds, which list the entry. */
  lemma StepFills(s: State, t: nat, e: nat)
    requires Enabled(s, t) && Knows(t, s) && PeersOk(s.peers, s.entries)
    requires e < |Step(s, t).entries| && Step(s, t).entries[e].ep.Some?
    ensures Listed(Step(s, t), e) || (e < |s.entries| && s.entries[e].ep.Some?)
  {
  }

  lemma StepNoLeak(s: State, t: nat)
    requires Inv(s) && NoLeak(s) && Enabled(s, t)
    ensures NoLeak(Step(s, t))
  {
    hide Step, Enabled, Knows, PeersOk, LocksOk, Reaps, Listed;
    var n := Step(s, t);
    StepThreads(s, t);
    forall e | 0 <= e < |n.entries| && n.entries[e].ep.Some? ensures Listed(n, e) || Doomed(n, e) {
      StepFills(s, t, e);
      if !Listed(n, e) {
        if Listed(s, e) {
          StepListed(s, t, e);
          assert Doomed(n, e);
        } else {
          var u :| 0 <= u < |s.threads| && Reaps(s.threads[u], e);
          if u == t { StepReaps(s, t, e); }
          assert Reaps(n.threads[u], e);
        }
      }
    }
  }

  // ---- Runs.

  ghost predicate IsRun(s: State, run: seq<nat>, n: State)
    decreases |run|
  {
    if run == [] then n == s else Enabled(s, run[0]) && IsRun(Step(s, run[0]), run[1..], n)
  }

  ghost predicate Sound(s: State) { Inv(s) && Unique(s) && NoLeak(s) }

  lemma InitSound(s: State)
    requires Init(s)
    ensures Sound(s)
  {
    forall p, q | p != q && Owns(s, p).Some? ensures Owns(s, p) != Owns(s, q) {
      if p.InThread? && q.InThread? && q.t < |s.threads| {
        assert s.threads[p.t].pc == Start && s.threads[q.t].pc == Start;
      }
    }
  }

  lemma StepSound(s: State, t: nat)
    requires Sound(s) && Enabled(s, t)
    ensures Sound(Step(s, t))
  {
    hide Inv, Unique, NoLeak, Step;
    StepInv(s, t);
    StepUnique(s, t);
    StepNoLeak(s, t);
  }

  lemma {:induction false} RunSound(s: State, run: seq<nat>, n: State)
    requires Sound(s) && IsRun(s, run, n)
    ensures Sound(n) && |n.threads| == |s.threads|
    ensures forall t | 0 <= t < |s.threads| :: n.threads[t].op == s.threads[t].op
    decreases |run|
  {
    hide Sound, Step, Enabled;
    if run != [] {
      StepSound(s, run[0]);
      StepThreads(s, run[0]);
      RunSound(Step(s, run[0]), run[1..], n);
    }
  }

  // ---- Use.

  predicate UseOk(th: Thread, es: seq<Entry>)
  {
    th.pc.Using? ==> th.pc.e < |es| && es[th.pc.e].ep == Some(th.pc.ep)
  }

  /** Every running callback works on an endpoint that its entry still owns. */
  predicate UsesOk(s: State) { forall t | 0 <= t < |s.threads| :: UseOk(s.threads[t], s.entries) }

  /** Some callback is running on an endpoint that has been destroyed. */
  ghost predicate UseAfterFree(s: State)
  {
    exists t :: 0 <= t < |s.threads| && s.threads[t].pc.Using? && s.threads[t].pc.ep in s.destroyed
  }

  /** The step is an add that finds its key taken while a call is running on that entry. */
  predicate ReplacesInUse(s: State, t: nat)
  {
    && t < |s.threads| && s.threads[t].pc.InMap? && s.threads[t].op.Add?
    && var k := s.threads[t].op.key;
       k in s.peers && exists u | 0 <= u < |s.threads| :: s.threads[u].pc.Using? && s.threads[u].pc.e == s.peers[k]
  }

  lemma OwnedIsAlive(s: State)
    requires Unique(s) && UsesOk(s)
    ensures !UseAfterFree(s)
  {
    forall t, i | 0 <= t < |s.threads| && s.threads[t].pc.Using? && 0 <= i < |s.destroyed|
      ensures s.destroyed[i] != s.threads[t].pc.ep
    {
      assert UseOk(s.threads[t], s.entries);
      assert Owns(s, InEntry(s.threads[t].pc.e)) != Owns(s, Grave(i));
    }
  }

  /** What `u` uses stays put unless the step replaces it. */
  lemma StepUse(s: State, t: nat, u: nat)
    requires Enabled(s, t) && Knows(t, s) && u < |s.threads| && Knows(u, s) && UseOk(s.threads[u], s.entries)
    requires !ReplacesInUse(s, t)
    ensures UseOk(Step(s, t).threads[u], Step(s, t).entries)
  {
    StepThreads(s, t);
    if u != t && s.threads[u].pc.Using? {
      StepKeepsLocked(s, t, u, s.threads[u].pc.e);
    }
  }

  lemma StepKeepsLocked(s: State, t: nat, u: nat, e: nat)
    requires Enabled(s, t) && Knows(t, s) && u != t && e < |s.entries| && s.entries[e].lock == Some(u)
    requires !(s.threads[t].pc.InMap? && s.threads[t].op.Add? && Mapped(s.peers, s.threads[t].op.key, e))
    ensures e < |Step(s, t).entries| && Step(s, t).entries[e].ep == s.entries[e].ep
  {
  }

  lemma StepUses(s: State, t: nat)
    requires Inv(s) && UsesOk(s) && Enabled(s, t) && !ReplacesInUse(s, t)
    ensures UsesOk(Step(s, t))
  {
    hide Step, Enabled, Knows, PeersOk, LocksOk, UseOk, ReplacesInUse;
    StepThreads(s, t);
    forall u | 0 <= u < |s.threads| ensures UseOk(Step(s, t).threads[u], Step(s, t).entries) {
      assert Knows(u, s);
      StepUse(s, t, u);
    }
  }

  /** Replacing an entry in use destroys the endpoint under the running call. */
  lemma ReplacingFrees(s: State, t: nat)
    requires Inv(s) && UsesOk(s) && Enabled(s, t) && ReplacesInUse(s, t)
    ensures UseAfterFree(Step(s, t))
  {
    hide EntryStep, MatchStep;
    var k := s.threads[t].op.key;
    var u :| 0 <= u < |s.threads| && s.threads[u].pc.Using? && s.threads[u].pc.e == s.peers[k];
    assert UseOk(s.threads[u], s.entries);
    var n := MapStep(s, t);
    assert n.threads[u] == s.threads[u];
    assert n.destroyed == s.destroyed + [s.threads[u].pc.ep];
  }

  ghost predicate AlwaysAlive(s: State, run: seq<nat>)
    decreases |run|
  {
    && !UseAfterFree(s)
    && (run != [] && Enabled(s, run[0]) ==> AlwaysAlive(Step(s, run[0]), run[1..]))
  }

  predicate NeverReplacesInUse(s: State, run: seq<nat>)
    decreases |run|
  {
    run != [] && Enabled(s, run[0]) ==>
      !ReplacesInUse(s, run[0]) && NeverReplacesInUse(Step(s, run[0]), run[1..])
  }

  /**
   Exactly when the locking protects running calls: over every run, no call ever
   works on a destroyed endpoint if and only if no add replaces an entry in use.
   */
  lemma {:induction false} AliveExactly(s: State, run: seq<nat>)
    requires Sound(s) && UsesOk(s)
    ensures AlwaysAlive(s, run) <==> NeverReplacesInUse(s, run)
    decreases |run|
  {
    hide Inv, Unique, NoLeak, UsesOk, UseAfterFree, ReplacesInUse, Step, Enabled;
    OwnedIsAlive(s);
    if run != [] && Enabled(s, run[0]) {
      var n := Step(s, run[0]);
      if ReplacesInUse(s, run[0]) {
        ReplacingFrees(s, run[0]);
        assert !AlwaysAlive(n, run[1..]);
      } else {
        StepSound(s, run[0]);
        StepUses(s, run[0]);
        AliveExactly(n, run[1..]);
      }
    }
  }

  /** Adds that find their key absent are all it takes, in particular. */
  predicate AddsOnAbsent(s: State, run: seq<nat>)
    decreases |run|
  {
    run != [] && Enabled(s, run[0]) ==>
      && !(s.threads[run[0]].pc.InMap? && s.threads[run[0]].op.Add? && s.threads[run[0]].op.key in s.peers)
      && AddsOnAbsent(Step(s, run[0]), run[1..])
  }

  lemma {:induction false} AbsentNeverReplaces(s: State, run: seq<nat>)
    requires AddsOnAbsent(s, run)
    ensures NeverReplacesInUse(s, run)
    decreases |run|
  {
    hide Step;
    if run != [] && Enabled(s, run[0]) { AbsentNeverReplaces(Step(s, run[0]), run[1..]); }
  }

  lemma AbsentAddsAreSafe(s: State, run: seq<nat>)
    requires Init(s) && AddsOnAbsent(s, run)
    ensures AlwaysAlive(s, run)
  {
    hide Sound, AlwaysAlive, NeverReplacesInUse, AddsOnAbsent;
    InitSound(s);
    AbsentNeverReplaces(s, run);
    AliveExactly(s, run);
  }

  lemma FirstStep(s: State, t: nat, n: State, run: seq<nat>)
    requires Enabled(s, t) && Step(s, t) == n && !AlwaysAlive(n, run)
    ensures !AlwaysAlive(s, [t] + run)
  {
    hide Step;
    assert ([t] + run)[1..] == run;
  }

  // ---- Exactly when every run is safe.

  predicate AddsAt(th: Thread, k: nat) { th.op.Add? && th.op.key == k && th.op.given.Some? }

  /** Two adds of endpoints and a call, all for the same peer. */
  ghost predicate Contended(s: State) { exists a, b, u :: Contend(s.threads, a, b, u) }

  predicate Contend(ths: seq<Thread>, a: int, b: int, u: int)
  {
    && 0 <= a < |ths| && 0 <= b < |ths| && a != b && 0 <= u < |ths|
    && ths[u].op.With? && AddsAt(ths[a], ths[u].op.key) && AddsAt(ths[b], ths[u].op.key)
  }

  /** Every entry was made by an add that has returned. */
  ghost predicate Made(s: State)
  {
    forall e | 0 <= e < |s.entries| :: Added(s.threads, s.entries[e].key)
  }

  ghost predicate Added(ths: seq<Thread>, k: nat)
  {
    exists t :: 0 <= t < |ths| && AddsAt(ths[t], k) && ths[t].pc.Done?
  }

  lemma StepKeys(s: State, t: nat, e: nat)
    requires Enabled(s, t) && Knows(t, s) && e < |Step(s, t).entries|
    ensures e < |s.entries| ==> Step(s, t).entries[e].key == s.entries[e].key
    ensures e >= |s.entries| ==> AddsAt(s.threads[t], Step(s, t).entries[e].key) && Step(s, t).threads[t].pc.Done?
  {
  }

  lemma StepMade(s: State, t: nat)
    requires Inv(s) && Made(s) && Enabled(s, t)
    ensures Made(Step(s, t))
  {
    hide Step, Enabled, Knows, PeersOk, LocksOk;
    var n := Step(s, t);
    StepThreads(s, t);
    forall e | 0 <= e < |n.entries| ensures Added(n.threads, n.entries[e].key) {
      StepKeys(s, t, e);
      if e < |s.entries| {
        var k := s.entries[e].key;
        assert Added(s.threads, k);
        var u :| 0 <= u < |s.threads| && AddsAt(s.threads[u], k) && s.threads[u].pc.Done?;
        NotDone(s, t);
        assert AddsAt(n.threads[u], k);
      } else {
        assert AddsAt(n.threads[t], n.entries[e].key);
      }
    }
  }

  lemma NotDone(s: State, t: nat)
    requires Enabled(s, t)
    ensures t < |s.threads| && !s.threads[t].pc.Done?
  {
  }

  /** Replacing an entry in use takes an add beside the one that made it, and the call. */
  lemma ReplacingIsContended(s: State, t: nat)
    requires Inv(s) && Made(s) && Enabled(s, t) && ReplacesInUse(s, t)
    ensures Contended(s)
  {
    hide LocksOk, Enabled;
    var k := s.threads[t].op.key;
    var u :| 0 <= u < |s.threads| && s.threads[u].pc.Using? && s.threads[u].pc.e == s.peers[k];
    assert Knows(u, s) && Knows(t, s);
    assert Added(s.threads, k);
    var a :| 0 <= a < |s.threads| && AddsAt(s.threads[a], k) && s.threads[a].pc.Done?;
    assert Contend(s.threads, a, t, u);
  }

  lemma ContendedStays(s: State, t: nat)
    requires Enabled(s, t) && Contended(Step(s, t))
    ensures Contended(s)
  {
    hide Step, Enabled;
    StepThreads(s, t);
    var a, b, u :| Contend(Step(s, t).threads, a, b, u);
    assert Contend(s.threads, a, b, u);
  }

  lemma {:induction false} UncontendedNeverReplaces(s: State, run: seq<nat>)
    requires Inv(s) && Made(s) && !Contended(s)
    ensures NeverReplacesInUse(s, run)
    decreases |run|
  {
    hide Inv, Made, Contended, ReplacesInUse, Step, Enabled;
    if run != [] && Enabled(s, run[0]) {
      var n := Step(s, run[0]);
      StepInv(s, run[0]);
      StepMade(s, run[0]);
      if Contended(n) { ContendedStays(s, run[0]); }
      if ReplacesInUse(s, run[0]) { ReplacingIsContended(s, run[0]); }
      UncontendedNeverReplaces(n, run[1..]);
    }
  }

  // ---- The failing run: `a` adds, `u` gets into its callback, `b` adds for the same peer.

  lemma AddRuns(s: State, a: nat)
    requires Init(s) && a < |s.threads| && s.threads[a].op.Add? && s.threads[a].op.given.Some?
    ensures Enabled(s, a) && Enabled(Step(s, a), a)
    ensures var op := s.threads[a].op;
      Step(Step(s, a), a) == State(s.threads[a := Thread(op, Done(Success))], None, map[op.key := 0],
                                   [Entry(op.key, op.given, None)], [])
  {
    var n := Step(s, a);
    assert n.threads[a] == Thread(s.threads[a].op, InMap);
    assert n == s.(threads := s.threads[a := Thread(s.threads[a].op, InMap)], mapLock := Some(a));
  }

  /** The one entry `e`, with nobody holding a mutex. */
  predicate Idle(s: State, k: nat, ep: Endpoint)
  {
    s.mapLock == None && s.peers == map[k := 0] && s.entries == [Entry(k, Some(ep), None)] && s.destroyed == []
  }

  lemma WithFinds(s: State, u: nat, k: nat, ep: Endpoint)
    requires Idle(s, k, ep) && u < |s.threads| && s.threads[u] == Thread(With(k), Start)
    ensures Enabled(s, u) && Enabled(Step(s, u), u)
    ensures Step(Step(s, u), u) == s.(threads := s.threads[u := Thread(With(k), Wait(0))])
  {
    var n := Step(s, u);
    assert n == s.(threads := s.threads[u := Thread(With(k), InMap)], mapLock := Some(u));
  }

  lemma WithEnters(s: State, u: nat, k: nat, ep: Endpoint)
    requires Idle(s, k, ep) && u < |s.threads| && s.threads[u] == Thread(With(k), Wait(0))
    ensures Enabled(s, u) && Enabled(Step(s, u), u)
    ensures Step(Step(s, u), u)
         == s.(threads := s.threads[u := Thread(With(k), Using(0, ep))], entries := [Entry(k, Some(ep), Some(u))])
  {
    var n := Step(s, u);
    assert n == s.(threads := s.threads[u := Thread(With(k), Locked(0))], entries := [Entry(k, Some(ep), Some(u))]);
  }

  lemma AddFrees(s: State, b: nat, u: nat, k: nat, ep: Endpoint)
    requires b < |s.threads| && u < |s.threads| && b != u && AddsAt(s.threads[b], k) && s.threads[b].pc == Start
    requires s.threads[u].pc == Using(0, ep) && s.mapLock == None && s.peers == map[k := 0] && s.destroyed == []
    requires |s.entries| == 1 && s.entries[0].ep == Some(ep)
    ensures Enabled(s, b) && Enabled(Step(s, b), b) && UseAfterFree(Step(Step(s, b), b))
  {
    var n := Step(s, b);
    assert n == s.(threads := s.threads[b := s.threads[b].(pc := InMap)], mapLock := Some(b));
    var m := Step(n, b);
    assert m.destroyed == [ep] && m.threads[u].pc == Using(0, ep);
  }

  lemma TwoSteps(s: State, t: nat, run: seq<nat>)
    requires Enabled(s, t) && Enabled(Step(s, t), t) && !AlwaysAlive(Step(Step(s, t), t), run)
    ensures !AlwaysAlive(s, [t] + ([t] + run))
  {
    hide Step, Enabled;
    FirstStep(Step(s, t), t, Step(Step(s, t), t), run);
    FirstStep(s, t, Step(s, t), [t] + run);
  }

  lemma ContendedCanFree(s: State, a: nat, b: nat, u: nat) returns (run: seq<nat>)
    requires Init(s) && Contend(s.threads, a, b, u)
    ensures !AlwaysAlive(s, run)
  {
    hide Step, Enabled, Init, AlwaysAlive, UseAfterFree;
    var k, ep := s.threads[u].op.key, s.threads[a].op.given.value;
    AllStart(s);
    AddRuns(s, a);
    var s1 := Step(Step(s, a), a);
    WithFinds(s1, u, k, ep);
    var s2 := Step(Step(s1, u), u);
    WithEnters(s2, u, k, ep);
    var s3 := Step(Step(s2, u), u);
    AddFrees(s3, b, u, k, ep);
    FreedNow(Step(Step(s3, b), b));
    TwoSteps(s3, b, []);
    run := [b] + ([b] + []);
    TwoSteps(s2, u, run);
    run := [u] + ([u] + run);
    TwoSteps(s1, u, run);
    run := [u] + ([u] + run);
    TwoSteps(s, a, run);
    run := [a] + ([a] + run);
  }

  lemma AllStart(s: State)
    requires Init(s)
    ensures forall t | 0 <= t < |s.threads| :: s.threads[t] == Thread(s.threads[t].op, Start)
  {
  }

  lemma FreedNow(s: State)
    requires UseAfterFree(s)
    ensures !AlwaysAlive(s, [])
  {
  }

  /**
   For given calls: no run ever lets a call work on a destroyed endpoint if and
   only if no peer has both a call and two adds.
   */
  lemma CallsAliveExactly(s: State)
    requires Init(s)
    ensures (forall run :: AlwaysAlive(s, run)) <==> !Contended(s)
  {
    hide AlwaysAlive, NeverReplacesInUse, Sound, UsesOk;
    if Contended(s) {
      var a, b, u :| Contend(s.threads, a, b, u);
      var run := ContendedCanFree(s, a, b, u);
    } else {
      InitSound(s);
      StartsClean(s);
      forall run ensures AlwaysAlive(s, run) {
        UncontendedNeverReplaces(s, run);
        AliveExactly(s, run);
      }
    }
  }

  lemma StartsClean(s: State)
    requires Init(s)
    ensures Inv(s) && Made(s) && UsesOk(s)
  {
  }

  // ---- One call at a time.

  /** What a call uses is in its entry, or a replacement has destroyed it. */
  predicate UseKnown(th: Thread, es: seq<Entry>, destroyed: seq<Endpoint>)
  {
    th.pc.Using? ==> (th.pc.e < |es| && es[th.pc.e].ep == Some(th.pc.ep)) || th.pc.ep in destroyed
  }

  ghost predicate Exclusive(s: State)
  {
    && (forall t | 0 <= t < |s.threads| :: UseKnown(s.threads[t], s.entries, s.destroyed))
    && (forall t, u | 0 <= t < |s.threads| && 0 <= u < |s.threads| && t != u :: Apart(s.threads[t], s.threads[u]))
  }

  predicate Apart(a: Thread, b: Thread) { a.pc.Using? && b.pc.Using? ==> a.pc.ep != b.pc.ep }

  /** A locked entry keeps its endpoint, or an add puts that one in the grave. */
  lemma StepKeepsOrDestroys(s: State, t: nat, u: nat, e: nat)
    requires Enabled(s, t) && Knows(t, s) && u != t && e < |s.entries| && s.entries[e].lock == Some(u)
    requires s.entries[e].ep.Some?
    ensures var n := Step(s, t);
      e < |n.entries| && (n.entries[e].ep == s.entries[e].ep || s.entries[e].ep.value in n.destroyed)
  {
    if s.threads[t].pc.InMap? && s.threads[t].op.Add? && Mapped(s.peers, s.threads[t].op.key, e) {
      hide EntryStep, MatchStep;
      var n := MapStep(s, t);
      assert n.destroyed == s.destroyed + [s.entries[e].ep.value];
    } else {
      StepKeepsLocked(s, t, u, e);
    }
  }

  lemma GraveGrows(s: State, t: nat)
    requires Enabled(s, t)
    ensures forall ep | ep in s.destroyed :: ep in Step(s, t).destroyed
  {
  }

  lemma StepUseKnown(s: State, t: nat, u: nat)
    requires Enabled(s, t) && Knows(t, s) && u < |s.threads| && u != t && Knows(u, s)
    requires UseKnown(s.threads[u], s.entries, s.destroyed)
    ensures UseKnown(s.threads[u], Step(s, t).entries, Step(s, t).destroyed)
  {
    hide Step, Enabled;
    GraveGrows(s, t);
    var th := s.threads[u];
    if th.pc.Using? && s.entries[th.pc.e].ep == Some(th.pc.ep) {
      StepKeepsOrDestroys(s, t, u, th.pc.e);
    }
  }

  /** A call enters its callback only on what its locked entry owns. */
  lemma EntersOwned(s: State, t: nat)
    requires Enabled(s, t) && Knows(t, s) && Step(s, t).threads[t].pc.Using?
    ensures var pc := Step(s, t).threads[t].pc; var n := Step(s, t);
      && pc.e < |s.entries| && s.entries[pc.e].ep == Some(pc.ep) && s.entries[pc.e].lock == Some(t)
      && |n.entries| == |s.entries| && n.entries[pc.e].ep == s.entries[pc.e].ep
  {
  }

  lemma NewUserIsAlone(s: State, t: nat, u: nat)
    requires Inv(s) && Unique(s) && Exclusive(s) && Enabled(s, t) && u < |s.threads| && u != t
    requires Step(s, t).threads[t].pc.Using?
    ensures Apart(Step(s, t).threads[t], s.threads[u])
  {
    hide Step, Enabled, PeersOk, LocksOk;
    NotDone(s, t);
    StepThreads(s, t);
    assert Knows(t, s) && Knows(u, s);
    EntersOwned(s, t);
    var pc, th := Step(s, t).threads[t].pc, s.threads[u];
    if th.pc.Using? {
      assert UseKnown(th, s.entries, s.destroyed);
      forall i | 0 <= i < |s.destroyed| ensures s.destroyed[i] != pc.ep {
        assert Owns(s, InEntry(pc.e)) != Owns(s, Grave(i));
      }
      if th.pc.e != pc.e {
        assert Owns(s, InEntry(pc.e)) != Owns(s, InEntry(th.pc.e));
      }
    }
  }

  lemma StepExclusive(s: State, t: nat)
    requires Inv(s) && Unique(s) && Exclusive(s) && Enabled(s, t)
    ensures Exclusive(Step(s, t))
  {
    hide Step, Enabled, Knows, PeersOk, LocksOk, Unique, UseKnown;
    var n := Step(s, t);
    StepThreads(s, t);
    assert Knows(t, s);
    forall u | 0 <= u < |n.threads| ensures UseKnown(n.threads[u], n.entries, n.destroyed) {
      if u != t {
        assert Knows(u, s);
        StepUseKnown(s, t, u);
      } else {
        EnteredKnown(s, t);
      }
    }
    forall u | 0 <= u < |n.threads| && u != t ensures Apart(n.threads[t], n.threads[u]) {
      if n.threads[t].pc.Using? { NewUserIsAlone(s, t, u); }
    }
  }

  lemma EnteredKnown(s: State, t: nat)
    requires Enabled(s, t) && Knows(t, s)
    ensures UseKnown(Step(s, t).threads[t], Step(s, t).entries, Step(s, t).destroyed)
  {
    if Step(s, t).threads[t].pc.Using? {
      hide Step;
      EntersOwned(s, t);
    }
  }

  lemma {:induction false} RunExclusive(s: State, run: seq<nat>, n: State)
    requires Sound(s) && Exclusive(s) && IsRun(s, run, n)
    ensures Exclusive(n)
    decreases |run|
  {
    hide Inv, Unique, NoLeak, Exclusive, Step, Enabled;
    if run != [] {
      StepSound(s, run[0]);
      StepExclusive(s, run[0]);
      RunExclusive(Step(s, run[0]), run[1..], n);
    }
  }

  /** An endpoint serves one call at a time, in every run, whatever adds replace. */
  lemma OneUser(s: State, run: seq<nat>, n: State, t: nat, u: nat)
    requires Init(s) && IsRun(s, run, n) && t < |n.threads| && u < |n.threads|
    requires n.threads[t].pc.Using? && n.threads[u].pc.Using? && n.threads[t].pc.ep == n.threads[u].pc.ep
    ensures t == u
  {
    hide Sound, IsRun;
    InitSound(s);
    RunExclusive(s, run, n);
  }

  // ---- What `withEndpoint` returns.

  datatype Reason = Absent | Emptied | Ran

  /** The step of `t` about to be made ends its call for this reason. */
  predicate EndsBy(s: State, t: nat, why: Reason)
  {
    && t < |s.threads| && s.threads[t].op.With?
    && match why
       case Absent => s.threads[t].pc.InMap? && s.threads[t].op.key !in s.peers
       case Emptied =>
         var pc := s.threads[t].pc; pc.Locked? && pc.e < |s.entries| && s.entries[pc.e].ep == None
       case Ran => s.threads[t].pc.Using?
  }

  function StatusFor(why: Reason): Status
  {
    match why
    case Absent => NotFound
    case Emptied => Error
    case Ran => Success
  }

  /** Somewhere in the run `t` makes such a step. */
  predicate Happens(s: State, run: seq<nat>, t: nat, why: Reason)
    decreases |run|
  {
    run != [] && Enabled(s, run[0])
    && ((run[0] == t && EndsBy(s, t, why)) || Happens(Step(s, run[0]), run[1..], t, why))
  }

  lemma StepEnds(s: State, t: nat)
    requires Enabled(s, t) && Knows(t, s) && PeersOk(s.peers, s.entries) && s.threads[t].op.With?
    ensures var pc := Step(s, t).threads[t].pc;
      && (pc.Done? <==> exists why :: EndsBy(s, t, why))
      && (forall why | EndsBy(s, t, why) :: pc == Done(StatusFor(why)))
  {
    var pc := Step(s, t).threads[t].pc;
    if pc.Done? {
      assert EndsBy(s, t, Absent) || EndsBy(s, t, Emptied) || EndsBy(s, t, Ran);
    }
  }

  lemma {:induction false} DoneStays(s: State, run: seq<nat>, n: State, t: nat, why: Reason)
    requires IsRun(s, run, n) && t < |s.threads| && s.threads[t].pc.Done?
    ensures t < |n.threads| && n.threads[t] == s.threads[t] && !Happens(s, run, t, why)
    decreases |run|
  {
    hide Step, Enabled;
    if run != [] {
      NotDone(s, run[0]);
      StepThreads(s, run[0]);
      DoneStays(Step(s, run[0]), run[1..], n, t, why);
    }
  }

  lemma {:induction false} StatusFrom(s: State, run: seq<nat>, n: State, t: nat, why: Reason)
    requires Inv(s) && IsRun(s, run, n) && t < |s.threads| && s.threads[t].op.With? && !s.threads[t].pc.Done?
    ensures t < |n.threads| && (n.threads[t].pc == Done(StatusFor(why)) <==> Happens(s, run, t, why))
    decreases |run|
  {
    hide Step, Enabled, Knows, PeersOk, LocksOk, EndsBy;
    if run != [] {
      var m := Step(s, run[0]);
      NotDone(s, run[0]);
      StepThreads(s, run[0]);
      StepInv(s, run[0]);
      if run[0] == t {
        StepEnds(s, t);
        if m.threads[t].pc.Done? {
          DoneStays(m, run[1..], n, t, why);
          var w :| EndsBy(s, t, w);
          if StatusFor(w) == StatusFor(why) { assert w == why; }
        } else {
          StatusFrom(m, run[1..], n, t, why);
        }
      } else {
        StatusFrom(m, run[1..], n, t, why);
      }
    }
  }

  /**
   The status of `withEndpoint`, in every run: SUCCESS exactly when its callback
   ran, NOT_FOUND exactly when its key was absent when it held the map's mutex,
   ERROR exactly when a removal had emptied the entry it found.
   */
  lemma StatusExactly(s: State, run: seq<nat>, n: State, t: nat, why: Reason)
    requires Init(s) && IsRun(s, run, n) && t < |s.threads| && s.threads[t].op.With?
    ensures t < |n.threads| && (n.threads[t].pc == Done(StatusFor(why)) <==> Happens(s, run, t, why))
  {
    hide IsRun, Inv, Happens;
    StartsClean(s);
    StatusFrom(s, run, n, t, why);
  }

  lemma {:induction false} OthersFrom(s: State, run: seq<nat>, n: State, t: nat)
    requires IsRun(s, run, n) && t < |s.threads| && !s.threads[t].op.With?
    requires s.threads[t].pc.Done? ==> s.threads[t].pc == Done(Success)
    ensures t < |n.threads| && (n.threads[t].pc.Done? ==> n.threads[t].pc == Done(Success))
    decreases |run|
  {
    hide Step, Enabled;
    if run != [] {
      StepThreads(s, run[0]);
      if run[0] == t { OtherEnds(s, t); }
      OthersFrom(Step(s, run[0]), run[1..], n, t);
    }
  }

  lemma OtherEnds(s: State, t: nat)
    requires Enabled(s, t) && !s.threads[t].op.With?
    ensures var pc := Step(s, t).threads[t].pc; pc.Done? ==> pc == Done(Success)
  {
  }

  /** Adds and removals have nothing to report: they return SUCCESS, whatever they find. */
  lemma OthersSucceed(s: State, run: seq<nat>, n: State, t: nat)
    requires Init(s) && IsRun(s, run, n) && t < |s.threads| && !s.threads[t].op.With?
    ensures t < |n.threads| && (n.threads[t].pc.Done? ==> n.threads[t].pc == Done(Success))
  {
    hide IsRun;
    AllStart(s);
    OthersFrom(s, run, n, t);
  }

  /** Where an entry's endpoint comes from: an add for the entry's key. */
  ghost predicate Sourced(s: State)
  {
    forall e | 0 <= e < |s.entries| && s.entries[e].ep.Some? ::
      Gave(s.threads, s.entries[e].key, s.entries[e].ep.value)
  }

  ghost predicate Gave(ths: seq<Thread>, k: nat, ep: Endpoint)
  {
    exists t :: 0 <= t < |ths| && ths[t].op == Add(k, Some(ep))
  }

  lemma StepSource(s: State, t: nat, e: nat)
    requires Enabled(s, t) && Knows(t, s) && PeersOk(s.peers, s.entries)
    requires e < |Step(s, t).entries| && Step(s, t).entries[e].ep.Some?
    ensures var f := Step(s, t).entries[e];
      || (e < |s.entries| && s.entries[e].key == f.key && s.entries[e].ep == f.ep)
      || s.threads[t].op == Add(f.key, f.ep)
  {
  }

  lemma StepSourced(s: State, t: nat)
    requires Inv(s) && Sourced(s) && Enabled(s, t)
    ensures Sourced(Step(s, t))
  {
    hide Step, Enabled, Knows, PeersOk, LocksOk;
    var n := Step(s, t);
    NotDone(s, t);
    StepThreads(s, t);
    forall e | 0 <= e < |n.entries| && n.entries[e].ep.Some?
      ensures Gave(n.threads, n.entries[e].key, n.entries[e].ep.value)
    {
      StepSource(s, t, e);
      if s.threads[t].op == Add(n.entries[e].key, n.entries[e].ep) {
        assert n.threads[t].op == Add(n.entries[e].key, Some(n.entries[e].ep.value));
      } else {
        var u :| 0 <= u < |s.threads| && s.threads[u].op == Add(n.entries[e].key, Some(n.entries[e].ep.value));
        assert n.threads[u].op == s.threads[u].op;
      }
    }
  }

  /** A callback runs on an endpoint that an add gave for the call's own key. */
  ghost predicate UsesSourced(s: State)
  {
    forall t | 0 <= t < |s.threads| && s.threads[t].pc.Using? ::
      Gave(s.threads, s.threads[t].op.key, s.threads[t].pc.ep)
  }

  lemma StepUsesSourced(s: State, t: nat)
    requires Inv(s) && Sourced(s) && UsesSourced(s) && Enabled(s, t)
    ensures UsesSourced(Step(s, t))
  {
    hide Step, Enabled, PeersOk, LocksOk;
    var n := Step(s, t);
    NotDone(s, t);
    StepThreads(s, t);
    forall u | 0 <= u < |n.threads| && n.threads[u].pc.Using?
      ensures Gave(n.threads, n.threads[u].op.key, n.threads[u].pc.ep)
    {
      if u == t {
        assert Knows(t, s);
        EntersOwned(s, t);
        StepSelfKey(s, t);
        var e := n.threads[t].pc.e;
        assert Gave(s.threads, s.entries[e].key, s.entries[e].ep.value);
      }
      GaveStays(s.threads, n.threads, n.threads[u].op.key, n.threads[u].pc.ep);
    }
  }

  lemma GaveStays(a: seq<Thread>, b: seq<Thread>, k: nat, ep: Endpoint)
    requires |a| == |b| && (forall t | 0 <= t < |a| :: a[t].op == b[t].op) && Gave(a, k, ep)
    ensures Gave(b, k, ep)
  {
    var t :| 0 <= t < |a| && a[t].op == Add(k, Some(ep));
    assert b[t].op == Add(k, Some(ep));
  }

  lemma StepSelfKey(s: State, t: nat)
    requires Enabled(s, t) && Knows(t, s) && Step(s, t).threads[t].pc.Using?
    ensures var e := Step(s, t).threads[t].pc.e; e < |s.entries| && s.entries[e].key == s.threads[t].op.key
  {
  }

  lemma {:induction false} RunSourced(s: State, run: seq<nat>, n: State)
    requires Inv(s) && Sourced(s) && UsesSourced(s) && IsRun(s, run, n)
    ensures Inv(n) && Sourced(n) && UsesSourced(n)
    decreases |run|
  {
    hide Inv, Sourced, UsesSourced, Step, Enabled;
    if run != [] {
      StepInv(s, run[0]);
      StepSourced(s, run[0]);
      StepUsesSourced(s, run[0]);
      RunSourced(Step(s, run[0]), run[1..], n);
    }
  }

  /** In every run, what a callback works on was added for the peer its caller named. */
  lemma RightEndpoint(s: State, run: seq<nat>, n: State, t: nat)
    requires Init(s) && IsRun(s, run, n) && t < |n.threads| && n.threads[t].pc.Using?
    ensures exists u :: 0 <= u < |n.threads| && n.threads[u].op == Add(n.threads[t].op.key, Some(n.threads[t].pc.ep))
  {
    hide Inv, IsRun;
    StartsClean(s);
    RunSourced(s, run, n);
    assert Gave(n.threads, n.threads[t].op.key, n.threads[t].pc.ep);
  }

  lemma {:induction false} UnknownFrom(s: State, run: seq<nat>, n: State, t: nat)
    requires Inv(s) && Made(s) && IsRun(s, run, n) && t < |s.threads| && s.threads[t].op.With?
    requires s.threads[t].pc.Start? || s.threads[t].pc.InMap? || s.threads[t].pc == Done(NotFound)
    requires forall u | 0 <= u < |s.threads| :: !AddsAt(s.threads[u], s.threads[t].op.key)
    ensures t < |n.threads| && (n.threads[t].pc.Done? ==> n.threads[t].pc == Done(NotFound))
    decreases |run|
  {
    hide Inv, Made, Step, Enabled, AddsAt;
    if run != [] {
      var m := Step(s, run[0]);
      StepInv(s, run[0]);
      StepMade(s, run[0]);
      StepThreads(s, run[0]);
      forall u | 0 <= u < |m.threads| ensures !AddsAt(m.threads[u], m.threads[t].op.key) {
        SameAdds(s.threads[u], m.threads[u], s.threads[t].op.key);
      }
      if run[0] == t { UnknownStep(s, t); }
      UnknownFrom(m, run[1..], n, t);
    }
  }

  lemma SameAdds(a: Thread, b: Thread, k: nat)
    requires a.op == b.op
    ensures AddsAt(a, k) == AddsAt(b, k)
  {
  }

  lemma UnknownStep(s: State, t: nat)
    requires Inv(s) && Made(s) && Enabled(s, t) && s.threads[t].op.With?
    requires s.threads[t].pc.Start? || s.threads[t].pc.InMap? || s.threads[t].pc == Done(NotFound)
    requires forall u | 0 <= u < |s.threads| :: !AddsAt(s.threads[u], s.threads[t].op.key)
    ensures var pc := Step(s, t).threads[t].pc; pc.InMap? || pc == Done(NotFound)
  {
    hide LocksOk, Knows, EntryStep, MatchStep;
    var k := s.threads[t].op.key;
    assert k in s.peers ==> Added(s.threads, k);
  }

  /** A peer that nobody adds is not found. */
  lemma UnknownPeer(s: State, run: seq<nat>, n: State, t: nat)
    requires Init(s) && IsRun(s, run, n) && t < |s.threads| && s.threads[t].op.With?
    requires forall u | 0 <= u < |s.threads| :: !AddsAt(s.threads[u], s.threads[t].op.key)
    ensures t < |n.threads| && (n.threads[t].pc.Done? ==> n.threads[t].pc == Done(NotFound))
  {
    hide Inv, Made, IsRun, AddsAt;
    StartsClean(s);
    AllStart(s);
    UnknownFrom(s, run, n, t);
  }

  // ---- Survival.

  /** Nothing among the calls takes thread `t`'s endpoint out again. */
  predicate Spared(ths: seq<Thread>, t: nat)
  {
    && t < |ths| && ths[t].op.Add? && ths[t].op.given.Some?
    && forall u | 0 <= u < |ths| && u != t && ths[u].op.key == ths[t].op.key ::
         match ths[u].op
         case With(_) => true
         case Remove(_) => false
         case RemoveIf(_, expected) => expected != ths[t].op.given.value.conn
         case Add(_, given) => given.None?
  }

  /** The endpoint is still to be added, or is listed under its key. */
  predicate Standing(s: State, t: nat)
    requires t < |s.threads| && s.threads[t].op.Add?
  {
    var op := s.threads[t].op;
    || ((s.threads[t].pc.Start? || s.threads[t].pc.InMap?) && op.given.Some?)
    || (op.key in s.peers && s.peers[op.key] < |s.entries| && s.entries[s.peers[op.key]].ep == op.given)
  }

  lemma StepStanding(s: State, t: nat, u: nat)
    requires Enabled(s, u) && Knows(u, s) && PeersOk(s.peers, s.entries) && Spared(s.threads, t) && Standing(s, t)
    ensures var n := Step(s, u);
      |n.threads| == |s.threads| && n.threads[t].op == s.threads[t].op && Standing(n, t)
  {
    match s.threads[u].pc {
      case InMap => MapStanding(s, t, u);
      case Locked(_) =>
        hide MapStep, MatchStep;
      case LockedBoth(_) =>
        hide MapStep, EntryStep;
      case _ =>
        hide MapStep, EntryStep, MatchStep;
    }
  }

  lemma MapStanding(s: State, t: nat, u: nat)
    requires Enabled(s, u) && Knows(u, s) && PeersOk(s.peers, s.entries) && Spared(s.threads, t) && Standing(s, t)
    requires s.threads[u].pc.InMap?
    ensures var n := MapStep(s, u);
      |n.threads| == |s.threads| && n.threads[t].op == s.threads[t].op && Standing(n, t)
  {
  }

  lemma {:induction false} RunStanding(s: State, run: seq<nat>, n: State, t: nat)
    requires Inv(s) && Spared(s.threads, t) && Standing(s, t) && IsRun(s, run, n)
    ensures |n.threads| == |s.threads| && n.threads[t].op == s.threads[t].op && Standing(n, t)
    decreases |run|
  {
    hide Step, Enabled, Knows, PeersOk, LocksOk, Standing;
    if run != [] {
      NotDone(s, run[0]);
      StepStanding(s, t, run[0]);
      StepThreads(s, run[0]);
      StepInv(s, run[0]);
      RunStanding(Step(s, run[0]), run[1..], n, t);
    }
  }

  /** The endpoint of an add is listed under its key. */
  predicate Present(s: State, op: Op)
    requires op.Add?
  {
    op.key in s.peers && s.peers[op.key] < |s.entries| && s.entries[s.peers[op.key]].ep == op.given
  }

  lemma SparedStays(s: State, run: seq<nat>, n: State, t: nat)
    requires Init(s) && IsRun(s, run, n) && Spared(s.threads, t) && t < |n.threads| && n.threads[t].pc.Done?
    ensures Present(n, s.threads[t].op)
  {
    hide Inv, IsRun;
    StartsClean(s);
    RunStanding(s, run, n, t);
  }

  /** After one add, another call takes the endpoint out again. */
  lemma TakesOut(s: State, t: nat, u: nat) returns (run: seq<nat>, n: State)
    requires Init(s) && t < |s.threads| && s.threads[t].op.Add? && s.threads[t].op.given.Some?
    requires u < |s.threads| && u != t && s.threads[u].op.key == s.threads[t].op.key
    requires match s.threads[u].op
      case With(_) => false
      case Remove(_) => true
      case RemoveIf(_, expected) => expected == s.threads[t].op.given.value.conn
      case Add(_, given) => given.Some?
    ensures IsRun(s, run, n) && t < |n.threads| && n.threads[t].pc.Done? && !Present(n, s.threads[t].op)
  {
    hide Step, Enabled, IsRun;
    var op := s.threads[t].op;
    AddRuns(s, t);
    var s1 := Step(Step(s, t), t);
    assert Idle(s1, op.key, op.given.value) && s1.threads[u] == Thread(s.threads[u].op, Start);
    var tail: seq<nat>;
    if s.threads[u].op.RemoveIf? {
      MatchTakes(s1, u, op.key, op.given.value);
      n := Step(Step(Step(Step(s1, u), u), u), u);
      TwoMore(Step(Step(s1, u), u), u, n, []);
      tail := [u, u] + [];
      TwoMore(s1, u, n, tail);
      tail := [u, u] + tail;
    } else {
      DirectTakes(s1, u, op.key, op.given.value);
      n := Step(Step(s1, u), u);
      TwoMore(s1, u, n, []);
      tail := [u, u] + [];
    }
    TwoMore(s, t, n, tail);
    run := [t, t] + tail;
  }

  lemma TwoMore(s: State, t: nat, n: State, run: seq<nat>)
    requires Enabled(s, t) && Enabled(Step(s, t), t)
    requires run == [] ==> n == Step(Step(s, t), t)
    requires run != [] ==> IsRun(Step(Step(s, t), t), run, n)
    ensures IsRun(s, [t, t] + run, n)
  {
    hide Step, Enabled;
    assert ([t, t] + run)[1..] == [t] + run && ([t] + run)[1..] == run;
    assert IsRun(Step(s, t), [t] + run, n);
  }

  lemma DirectTakes(s: State, u: nat, k: nat, ep: Endpoint)
    requires Idle(s, k, ep) && u < |s.threads| && s.threads[u].pc.Start? && s.threads[u].op.key == k
    requires var op := s.threads[u].op; op.Remove? || (op.Add? && op.given.Some? && op.given.value != ep)
    ensures Enabled(s, u) && Enabled(Step(s, u), u)
    ensures var n := Step(Step(s, u), u);
      && |n.threads| == |s.threads| && (forall t | 0 <= t < |s.threads| && t != u :: n.threads[t] == s.threads[t])
      && !(k in n.peers && n.peers[k] < |n.entries| && n.entries[n.peers[k]].ep == Some(ep))
  {
    var n := Step(s, u);
    assert n == s.(threads := s.threads[u := s.threads[u].(pc := InMap)], mapLock := Some(u));
  }

  lemma MatchTakes(s: State, u: nat, k: nat, ep: Endpoint)
    requires Idle(s, k, ep) && u < |s.threads| && s.threads[u] == Thread(RemoveIf(k, ep.conn), Start)
    ensures Enabled(s, u) && Enabled(Step(s, u), u)
    ensures var m := Step(Step(s, u), u);
      && Enabled(m, u) && Enabled(Step(m, u), u)
      && var n := Step(Step(m, u), u);
         && |n.threads| == |s.threads| && (forall t | 0 <= t < |s.threads| && t != u :: n.threads[t] == s.threads[t])
         && k !in n.peers
  {
    var op := RemoveIf(k, ep.conn);
    var s1 := Step(s, u);
    assert s1 == s.(threads := s.threads[u := Thread(op, InMap)], mapLock := Some(u));
    var s2 := Step(s1, u);
    assert s2 == s1.(threads := s.threads[u := Thread(op, WaitBoth(0))]);
    var s3 := Step(s2, u);
    assert s3 == s2.(threads := s.threads[u := Thread(op, LockedBoth(0))], entries := [Entry(k, Some(ep), Some(u))]);
  }

  /**
   Exactly when an added endpoint stays: once its add has returned it is listed
   under its key in every run, if and only if no plain removal and no other add
   names that key and no conditional removal there expects its connection id.
   */
  lemma StaysExactly(s: State, t: nat)
    requires Init(s) && t < |s.threads| && s.threads[t].op.Add? && s.threads[t].op.given.Some?
    ensures (forall run, n | IsRun(s, run, n) && t < |n.threads| && n.threads[t].pc.Done? ::
               Present(n, s.threads[t].op))
       <==> Spared(s.threads, t)
  {
    hide IsRun, Present;
    if Spared(s.threads, t) {
      forall run, n | IsRun(s, run, n) && t < |n.threads| && n.threads[t].pc.Done?
        ensures Present(n, s.threads[t].op)
      {
        SparedStays(s, run, n, t);
      }
    } else {
      var u :| 0 <= u < |s.threads| && u != t && s.threads[u].op.key == s.threads[t].op.key && !s.threads[u].op.With?
        && (s.threads[u].op.RemoveIf? ==> s.threads[u].op.expected == s.threads[t].op.given.value.conn)
        && (s.threads[u].op.Add? ==> s.threads[u].op.given.Some?);
      var run, n := TakesOut(s, t, u);
    }
  }

  /** A conditional removal only ever destroys the connection it was asked to. */
  lemma OnlyTheExpected(s: State, run: seq<nat>, n: State, t: nat)
    requires Init(s) && IsRun(s, run, n) && t < |n.threads|
    requires n.threads[t].op.RemoveIf? && n.threads[t].pc.Dropping?
    ensures n.threads[t].pc.victim.Some? && n.threads[t].pc.victim.value.conn == n.threads[t].op.expected
  {
    InitSound(s);
    RunSound(s, run, n);
    assert Knows(t, n);
  }

  predicate AllDone(s: State) { forall t | 0 <= t < |s.threads| :: s.threads[t].pc.Done? }

  predicate InRegistry(s: State, ep: Endpoint)
  {
    exists k | k in s.peers :: s.peers[k] < |s.entries| && s.entries[s.peers[k]].ep == Some(ep)
  }

  lemma {:induction false} NothingVanishes(s: State, run: seq<nat>, n: State, p: Place)
    requires Sound(s) && IsRun(s, run, n) && Owns(s, p).Some?
    ensures exists q :: Owns(n, q) == Owns(s, p)
    decreases |run|
  {
    hide Inv, Unique, NoLeak, Step, Enabled, Owns;
    if run != [] {
      StepSound(s, run[0]);
      KnowsAll(s, run[0]);
      StepMoves(s, run[0], p);
      NothingVanishes(Step(s, run[0]), run[1..], n, Forth(s, run[0], p));
    } else {
      assert Owns(n, p) == Owns(s, p);
    }
  }

  /**
   When all calls have returned, every endpoint handed to an add is in the
   registry or was destroyed, never both, and was destroyed at most once.
   */
  lemma AllAccounted(s: State, run: seq<nat>, n: State, t: nat)
    requires Init(s) && IsRun(s, run, n) && AllDone(n)
    requires t < |s.threads| && s.threads[t].op.Add? && s.threads[t].op.given.Some?
    ensures var ep := s.threads[t].op.given.value; InRegistry(n, ep) <==> ep !in n.destroyed
    ensures forall i, j | 0 <= i < |n.destroyed| && 0 <= j < |n.destroyed| && i != j ::
      n.destroyed[i] != n.destroyed[j]
  {
    hide Inv, Step, IsRun, Enabled;
    InitSound(s);
    RunSound(s, run, n);
    var given := s.threads[t].op.given;
    assert Owns(s, InThread(t)) == given;
    NothingVanishes(s, run, n, InThread(t));
    var q :| Owns(n, q) == given;
    if q.InEntry? {
      assert Listed(n, q.e);
      assert InRegistry(n, given.value);
      forall i | 0 <= i < |n.destroyed| ensures n.destroyed[i] != given.value {
        assert Owns(n, q) != Owns(n, Grave(i));
      }
    } else {
      assert q.Grave?;
      forall k | k in n.peers && n.peers[k] < |n.entries| ensures n.entries[n.peers[k]].ep != given {
        assert Owns(n, q) != Owns(n, InEntry(n.peers[k]));
      }
    }
    forall i, j | 0 <= i < |n.destroyed| && 0 <= j < |n.destroyed| && i != j
      ensures n.destroyed[i] != n.destroyed[j]
    {
      assert Owns(n, Grave(i)) != Owns(n, Grave(j));
    }
  }

  // ---- Progress.

  lemma HolderCanStep(s: State, e: nat)
    requires Inv(s) && e < |s.entries| && s.entries[e].lock.Some?
    ensures Enabled(s, s.entries[e].lock.value)
  {
    assert Knows(s.entries[e].lock.value, s);
  }

  /** Two levels of locks, no deadlock: until all calls have returned, some call can step. */
  lemma NoDeadlock(s: State, run: seq<nat>, n: State)
    requires Init(s) && IsRun(s, run, n) && !AllDone(n)
    ensures exists t :: Enabled(n, t)
  {
    hide Inv, IsRun, Enabled;
    InitSound(s);
    RunSound(s, run, n);
    SomeoneSteps(n);
  }

  lemma SomeoneSteps(s: State)
    requires Inv(s) && !AllDone(s)
    ensures exists t :: Enabled(s, t)
  {
    var t :| 0 <= t < |s.threads| && !s.threads[t].pc.Done?;
    assert Knows(t, s);
    if !Enabled(s, t) {
      if s.threads[t].pc.Start? {
        var h := s.mapLock.value;
        assert Knows(h, s);
        if !Enabled(s, h) { HolderCanStep(s, s.threads[h].pc.e); }
      } else {
        HolderCanStep(s, s.threads[t].pc.e);
      }
    }
  }

  function Ahead(pc: Pc): nat
  {
    match pc
    case Start => 6
    case InMap => 5
    case Wait(_) => 4
    case WaitBoth(_) => 4
    case Locked(_) => 3
    case LockedBoth(_) => 3
    case Using(_, _) => 2
    case Dropping(_) => 1
    case Done(_) => 0
  }

  function TotalAhead(ths: seq<Thread>): nat
  {
    if ths == [] then 0 else Ahead(ths[0].pc) + TotalAhead(ths[1..])
  }

  lemma {:induction false} TotalUpdate(ths: seq<Thread>, t: nat, th: Thread)
    requires t < |ths|
    ensures TotalAhead(ths[t := th]) == TotalAhead(ths) - Ahead(ths[t].pc) + Ahead(th.pc)
  {
    hide Ahead;
    if t == 0 {
      assert ths[t := th][1..] == ths[1..];
    } else {
      TotalUpdate(ths[1..], t - 1, th);
      assert ths[t := th][1..] == ths[1..][t - 1 := th];
    }
  }

  lemma StepAhead(s: State, t: nat)
    requires Enabled(s, t)
    ensures t < |Step(s, t).threads| == |s.threads| && Ahead(Step(s, t).threads[t].pc) < Ahead(s.threads[t].pc)
  {
  }

  /** How often thread `t` steps. */
  function Turns(run: seq<nat>, t: nat): nat
  {
    if run == [] then 0 else (if run[0] == t then 1 else 0) + Turns(run[1..], t)
  }

  /** Every call returns within six of its own steps. */
  lemma {:induction false} SixSteps(s: State, run: seq<nat>, n: State, t: nat)
    requires IsRun(s, run, n) && t < |s.threads|
    ensures t < |n.threads| && Turns(run, t) + Ahead(n.threads[t].pc) <= Ahead(s.threads[t].pc) <= 6
    decreases |run|
  {
    hide Step, Enabled;
    if run != [] {
      StepThreads(s, run[0]);
      StepAhead(s, run[0]);
      SixSteps(Step(s, run[0]), run[1..], n, t);
    }
  }

  /** So every run ends with all calls returned. */
  lemma {:induction false} RunsAreBounded(s: State, run: seq<nat>, n: State)
    requires IsRun(s, run, n)
    ensures |run| + TotalAhead(n.threads) <= TotalAhead(s.threads)
    decreases |run|
  {
    hide Step, Ahead, Enabled;
    if run != [] {
      var t, m := run[0], Step(s, run[0]);
      StepThreads(s, t);
      StepAhead(s, t);
      assert m.threads == s.threads[t := m.threads[t]];
      TotalUpdate(s.threads, t, m.threads[t]);
      RunsAreBounded(m, run[1..], n);
    }
  }
}
