/**
 Who closes which control socket. A descriptor is obtained by dialling or by
 accepting, is held by that thread until the HELLO is through, and is then
 registered under the peer's rank or closed at once. The kernel hands out
 descriptor numbers that are not open, and may hand out closed ones again.
 */
module CtrlFds {
  import opened Common

  datatype Fds = Fds(conns: map<nat, nat>, held: set<nat>, closed: multiset<nat>)

  datatype Event =
    | Obtain(fd: nat)                  // dialled or accepted
    | HelloFailed(fd: nat)
    | Register(fd: nat, peer: nat)     // HELLO sent or received
    | Close(peer: nat)
    | CloseAll

  predicate Can(s: Fds, ev: Event)
  {
    match ev
    case Obtain(fd) => fd !in s.held && fd !in s.conns.Values
    case HelloFailed(fd) => fd in s.held
    case Register(fd, _) => fd in s.held
    case Close(_) => true
    case CloseAll => true
  }

  /** The first connection of a rank is kept; a later one is closed. */
  function Apply(s: Fds, ev: Event): Fds
  {
    match ev
    case Obtain(fd) => s.(held := s.held + {fd})
    case HelloFailed(fd) => s.(held := s.held - {fd}, closed := s.closed + multiset{fd})
    case Register(fd, peer) =>
      var t := s.(held := s.held - {fd});
      if peer in s.conns then t.(closed := s.closed + multiset{fd}) else t.(conns := s.conns[peer := fd])
    case Close(peer) =>
      if peer in s.conns then s.(conns := s.conns - {peer}, closed := s.closed + multiset{s.conns[peer]}) else s
    case CloseAll => s.(conns := map[], closed := s.closed + multiset(s.conns.Values))
  }

  ghost predicate Inv(s: Fds) { Injective(s.conns) && s.held !! s.conns.Values }

  /** Descriptors that are open, each with who has it. */
  ghost function Open(s: Fds): multiset<nat> { multiset(s.held) + multiset(s.conns.Values) }

  ghost function Opened(run: seq<Event>): multiset<nat>
  {
    if run == [] then multiset{}
    else (if run[0].Obtain? then multiset{run[0].fd} else multiset{}) + Opened(run[1..])
  }

  ghost predicate IsRun(s: Fds, run: seq<Event>, t: Fds)
    decreases |run|
  {
    if run == [] then t == s else Can(s, run[0]) && IsRun(Apply(s, run[0]), run[1..], t)
  }

  lemma ValuesWith(m: map<nat, nat>, p: nat, fd: nat)
    requires p !in m
    ensures m[p := fd].Values == m.Values + {fd}
  {
    var n := m[p := fd];
    forall v | v in m.Values ensures v in n.Values {
      var k :| k in m && m[k] == v;
      assert n[k] == v;
    }
    assert n[p] == fd;
  }

  lemma ValuesWithout(m: map<nat, nat>, p: nat)
    requires Injective(m) && p in m
    ensures (m - {p}).Values == m.Values - {m[p]}
  {
    var n := m - {p};
    forall v | v in m.Values - {m[p]} ensures v in n.Values {
      var k :| k in m && m[k] == v;
      assert n[k] == v;
    }
  }

  lemma SetWithout(s: set<nat>, x: nat)
    requires x in s
    ensures multiset(s) == multiset(s - {x}) + multiset{x}
  {
  }

  /** Open and closed descriptors together only change by the one obtained. */
  ghost predicate Balanced(s: Fds, ev: Event, t: Fds)
  {
    t.closed + Open(t) == s.closed + Open(s) + (if ev.Obtain? then multiset{ev.fd} else multiset{})
  }

  lemma RegisterInv(s: Fds, fd: nat, peer: nat)
    requires Inv(s) && fd in s.held
    ensures Inv(Apply(s, Register(fd, peer))) && Balanced(s, Register(fd, peer), Apply(s, Register(fd, peer)))
  {
    SetWithout(s.held, fd);
    if peer !in s.conns {
      ValuesWith(s.conns, peer, fd);
      SetWithout(s.conns.Values + {fd}, fd);
      assert s.conns.Values + {fd} - {fd} == s.conns.Values;
      forall p | p in s.conns ensures s.conns[p] != fd { assert s.conns[p] in s.conns.Values; }
    }
  }

  lemma CloseInv(s: Fds, peer: nat)
    requires Inv(s) && peer in s.conns
    ensures Inv(Apply(s, Close(peer))) && Balanced(s, Close(peer), Apply(s, Close(peer)))
  {
    var fd := s.conns[peer];
    ValuesWithout(s.conns, peer);
    assert fd in s.conns.Values;
    SetWithout(s.conns.Values, fd);
  }

  lemma ObtainInv(s: Fds, fd: nat)
    requires Inv(s) && Can(s, Obtain(fd))
    ensures Inv(Apply(s, Obtain(fd))) && Balanced(s, Obtain(fd), Apply(s, Obtain(fd)))
  {
    SetWithout(s.held + {fd}, fd);
    assert s.held + {fd} - {fd} == s.held;
  }

  lemma FailInv(s: Fds, fd: nat)
    requires Inv(s) && fd in s.held
    ensures Inv(Apply(s, HelloFailed(fd))) && Balanced(s, HelloFailed(fd), Apply(s, HelloFailed(fd)))
  {
    SetWithout(s.held, fd);
  }

  lemma CloseAllInv(s: Fds)
    requires Inv(s)
    ensures Inv(Apply(s, CloseAll)) && Balanced(s, CloseAll, Apply(s, CloseAll))
  {
    var t := Apply(s, CloseAll);
    assert t.conns.Values == {};
    assert Open(t) == multiset(s.held);
  }

  lemma StepInv(s: Fds, ev: Event)
    requires Inv(s) && Can(s, ev)
    ensures Inv(Apply(s, ev)) && Balanced(s, ev, Apply(s, ev))
  {
    hide Inv, Balanced;
    match ev
    case Register(fd, peer) => RegisterInv(s, fd, peer);
    case Close(peer) => if peer in s.conns { CloseInv(s, peer); } else { NothingBalanced(s, ev); }
    case Obtain(fd) => ObtainInv(s, fd);
    case HelloFailed(fd) => FailInv(s, fd);
    case CloseAll => CloseAllInv(s);
  }

  lemma NothingBalanced(s: Fds, ev: Event)
    requires !ev.Obtain?
    ensures Balanced(s, ev, s)
  {
  }

  /**
   Over every run, a descriptor number has been closed exactly as often as it
   was opened, less one while it is open; and while open it is held by one
   thread or registered under exactly one rank.
   */
  lemma {:induction false} Owned(s: Fds, run: seq<Event>, t: Fds)
    requires Inv(s) && IsRun(s, run, t)
    ensures Inv(t)
    ensures s.closed + Open(s) + Opened(run) == t.closed + Open(t)
    ensures forall fd :: Open(t)[fd] <= 1
    decreases |run|
  {
    hide Apply, Can;
    if run == [] {
      assert forall fd :: !(fd in t.held && fd in t.conns.Values);
    } else {
      StepInv(s, run[0]);
      Owned(Apply(s, run[0]), run[1..], t);
    }
  }

  /** A registered descriptor stays with its rank until that rank is closed. */
  lemma {:induction false} KeptUntilClosed(s: Fds, run: seq<Event>, t: Fds, peer: nat)
    requires IsRun(s, run, t) && peer in s.conns
    requires forall i | 0 <= i < |run| :: run[i] != Close(peer) && run[i] != CloseAll
    ensures peer in t.conns && t.conns[peer] == s.conns[peer]
    decreases |run|
  {
    if run != [] {
      KeptUntilClosed(Apply(s, run[0]), run[1..], t, peer);
    }
  }

  // ---- Sends and receives beside closes.

  /** Each descriptor obtained is a connection of its own; `live` says which one an open number denotes. */
  datatype System = System(fds: Fds, live: map<nat, nat>, next: nat)

  function OpenFds(s: Fds): set<nat> { s.held + s.conns.Values }

  function Move(s: System, ev: Event): System
  {
    var fds := Apply(s.fds, ev);
    var live := if ev.Obtain? then s.live[ev.fd := s.next] else s.live;
    System(fds, map fd | fd in live && fd in OpenFds(fds) :: live[fd], if ev.Obtain? then s.next + 1 else s.next)
  }

  ghost predicate SystemInv(s: System)
  {
    Inv(s.fds) && s.live.Keys == OpenFds(s.fds) && forall fd | fd in s.live :: s.live[fd] < s.next
  }

  lemma MoveInv(s: System, ev: Event)
    requires SystemInv(s) && Can(s.fds, ev)
    ensures SystemInv(Move(s, ev))
  {
    hide Inv, Apply;
    StepInv(s.fds, ev);
    OpenStep(s.fds, ev);
  }

  /** Only obtaining opens a number. */
  lemma OpenStep(s: Fds, ev: Event)
    requires Inv(s) && Can(s, ev)
    ensures OpenFds(Apply(s, ev)) <= OpenFds(s) + (if ev.Obtain? then {ev.fd} else {})
    ensures ev.Obtain? ==> ev.fd in OpenFds(Apply(s, ev))
  {
    if ev.Register? && ev.peer !in s.conns { ValuesWith(s.conns, ev.peer, ev.fd); }
    if ev.Close? && ev.peer in s.conns { ValuesWithout(s.conns, ev.peer); }
  }

  ghost predicate IsHistory(s: System, run: seq<Event>, t: System)
    decreases |run|
  {
    if run == [] then t == s else Can(s.fds, run[0]) && IsHistory(Move(s, run[0]), run[1..], t)
  }

  /** What number `fd` denotes is connection `c`. */
  predicate Denotes(s: System, fd: nat, c: nat) { fd in s.live && s.live[fd] == c }

  /** Once gone, a connection does not come back under any number. */
  lemma GoneStays(s: System, ev: Event, fd: nat, c: nat)
    requires SystemInv(s) && Can(s.fds, ev) && c < s.next && !Denotes(s, fd, c)
    ensures c < Move(s, ev).next && !Denotes(Move(s, ev), fd, c)
  {
    hide Inv, Apply;
  }

  lemma RegisteredIsOpen(s: System, p: nat)
    requires SystemInv(s) && p in s.fds.conns
    ensures s.fds.conns[p] in s.live && s.live[s.fds.conns[p]] < s.next
  {
    assert s.fds.conns[p] in s.fds.conns.Values;
  }

  predicate Closes(ev: Event, p: nat) { ev == Close(p) || ev == CloseAll }

  /** A rank's number keeps its connection through everything but a close of that rank. */
  lemma MoveKeeps(s: System, ev: Event, p: nat)
    requires SystemInv(s) && Can(s.fds, ev) && p in s.fds.conns
    ensures var fd := s.fds.conns[p]; fd in s.live
    ensures var t := Move(s, ev); var fd := s.fds.conns[p];
      !Closes(ev, p) ==> p in t.fds.conns && t.fds.conns[p] == fd && Denotes(t, fd, s.live[fd])
  {
    RegisteredIsOpen(s, p);
    if !Closes(ev, p) {
      var t := Apply(s.fds, ev);
      assert p in t.conns && t.conns[p] == s.fds.conns[p];
      assert t.conns[p] in t.conns.Values;
    }
  }

  lemma CloseEnds(s: System, ev: Event, p: nat)
    requires SystemInv(s) && p in s.fds.conns && Closes(ev, p)
    ensures s.fds.conns[p] !in Move(s, ev).live
  {
    var fd := s.fds.conns[p];
    assert fd in s.fds.conns.Values;
    if ev.Close? { ValuesWithout(s.fds.conns, p); }
  }

  /**
   A `send` or `recv` looks its rank's number up, lets the lock go and then uses
   the number. It meets the connection it looked up if and only if no close of
   that rank comes in between.
   */
  lemma {:induction false} MeetsExactly(s: System, run: seq<Event>, t: System, p: nat)
    requires SystemInv(s) && IsHistory(s, run, t) && p in s.fds.conns && s.fds.conns[p] in s.live
    ensures var fd := s.fds.conns[p];
      Denotes(t, fd, s.live[fd]) <==> forall i | 0 <= i < |run| :: !Closes(run[i], p)
    decreases |run|
  {
    hide SystemInv, Can, Move;
    if run != [] {
      var m := Move(s, run[0]);
      MoveInv(s, run[0]);
      if Closes(run[0], p) {
        CloseEnds(s, run[0], p);
        RegisteredIsOpen(s, p);
        MoveNext(s, run[0]);
        GoneForGood(m, run[1..], t, s.fds.conns[p], s.live[s.fds.conns[p]]);
      } else {
        MoveKeeps(s, run[0], p);
        MeetsExactly(m, run[1..], t, p);
        assert forall i | 1 <= i < |run| :: run[i] == run[1..][i - 1];
      }
    }
  }

  lemma MoveNext(s: System, ev: Event)
    ensures s.next <= Move(s, ev).next
  {
  }

  lemma {:induction false} GoneForGood(s: System, run: seq<Event>, t: System, fd: nat, c: nat)
    requires SystemInv(s) && IsHistory(s, run, t) && c < s.next && !Denotes(s, fd, c)
    ensures !Denotes(t, fd, c)
    decreases |run|
  {
    hide SystemInv, Can, Move, Denotes;
    if run != [] {
      MoveInv(s, run[0]);
      GoneStays(s, run[0], fd, c);
      GoneForGood(Move(s, run[0]), run[1..], t, fd, c);
    }
  }

  /**
   And it can meet the wrong one: whenever rank `p` is registered and rank `q` is
   not, a close of `p` and a new connection of `q` that gets the same number make
   a send to `p` that has looked the number up reach `q`.
   */
  lemma WrongPeer(s: System, p: nat, q: nat) returns (run: seq<Event>, t: System)
    requires SystemInv(s) && p in s.fds.conns && q !in s.fds.conns
    ensures IsHistory(s, run, t) && q in t.fds.conns && t.fds.conns[q] == s.fds.conns[p]
    ensures s.fds.conns[p] in s.live && s.fds.conns[p] in t.live && t.live[s.fds.conns[p]] != s.live[s.fds.conns[p]]
  {
    RegisteredIsOpen(s, p);
    var fd := s.fds.conns[p];
    run := [Close(p), Obtain(fd), Register(fd, q)];
    assert fd in s.fds.conns.Values;
    ValuesWithout(s.fds.conns, p);
    var s1 := Move(s, Close(p));
    assert fd !in s1.fds.held && fd !in s1.fds.conns.Values;
    var s2 := Move(s1, Obtain(fd));
    assert fd in s2.fds.held && s2.live[fd] == s1.next == s.next;
    t := Move(s2, Register(fd, q));
    ValuesWith(s2.fds.conns, q, fd);
    assert run[1..] == [Obtain(fd), Register(fd, q)] && run[1..][1..] == [Register(fd, q)] && run[1..][1..][1..] == [];
    assert IsHistory(s2, [Register(fd, q)], t);
    assert IsHistory(s1, run[1..], t);
  }

  // ---- The manager.

  class Manager {
    var conns: map<nat, nat>
    var held: set<nat>
    var closed: multiset<nat>

    constructor ()
      ensures State() == Fds(map[], {}, multiset{}) && Inv(State())
    {
      conns, held, closed := map[], {}, multiset{};
    }

    ghost function State(): Fds reads this { Fds(conns, held, closed) }

    method DoRegister(fd: nat, peer: nat)
      requires Inv(State()) && Can(State(), Register(fd, peer))
      modifies this
      ensures State() == Apply(old(State()), Register(fd, peer)) && Inv(State())
      ensures peer in old(conns) ==> conns == old(conns) && closed == old(closed) + multiset{fd}
    {
      StepInv(State(), Register(fd, peer));
      held := held - {fd};
      if peer !in conns {
        conns := conns[peer := fd];
      } else {
        closed := closed + multiset{fd};
      }
    }

    method DoClose(peer: nat)
      requires Inv(State())
      modifies this
      ensures State() == Apply(old(State()), Close(peer)) && Inv(State())
    {
      StepInv(State(), Close(peer));
      if peer !in conns { return; }
      closed := closed + multiset{conns[peer]};
      conns := conns - {peer};
    }

    /** Walks the table in any order, closing each entry's descriptor. */
    method DoCloseAll()
      requires Inv(State())
      modifies this
      ensures State() == Apply(old(State()), CloseAll) && Inv(State())
    {
      var rest := conns;
      while rest.Keys != {}
        invariant Injective(rest) && conns == old(conns) && held == old(held)
        invariant closed + multiset(rest.Values) == old(closed) + multiset(old(conns).Values)
        decreases |rest.Keys|
      {
        var p :| p in rest.Keys;
        ValuesWithout(rest, p);
        assert rest[p] in rest.Values;
        assert multiset(rest.Values) == multiset(rest.Values - {rest[p]}) + multiset{rest[p]};
        closed := closed + multiset{rest[p]};
        assert (rest - {p}).Keys == rest.Keys - {p};
        rest := rest - {p};
      }
      assert rest.Values == {};
      conns := map[];
    }
  }
}
