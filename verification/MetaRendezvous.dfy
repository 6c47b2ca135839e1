/**
 Meeting of connection requests and metadata sockets. Sockets arrive in any
 order, each with a hello naming its connection; a hello that is not the one an
 exchange waits for is queued under its connection id for a later exchange.
 */
module MetaRendezvous {
  import opened Common

  datatype Hello = Hello(conn: nat, fd: nat, ip: string, port: nat)

  /** A socket that delivers its hello, or closes before it is complete. */
  datatype Arrival = Complete(hello: Hello) | Cut(fd: nat)

  datatype Peer = Peer(ip: string, port: nat)

  datatype Table = Table(pending: map<nat, seq<nat>>, peers: map<nat, Peer>)

  datatype Met = Met(fd: nat, peer: Peer)

  function Queue(t: Table, c: nat): seq<nat> { if c in t.pending then t.pending[c] else [] }

  function Push(t: Table, h: Hello): Table
  {
    Table(t.pending[h.conn := Queue(t, h.conn) + [h.fd]], t.peers[h.conn := Peer(h.ip, h.port)])
  }

  /** The peer recorded for the connection; the map's default when there is none. */
  function PeerOf(t: Table, c: nat): Peer { if c in t.peers then t.peers[c] else Peer("", 0) }

  function Pop(t: Table, c: nat): (Option<Met>, Table)
  {
    if Queue(t, c) == [] then (None, t)
    else (Some(Met(Queue(t, c)[0], PeerOf(t, c))), t.(pending := t.pending[c := Queue(t, c)[1..]]))
  }

  /** Result of waiting for connection `c`: what it got, the table, and how many sockets it accepted. */
  datatype Exchanged = Exchanged(met: Option<Met>, table: Table, used: nat)

  /** Accepts sockets until the one for `c` is queued; running out of sockets is a failed accept. */
  function Exchange(t: Table, c: nat, arrivals: seq<Arrival>): Exchanged
    decreases |arrivals|
  {
    var (met, popped) := Pop(t, c);
    if met.Some? then Exchanged(met, popped, 0)
    else if arrivals == [] then Exchanged(None, t, 0)
    else
      var next := if arrivals[0].Complete? then Push(t, arrivals[0].hello) else t;
      var rest := Exchange(next, c, arrivals[1..]);
      rest.(used := rest.used + 1)
  }

  // ---- The bookkeeping in terms of what arrived and what was asked for.

  function Hellos(arrivals: seq<Arrival>): seq<Hello>
  {
    if arrivals == [] then []
    else if arrivals[0].Complete? then [arrivals[0].hello] + Hellos(arrivals[1..])
    else Hellos(arrivals[1..])
  }

  /** The hellos of connection `c`, in order of arrival. */
  function Of(history: seq<Hello>, c: nat): seq<Hello>
  {
    if history == [] then []
    else
      var last := history[|history| - 1];
      Of(history[..|history| - 1], c) + (if last.conn == c then [last] else [])
  }

  /** How often `c` occurs among the served connections. */
  function Times(served: seq<nat>, c: nat): nat
  {
    if served == [] then 0
    else Times(served[..|served| - 1], c) + (if served[|served| - 1] == c then 1 else 0)
  }

  /**
   For connection `c`: the first `Times` hellos were handed out, the others are
   queued in order, and the recorded peer is that of the latest hello.
   */
  predicate AccountOk(queue: seq<nat>, peer: Peer, hs: seq<Hello>, n: nat)
  {
    && n <= |hs| && |queue| == |hs| - n
    && (forall i | 0 <= i < |queue| :: queue[i] == hs[n + i].fd)
    && (hs != [] ==> peer == AddressOf(hs[|hs| - 1]))
  }

  function AddressOf(h: Hello): Peer { Peer(h.ip, h.port) }

  ghost predicate Rep(t: Table, history: seq<Hello>, served: seq<nat>)
  {
    forall c :: AccountOk(Queue(t, c), PeerOf(t, c), Of(history, c), Times(served, c))
  }

  /** What an exchange for a connection with hellos `hs`, `n` of them taken, must return. */
  predicate Right(met: Option<Met>, hs: seq<Hello>, n: nat)
  {
    met.Some? ==> n < |hs| && met.value == Met(hs[n].fd, AddressOf(hs[|hs| - 1]))
  }

  lemma OfSnoc(history: seq<Hello>, h: Hello, c: nat)
    ensures Of(history + [h], c) == Of(history, c) + (if h.conn == c then [h] else [])
  {
    assert (history + [h])[..|history|] == history;
  }

  lemma TimesSnoc(served: seq<nat>, d: nat, c: nat)
    ensures Times(served + [d], c) == Times(served, c) + (if d == c then 1 else 0)
  {
    assert (served + [d])[..|served|] == served;
  }

  lemma {:induction false} OfMember(history: seq<Hello>, c: nat, i: nat)
    requires i < |Of(history, c)|
    ensures Of(history, c)[i] in history && Of(history, c)[i].conn == c
  {
    if history != [] && i < |Of(history[..|history| - 1], c)| { OfMember(history[..|history| - 1], c, i); }
  }

  lemma AccountPush(queue: seq<nat>, peer: Peer, hs: seq<Hello>, n: nat, h: Hello)
    requires AccountOk(queue, peer, hs, n)
    ensures AccountOk(queue + [h.fd], AddressOf(h), hs + [h], n)
  {
  }

  lemma PushRep(t: Table, history: seq<Hello>, served: seq<nat>, h: Hello)
    requires Rep(t, history, served)
    ensures Rep(Push(t, h), history + [h], served)
  {
    hide Of, Times, AccountOk;
    var u := Push(t, h);
    forall c ensures AccountOk(Queue(u, c), PeerOf(u, c), Of(history + [h], c), Times(served, c)) {
      OfSnoc(history, h, c);
      assert AccountOk(Queue(t, c), PeerOf(t, c), Of(history, c), Times(served, c));
      AccountPush(Queue(t, c), PeerOf(t, c), Of(history, c), Times(served, c), h);
      assert h.conn != c ==> Of(history, c) + [] == Of(history, c);
    }
  }

  lemma AccountPop(queue: seq<nat>, peer: Peer, hs: seq<Hello>, n: nat)
    requires AccountOk(queue, peer, hs, n)
    ensures queue == [] <==> n == |hs|
    ensures queue != [] ==> AccountOk(queue[1..], peer, hs, n + 1)
    ensures queue != [] ==> Right(Some(Met(queue[0], peer)), hs, n)
  {
  }

  lemma PopRep(t: Table, history: seq<Hello>, served: seq<nat>, c: nat)
    requires Rep(t, history, served)
    ensures Pop(t, c).0.None? <==> Times(served, c) == |Of(history, c)|
    ensures Pop(t, c).0.None? ==> Pop(t, c).1 == t
    ensures Pop(t, c).0.Some? ==> Rep(Pop(t, c).1, history, served + [c])
    ensures Right(Pop(t, c).0, Of(history, c), Times(served, c))
  {
    hide Of, Times, AccountOk;
    assert AccountOk(Queue(t, c), PeerOf(t, c), Of(history, c), Times(served, c));
    AccountPop(Queue(t, c), PeerOf(t, c), Of(history, c), Times(served, c));
    if Queue(t, c) != [] {
      var u := Pop(t, c).1;
      forall d ensures AccountOk(Queue(u, d), PeerOf(u, d), Of(history, d), Times(served + [c], d)) {
        TimesSnoc(served, c, d);
        assert AccountOk(Queue(t, d), PeerOf(t, d), Of(history, d), Times(served, d));
      }
    }
  }

  function Note(served: seq<nat>, c: nat, met: Option<Met>): seq<nat> { if met.Some? then served + [c] else served }

  /** Everything accepted so far, after one exchange. */
  function Seen(history: seq<Hello>, arrivals: seq<Arrival>, used: nat): seq<Hello>
  {
    if used <= |arrivals| then history + Hellos(arrivals[..used]) else history
  }

  lemma SeenStep(history: seq<Hello>, arrivals: seq<Arrival>, used: nat)
    requires arrivals != [] && used < |arrivals|
    ensures var h := if arrivals[0].Complete? then [arrivals[0].hello] else [];
      Seen(history + h, arrivals[1..], used) == Seen(history, arrivals, used + 1)
  {
    assert arrivals[..used + 1][1..] == arrivals[1..][..used];
  }

  /**
   One exchange, any arrivals: it takes the oldest unclaimed hello of its own
   connection, fails exactly when there is none, and everything accepted is
   accounted for.
   */
  lemma {:induction false} ExchangeCorrect(t: Table, history: seq<Hello>, served: seq<nat>, c: nat,
                                           arrivals: seq<Arrival>)
    requires Rep(t, history, served)
    ensures var x := Exchange(t, c, arrivals);
      && x.used <= |arrivals|
      && Rep(x.table, Seen(history, arrivals, x.used), Note(served, c, x.met))
      && Right(x.met, Of(Seen(history, arrivals, x.used), c), Times(served, c))
      && (x.met.None? ==> x.used == |arrivals|)
      && (x.met.None? <==> Times(served, c) == |Of(Seen(history, arrivals, |arrivals|), c)|)
    decreases |arrivals|
  {
    hide Rep, Pop, Push, Of, Times, Right, Seen;
    PopRep(t, history, served, c);
    SeenEnds(history, arrivals);
    if Pop(t, c).0.Some? {
      OfGrows(history, Hellos(arrivals), c);
      ClaimedEarlier(history, served, c, Pop(t, c).0);
    } else if arrivals != [] {
      var h := if arrivals[0].Complete? then [arrivals[0].hello] else [];
      var next := if arrivals[0].Complete? then Push(t, arrivals[0].hello) else t;
      if arrivals[0].Complete? { PushRep(t, history, served, arrivals[0].hello); }
      assert arrivals[0].Cut? ==> history + h == history;
      ExchangeCorrect(next, history + h, served, c, arrivals[1..]);
      SeenStep(history, arrivals, Exchange(next, c, arrivals[1..]).used);
      SeenStep(history, arrivals, |arrivals| - 1);
    }
  }

  lemma ClaimedEarlier(history: seq<Hello>, served: seq<nat>, c: nat, met: Option<Met>)
    requires met.Some? && Right(met, Of(history, c), Times(served, c))
    ensures Times(served, c) < |Of(history, c)|
  {
  }

  lemma SeenEnds(history: seq<Hello>, arrivals: seq<Arrival>)
    ensures Seen(history, arrivals, 0) == history
    ensures Seen(history, arrivals, |arrivals|) == history + Hellos(arrivals)
  {
    assert arrivals[..|arrivals|] == arrivals && arrivals[..0] == [];
  }

  lemma {:induction false} OfGrows(history: seq<Hello>, more: seq<Hello>, c: nat)
    ensures |Of(history + more, c)| >= |Of(history, c)|
    ensures Of(history + more, c)[..|Of(history, c)|] == Of(history, c)
    decreases |more|
  {
    if more == [] {
      assert history + more == history;
    } else {
      var m := |more| - 1;
      assert history + more == history + more[..m] + [more[m]];
      OfGrows(history, more[..m], c);
      OfSnoc(history + more[..m], more[m], c);
    }
  }

  // ---- Distinct connection ids.

  ghost predicate DistinctIds(history: seq<Hello>)
  {
    forall i, j | 0 <= i < j < |history| :: history[i].conn != history[j].conn
  }

  lemma {:induction false} AtMostOne(history: seq<Hello>, c: nat)
    requires DistinctIds(history)
    ensures |Of(history, c)| <= 1
  {
    if history != [] {
      var n := |history| - 1;
      AtMostOne(history[..n], c);
      if |Of(history[..n], c)| == 1 {
        OfMember(history[..n], c, 0);
      }
    }
  }

  /** The sequence of exchanges the server makes, each continuing where the last one stopped. */
  function ServeAll(t: Table, cs: seq<nat>, arrivals: seq<Arrival>): (r: (seq<Option<Met>>, Table, nat))
    ensures |r.0| == |cs| && r.2 <= |arrivals|
    decreases |cs|
  {
    if cs == [] then ([], t, 0)
    else
      var x := Exchange(t, cs[0], arrivals);
      var used := if x.used <= |arrivals| then x.used else |arrivals|;
      var rest := ServeAll(x.table, cs[1..], arrivals[used..]);
      ([x.met] + rest.0, rest.1, used + rest.2)
  }

  /** Connections that were served, in order. */
  function Served(cs: seq<nat>, mets: seq<Option<Met>>): seq<nat>
    requires |cs| == |mets|
  {
    if cs == [] then [] else (if mets[0].Some? then [cs[0]] else []) + Served(cs[1..], mets[1..])
  }

  lemma {:induction false} HellosSplit(a: seq<Arrival>, b: seq<Arrival>)
    ensures Hellos(a + b) == Hellos(a) + Hellos(b)
  {
    if a == [] {
      assert a + b == b;
    } else {
      HellosSplit(a[1..], b);
      assert (a + b)[1..] == a[1..] + b;
    }
  }

  /** Accepting `a` sockets and then `b` more. */
  lemma SeenTwice(history: seq<Hello>, arrivals: seq<Arrival>, a: nat, b: nat)
    requires a + b <= |arrivals|
    ensures Seen(Seen(history, arrivals, a), arrivals[a..], b) == Seen(history, arrivals, a + b)
  {
    assert arrivals[..a + b] == arrivals[..a] + arrivals[a..][..b];
    HellosSplit(arrivals[..a], arrivals[a..][..b]);
  }

  lemma ServedNone(served: seq<nat>, mets: seq<Option<Met>>)
    requires mets == []
    ensures served + Served([], mets) == served
  {
  }

  lemma ServedStep(served: seq<nat>, cs: seq<nat>, met: Option<Met>, rest: seq<Option<Met>>)
    requires cs != [] && |rest| == |cs| - 1
    ensures Note(served, cs[0], met) + Served(cs[1..], rest) == served + Served(cs, [met] + rest)
  {
    assert ([met] + rest)[1..] == rest;
    var tail := Served(cs[1..], rest);
    hide Times, Of;
    if met.Some? {
      assert Served(cs, [met] + rest) == [cs[0]] + tail;
      assert served + [cs[0]] + tail == served + ([cs[0]] + tail);
    } else {
      assert Served(cs, [met] + rest) == [] + tail;
      assert [] + tail == tail;
    }
  }

  lemma {:induction false} ServeRep(t: Table, history: seq<Hello>, served: seq<nat>, cs: seq<nat>,
                                    arrivals: seq<Arrival>)
    requires Rep(t, history, served)
    ensures var r := ServeAll(t, cs, arrivals);
      Rep(r.1, Seen(history, arrivals, r.2), served + Served(cs, r.0))
    decreases |cs|
  {
    hide Rep, Exchange, Seen, Right, Of, Times, Hellos, Note, Served;
    var r := ServeAll(t, cs, arrivals);
    if cs == [] {
      SeenEnds(history, arrivals);
      ServedNone(served, r.0);
    } else {
      ExchangeCorrect(t, history, served, cs[0], arrivals);
      var x := Exchange(t, cs[0], arrivals);
      var done := Note(served, cs[0], x.met);
      ServeRep(x.table, Seen(history, arrivals, x.used), done, cs[1..], arrivals[x.used..]);
      var rest := ServeAll(x.table, cs[1..], arrivals[x.used..]);
      SeenTwice(history, arrivals, x.used, rest.2);
      assert r.0 == [x.met] + rest.0;
      ServedStep(served, cs, x.met, rest.0);
    }
  }

  lemma EmptyRep()
    ensures Rep(Table(map[], map[]), [], [])
  {
  }

  /** The `i`-th exchange hands out a socket whose own hello named that connection, with that hello's address. */
  lemma {:induction false} OwnHello(t: Table, history: seq<Hello>, served: seq<nat>, cs: seq<nat>,
                                    arrivals: seq<Arrival>, i: nat)
    requires Rep(t, history, served) && DistinctIds(history + Hellos(arrivals)) && i < |cs|
    requires ServeAll(t, cs, arrivals).0[i].Some?
    ensures var m := ServeAll(t, cs, arrivals).0[i].value;
      Hello(cs[i], m.fd, m.peer.ip, m.peer.port) in history + Hellos(arrivals)
    decreases |cs|
  {
    hide Rep, Exchange, Seen, Of, Times, Hellos, DistinctIds, Note;
    ExchangeCorrect(t, history, served, cs[0], arrivals);
    var x := Exchange(t, cs[0], arrivals);
    var seen := Seen(history, arrivals, x.used);
    SeenTwice(history, arrivals, x.used, |arrivals| - x.used);
    SeenEnds(history, arrivals);
    SeenEnds(seen, arrivals[x.used..]);
    assert history + Hellos(arrivals) == seen + Hellos(arrivals[x.used..]);
    if i == 0 {
      DistinctPrefix(seen, Hellos(arrivals[x.used..]));
      AtMostOne(seen, cs[0]);
      OfMember(seen, cs[0], 0);
    } else {
      OwnHello(x.table, seen, Note(served, cs[0], x.met), cs[1..], arrivals[x.used..], i - 1);
    }
  }

  lemma DistinctPrefix(a: seq<Hello>, b: seq<Hello>)
    requires DistinctIds(a + b)
    ensures DistinctIds(a)
  {
    assert forall i | 0 <= i < |a| :: (a + b)[i] == a[i];
  }

  /**
   From an empty server, over any arrivals with distinct connection ids and any
   sequence of exchanges: each gets the socket and address of its own hello, and
   every accepted complete hello is queued once or was handed out once.
   */
  lemma Rendezvous(cs: seq<nat>, arrivals: seq<Arrival>)
    requires DistinctIds(Hellos(arrivals))
    ensures var r := ServeAll(Table(map[], map[]), cs, arrivals);
      && (forall i | 0 <= i < |cs| && r.0[i].Some? ::
            Hello(cs[i], r.0[i].value.fd, r.0[i].value.peer.ip, r.0[i].value.peer.port) in Hellos(arrivals))
      && (forall h | h in Hellos(arrivals[..r.2]) ::
            && Times(Served(cs, r.0), h.conn) <= 1
            && Queue(r.1, h.conn) == if Times(Served(cs, r.0), h.conn) == 0 then [h.fd] else [])
  {
    hide Exchange, ServeAll;
    var t := Table(map[], map[]);
    var r := ServeAll(t, cs, arrivals);
    EmptyRep();
    assert [] + Hellos(arrivals) == Hellos(arrivals);
    forall i | 0 <= i < |cs| && r.0[i].Some?
      ensures Hello(cs[i], r.0[i].value.fd, r.0[i].value.peer.ip, r.0[i].value.peer.port) in Hellos(arrivals)
    {
      OwnHello(t, [], [], cs, arrivals, i);
    }
    ServeRep(t, [], [], cs, arrivals);
    var seen := Hellos(arrivals[..r.2]);
    assert Seen([], arrivals, r.2) == seen;
    assert [] + Served(cs, r.0) == Served(cs, r.0);
    assert arrivals == arrivals[..r.2] + arrivals[r.2..];
    HellosSplit(arrivals[..r.2], arrivals[r.2..]);
    DistinctPrefix(seen, Hellos(arrivals[r.2..]));
    forall h | h in seen
      ensures Times(Served(cs, r.0), h.conn) <= 1
      ensures Queue(r.1, h.conn) == if Times(Served(cs, r.0), h.conn) == 0 then [h.fd] else []
    {
      OnlyOne(seen, h);
      assert AccountOk(Queue(r.1, h.conn), PeerOf(r.1, h.conn), Of(seen, h.conn), Times(Served(cs, r.0), h.conn));
    }
  }

  lemma {:induction false} OnlyOne(history: seq<Hello>, h: Hello)
    requires DistinctIds(history) && h in history
    ensures Of(history, h.conn) == [h]
  {
    var n := |history| - 1;
    AtMostOne(history, h.conn);
    if history[n] != h {
      assert h in history[..n];
      OnlyOne(history[..n], h);
    }
  }

  // ---- Repeated connection ids.

  /** The socket and the address both belong to the oldest unclaimed hello. */
  predicate Own(met: Option<Met>, hs: seq<Hello>, n: nat)
  {
    met.Some? ==> n < |hs| && met.value == Met(hs[n].fd, AddressOf(hs[n]))
  }

  /** Every exchange in a row gets its own; `served` was served before. */
  predicate AllOwn(all: seq<Hello>, served: seq<nat>, cs: seq<nat>, mets: seq<Option<Met>>)
    requires |cs| == |mets|
    decreases |cs|
  {
    cs != [] ==>
      && Own(mets[0], Of(all, cs[0]), Times(served, cs[0]))
      && AllOwn(all, Note(served, cs[0], mets[0]), cs[1..], mets[1..])
  }

  /** Hellos with the same connection id carry the same address. */
  ghost predicate Agree(hellos: seq<Hello>)
  {
    forall g, h | g in hellos && h in hellos && g.conn == h.conn :: AddressOf(g) == AddressOf(h)
  }

  lemma AgreeOwns(met: Option<Met>, seen: seq<Hello>, more: seq<Hello>, c: nat, n: nat)
    requires Right(met, Of(seen, c), n) && Agree(seen + more)
    ensures Own(met, Of(seen + more, c), n)
  {
    hide Of;
    OfGrows(seen, more, c);
    if met.Some? {
      var hs := Of(seen, c);
      assert Of(seen + more, c)[n] == hs[n];
      OfMember(seen, c, n);
      OfMember(seen, c, |hs| - 1);
    }
  }

  lemma {:induction false} AgreeIsEnough(t: Table, history: seq<Hello>, served: seq<nat>, cs: seq<nat>,
                                         arrivals: seq<Arrival>)
    requires Rep(t, history, served) && Agree(history + Hellos(arrivals))
    ensures AllOwn(history + Hellos(arrivals), served, cs, ServeAll(t, cs, arrivals).0)
    decreases |cs|
  {
    hide Rep, Exchange, Seen, Right, Own, Of, Times, Hellos, Note, Agree;
    if cs != [] {
      ExchangeCorrect(t, history, served, cs[0], arrivals);
      var x := Exchange(t, cs[0], arrivals);
      var seen := Seen(history, arrivals, x.used);
      var more := Hellos(arrivals[x.used..]);
      SeenTwice(history, arrivals, x.used, |arrivals| - x.used);
      SeenEnds(history, arrivals);
      SeenEnds(seen, arrivals[x.used..]);
      assert history + Hellos(arrivals) == seen + more;
      AgreeOwns(x.met, seen, more, cs[0], Times(served, cs[0]));
      AgreeIsEnough(x.table, seen, Note(served, cs[0], x.met), cs[1..], arrivals[x.used..]);
      var rest := ServeAll(x.table, cs[1..], arrivals[x.used..]);
      assert ServeAll(t, cs, arrivals).0 == [x.met] + rest.0;
    }
  }

  function Repeat(c: nat, m: nat): seq<nat> { if m == 0 then [] else [c] + Repeat(c, m - 1) }

  /** With everything accepted, asking for `c` again and again shows all its hellos the latest address. */
  lemma {:induction false} Drained(t: Table, history: seq<Hello>, served: seq<nat>, c: nat, m: nat, k: nat)
    requires Rep(t, history, served) && Times(served, c) <= k < Times(served, c) + m <= |Of(history, c)|
    requires |Repeat(c, m)| == |ServeAll(t, Repeat(c, m), []).0|
    requires AllOwn(history, served, Repeat(c, m), ServeAll(t, Repeat(c, m), []).0)
    ensures AddressOf(Of(history, c)[k]) == AddressOf(Of(history, c)[|Of(history, c)| - 1])
    decreases m
  {
    hide Rep, Exchange, Of, Times, Hellos, Note;
    SeenEnds(history, []);
    assert Hellos([]) == [] by { NoHellos(); }
    assert history + [] == history;
    ExchangeCorrect(t, history, served, c, []);
    var x := Exchange(t, c, []);
    assert Repeat(c, m)[1..] == Repeat(c, m - 1);
    var rest := ServeAll(x.table, Repeat(c, m - 1), []);
    assert ServeAll(t, Repeat(c, m), []).0 == [x.met] + rest.0;
    if k > Times(served, c) {
      NoteTimes(served, c, x.met);
      Drained(x.table, history, Note(served, c, x.met), c, m - 1, k);
    }
  }

  lemma NoHellos()
    ensures Hellos([]) == []
  {
  }

  lemma NoteTimes(served: seq<nat>, c: nat, met: Option<Met>)
    requires met.Some?
    ensures Times(Note(served, c, met), c) == Times(served, c) + 1
  {
    TimesSnoc(served, c, c);
  }

  /** A connection id that no hello carries. */
  lemma {:induction false} Unused(hellos: seq<Hello>) returns (d: nat)
    ensures forall h | h in hellos :: h.conn < d
  {
    d := 0;
    if hellos != [] {
      var n := |hellos| - 1;
      d := Unused(hellos[..n]);
      if d <= hellos[n].conn { d := hellos[n].conn + 1; }
    }
  }

  lemma OfUnused(hellos: seq<Hello>, d: nat)
    requires forall h | h in hellos :: h.conn < d
    ensures Of(hellos, d) == []
  {
    if Of(hellos, d) != [] { OfMember(hellos, d, 0); }
  }

  lemma {:induction false} OfComplete(hellos: seq<Hello>, h: Hello) returns (k: nat)
    requires h in hellos
    ensures k < |Of(hellos, h.conn)| && Of(hellos, h.conn)[k] == h
  {
    var n := |hellos| - 1;
    if hellos[n] == h {
      k := |Of(hellos, h.conn)| - 1;
    } else {
      k := OfComplete(hellos[..n], h);
    }
  }

  /** Every exchange of every sequence of exchanges gets its own socket and address. */
  ghost predicate AlwaysOwn(arrivals: seq<Arrival>)
  {
    forall cs :: AllOwn(Hellos(arrivals), [], cs, ServeAll(Table(map[], map[]), cs, arrivals).0)
  }

  /** An exchange for an unused id accepts everything and fails. */
  lemma AcceptAll(arrivals: seq<Arrival>) returns (d: nat, t: Table)
    ensures Exchange(Table(map[], map[]), d, arrivals) == Exchanged(None, t, |arrivals|)
    ensures Rep(t, Hellos(arrivals), [])
  {
    hide Exchange, Hellos, Rep, Right, Seen;
    d := Unused(Hellos(arrivals));
    OfUnused(Hellos(arrivals), d);
    EmptyRep();
    SeenEnds([], arrivals);
    assert [] + Hellos(arrivals) == Hellos(arrivals);
    ExchangeCorrect(Table(map[], map[]), [], [], d, arrivals);
    t := Exchange(Table(map[], map[]), d, arrivals).table;
  }

  /** ... and the exchanges after it find all sockets queued. */
  lemma ServeAfter(arrivals: seq<Arrival>, d: nat, t: Table, cs: seq<nat>)
    requires Exchange(Table(map[], map[]), d, arrivals) == Exchanged(None, t, |arrivals|)
    ensures ServeAll(Table(map[], map[]), [d] + cs, arrivals).0 == [None] + ServeAll(t, cs, []).0
  {
    hide Exchange;
    assert ([d] + cs)[1..] == cs && arrivals[|arrivals|..] == [];
  }

  lemma OwnTail(all: seq<Hello>, d: nat, cs: seq<nat>, rest: seq<Option<Met>>)
    requires |cs| == |rest| && AllOwn(all, [], [d] + cs, [None] + rest)
    ensures AllOwn(all, [], cs, rest)
  {
    var none: Option<Met> := None;
    assert ([none] + rest)[1..] == rest && ([d] + cs)[1..] == cs;
  }

  /** Asking then for each hello of `h`'s connection shows that they all carry the latest address. */
  lemma LatestAddress(arrivals: seq<Arrival>, h: Hello)
    requires AlwaysOwn(arrivals) && h in Hellos(arrivals)
    ensures var hs := Of(Hellos(arrivals), h.conn);
      hs != [] && AddressOf(h) == AddressOf(hs[|hs| - 1])
  {
    hide Exchange, Hellos, AllOwn, Repeat, Rep, ServeAll, Of;
    var all := Hellos(arrivals);
    var d, t := AcceptAll(arrivals);
    var k := OfComplete(all, h);
    var cs := Repeat(h.conn, |Of(all, h.conn)|);
    ServeAfter(arrivals, d, t, cs);
    assert AllOwn(all, [], [d] + cs, ServeAll(Table(map[], map[]), [d] + cs, arrivals).0);
    OwnTail(all, d, cs, ServeAll(t, cs, []).0);
    Drained(t, all, [], h.conn, |Of(all, h.conn)|, k);
  }

  /**
   Exactly when addresses are right. From an empty server and for given arrivals,
   every exchange of every sequence of exchanges gets the address of the hello
   whose socket it got, if and only if hellos with the same id agree on it.
   */
  lemma AddressExactly(arrivals: seq<Arrival>)
    ensures AlwaysOwn(arrivals) <==> Agree(Hellos(arrivals))
  {
    hide Hellos, AllOwn, ServeAll, Of;
    var all := Hellos(arrivals);
    assert [] + all == all;
    if Agree(all) {
      EmptyRep();
      forall cs ensures AllOwn(all, [], cs, ServeAll(Table(map[], map[]), cs, arrivals).0) {
        AgreeIsEnough(Table(map[], map[]), [], [], cs, arrivals);
      }
    }
    if AlwaysOwn(arrivals) {
      forall g, h | g in all && h in all && g.conn == h.conn ensures AddressOf(g) == AddressOf(h) {
        LatestAddress(arrivals, g);
        LatestAddress(arrivals, h);
      }
    }
  }

  /** Two sockets of connection 7 and then one of connection 9. */
  function Crossing(): seq<Arrival>
  {
    [Complete(Hello(7, 3, "a", 1)), Complete(Hello(7, 4, "b", 2)), Complete(Hello(9, 5, "c", 3))]
  }

  lemma CrossingFirst(x: Exchanged)
    requires x == Exchange(Table(map[], map[]), 9, Crossing())
    ensures x.met == Some(Met(5, Peer("c", 3))) && x.used == 3
    ensures Queue(x.table, 7) == [3, 4] && PeerOf(x.table, 7) == Peer("b", 2)
  {
    var t0 := Table(map[], map[]);
    var a := Crossing();
    var t1 := Push(t0, a[0].hello);
    var t2 := Push(t1, a[1].hello);
    var t3 := Push(t2, a[2].hello);
    assert Queue(t2, 7) == [3, 4] && Queue(t3, 9) == [5];
    assert a[1..][1..] == a[2..] && a[2..][1..] == a[3..] == [];
    hide Push;
    var y := Exchange(t3, 9, []);
    assert Exchange(t2, 9, a[2..]) == y.(used := y.used + 1);
    assert Exchange(t1, 9, a[1..]) == y.(used := y.used + 2);
  }

  /**
   It does go wrong, with no accept failing: while the server waits for
   connection 9, both sockets of connection 7 are queued, and the first of them
   is then handed out with the second one's address.
   */
  lemma WrongAddress()
    ensures ServeAll(Table(map[], map[]), [9, 7], Crossing()).0
         == [Some(Met(5, Peer("c", 3))), Some(Met(3, Peer("b", 2)))]
  {
    hide Crossing;
    var x := Exchange(Table(map[], map[]), 9, Crossing());
    CrossingFirst(x);
    assert |Crossing()| == 3 by { CrossingSize(); }
    assert Crossing()[3..] == [] && [9, 7][1..] == [7] && [7][1..] == [];
    assert Exchange(x.table, 7, []).met == Some(Met(3, Peer("b", 2)));
    hide Exchange;
    assert ServeAll(x.table, [7], []).0 == [Some(Met(3, Peer("b", 2)))];
  }

  lemma CrossingSize()
    ensures |Crossing()| == 3
  {
  }

  // ---- The tables as the server updates them.

  class Sockets {
    var pending: map<nat, seq<nat>>
    var peers: map<nat, Peer>

    constructor ()
      ensures State() == Table(map[], map[])
    {
      pending, peers := map[], map[];
    }

    ghost function State(): Table reads this { Table(pending, peers) }

    method PushMeta(h: Hello)
      modifies this
      ensures State() == Push(old(State()), h)
    {
      if h.conn !in pending { pending := pending[h.conn := []]; }
      pending := pending[h.conn := pending[h.conn] + [h.fd]];
      peers := peers[h.conn := Peer(h.ip, h.port)];
    }

    method PopMeta(c: nat) returns (met: Option<Met>)
      modifies this`pending
      ensures (met, State()) == Pop(old(State()), c)
    {
      if c !in pending || pending[c] == [] { return None; }
      var fd := pending[c][0];
      pending := pending[c := pending[c][1..]];
      met := Some(Met(fd, if c in peers then peers[c] else Peer("", 0)));
    }

    /** The accept loop of `exchangeMetaData`. */
    method Await(c: nat, arrivals: seq<Arrival>) returns (met: Option<Met>, used: nat)
      modifies this
      ensures Exchanged(met, State(), used) == Exchange(old(State()), c, arrivals)
    {
      used := 0;
      ghost var start := State();
      ghost var before := State();
      met := PopMeta(c);
      while met.None?
        invariant used <= |arrivals|
        invariant (met, State()) == Pop(before, c)
        invariant Exchange(start, c, arrivals)
               == Exchange(before, c, arrivals[used..]).(used := Exchange(before, c, arrivals[used..]).used + used)
        decreases |arrivals| - used
      {
        if used == |arrivals| { return; }
        var a := arrivals[used];
        assert arrivals[used..][0] == a && arrivals[used..][1..] == arrivals[used + 1..];
        used := used + 1;
        if a.Complete? {
          PushMeta(a.hello);
          before := State();
          met := PopMeta(c);
        }
      }
    }
  }
}
