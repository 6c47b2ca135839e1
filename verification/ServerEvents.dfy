/**
 The server's connection events: which connection each peer's key maps to after
 any trace of CONNECT and DISCONNECTED events. Connections at one key replace
 each other, and disconnects may arrive late, twice or for an unknown cm_id.
 */
module ServerEvents {
  import opened Common

  datatype Key = Key(ip: string, port: nat)

  datatype Bound = Bound(key: Key, conn: nat)

  /** A connect carries the key its set-up and metadata exchange ended with, if they succeeded. */
  datatype Event =
    | Connect(cm: nat, conn: nat, outcome: Option<Key>)
    | Disconnect(cm: nat)

  /**
   `bound` is keyed by cm_id; `peers` gives the connection id of the registered
   endpoint; `closed` lists the endpoints that were destroyed.
   */
  datatype Tables = Tables(bound: map<nat, Bound>, peers: map<Key, nat>, closed: seq<Bound>)

  /** Connection id 0 is rejected; a failed set-up leaves no trace. */
  predicate Establishes(ev: Event) { ev.Connect? && ev.conn != 0 && ev.outcome.Some? }

  function Handle(t: Tables, ev: Event): Tables
  {
    match ev
    case Connect(cm, conn, outcome) =>
      if !Establishes(ev) then t
      else
        var k := outcome.value;
        Tables(t.bound[cm := Bound(k, conn)], t.peers[k := conn],
               if k in t.peers then t.closed + [Bound(k, t.peers[k])] else t.closed)
    case Disconnect(cm) =>
      if cm !in t.bound then t
      else
        var b := t.bound[cm];
        if b.key in t.peers && t.peers[b.key] == b.conn
        then Tables(t.bound - {cm}, t.peers - {b.key}, t.closed + [b])
        else t.(bound := t.bound - {cm})
  }

  function HandleAll(trace: seq<Event>): Tables
  {
    if trace == [] then Tables(map[], map[], [])
    else Handle(HandleAll(trace[..|trace| - 1]), trace[|trace| - 1])
  }

  // ---- What the tables should hold, in terms of the trace alone.

  /** No two established connections share a cm_id. */
  ghost predicate OwnCmIds(trace: seq<Event>)
  {
    forall i, j | 0 <= i < j < |trace| && Establishes(trace[i]) && Establishes(trace[j]) :: trace[i].cm != trace[j].cm
  }

  /** Nor, at one key, a connection id. */
  ghost predicate Distinct(trace: seq<Event>)
  {
    && OwnCmIds(trace)
    && forall i, j | 0 <= i < j < |trace| && Establishes(trace[i]) && Establishes(trace[j]) ::
         trace[i].outcome == trace[j].outcome ==> trace[i].conn != trace[j].conn
  }

  /** Connection `i` was established and its own disconnect has not been handled. */
  ghost predicate Live(trace: seq<Event>, i: int)
  {
    && 0 <= i < |trace| && Establishes(trace[i])
    && forall j | i < j < |trace| :: trace[j] != Disconnect(trace[i].cm)
  }

  /** No later connection was established at the same key. */
  ghost predicate Latest(trace: seq<Event>, i: int)
  {
    && 0 <= i < |trace| && Establishes(trace[i])
    && forall j | i < j < |trace| && Establishes(trace[j]) :: trace[j].outcome != trace[i].outcome
  }

  ghost predicate BoundTo(trace: seq<Event>, cm: nat, b: Bound)
  {
    exists i :: Live(trace, i) && trace[i].cm == cm && Bound(trace[i].outcome.value, trace[i].conn) == b
  }

  ghost predicate PeerIs(trace: seq<Event>, k: Key, conn: nat)
  {
    exists i :: Live(trace, i) && Latest(trace, i) && trace[i].outcome == Some(k) && trace[i].conn == conn
  }

  ghost predicate BoundOk(trace: seq<Event>, t: Tables)
  {
    forall cm, b :: (cm in t.bound && t.bound[cm] == b) <==> BoundTo(trace, cm, b)
  }

  ghost predicate PeersOk(trace: seq<Event>, t: Tables)
  {
    forall k, conn :: (k in t.peers && t.peers[k] == conn) <==> PeerIs(trace, k, conn)
  }

  // ---- One more event.

  lemma LiveSnoc(trace: seq<Event>, ev: Event, i: nat)
    ensures i < |trace| ==> (Live(trace + [ev], i) <==> Live(trace, i) && ev != Disconnect(trace[i].cm))
    ensures i == |trace| ==> (Live(trace + [ev], i) <==> Establishes(ev))
    ensures i > |trace| ==> !Live(trace + [ev], i)
  {
    var n := trace + [ev];
    assert forall j | 0 <= j < |trace| :: n[j] == trace[j];
    assert n[|trace|] == ev;
  }

  lemma LatestSnoc(trace: seq<Event>, ev: Event, i: nat)
    ensures i < |trace| ==>
      (Latest(trace + [ev], i) <==> Latest(trace, i) && !(Establishes(ev) && ev.outcome == trace[i].outcome))
    ensures i == |trace| ==> (Latest(trace + [ev], i) <==> Establishes(ev))
  {
    var n := trace + [ev];
    assert forall j | 0 <= j < |trace| :: n[j] == trace[j];
    assert n[|trace|] == ev;
  }

  lemma BoundSnoc(trace: seq<Event>, ev: Event, cm: nat, b: Bound)
    ensures BoundTo(trace + [ev], cm, b) <==>
      || (BoundTo(trace, cm, b) && ev != Disconnect(cm))
      || (Establishes(ev) && ev.cm == cm && b == Bound(ev.outcome.value, ev.conn))
  {
    var n := trace + [ev];
    if BoundTo(n, cm, b) {
      var i :| Live(n, i) && n[i].cm == cm && Bound(n[i].outcome.value, n[i].conn) == b;
      LiveSnoc(trace, ev, i);
      if i < |trace| { assert n[i] == trace[i]; assert BoundTo(trace, cm, b); }
    }
    if BoundTo(trace, cm, b) && ev != Disconnect(cm) {
      var i :| Live(trace, i) && trace[i].cm == cm && Bound(trace[i].outcome.value, trace[i].conn) == b;
      LiveSnoc(trace, ev, i);
      assert n[i] == trace[i] && Live(n, i);
    }
    if Establishes(ev) && ev.cm == cm && b == Bound(ev.outcome.value, ev.conn) {
      LiveSnoc(trace, ev, |trace|);
      assert n[|trace|] == ev && Live(n, |trace|);
    }
  }

  /** An established connection is not yet bound: its cm_id is its own. */
  lemma UnboundBefore(trace: seq<Event>, ev: Event, b: Bound)
    requires OwnCmIds(trace + [ev]) && Establishes(ev)
    ensures !BoundTo(trace, ev.cm, b)
  {
    var n := trace + [ev];
    forall i | Live(trace, i) ensures trace[i].cm != ev.cm {
      assert n[i] == trace[i] && n[|trace|] == ev;
    }
  }

  lemma PeerSnoc(trace: seq<Event>, ev: Event, k: Key, conn: nat)
    ensures PeerIs(trace + [ev], k, conn) <==>
      || (Establishes(ev) && ev.outcome == Some(k) && ev.conn == conn)
      || (!(Establishes(ev) && ev.outcome == Some(k)) && Stays(trace, ev, k, conn))
  {
    var n := trace + [ev];
    if PeerIs(n, k, conn) {
      var i :| Live(n, i) && Latest(n, i) && n[i].outcome == Some(k) && n[i].conn == conn;
      LiveSnoc(trace, ev, i);
      LatestSnoc(trace, ev, i);
      if i < |trace| { assert n[i] == trace[i]; assert StaysAt(trace, ev, k, conn, i); }
    }
    if Establishes(ev) && ev.outcome == Some(k) && ev.conn == conn {
      LiveSnoc(trace, ev, |trace|);
      LatestSnoc(trace, ev, |trace|);
      assert n[|trace|] == ev && Live(n, |trace|);
    } else if !(Establishes(ev) && ev.outcome == Some(k)) && Stays(trace, ev, k, conn) {
      var i :| StaysAt(trace, ev, k, conn, i);
      LiveSnoc(trace, ev, i);
      LatestSnoc(trace, ev, i);
      assert n[i] == trace[i] && Live(n, i);
    }
  }

  ghost predicate StaysAt(trace: seq<Event>, ev: Event, k: Key, conn: nat, i: int)
  {
    && Live(trace, i) && Latest(trace, i) && trace[i].outcome == Some(k) && trace[i].conn == conn
    && ev != Disconnect(trace[i].cm)
  }

  /** The connection at `k` is `conn`, and `ev` is not its own disconnect. */
  ghost predicate Stays(trace: seq<Event>, ev: Event, k: Key, conn: nat)
  {
    exists i :: StaysAt(trace, ev, k, conn, i)
  }

  /** Another live connection is the current one at `b`'s key and has `b`'s connection id. */
  ghost predicate Clash(trace: seq<Event>, cm: nat, b: Bound)
  {
    exists j :: ClashAt(trace, cm, b, j)
  }

  ghost predicate ClashAt(trace: seq<Event>, cm: nat, b: Bound, j: int)
  {
    && Live(trace, j) && Latest(trace, j) && trace[j].cm != cm
    && trace[j].outcome == Some(b.key) && trace[j].conn == b.conn
  }

  lemma DistinctNeverClashes(trace: seq<Event>, cm: nat, b: Bound)
    requires Distinct(trace) && BoundTo(trace, cm, b)
    ensures !Clash(trace, cm, b)
  {
    var i :| Live(trace, i) && trace[i].cm == cm && Bound(trace[i].outcome.value, trace[i].conn) == b;
    forall j ensures !ClashAt(trace, cm, b, j) {
    }
  }

  /** Without a clash, a disconnect ends the connection at `k` exactly when key and id match. */
  lemma StaleOrOwn(trace: seq<Event>, cm: nat, b: Bound, k: Key, conn: nat)
    requires OwnCmIds(trace) && BoundTo(trace, cm, b) && !Clash(trace, cm, b)
    ensures Stays(trace, Disconnect(cm), k, conn) <==> PeerIs(trace, k, conn) && !(k == b.key && conn == b.conn)
  {
    var i :| Live(trace, i) && trace[i].cm == cm && Bound(trace[i].outcome.value, trace[i].conn) == b;
    if PeerIs(trace, k, conn) {
      var j :| Live(trace, j) && Latest(trace, j) && trace[j].outcome == Some(k) && trace[j].conn == conn;
      assert !ClashAt(trace, cm, b, j);
      if !(k == b.key && conn == b.conn) {
        assert trace[j].cm == cm ==> i == j;
        assert StaysAt(trace, Disconnect(cm), k, conn, j);
      }
    }
    if Stays(trace, Disconnect(cm), k, conn) {
      var j :| StaysAt(trace, Disconnect(cm), k, conn, j);
      assert !ClashAt(trace, cm, b, j);
    }
  }

  /** With a clash, a disconnect of the older connection takes the newer one out. */
  lemma ClashStays(trace: seq<Event>, cm: nat, b: Bound)
    requires Clash(trace, cm, b)
    ensures PeerIs(trace, b.key, b.conn) && PeerIs(trace + [Disconnect(cm)], b.key, b.conn)
  {
    var j :| ClashAt(trace, cm, b, j);
    assert StaysAt(trace, Disconnect(cm), b.key, b.conn, j);
    PeerSnoc(trace, Disconnect(cm), b.key, b.conn);
  }

  /**
   Exactly when a disconnect keeps the registry right: the handler compares
   connection ids only, so it fails if and only if the ids clash.
   */
  lemma DisconnectExactly(trace: seq<Event>, t: Tables, cm: nat)
    requires OwnCmIds(trace) && BoundOk(trace, t) && PeersOk(trace, t) && cm in t.bound
    ensures PeersOk(trace + [Disconnect(cm)], Handle(t, Disconnect(cm))) <==> !Clash(trace, cm, t.bound[cm])
  {
    hide BoundTo, PeerIs, Stays, OwnCmIds, Clash;
    var b := t.bound[cm];
    var n := Handle(t, Disconnect(cm));
    assert BoundTo(trace, cm, b);
    if Clash(trace, cm, b) {
      ClashStays(trace, cm, b);
      assert b.key !in n.peers;
    } else {
      forall k, conn ensures (k in n.peers && n.peers[k] == conn) <==> PeerIs(trace + [Disconnect(cm)], k, conn) {
        PeerSnoc(trace, Disconnect(cm), k, conn);
        StaleOrOwn(trace, cm, b, k, conn);
      }
    }
  }

  /** A disconnect for a cm_id that is not bound touches nobody. */
  lemma UnknownDisconnect(trace: seq<Event>, ev: Event, k: Key, conn: nat)
    requires ev.Disconnect? ==> forall b :: !BoundTo(trace, ev.cm, b)
    ensures Stays(trace, ev, k, conn) <==> PeerIs(trace, k, conn)
  {
    if PeerIs(trace, k, conn) {
      var j :| Live(trace, j) && Latest(trace, j) && trace[j].outcome == Some(k) && trace[j].conn == conn;
      assert BoundTo(trace, trace[j].cm, Bound(trace[j].outcome.value, trace[j].conn));
      assert StaysAt(trace, ev, k, conn, j);
    }
  }

  lemma BoundStep(trace: seq<Event>, t: Tables, ev: Event)
    requires OwnCmIds(trace + [ev]) && BoundOk(trace, t)
    ensures BoundOk(trace + [ev], Handle(t, ev))
  {
    hide BoundTo, OwnCmIds;
    var n := Handle(t, ev);
    forall cm, b ensures (cm in n.bound && n.bound[cm] == b) <==> BoundTo(trace + [ev], cm, b) {
      BoundSnoc(trace, ev, cm, b);
      if Establishes(ev) { UnboundBefore(trace, ev, b); }
    }
  }

  lemma PeersStep(trace: seq<Event>, t: Tables, ev: Event)
    requires Distinct(trace + [ev]) && Distinct(trace) && BoundOk(trace, t) && PeersOk(trace, t)
    ensures PeersOk(trace + [ev], Handle(t, ev))
  {
    hide BoundTo, PeerIs, Stays, OwnCmIds, Clash;
    if ev.Disconnect? && ev.cm in t.bound {
      assert BoundTo(trace, ev.cm, t.bound[ev.cm]);
      DistinctNeverClashes(trace, ev.cm, t.bound[ev.cm]);
      DisconnectExactly(trace, t, ev.cm);
    } else {
      var n := Handle(t, ev);
      forall k, conn ensures (k in n.peers && n.peers[k] == conn) <==> PeerIs(trace + [ev], k, conn) {
        PeerSnoc(trace, ev, k, conn);
        UnknownDisconnect(trace, ev, k, conn);
      }
    }
  }

  /**
   After every trace, the registry holds at each key exactly the most recently
   established connection for that key, unless its own disconnect was handled.
   */
  lemma {:induction false} StaleDisconnectsHarmless(trace: seq<Event>)
    requires Distinct(trace)
    ensures PeersOk(trace, HandleAll(trace)) && BoundOk(trace, HandleAll(trace))
  {
    hide Handle;
    if trace != [] {
      var n := |trace| - 1;
      assert trace == trace[..n] + [trace[n]];
      StaleDisconnectsHarmless(trace[..n]);
      BoundStep(trace[..n], HandleAll(trace[..n]), trace[n]);
      PeersStep(trace[..n], HandleAll(trace[..n]), trace[n]);
    }
  }

  // ---- Over all traces.

  lemma {:induction false} BoundAlways(trace: seq<Event>)
    requires OwnCmIds(trace)
    ensures BoundOk(trace, HandleAll(trace))
  {
    hide Handle;
    if trace != [] {
      var n := |trace| - 1;
      assert trace == trace[..n] + [trace[n]];
      BoundAlways(trace[..n]);
      BoundStep(trace[..n], HandleAll(trace[..n]), trace[n]);
    }
  }

  /** The connects of a trace that succeed, in order. */
  function Established(trace: seq<Event>): seq<Event>
  {
    if trace == [] then []
    else
      var last := trace[|trace| - 1];
      Established(trace[..|trace| - 1]) + (if Establishes(last) then [last] else [])
  }

  /** Where connect `i` of a trace is among the established ones. */
  lemma {:induction false} Position(trace: seq<Event>, i: nat) returns (p: nat)
    requires i < |trace| && Establishes(trace[i])
    ensures p == |Established(trace[..i])| < |Established(trace)| && Established(trace)[p] == trace[i]
    decreases |trace|
  {
    var n := |trace| - 1;
    if i == n {
      p := |Established(trace[..n])|;
    } else {
      p := Position(trace[..n], i);
      assert trace[..n][..i] == trace[..i];
    }
  }

  lemma {:induction false} LaterPosition(trace: seq<Event>, i: nat, j: nat)
    requires i < j <= |trace| && Establishes(trace[i])
    ensures |Established(trace[..i])| < |Established(trace[..j])|
    decreases j
  {
    assert trace[..j][..j - 1] == trace[..j - 1] && trace[..j][j - 1] == trace[j - 1];
    if i < j - 1 { LaterPosition(trace, i, j - 1); }
  }

  /** A trace whose connects are among distinct ones is itself distinct. */
  lemma DistinctTrace(trace: seq<Event>, cs: seq<Event>, k: nat)
    requires Distinct(cs) && (forall i | 0 <= i < |cs| :: Establishes(cs[i]))
    requires k <= |cs| && Established(trace) == cs[..k]
    ensures Distinct(trace)
  {
    hide Established;
    forall i, j | 0 <= i < j < |trace| && Establishes(trace[i]) && Establishes(trace[j])
      ensures trace[i].cm != trace[j].cm
      ensures trace[i].outcome == trace[j].outcome ==> trace[i].conn != trace[j].conn
    {
      var p := Position(trace, i);
      var q := Position(trace, j);
      LaterPosition(trace, i, j);
      assert cs[p] == trace[i] && cs[q] == trace[j];
    }
  }

  lemma {:induction false} EstablishedSame(cs: seq<Event>)
    requires forall i | 0 <= i < |cs| :: Establishes(cs[i])
    ensures Established(cs) == cs
  {
    if cs != [] {
      EstablishedSame(cs[..|cs| - 1]);
    }
  }

  /** Every trace that makes these connections, in this order, is handled right. */
  ghost predicate AlwaysRight(cs: seq<Event>)
  {
    forall trace, k | 0 <= k <= |cs| && Established(trace) == cs[..k] :: PeersOk(trace, HandleAll(trace))
  }

  /** Two connections at one key with one id: a late disconnect of the first takes the second. */
  lemma SharedIdLosesPeer(cs: seq<Event>, i: nat, j: nat)
    requires OwnCmIds(cs) && (forall i | 0 <= i < |cs| :: Establishes(cs[i])) && i < j < |cs|
    requires Establishes(cs[i]) && Establishes(cs[j])
    requires cs[i].outcome == cs[j].outcome && cs[i].conn == cs[j].conn
    ensures !AlwaysRight(cs)
  {
    hide Handle, Established, PeersOk, BoundOk, Clash, BoundTo;
    var before := cs[..j + 1];
    var late := Disconnect(cs[i].cm);
    var trace := before + [late];
    EstablishedSame(before);
    EstablishedSnoc(before, late);
    assert trace[..|before|] == before && trace[|before|] == late;
    var t := HandleAll(before);
    if PeersOk(before, t) {
      BoundAlways(before);
      var b := Bound(cs[i].outcome.value, cs[i].conn);
      BoundSoon(before, i);
      assert BoundTo(before, cs[i].cm, b);
      BoundIn(before, t, cs[i].cm, b);
      ClashSoon(before, i, j);
      DisconnectExactly(before, t, cs[i].cm);
      assert HandleAll(trace) == Handle(t, late);
      assert !PeersOk(trace, HandleAll(trace));
    }
    assert cs[..j + 1] == Established(before) == Established(trace);
  }

  lemma EstablishedSnoc(trace: seq<Event>, ev: Event)
    requires !Establishes(ev)
    ensures Established(trace + [ev]) == Established(trace)
  {
    assert (trace + [ev])[..|trace|] == trace;
  }

  lemma BoundSoon(trace: seq<Event>, i: nat)
    requires (forall k | 0 <= k < |trace| :: Establishes(trace[k])) && i < |trace| && Establishes(trace[i])
    ensures BoundTo(trace, trace[i].cm, Bound(trace[i].outcome.value, trace[i].conn))
  {
    assert Live(trace, i);
  }

  lemma BoundIn(trace: seq<Event>, t: Tables, cm: nat, b: Bound)
    requires BoundOk(trace, t) && BoundTo(trace, cm, b)
    ensures cm in t.bound && t.bound[cm] == b
  {
  }

  lemma ClashSoon(trace: seq<Event>, i: nat, j: nat)
    requires (forall k | 0 <= k < |trace| :: Establishes(trace[k])) && OwnCmIds(trace) && i < j == |trace| - 1
    requires Establishes(trace[i]) && Establishes(trace[j])
    requires trace[i].outcome == trace[j].outcome && trace[i].conn == trace[j].conn
    ensures Clash(trace, trace[i].cm, Bound(trace[i].outcome.value, trace[i].conn))
  {
    assert ClashAt(trace, trace[i].cm, Bound(trace[i].outcome.value, trace[i].conn), j);
  }

  /**
   Exactly when disconnects are harmless: for connections with their own cm_ids,
   every trace that makes them, with disconnects of any kind in between, leaves
   the registry right if and only if connections at one key have different ids.
   */
  lemma HarmlessExactly(cs: seq<Event>)
    requires OwnCmIds(cs) && forall i | 0 <= i < |cs| :: Establishes(cs[i])
    ensures AlwaysRight(cs) <==> Distinct(cs)
  {
    if Distinct(cs) {
      forall trace, k | 0 <= k <= |cs| && Established(trace) == cs[..k] ensures PeersOk(trace, HandleAll(trace)) {
        DistinctTrace(trace, cs, k);
        StaleDisconnectsHarmless(trace);
      }
    } else {
      var i, j :| 0 <= i < j < |cs| && Establishes(cs[i]) && Establishes(cs[j])
        && cs[i].outcome == cs[j].outcome && cs[i].conn == cs[j].conn;
      SharedIdLosesPeer(cs, i, j);
    }
  }

  /** It does happen: with a connection id used twice, a late disconnect takes the newer connection. */
  lemma ReusedIdLosesPeer(k: Key)
    ensures var trace := [Connect(1, 5, Some(k)), Connect(2, 5, Some(k)), Disconnect(1)];
      Live(trace, 1) && Latest(trace, 1) && k !in HandleAll(trace).peers
  {
    var trace := [Connect(1, 5, Some(k)), Connect(2, 5, Some(k)), Disconnect(1)];
    assert trace[..2] == [Connect(1, 5, Some(k)), Connect(2, 5, Some(k))];
    assert trace[..2][..1] == [Connect(1, 5, Some(k))];
    assert trace[..2][..1][..0] == [];
    assert HandleAll(trace[..2][..1]) == Tables(map[1 := Bound(k, 5)], map[k := 5], []);
    assert HandleAll(trace[..2]).bound[1] == Bound(k, 5);
  }

  // ---- Nothing leaks.

  /** Connection `b` was established. */
  ghost predicate Made(trace: seq<Event>, b: Bound)
  {
    exists i :: MadeAt(trace, i, b)
  }

  predicate MadeAt(trace: seq<Event>, i: int, b: Bound)
  {
    0 <= i < |trace| && Establishes(trace[i]) && trace[i].outcome == Some(b.key) && trace[i].conn == b.conn
  }

  lemma MadeSnoc(trace: seq<Event>, ev: Event, b: Bound)
    ensures Made(trace + [ev], b) <==> Made(trace, b) || MadeAt([ev], 0, b)
  {
    var n := trace + [ev];
    if Made(n, b) {
      var i :| MadeAt(n, i, b);
      if i < |trace| { assert MadeAt(trace, i, b); }
    }
    if Made(trace, b) {
      var i :| MadeAt(trace, i, b);
      assert MadeAt(n, i, b);
    }
    if MadeAt([ev], 0, b) { assert MadeAt(n, |trace|, b); }
  }

  lemma NewOnce(trace: seq<Event>, ev: Event, b: Bound)
    requires Distinct(trace + [ev]) && MadeAt([ev], 0, b)
    ensures !Made(trace, b)
  {
    var n := trace + [ev];
    forall i ensures !MadeAt(trace, i, b) {
      if 0 <= i < |trace| { assert n[i] == trace[i] && n[|trace|] == ev; }
    }
  }

  predicate Registered(t: Tables, b: Bound) { b.key in t.peers && t.peers[b.key] == b.conn }

  /** Registered or destroyed, exactly once, if it was established; neither otherwise. */
  ghost predicate Accounted(trace: seq<Event>, t: Tables, b: Bound)
  {
    multiset(t.closed)[b] + (if Registered(t, b) then 1 else 0) == if Made(trace, b) then 1 else 0
  }

  lemma CountSnoc(closed: seq<Bound>, c: Bound, b: Bound)
    ensures multiset(closed + [c])[b] == multiset(closed)[b] + (if c == b then 1 else 0)
  {
  }

  lemma AccountConnect(trace: seq<Event>, t: Tables, ev: Event, b: Bound)
    requires Distinct(trace + [ev]) && Establishes(ev) && Accounted(trace, t, b)
    requires Accounted(trace, t, Bound(ev.outcome.value, ev.conn))
    ensures Accounted(trace + [ev], Handle(t, ev), b)
  {
    hide Made, Distinct;
    MadeSnoc(trace, ev, b);
    var k := ev.outcome.value;
    NewOnce(trace, ev, Bound(k, ev.conn));
    if k in t.peers { CountSnoc(t.closed, Bound(k, t.peers[k]), b); }
    hide Establishes;
  }

  lemma AccountOther(trace: seq<Event>, t: Tables, ev: Event, b: Bound)
    requires !Establishes(ev) && Accounted(trace, t, b)
    ensures Accounted(trace + [ev], Handle(t, ev), b)
  {
    hide Made;
    MadeSnoc(trace, ev, b);
    if ev.Disconnect? && ev.cm in t.bound { CountSnoc(t.closed, t.bound[ev.cm], b); }
  }

  lemma AccountStep(trace: seq<Event>, t: Tables, ev: Event, b: Bound)
    requires Distinct(trace + [ev]) && forall c :: Accounted(trace, t, c)
    ensures Accounted(trace + [ev], Handle(t, ev), b)
  {
    hide Accounted, Distinct, Handle;
    assert Accounted(trace, t, b);
    if Establishes(ev) {
      assert Accounted(trace, t, Bound(ev.outcome.value, ev.conn));
      AccountConnect(trace, t, ev, b);
    } else {
      AccountOther(trace, t, ev, b);
    }
  }

  /** Over every trace, each established connection is registered or was destroyed, exactly once. */
  lemma {:induction false} AllAccounted(trace: seq<Event>, b: Bound)
    requires Distinct(trace)
    ensures Accounted(trace, HandleAll(trace), b)
    decreases |trace|
  {
    hide Handle;
    if trace != [] {
      var n := |trace| - 1;
      assert trace == trace[..n] + [trace[n]];
      forall c ensures Accounted(trace[..n], HandleAll(trace[..n]), c) {
        AllAccounted(trace[..n], c);
      }
      AccountStep(trace[..n], HandleAll(trace[..n]), trace[n], b);
    }
  }

  // ---- The event loop.

  class Server {
    var bound: map<nat, Bound>
    var peers: map<Key, nat>
    var closed: seq<Bound>

    constructor ()
      ensures State() == HandleAll([])
    {
      bound, peers, closed := map[], map[], [];
    }

    ghost function State(): Tables reads this { Tables(bound, peers, closed) }

    /** `takeBind_`. */
    method TakeBind(cm: nat) returns (b: Option<Bound>)
      modifies this`bound
      ensures bound == old(bound) - {cm}
      ensures b == if cm in old(bound) then Some(old(bound)[cm]) else None
    {
      if cm !in bound {
        b := None;
      } else {
        b := Some(bound[cm]);
      }
      bound := bound - {cm};
    }

    /** `_removeEndpoint`. */
    method Remove(key: Key)
      modifies this`peers, this`closed
      ensures peers == old(peers) - {key}
      ensures closed == if key in old(peers) then old(closed) + [Bound(key, old(peers)[key])] else old(closed)
    {
      if key in peers {
        closed := closed + [Bound(key, peers[key])];
      }
      peers := peers - {key};
    }

    /** `_removeEndpointIfMatch`. */
    method RemoveIfMatch(key: Key, expected: nat)
      modifies this`peers, this`closed
      ensures key in old(peers) && old(peers)[key] == expected ==>
        peers == old(peers) - {key} && closed == old(closed) + [Bound(key, expected)]
      ensures !(key in old(peers) && old(peers)[key] == expected) ==> peers == old(peers) && closed == old(closed)
    {
      if key in peers && peers[key] == expected {
        peers := peers - {key};
        closed := closed + [Bound(key, expected)];
      }
    }

    method OnEvent(ev: Event)
      modifies this
      ensures State() == Handle(old(State()), ev)
    {
      match ev
      case Connect(cm, conn, outcome) =>
        if conn == 0 || outcome.None? { return; }
        bound := bound[cm := Bound(outcome.value, conn)];
        Remove(outcome.value);
        peers := peers[outcome.value := conn];
        assert peers == old(peers)[outcome.value := conn];
      case Disconnect(cm) =>
        var b := TakeBind(cm);
        if b.None? {
          assert bound == old(bound);
          return;
        }
        RemoveIfMatch(b.value.key, b.value.conn);
    }

    /** The main loop over whatever events arrive, with what it guarantees at the end. */
    method Listen(trace: seq<Event>)
      requires State() == HandleAll([])
      modifies this
      ensures State() == HandleAll(trace)
      ensures Distinct(trace) ==> PeersOk(trace, State())
    {
      var i := 0;
      while i < |trace|
        invariant i <= |trace| && State() == HandleAll(trace[..i])
      {
        OnEvent(trace[i]);
        assert trace[..i + 1][..i] == trace[..i] && trace[..i + 1][i] == trace[i];
        i := i + 1;
      }
      assert trace[..i] == trace;
      if Distinct(trace) { StaleDisconnectsHarmless(trace); }
    }
  }
}
