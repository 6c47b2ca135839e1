/**
 The control channel's byte stream: one HELLO naming the sender's rank, then
 messages, each an 8-byte little-endian header (type, flags, payload length) and
 its payload. Every send and receive call may move fewer bytes than asked; how
 many the `i`-th call moves is `cuts(i)`, and 0 is a failed call.
 */
module CtrlStream {
  import opened Common
  import opened Bytes

  const CTRL_STRUCT: nat := 2
  const HELLO_FLAG: nat := 0x8000

  type u16 = x: nat | x < 0x1_0000

  datatype Msg = Msg(kind: u16, flags: u16, payload: seq<byte>)

  // ---- Integers.

  function Put16(x: u16): seq<byte> { [(x % 256) as byte, (x / 256) as byte] }

  function Get16(b: seq<byte>): u16 requires |b| == 2 { b[0] as nat + 256 * b[1] as nat }

  function Put32(x: u32): seq<byte> { Put16(x % 0x1_0000) + Put16(x / 0x1_0000) }

  function Get32(b: seq<byte>): u32 requires |b| == 4 { Get16(b[..2]) + 0x1_0000 * Get16(b[2..]) }

  lemma RoundTrip32(x: u32)
    ensures |Put32(x)| == 4 && Get32(Put32(x)) == x
  {
    assert Put32(x)[..2] == Put16(x % 0x1_0000) && Put32(x)[2..] == Put16(x / 0x1_0000);
  }

  // ---- Headers and frames.

  datatype Header = Header(kind: u16, flags: u16, length: u32)

  function PutHeader(h: Header): (b: seq<byte>)
    ensures |b| == 8
  {
    Put16(h.kind) + Put16(h.flags) + Put32(h.length)
  }

  function GetHeader(b: seq<byte>): Header
    requires |b| == 8
  {
    Header(Get16(b[..2]), Get16(b[2..4]), Get32(b[4..]))
  }

  lemma HeaderRoundTrip(h: Header)
    ensures GetHeader(PutHeader(h)) == h
  {
    var b := PutHeader(h);
    assert b[..2] == Put16(h.kind) && b[2..4] == Put16(h.flags) && b[4..] == Put32(h.length);
    RoundTrip32(h.length);
  }

  /** `flags & kHelloFlag`. */
  predicate HelloFlag(flags: u16) { flags / HELLO_FLAG % 2 == 1 }

  /** The header keeps the low 32 bits of the payload length. */
  function HeaderOf(m: Msg): Header { Header(m.kind, m.flags, |m.payload| % 0x1_0000_0000) }

  function Frame(m: Msg): seq<byte> { PutHeader(HeaderOf(m)) + m.payload }

  function HelloHeader(): Header { Header(CTRL_STRUCT, HELLO_FLAG, 4) }

  function HelloFrame(rank: u32): seq<byte> { PutHeader(HelloHeader()) + Put32(rank) }

  function Frames(msgs: seq<Msg>): seq<byte>
  {
    if msgs == [] then [] else Frame(msgs[0]) + Frames(msgs[1..])
  }

  /** What `recv` refuses after reading the header. */
  predicate Refused(h: Header) { h.kind == CTRL_STRUCT && HelloFlag(h.flags) }

  /** One message off the front of the stream, or nothing when `recv` fails. */
  function Parse(s: seq<byte>): Option<(Msg, seq<byte>)>
  {
    if |s| < 8 then None
    else
      var h := GetHeader(s[..8]);
      if Refused(h) || |s| - 8 < h.length then None
      else Some((Msg(h.kind, h.flags, s[8..8 + h.length]), s[8 + h.length..]))
  }

  function ParseHello(s: seq<byte>): Option<(u32, seq<byte>)>
  {
    if |s| < 12 then None
    else
      var h := GetHeader(s[..8]);
      if h.kind != CTRL_STRUCT || !HelloFlag(h.flags) || h.length != 4 then None
      else Some((Get32(s[8..12]), s[12..]))
  }

  /** `n` messages in a row. */
  function ParseMany(s: seq<byte>, n: nat): Option<(seq<Msg>, seq<byte>)>
  {
    if n == 0 then Some(([], s))
    else
      var first := Parse(s);
      if first.None? then None
      else
        var rest := ParseMany(first.value.1, n - 1);
        if rest.None? then None else Some(([first.value.0] + rest.value.0, rest.value.1))
  }

  // ---- Round trips.

  predicate Sendable(m: Msg) { |m.payload| < 0x1_0000_0000 && !(m.kind == 2 && m.flags >= 0x8000) }

  lemma HelloBit(flags: u16)
    ensures HelloFlag(flags) <==> flags >= 0x8000
  {
  }

  /** Number `x` as four bytes, least first. */
  function LittleEndian(x: u32): seq<byte>
  {
    [(x % 256) as byte, (x / 256 % 256) as byte, (x / 65536 % 256) as byte, (x / 16777216) as byte]
  }

  lemma Put32Is(x: u32)
    ensures Put32(x) == LittleEndian(x)
  {
  }

  /** The bytes on the wire: type, flags and length, least byte first, then the payload. */
  lemma WireFormat(m: Msg, rank: u32)
    ensures Frame(m) == [(m.kind % 256) as byte, (m.kind / 256) as byte]
                        + [(m.flags % 256) as byte, (m.flags / 256) as byte]
                        + LittleEndian(|m.payload| % 0x1_0000_0000) + m.payload
    ensures HelloFrame(rank) == [2, 0, 0, 0x80, 4, 0, 0, 0] + LittleEndian(rank)
  {
    hide LittleEndian, Put32;
    Put32Is(|m.payload| % 0x1_0000_0000);
    Put32Is(rank);
    Put32Is(4);
    assert LittleEndian(4) == [4, 0, 0, 0] by { Four(); }
  }

  lemma Four()
    ensures LittleEndian(4) == [4, 0, 0, 0]
  {
  }

  lemma HeadOf(h: Header, body: seq<byte>)
    ensures |PutHeader(h) + body| == 8 + |body|
    ensures GetHeader((PutHeader(h) + body)[..8]) == h && (PutHeader(h) + body)[8..] == body
  {
    assert (PutHeader(h) + body)[..8] == PutHeader(h);
    HeaderRoundTrip(h);
  }

  /**
   A message is received as it was sent, whatever follows it, exactly when its
   payload is under 2^32 bytes and it does not look like a HELLO.
   */
  lemma FrameExactly(m: Msg, rest: seq<byte>)
    ensures Parse(Frame(m) + rest) == Some((m, rest)) <==> Sendable(m)
  {
    hide PutHeader, GetHeader, HelloFlag;
    HelloBit(m.flags);
    var h := HeaderOf(m);
    var s := Frame(m) + rest;
    var body := m.payload + rest;
    assert s == PutHeader(h) + body;
    HeadOf(h, body);
    assert s[8..8 + h.length] == body[..h.length] by { assert s[8..] == body; }
    assert s[8 + h.length..] == body[h.length..] by { assert s[8..] == body; }
    if |m.payload| <= MAX_U32 {
      assert h.length == |m.payload|;
      assert body[..h.length] == m.payload && body[h.length..] == rest;
    } else {
      assert h.length < |m.payload|;
    }
  }

  lemma HelloRoundTrip(rank: u32, rest: seq<byte>)
    ensures ParseHello(HelloFrame(rank) + rest) == Some((rank, rest))
  {
    hide PutHeader, GetHeader, Put32, Get32;
    var s := HelloFrame(rank) + rest;
    var body := Put32(rank) + rest;
    assert s == PutHeader(HelloHeader()) + body;
    RoundTrip32(rank);
    HeadOf(HelloHeader(), body);
    assert s[8..12] == body[..4] by { assert s[8..] == body; }
    assert body[..4] == Put32(rank);
    assert s[12..] == body[4..] by { assert s[8..] == body; }
    assert body[4..] == rest;
  }

  lemma {:induction false} MessagesRoundTrip(msgs: seq<Msg>, rest: seq<byte>)
    requires forall m | m in msgs :: Sendable(m)
    ensures ParseMany(Frames(msgs) + rest, |msgs|) == Some((msgs, rest))
  {
    hide Frame, Parse, Sendable;
    if msgs == [] {
      assert Frames(msgs) + rest == rest;
    } else {
      var tail := Frames(msgs[1..]) + rest;
      assert Frames(msgs) + rest == Frame(msgs[0]) + tail;
      FrameExactly(msgs[0], tail);
      MessagesRoundTrip(msgs[1..], rest);
      assert msgs == [msgs[0]] + msgs[1..];
    }
  }

  /** An unsendable message is not what comes out first. */
  lemma UnsendableDiffers(m: Msg, rest: seq<byte>)
    requires !Sendable(m)
    ensures Parse(Frame(m) + rest).Some? ==> Parse(Frame(m) + rest).value.0 != m
  {
    hide PutHeader, GetHeader, HelloFlag;
    HelloBit(m.flags);
    var h := HeaderOf(m);
    var body := m.payload + rest;
    assert Frame(m) + rest == PutHeader(h) + body;
    HeadOf(h, body);
    assert |m.payload| > MAX_U32 ==> h.length < |m.payload|;
  }

  lemma {:induction false} MessagesExactly(msgs: seq<Msg>, rest: seq<byte>)
    ensures ParseMany(Frames(msgs) + rest, |msgs|) == Some((msgs, rest)) <==> forall m | m in msgs :: Sendable(m)
  {
    hide Frame, Parse, Sendable;
    if forall m | m in msgs :: Sendable(m) {
      MessagesRoundTrip(msgs, rest);
    } else {
      var tail := Frames(msgs[1..]) + rest;
      assert Frames(msgs) + rest == Frame(msgs[0]) + tail;
      if Sendable(msgs[0]) {
        FrameExactly(msgs[0], tail);
        MessagesExactly(msgs[1..], rest);
        assert msgs == [msgs[0]] + msgs[1..];
      } else {
        UnsendableDiffers(msgs[0], tail);
      }
    }
  }

  /**
   The session decodes to the rank and exactly the messages, in order, whatever
   follows it, if and only if every message is sendable.
   */
  lemma SessionExactly(rank: u32, msgs: seq<Msg>, rest: seq<byte>)
    ensures var s := HelloFrame(rank) + Frames(msgs) + rest;
      && ParseHello(s) == Some((rank, Frames(msgs) + rest))
      && (ParseMany(Frames(msgs) + rest, |msgs|) == Some((msgs, rest)) <==> forall m | m in msgs :: Sendable(m))
  {
    hide ParseHello, ParseMany, HelloFrame, Frames, Sendable;
    assert HelloFrame(rank) + Frames(msgs) + rest == HelloFrame(rank) + (Frames(msgs) + rest);
    HelloRoundTrip(rank, Frames(msgs) + rest);
    MessagesExactly(msgs, rest);
  }

  // ---- A stream that breaks off.

  /** Messages received until the first failure. */
  function Received(s: seq<byte>): seq<Msg>
    decreases |s|
  {
    var p := Parse(s);
    if p.None? || |p.value.1| >= |s| then [] else [p.value.0] + Received(p.value.1)
  }

  lemma ParseShrinks(s: seq<byte>)
    ensures Parse(s).Some? ==> |Parse(s).value.1| < |s|
  {
  }

  /** A frame cut short is never taken for a message. */
  lemma CutFrame(m: Msg, s: seq<byte>)
    requires Sendable(m) && |s| < |Frame(m)| && s == Frame(m)[..|s|]
    ensures Parse(s) == None
  {
    hide PutHeader, GetHeader, HelloFlag;
    HeadOf(HeaderOf(m), m.payload);
    if |s| >= 8 {
      assert s[..8] == Frame(m)[..8];
    }
  }

  /** A stream that breaks off anywhere yields some first messages as they were sent, and nothing else. */
  lemma {:induction false} BrokenStream(msgs: seq<Msg>, s: seq<byte>) returns (k: nat)
    requires (forall m | m in msgs :: Sendable(m)) && |s| <= |Frames(msgs)| && s == Frames(msgs)[..|s|]
    ensures k <= |msgs| && Received(s) == msgs[..k]
  {
    hide Frame, Parse, Sendable;
    ParseEmpty();
    if msgs == [] { return 0; }
    var f := Frame(msgs[0]);
    ParseShrinks(s);
    if |s| < |f| {
      assert s == f[..|s|];
      CutFrame(msgs[0], s);
      return 0;
    }
    var tail := s[|f|..];
    assert s == f + tail;
    FrameExactly(msgs[0], tail);
    assert tail == Frames(msgs[1..])[..|tail|];
    k := BrokenStream(msgs[1..], tail);
    assert msgs[..k + 1] == [msgs[0]] + msgs[1..][..k];
    k := k + 1;
  }

  lemma ParseEmpty()
    ensures Parse([]) == None
  {
  }

  // ---- The socket calls.

  /** One side of a connected socket: bytes it has written, bytes it has still to read. */
  class Socket {
    var outgoing: seq<byte>
    var incoming: seq<byte>

    constructor (bytes: seq<byte>)
      ensures outgoing == [] && incoming == bytes
    {
      outgoing, incoming := [], bytes;
    }

    method SendAll(buf: seq<byte>, cuts: nat -> nat, at: nat) returns (ok: bool, next: nat)
      modifies this`outgoing
      ensures ok ==> outgoing == old(outgoing) + buf
      ensures !ok ==> exists k | 0 <= k < |buf| :: outgoing == old(outgoing) + buf[..k]
      ensures (forall i :: cuts(i) >= 1) ==> ok
    {
      var sent := 0;
      next := at;
      while sent < |buf|
        invariant sent <= |buf| && outgoing == old(outgoing) + buf[..sent]
      {
        var n := Min(cuts(next), |buf| - sent);
        next := next + 1;
        if n == 0 { return false, next; }
        outgoing := outgoing + buf[sent..sent + n];
        assert buf[..sent + n] == buf[..sent] + buf[sent..sent + n];
        sent := sent + n;
      }
      assert buf[..sent] == buf;
      ok := true;
    }

    /** A receive call at the end of the stream fails. */
    method RecvAll(len: nat, cuts: nat -> nat, at: nat) returns (ok: bool, data: seq<byte>, next: nat)
      modifies this`incoming
      ensures ok ==> len <= |old(incoming)| && data == old(incoming)[..len] && incoming == old(incoming)[len..]
      ensures (forall i :: cuts(i) >= 1) && len <= |old(incoming)| ==> ok
    {
      data, next := [], at;
      while |data| < len
        invariant |data| <= len && |data| <= |old(incoming)|
        invariant data == old(incoming)[..|data|] && incoming == old(incoming)[|data|..]
        decreases len - |data|
      {
        var n := Min(cuts(next), Min(len - |data|, |incoming|));
        next := next + 1;
        if n == 0 { return false, data, next; }
        data := data + incoming[..n];
        incoming := incoming[n..];
      }
      ok := true;
    }

    method SendHello(rank: u32, cuts: nat -> nat, at: nat) returns (ok: bool, next: nat)
      modifies this`outgoing
      ensures ok ==> outgoing == old(outgoing) + HelloFrame(rank)
      ensures (forall i :: cuts(i) >= 1) ==> ok
    {
      ok, next := SendAll(PutHeader(HelloHeader()), cuts, at);
      if ok { ok, next := SendAll(Put32(rank), cuts, next); }
    }

    method Send(m: Msg, cuts: nat -> nat, at: nat) returns (ok: bool, next: nat)
      modifies this`outgoing
      ensures ok ==> outgoing == old(outgoing) + Frame(m)
      ensures (forall i :: cuts(i) >= 1) ==> ok
    {
      ok, next := SendAll(PutHeader(HeaderOf(m)), cuts, at);
      if ok && |m.payload| > 0 { ok, next := SendAll(m.payload, cuts, next); }
    }

    method RecvHello(cuts: nat -> nat, at: nat) returns (rank: Option<u32>, next: nat)
      modifies this`incoming
      ensures rank.Some? ==> ParseHello(old(incoming)) == Some((rank.value, incoming))
      ensures (forall i :: cuts(i) >= 1) && rank.None? ==> ParseHello(old(incoming)) == None
    {
      var ok, head, body;
      ok, head, next := RecvAll(8, cuts, at);
      if !ok { return None, next; }
      var h := GetHeader(head);
      if h.kind != CTRL_STRUCT || !HelloFlag(h.flags) || h.length != 4 { return None, next; }
      ok, body, next := RecvAll(4, cuts, next);
      if !ok { return None, next; }
      assert body == old(incoming)[8..12];
      rank := Some(Get32(body));
    }

    method Recv(cuts: nat -> nat, at: nat) returns (m: Option<Msg>, next: nat)
      modifies this`incoming
      ensures m.Some? ==> Parse(old(incoming)) == Some((m.value, incoming))
      ensures (forall i :: cuts(i) >= 1) && m.None? ==> Parse(old(incoming)) == None
    {
      var ok, head, body;
      ok, head, next := RecvAll(8, cuts, at);
      if !ok { return None, next; }
      var h := GetHeader(head);
      if Refused(h) { return None, next; }
      body := [];
      if h.length > 0 {
        ok, body, next := RecvAll(h.length, cuts, next);
        if !ok { return None, next; }
      }
      assert body == old(incoming)[8..8 + h.length];
      m := Some(Msg(h.kind, h.flags, body));
    }
  }

  /** One side dials, introduces itself and sends `msgs`. */
  method SendSession(rank: u32, msgs: seq<Msg>, cuts: nat -> nat) returns (ok: bool, stream: seq<byte>)
    ensures ok ==> stream == HelloFrame(rank) + Frames(msgs)
    ensures (forall i :: cuts(i) >= 1) ==> ok
  {
    hide HelloFrame, Frame, Frames;
    var s := new Socket([]);
    var next;
    ok, next := s.SendHello(rank, cuts, 0);
    var i := 0;
    FramesUpTo(msgs, 0);
    while ok && i < |msgs|
      invariant i <= |msgs| && (ok ==> s.outgoing == HelloFrame(rank) + Frames(msgs[..i]))
      invariant (forall i :: cuts(i) >= 1) ==> ok
      decreases |msgs| - i, ok
    {
      FramesUpTo(msgs, i);
      ok, next := s.Send(msgs[i], cuts, next);
      if ok { i := i + 1; }
    }
    if ok { assert msgs[..i] == msgs; }
    stream := s.outgoing;
  }

  lemma {:induction false} FramesUpTo(msgs: seq<Msg>, i: nat)
    requires i <= |msgs|
    ensures Frames(msgs[..0]) == []
    ensures i < |msgs| ==> Frames(msgs[..i + 1]) == Frames(msgs[..i]) + Frame(msgs[i])
  {
    hide Frame;
    if i < |msgs| && i > 0 {
      FramesUpTo(msgs[1..], i - 1);
      assert msgs[..i + 1][1..] == msgs[1..][..i] && msgs[..i][1..] == msgs[1..][..i - 1];
    } else if i < |msgs| {
      assert msgs[..1][1..] == [];
    }
  }

  /** The other side accepts it and receives `n` messages. */
  method RecvSession(stream: seq<byte>, n: nat, cuts: nat -> nat) returns (rank: Option<u32>, msgs: seq<Msg>)
    ensures |msgs| <= n
    ensures rank.Some? ==>
      && ParseHello(stream).Some? && ParseHello(stream).value.0 == rank.value
      && var p := ParseMany(ParseHello(stream).value.1, |msgs|); p.Some? && p.value.0 == msgs
    ensures (forall i :: cuts(i) >= 1) && ParseHello(stream).Some? && ParseMany(ParseHello(stream).value.1, n).Some? ==>
      rank.Some? && |msgs| == n
  {
    hide ParseHello, Parse;
    var s := new Socket(stream);
    var next, m;
    msgs := [];
    rank, next := s.RecvHello(cuts, 0);
    if rank.None? { return; }
    ghost var body := s.incoming;
    ManyNone(body);
    while |msgs| < n
      invariant |msgs| <= n && ParseMany(body, |msgs|) == Some((msgs, s.incoming))
      decreases n - |msgs|
    {
      m, next := s.Recv(cuts, next);
      if m.None? {
        if forall i :: cuts(i) >= 1 { ManyStops(body, |msgs|, n); }
        return;
      }
      ManySnoc(body, |msgs|);
      msgs := msgs + [m.value];
    }
  }

  lemma ManyNone(s: seq<byte>)
    ensures ParseMany(s, 0) == Some(([], s))
  {
  }

  lemma {:induction false} ManySnoc(s: seq<byte>, n: nat)
    requires ParseMany(s, n).Some? && Parse(ParseMany(s, n).value.1).Some?
    ensures var p := ParseMany(s, n).value; var q := Parse(p.1).value;
      ParseMany(s, n + 1) == Some((p.0 + [q.0], q.1))
    decreases n
  {
    hide Parse;
    if n > 0 {
      var first := Parse(s).value;
      ManySnoc(first.1, n - 1);
      var p := ParseMany(first.1, n - 1).value;
      var q := Parse(p.1).value;
      assert [first.0] + (p.0 + [q.0]) == [first.0] + p.0 + [q.0];
    } else {
      ManyNone(Parse(s).value.1);
      assert [Parse(s).value.0] + [] == [] + [Parse(s).value.0];
    }
  }

  lemma {:induction false} ManyStops(s: seq<byte>, i: nat, n: nat)
    requires i < n && ParseMany(s, i).Some? && Parse(ParseMany(s, i).value.1) == None
    ensures ParseMany(s, n) == None
    decreases i
  {
    hide Parse;
    if i > 0 { ManyStops(Parse(s).value.1, i - 1, n - 1); }
  }

  /**
   End to end: under every fragmentation on either side, a session of sendable
   messages arrives as the rank and exactly those messages.
   */
  method Converse(rank: u32, msgs: seq<Msg>, sendCuts: nat -> nat, recvCuts: nat -> nat)
    returns (got: Option<u32>, received: seq<Msg>)
    requires (forall m | m in msgs :: Sendable(m)) && (forall i :: sendCuts(i) >= 1) && (forall i :: recvCuts(i) >= 1)
    ensures got == Some(rank) && received == msgs
  {
    hide ParseHello, ParseMany, HelloFrame, Frames, Sendable;
    var ok, stream := SendSession(rank, msgs, sendCuts);
    SessionExactly(rank, msgs, []);
    assert HelloFrame(rank) + Frames(msgs) + [] == stream && Frames(msgs) + [] == Frames(msgs);
    got, received := RecvSession(stream, |msgs|, recvCuts);
  }
}
