/** Messages on a socket: a two-byte length in network order, then the packed message. Writes and reads may transfer
    any part of what was asked for. */
module Framing {
  import opened CStrings
  import opened Options

  // ---------- The format ----------

  /** htons of a length: what does not fit in 16 bits is lost. */
  function Header(len: nat): (h: Bytes)
    ensures |h| == 2
  {
    [len / 256 % 256, len % 256]
  }

  /** ntohs */
  function LengthIn(high: int, low: int): int {
    high * 256 + low
  }

  function Frame(body: Bytes): Bytes {
    Header(|body|) + body
  }

  function Frames(bodies: seq<Bytes>): Bytes {
    if bodies == [] then [] else Frame(bodies[0]) + Frames(bodies[1..])
  }

  datatype Received = Received(body: Option<Bytes>, rest: Bytes)

  /** What a receiver makes of the bytes that arrive before the end of the stream; None stands for NULL. */
  function Receive(s: Bytes): (r: Received)
    ensures r.body.Some? ==> |s| == 2 + |r.body.value| + |r.rest|
  {
    if |s| < 2 then Received(None, [])
    else
      var len := LengthIn(s[0], s[1]);
      if |s| < 2 + len then Received(None, []) else Received(Some(s[2..2 + len]), s[2 + len..])
  }

  /** The messages received until the first NULL. */
  function Drain(s: Bytes): seq<Bytes>
    decreases |s|
  {
    var r := Receive(s);
    if r.body.None? then [] else [r.body.value] + Drain(r.rest)
  }

  // ---------- What arrives ----------

  lemma HeaderLength(len: nat)
    ensures LengthIn(Header(len)[0], Header(len)[1]) == len % 65536
  {
  }

  /** The bytes of a frame: the length, high byte first, of which 16 bits are kept, and the message. */
  lemma FrameLayout(body: Bytes)
    ensures |Frame(body)| == 2 + |body| && Frame(body)[2..] == body
    ensures var high: int, low: int := Frame(body)[0], Frame(body)[1]; high * 256 + low == |body| % 65536
  {
    HeaderLength(|body|);
  }

  lemma FrameSlices(h: Bytes, body: Bytes, rest: Bytes, s: Bytes, len: nat)
    requires |h| == 2 && s == h + body + rest && len <= |body|
    ensures s[0] == h[0] && s[1] == h[1]
    ensures s[2..2 + len] == body[..len] && s[2 + len..] == body[len..] + rest
  {
  }

  lemma ReceiveFrame(body: Bytes, rest: Bytes, s: Bytes)
    requires s == Frame(body) + rest
    ensures var len := |body| % 65536;
            Receive(s) == Received(Some(body[..len]), body[len..] + rest)
  {
    HeaderLength(|body|);
    FrameSlices(Header(|body|), body, rest, s, |body| % 65536);
  }

  /** A message arrives as it was sent, whatever follows it, exactly if its length fits in 16 bits. */
  lemma FrameRoundTripIff(body: Bytes, rest: Bytes)
    ensures Receive(Frame(body) + rest) == Received(Some(body), rest) <==> |body| <= 65535
  {
    var len := |body| % 65536;
    ReceiveFrame(body, rest, Frame(body) + rest);
    if |body| <= 65535 {
      assert body[..len] == body && body[len..] + rest == rest;
    } else {
      assert |body[..len]| != |body|;
    }
  }

  predicate AllFit(bodies: seq<Bytes>) {
    forall i :: 0 <= i < |bodies| ==> |bodies[i]| <= 65535
  }

  /** A stream of messages is recovered exactly, in order and with nothing left over, if and only if all fit. */
  lemma {:induction false} StreamRecoveredIff(bodies: seq<Bytes>)
    ensures Drain(Frames(bodies)) == bodies <==> AllFit(bodies)
  {
    if bodies != [] {
      var rest := Frames(bodies[1..]);
      FrameRoundTripIff(bodies[0], rest);
      StreamRecoveredIff(bodies[1..]);
      assert AllFit(bodies) <==> |bodies[0]| <= 65535 && AllFit(bodies[1..]);
      if |bodies[0]| <= 65535 {
        assert Drain(Frames(bodies)) == [bodies[0]] + Drain(rest);
        assert bodies == [bodies[0]] + bodies[1..];
      } else {
        ReceiveFrame(bodies[0], rest, Frames(bodies));
        assert |Drain(Frames(bodies))[0]| < |bodies[0]|;
      }
    }
  }

  /** What a cut stream still contains: the messages that are there as a whole. */
  function Complete(bodies: seq<Bytes>, cut: nat): nat {
    if bodies == [] || cut < |Frame(bodies[0])| then 0
    else 1 + Complete(bodies[1..], cut - |Frame(bodies[0])|)
  }

  lemma PartialFrame(body: Bytes, s: Bytes)
    requires |body| <= 65535 && s < Frame(body)
    ensures Receive(s) == Received(None, [])
  {
    if |s| >= 2 {
      HeaderLength(|body|);
      assert s[0] == Header(|body|)[0] && s[1] == Header(|body|)[1];
    }
  }

  /** A stream that ends anywhere gives the complete messages and then NULL, never a part of one. */
  lemma {:induction false} CutStream(bodies: seq<Bytes>, cut: nat)
    requires AllFit(bodies) && cut <= |Frames(bodies)|
    ensures Complete(bodies, cut) <= |bodies|
    ensures Drain(Frames(bodies)[..cut]) == bodies[..Complete(bodies, cut)]
    decreases bodies
  {
    if bodies != [] {
      var first, rest := Frame(bodies[0]), Frames(bodies[1..]);
      var s := Frames(bodies)[..cut];
      if cut < |first| {
        assert s == first[..cut];
        PartialFrame(bodies[0], s);
      } else {
        assert s == first + rest[..cut - |first|];
        FrameRoundTripIff(bodies[0], rest[..cut - |first|]);
        CutStream(bodies[1..], cut - |first|);
        var k := Complete(bodies[1..], cut - |first|);
        assert bodies[..1 + k] == [bodies[0]] + bodies[1..][..k];
      }
    }
  }

  // ---------- The code ----------

  /** A connected socket: the bytes written to it, and the bytes that will still arrive before the peer closes. */
  class Socket {
    var sent: Bytes
    var incoming: Bytes

    constructor (incoming: Bytes)
      ensures sent == [] && this.incoming == incoming
    {
      sent, this.incoming := [], incoming;
    }

    /** write: some part of the bytes, at least one. */
    method Write(buf: array<Byte>, at: nat, len: nat) returns (res: nat)
      requires 0 < len && at + len <= buf.Length
      modifies this`sent
      ensures 1 <= res <= len && sent == old(sent) + buf[at..at + res]
    {
      res :| 1 <= res <= len;
      sent := sent + buf[at..at + res];
    }

    /** read: some part of what was asked for, or 0 at the end of the stream. */
    method Read(buf: array<Byte>, at: nat, len: nat) returns (res: nat)
      requires 0 < len && at + len <= buf.Length
      modifies this`incoming, buf
      ensures old(incoming) == [] ==> res == 0
      ensures old(incoming) != [] ==> 1 <= res <= len
      ensures res <= |old(incoming)| && incoming == old(incoming)[res..]
      ensures buf[..] == old(buf[..at]) + old(incoming)[..res] + old(buf[at + res..])
    {
      if incoming == [] {
        return 0;
      }
      res :| 1 <= res <= len && res <= |incoming|;
      forall i | 0 <= i < res {
        buf[at + i] := incoming[i];
      }
      incoming := incoming[res..];
    }
  }

  method WriteAll(sock: Socket, buf: array<Byte>, len: nat) returns (r: nat)
    requires len <= buf.Length
    modifies sock`sent
    ensures r == len && sock.sent == old(sock.sent) + buf[..len]
  {
    var at, left := 0, len;
    while left > 0
      invariant 0 <= left && at + left == len
      invariant sock.sent == old(sock.sent) + buf[..at]
    {
      var res := sock.Write(buf, at, left);
      assert buf[..at] + buf[at..at + res] == buf[..at + res];
      at := at + res;
      left := left - res;
    }
    r := len;
  }

  /** All of len bytes, or 0 if the stream ends before. */
  method ReadAll(sock: Socket, buf: array<Byte>, len: nat) returns (r: nat)
    requires len == buf.Length
    modifies sock`incoming, buf
    ensures |old(sock.incoming)| < len ==> r == 0 && sock.incoming == []
    ensures len <= |old(sock.incoming)| ==>
      r == len && buf[..] == old(sock.incoming)[..len] && sock.incoming == old(sock.incoming)[len..]
  {
    var at, left := 0, len;
    while left > 0
      invariant 0 <= left && at + left == len && at <= |old(sock.incoming)|
      invariant sock.incoming == old(sock.incoming)[at..] && buf[..at] == old(sock.incoming)[..at]
    {
      var res := sock.Read(buf, at, left);
      if res <= 0 {
        return 0;
      }
      assert buf[..at + res] == old(sock.incoming)[..at + res];
      at := at + res;
      left := left - res;
    }
    r := len;
  }

  /** network_send, for a packed message. */
  method NetworkSend(sock: Socket, packed: array<Byte>) returns (r: int)
    modifies sock`sent
    ensures r == if packed.Length == 0 then -1 else 0
    ensures sock.sent == old(sock.sent) + if packed.Length == 0 then [] else Frame(packed[..])
  {
    var len := packed.Length;
    if len == 0 {
      return -1;
    }
    var netSize := new Byte[2];
    netSize[0], netSize[1] := Header(len)[0], Header(len)[1];
    assert netSize[..] == Header(len);
    var n := WriteAll(sock, netSize, 2);
    if n != 2 {
      return -1;
    }
    n := WriteAll(sock, packed, len);
    if n != len {
      return -1;
    }
    r := 0;
  }

  /** network_receive, up to the unpacking. */
  method NetworkReceive(sock: Socket) returns (response: array?<Byte>)
    modifies sock`incoming
    ensures var r := Receive(old(sock.incoming));
            && sock.incoming == r.rest && (response == null <==> r.body == None)
            && (response != null ==> fresh(response) && response[..] == r.body.value)
  {
    var netSize := new Byte[2];
    var n := ReadAll(sock, netSize, 2);
    if n != 2 {
      return null;
    }
    assert netSize[0] == netSize[..][0] && netSize[1] == netSize[..][1];
    var size := LengthIn(netSize[0], netSize[1]);
    var buffer := new Byte[size];
    n := ReadAll(sock, buffer, size);
    if n != size {
      return null;
    }
    response := buffer;
  }

  /** network_send_receive: the client's side of the same framing. */
  method NetworkSendReceive(sock: Socket, packed: array<Byte>) returns (response: array?<Byte>)
    modifies sock
    ensures packed.Length == 0 ==>
      response == null && sock.sent == old(sock.sent) && sock.incoming == old(sock.incoming)
    ensures packed.Length > 0 ==>
      var r := Receive(old(sock.incoming));
      && sock.sent == old(sock.sent) + Frame(packed[..]) && sock.incoming == r.rest
      && (response == null <==> r.body == None)
      && (response != null ==> response[..] == r.body.value)
  {
    var s := NetworkSend(sock, packed);
    if s == -1 {
      return null;
    }
    response := NetworkReceive(sock);
  }

  // ---------- From one end to the other ----------

  ghost function Contents(packed: seq<array<Byte>>): (bodies: seq<Bytes>)
    reads packed
    ensures |bodies| == |packed|
  {
    seq(|packed|, i requires 0 <= i < |packed| reads packed => packed[i][..])
  }

  lemma {:induction false} FramesSnoc(bodies: seq<Bytes>, i: nat)
    requires i < |bodies|
    ensures Frames(bodies[..i + 1]) == Frames(bodies[..i]) + Frame(bodies[i])
  {
    if i > 0 {
      FramesSnoc(bodies[1..], i - 1);
      assert bodies[1..][..i] == bodies[..i + 1][1..] && bodies[1..][..i - 1] == bodies[..i][1..];
    }
  }

  lemma Associative(a: Bytes, b: Bytes, c: Bytes)
    ensures (a + b) + c == a + (b + c)
  {
  }

  lemma OneMoreFrame(base: Bytes, bodies: seq<Bytes>, i: nat, before: Bytes, after: Bytes)
    requires i < |bodies| && before == base + Frames(bodies[..i]) && after == before + Frame(bodies[i])
    ensures after == base + Frames(bodies[..i + 1])
  {
    FramesSnoc(bodies, i);
    Associative(base, Frames(bodies[..i]), Frame(bodies[i]));
  }

  method SendEach(sock: Socket, packed: seq<array<Byte>>)
    requires forall i :: 0 <= i < |packed| ==> packed[i].Length > 0
    modifies sock`sent
    ensures sock.sent == old(sock.sent) + Frames(Contents(packed))
  {
    ghost var bodies := Contents(packed);
    for i := 0 to |packed|
      invariant Contents(packed) == bodies && sock.sent == old(sock.sent) + Frames(bodies[..i])
    {
      ghost var before := sock.sent;
      var _ := NetworkSend(sock, packed[i]);
      OneMoreFrame(old(sock.sent), bodies, i, before, sock.sent);
    }
    assert bodies[..|packed|] == bodies;
  }

  method ReceiveEach(sock: Socket) returns (got: seq<Bytes>)
    modifies sock`incoming
    ensures got == Drain(old(sock.incoming))
  {
    got := [];
    ghost var all := Drain(sock.incoming);
    var response := NetworkReceive(sock);
    while response != null
      invariant response != null ==> got + [response[..]] + Drain(sock.incoming) == all
      invariant response == null ==> got == all
      decreases response != null, |sock.incoming|
    {
      got := got + [response[..]];
      response := NetworkReceive(sock);
    }
  }

  /** Whatever parts the writes and the reads transfer, the receiver gets exactly the messages that were sent, if and
      only if each of them fits. */
  method Transfer(packed: seq<array<Byte>>) returns (got: seq<Bytes>)
    requires forall i :: 0 <= i < |packed| ==> packed[i].Length > 0
    ensures got == Contents(packed) <==> AllFit(Contents(packed))
  {
    var sender := new Socket([]);
    SendEach(sender, packed);
    assert sender.sent == Frames(Contents(packed));
    var receiver := new Socket(sender.sent);
    got := ReceiveEach(receiver);
    StreamRecoveredIff(Contents(packed));
  }
}
