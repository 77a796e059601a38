/**
 Messages on a TCP stream: an 8-byte header (a 4-byte tag and the body's size, high byte first)
 and the body.  Both writers send the body in whatever pieces the socket takes; the daemon's
 reader asks for no more than what is left of the body, the client's synchronous reader for no
 more than the whole body's size, whatever it has already read.
 */
module Framing {

  type Byte = b: int | 0 <= b < 256

  const TCP_TAG: seq<Byte> := [116, 99, 112, 52]   // "tcp4"
  const UDP_TAG: seq<Byte> := [117, 100, 112, 52]  // "udp4"

  // StreamStatus counts in a signed 32-bit int
  const MAX_BODY := 0x8000_0000

  // ---------------------------------------------------------------- sizes and headers

  // MsgHeader's constructor: one byte per shift by 8; higher bits are cut off
  function EncodeSize(n: nat): (b: seq<Byte>)
    ensures |b| == 4
  {
    var n1 := n / 256;
    var n2 := n1 / 256;
    var n3 := n2 / 256;
    [n3 % 256, n2 % 256, n1 % 256, n % 256]
  }

  // MsgHeader::GetBodySize, and the length prefix of the UDP splitter
  function DecodeSize(b: seq<Byte>): nat
    requires |b| == 4
  {
    var b0: nat, b1: nat, b2: nat, b3: nat := b[0], b[1], b[2], b[3];
    ((b0 * 256 + b1) * 256 + b2) * 256 + b3
  }

  // the most significant byte comes first
  lemma SizeOnTheWire(n: nat)
    ensures EncodeSize(n) == [n / 0x100_0000 % 256, n / 0x1_0000 % 256, n / 0x100 % 256, n % 256]
  {
    var n1 := n / 256;
    assert n1 / 256 == n / 0x1_0000 && n1 / 256 / 256 == n / 0x100_0000;
  }

  lemma DecodeEncode(n: nat)
    requires n < 0x1_0000_0000
    ensures DecodeSize(EncodeSize(n)) == n
  {
    var n1 := n / 256;
    var n2 := n1 / 256;
    var n3 := n2 / 256;
    assert n3 < 256;
  }

  lemma EncodeDecode(b: seq<Byte>)
    requires |b| == 4
    ensures EncodeSize(DecodeSize(b)) == b
  {
    var b0: nat, b1: nat, b2: nat, b3: nat := b[0], b[1], b[2], b[3];
    var n1 := (b0 * 256 + b1) * 256 + b2;
    assert (n1 * 256 + b3) / 256 == n1 && n1 / 256 == b0 * 256 + b1 && (b0 * 256 + b1) / 256 == b0;
  }

  // a size that does not fit 32 bits is announced as another one
  lemma EncodeWraps(n: nat)
    ensures EncodeSize(n + 0x1_0000_0000) == EncodeSize(n)
  {
    var n1 := n / 256;
    var n2 := n1 / 256;
    var n3 := n2 / 256;
    assert (n + 0x1_0000_0000) / 256 == n1 + 0x100_0000;
    assert (n1 + 0x100_0000) / 256 == n2 + 0x1_0000;
    assert (n2 + 0x1_0000) / 256 == n3 + 256;
  }

  function Header(tag: seq<Byte>, n: nat): seq<Byte> {
    tag + EncodeSize(n)
  }

  predicate HeaderOk(tag: seq<Byte>, h: seq<Byte>) {
    |h| == 8 && h[..4] == tag
  }

  function BodySize(h: seq<Byte>): nat
    requires |h| == 8
  {
    DecodeSize(h[4..8])
  }

  lemma HeaderReadsBack(tag: seq<Byte>, n: nat)
    requires |tag| == 4 && n < 0x1_0000_0000
    ensures HeaderOk(tag, Header(tag, n)) && BodySize(Header(tag, n)) == n
  {
    assert Header(tag, n)[4..8] == EncodeSize(n);
    DecodeEncode(n);
  }

  function Frame(body: seq<Byte>): seq<Byte> {
    Header(TCP_TAG, |body|) + body
  }

  function Frames(bodies: seq<seq<Byte>>): seq<Byte> {
    if bodies == [] then [] else Frame(bodies[0]) + Frames(bodies[1..])
  }

  // ---------------------------------------------------------------- the socket

  // One direction of a connection: what one side has written and the other has not yet read.
  class Pipe {
    var bytes: seq<Byte>

    constructor ()
      ensures bytes == []
    {
      bytes := [];
    }

    // asio::write / write_some: "taken" bytes leave
    method Write(b: seq<Byte>)
      modifies this
      ensures bytes == old(bytes) + b
    {
      bytes := bytes + b;
    }

    // asio::read / read_some of n bytes that are there
    method Read(n: nat) returns (b: seq<Byte>)
      requires n <= |bytes|
      modifies this
      ensures b == old(bytes)[..n] && bytes == old(bytes)[n..]
    {
      b := bytes[..n];
      bytes := bytes[n..];
    }
  }

  function Min(a: nat, b: nat): nat {
    if a < b then a else b
  }

  lemma Slices(s: seq<Byte>, i: nat, n: nat)
    requires i + n <= |s|
    ensures s[i..][..n] == s[i..i + n] && s[i..][n..] == s[i + n..] && s[..i] + s[i..i + n] == s[..i + n]
  {}

  // ---------------------------------------------------------------- writing

  // WriteMessage of either side; "taken" is how much of its buffer each write_some lets go
  method WriteMessage(pipe: Pipe, body: seq<Byte>, taken: nat -> nat)
    requires |body| < MAX_BODY
    modifies pipe
    ensures pipe.bytes == old(pipe.bytes) + Frame(body)
  {
    pipe.Write(Header(TCP_TAG, |body|));
    ghost var start := pipe.bytes;
    var done, turn := 0, 0;
    while done != |body|
      invariant 0 <= done <= |body|
      invariant pipe.bytes == start + body[..done]
      decreases |body| - done
    {
      var remain := |body| - done;
      var n := Min(remain, if taken(turn) == 0 then 1 else taken(turn));
      Slices(body, done, n);
      pipe.Write(body[done..done + n]);
      done := done + n;
      turn := turn + 1;
    }
    assert body[..done] == body;
  }

  // ---------------------------------------------------------------- the daemon's reader

  // AssertFailed: the C++ code stops at an assertion (bad tag, or the peer closed within a body)
  datatype ReadResult = Received(body: seq<Byte>) | PeerClosed | AssertFailed

  // what a read should give, in terms of the bytes alone: the result and what is left unread
  function ReadSpec(bytes: seq<Byte>): (ReadResult, seq<Byte>) {
    if |bytes| < 8 then (PeerClosed, [])
    else if !HeaderOk(TCP_TAG, bytes[..8]) then (AssertFailed, bytes[8..])
    else
      var size := BodySize(bytes[..8]);
      if size < MAX_BODY && size <= |bytes| - 8 then (Received(bytes[8..8 + size]), bytes[8 + size..])
      else (AssertFailed, [])
  }

  // Only frames are received: the stream began with that of the body read.
  lemma ReceivedWasFramed(bytes: seq<Byte>)
    requires ReadSpec(bytes).0.Received?
    ensures bytes == Frame(ReadSpec(bytes).0.body) + ReadSpec(bytes).1
  {
    var h, body, left := bytes[..8], ReadSpec(bytes).0.body, ReadSpec(bytes).1;
    EncodeDecode(h[4..8]);
    assert h == h[..4] + h[4..8] == Header(TCP_TAG, |body|);
    assert bytes == h + body + left;
  }

  // ServerTCP::ReadMessage.  "avail" answers each call of available(): any number up to what is
  // there, chosen by the network.
  method ServerReadMessage(pipe: Pipe, avail: nat -> nat) returns (res: ReadResult)
    modifies pipe
    ensures res == ReadSpec(old(pipe.bytes)).0
    ensures pipe.bytes == ReadSpec(old(pipe.bytes)).1
  {
    if |pipe.bytes| < 8 {
      var _ := pipe.Read(|pipe.bytes|);
      return PeerClosed;
    }
    ghost var all := pipe.bytes;
    var header := pipe.Read(8);
    if !HeaderOk(TCP_TAG, header) {
      return AssertFailed;
    }
    ghost var rest := pipe.bytes;
    var size := BodySize(header);
    if size >= MAX_BODY || size > |pipe.bytes| {
      var _ := pipe.Read(|pipe.bytes|);
      return AssertFailed;
    }
    var buff: seq<Byte> := [];
    var done, turn := 0, 0;
    while done != size
      invariant 0 <= done <= size <= |rest|
      invariant buff == rest[..done] && pipe.bytes == rest[done..]
      decreases size - done
    {
      var there := Min(avail(turn), |pipe.bytes|);
      var toRead := Min(there, size - done);
      if toRead <= 0 {
        toRead := 1;   // blocks until one byte has come
      }
      var some := pipe.Read(toRead);
      Slices(rest, done, toRead);
      buff := buff + some;
      done := done + toRead;
      turn := turn + 1;
    }
    assert all[8..8 + size] == rest[..size] && all[8 + size..] == rest[size..];
    return Received(buff);
  }

  lemma ReadOneFrame(body: seq<Byte>, rest: seq<Byte>)
    requires |body| < MAX_BODY
    ensures ReadSpec(Frame(body) + rest) == (Received(body), rest)
  {
    var bytes := Frame(body) + rest;
    HeaderReadsBack(TCP_TAG, |body|);
    assert bytes[..8] == Header(TCP_TAG, |body|);
    assert bytes[8..8 + |body|] == body;
    assert bytes[8 + |body|..] == rest;
  }

  // n reads in a row
  function ReadMany(bytes: seq<Byte>, n: nat): (seq<ReadResult>, seq<Byte>)
    decreases n
  {
    if n == 0 then ([], bytes)
    else
      var first := ReadSpec(bytes);
      var more := ReadMany(first.1, n - 1);
      ([first.0] + more.0, more.1)
  }

  function AllReceived(bodies: seq<seq<Byte>>): seq<ReadResult> {
    if bodies == [] then [] else [Received(bodies[0])] + AllReceived(bodies[1..])
  }

  // Any sequence of messages, written in any pieces, is read back as that sequence, and nothing
  // of what follows is touched.
  lemma {:induction false} MessagesReadBack(bodies: seq<seq<Byte>>, rest: seq<Byte>)
    requires forall b | b in bodies :: |b| < MAX_BODY
    ensures ReadMany(Frames(bodies) + rest, |bodies|) == (AllReceived(bodies), rest)
  {
    if bodies == [] {
      assert Frames(bodies) + rest == rest;
    } else {
      var tail := bodies[1..];
      var head, more := Frame(bodies[0]), Frames(tail);
      assert (head + more) + rest == head + (more + rest);
      ReadOneFrame(bodies[0], Frames(tail) + rest);
      MessagesReadBack(tail, rest);
    }
  }

  // Hence no two message sequences look alike on the wire.
  lemma {:induction false} FramesAreUnique(a: seq<seq<Byte>>, b: seq<seq<Byte>>)
    requires (forall x | x in a :: |x| < MAX_BODY) && (forall x | x in b :: |x| < MAX_BODY)
    requires Frames(a) == Frames(b)
    ensures a == b
  {
    if a != [] && b != [] {
      ReadOneFrame(a[0], Frames(a[1..]));
      ReadOneFrame(b[0], Frames(b[1..]));
      FramesAreUnique(a[1..], b[1..]);
      assert a == [a[0]] + a[1..] && b == [b[0]] + b[1..];
    }
  }

  // ---------------------------------------------------------------- the client's reader

  // Overrun: more was read than the body holds; StreamStatus never becomes done again
  datatype ClientRead = Complete(left: seq<Byte>) | Waiting(done: nat, left: seq<Byte>) | Overrun

  // the body loop of ClientTCP::ReadMessage, on the bytes after the header; one entry of
  // "avails" answers each call of available()
  function ClientBody(bytes: seq<Byte>, size: nat, done: nat, avails: seq<nat>): ClientRead
    decreases |avails|
  {
    if done == size then Complete(bytes)
    else if done > size then Overrun
    else if avails == [] then Waiting(done, bytes)
    else
      var toRead := Min(Min(avails[0], |bytes|), size);
      ClientBody(bytes[toRead..], size, done + toRead, avails[1..])
  }

  // the same loop as a loop
  method ClientReadBody(pipe: Pipe, size: nat, avails: seq<nat>) returns (outcome: ClientRead, buff: seq<Byte>)
    modifies pipe
    ensures outcome == ClientBody(old(pipe.bytes), size, 0, avails)
    ensures old(pipe.bytes) == buff + pipe.bytes
    ensures outcome.Complete? ==> |buff| == size && outcome.left == pipe.bytes
  {
    buff := [];
    var turn := 0;
    ghost var all := pipe.bytes;
    assert avails[0..] == avails && all[0..] == all;
    while |buff| != size
      invariant 0 <= turn <= |avails|
      invariant |buff| <= |all| && buff == all[..|buff|] && pipe.bytes == all[|buff|..]
      invariant ClientBody(all, size, 0, avails) == ClientBody(pipe.bytes, size, |buff|, avails[turn..])
      decreases |avails| - turn
    {
      if |buff| > size {
        return Overrun, buff;
      }
      if turn == |avails| {
        return Waiting(|buff|, pipe.bytes), buff;
      }
      var avail := Min(avails[turn], |pipe.bytes|);
      var toRead := if avail > size then size else avail;
      assert avails[turn..][1..] == avails[turn + 1..];
      Slices(all, |buff|, toRead);
      var some := pipe.Read(toRead);
      buff := buff + some;
      turn := turn + 1;
    }
    return Complete(pipe.bytes), buff;
  }

  // With exactly the body in flight the loop never overruns, whatever available() says; it is
  // complete as soon as all of it has been offered.
  lemma {:induction false} ExactBodyIsSafe(bytes: seq<Byte>, size: nat, done: nat, avails: seq<nat>)
    requires done + |bytes| == size
    ensures !ClientBody(bytes, size, done, avails).Overrun?
    ensures ClientBody(bytes, size, done, avails).Complete? ==> ClientBody(bytes, size, done, avails).left == []
    ensures (exists i :: 0 <= i < |avails| && avails[i] >= size) ==> ClientBody(bytes, size, done, avails).Complete?
    decreases |avails|
  {
    if done != size && avails != [] {
      var toRead := Min(Min(avails[0], |bytes|), size);
      ExactBodyIsSafe(bytes[toRead..], size, done + toRead, avails[1..]);
      if i :| 0 <= i < |avails| && avails[i] >= size {
        if i > 0 { assert avails[1..][i - 1] == avails[i]; }
      }
    }
  }

  lemma {:induction false} SmallBodyIsSafe(bytes: seq<Byte>, size: nat, avails: seq<nat>)
    requires size <= 1
    ensures !ClientBody(bytes, size, 0, avails).Overrun?
    decreases |avails|
  {
    if size == 1 && avails != [] && Min(avails[0], |bytes|) == 0 {
      assert bytes[0..] == bytes;
      SmallBodyIsSafe(bytes, size, avails[1..]);
    }
  }

  // no timing of the network makes the loop overrun
  ghost predicate NeverOverruns(bytes: seq<Byte>, size: nat) {
    forall avails: seq<nat> :: !ClientBody(bytes, size, 0, avails).Overrun?
  }

  // The client's clamp is right exactly when nothing follows the body in the stream (or the body
  // is a single byte): otherwise some timing of the network makes it read past the message.
  lemma ClampSafeIff(bytes: seq<Byte>, size: nat)
    requires size <= |bytes|
    ensures NeverOverruns(bytes, size) <==> (|bytes| == size || size <= 1)
  {
    if |bytes| == size {
      forall avails: seq<nat> ensures !ClientBody(bytes, size, 0, avails).Overrun? {
        ExactBodyIsSafe(bytes, size, 0, avails);
      }
    } else if size <= 1 {
      forall avails: seq<nat> ensures !ClientBody(bytes, size, 0, avails).Overrun? {
        SmallBodyIsSafe(bytes, size, avails);
      }
    } else {
      var avails: seq<nat> := [1, size];
      assert avails[1..] == [size] && avails[1..][1..] == [];
      assert ClientBody(bytes, size, 0, avails) == ClientBody(bytes[1..], size, 1, [size]);
      assert ClientBody(bytes[1..], size, 1, [size]) == ClientBody(bytes[1..][size..], size, 1 + size, []);
      assert ClientBody(bytes, size, 0, avails).Overrun?;
    }
  }
}
