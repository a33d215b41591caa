/** Framing: what write_dataset puts around a serialised data set, and what pm_read takes off
    again. */
module Framing {
  import opened Wire
  import opened Transfer

  /** A payload that reaches the client: not empty, and short enough that neither side's count of
      bytes overflows its `int`. */
  predicate Deliverable(p: seq<byte>) {
    p != [] && CountFits(p)
  }

  // ---------------------------------------------------------------- the sender's half

  /** write_dataset from the packed message on.  Frames go out whole unless a call fails, and are
      reported as written exactly when their length still fits. */
  method WriteFrame(fd: Socket, payload: Payload) returns (ret: int, ghost sent: nat)
    modifies fd
    ensures fd.incoming == old(fd.incoming)
    ensures sent <= |Frame(payload)| && fd.outgoing == old(fd.outgoing) + Frame(payload)[..sent]
    ensures sent == |Frame(payload)| ==> fd.outgoing == old(fd.outgoing) + Frame(payload)
    ensures ret > 0 <==> sent == |Frame(payload)| && CountFits(payload)
    ensures ret > 0 ==> ret == 25 + |payload|
    ensures ret != 0
    ensures NoFailure(old(fd.schedule)) ==> NoFailure(fd.schedule) && sent == |Frame(payload)|
  {
    ghost var start := fd.outgoing;
    assert Frame(payload)[..25 + |payload|] == Frame(payload);
    ret, sent := WriteHeader(fd, payload);
    if ret < 0 {
      return ret, sent;
    }

    var err;
    ghost var k;
    err, k := WritePart(fd, payload);
    CutPayload(payload, start, k);
    sent := 25 + k;
    if err < 0 {
      return err, sent;
    }
    ret := Int32(ret + err);
  }

  /** Its first two writes: the bytes written, or an error. */
  method WriteHeader(fd: Socket, payload: Payload) returns (ret: int, ghost sent: nat)
    modifies fd
    ensures fd.incoming == old(fd.incoming)
    ensures sent <= 25 && fd.outgoing == old(fd.outgoing) + Frame(payload)[..sent]
    ensures ret == 25 == sent || (ret < 0 && sent < 25)
    ensures ret == 25 ==> fd.outgoing == old(fd.outgoing) + MAGIC_DATA_SET + Htonl(|payload|)
    ensures NoFailure(old(fd.schedule)) ==> NoFailure(fd.schedule) && ret == 25
  {
    ghost var start := fd.outgoing;
    var netMsgLen := Htonl(|payload|);

    ret := 0;
    var err;
    err, sent := WritePart(fd, MAGIC_DATA_SET);
    CutMagic(payload, start, sent);
    if err < 0 {
      return err, sent;
    }
    ret := ret + err;

    ghost var k;
    err, k := WritePart(fd, netMsgLen);
    CutLength(payload, start, k);
    sent := 21 + k;
    if err < 0 {
      return err, sent;
    }
    ret := ret + err;
  }

  /** One full_write of write_dataset, its result converted to `int`. */
  method WritePart(fd: Socket, part: Payload) returns (err: int, ghost k: nat)
    modifies fd
    ensures fd.incoming == old(fd.incoming)
    ensures NoFailure(old(fd.schedule)) ==> NoFailure(fd.schedule) && k == |part| && err == Int32(|part|)
    ensures k == Writing(old(fd.schedule), |part|).moved && (k == |part| ==> err == Int32(|part|))
    ensures fd.schedule == Writing(old(fd.schedule), |part|).rest
    ensures -TWO31 <= err < TWO31 && (err >= 0 ==> err == |part| == k)
    ensures k <= |part| && fd.outgoing == old(fd.outgoing) + part[..k] && (k == |part| ==> part[..k] == part)
  {
    if NoFailure(fd.schedule) {
      WritingCompletes(fd.schedule, |part|);
    }
    k := Writing(fd.schedule, |part|).moved;
    assert part[..|part|] == part;
    err := FullWrite(fd, part, |part|);
    err := Int32(err);
  }

  /** Two parts of a message, cut inside the first or inside the second. */
  lemma CutFirst(start: seq<byte>, a: seq<byte>, b: seq<byte>, k: nat)
    requires k <= |a|
    ensures start + a[..k] == start + (a + b)[..k]
  {
    assert a[..k] == (a + b)[..k];
  }

  lemma CutSecond(start: seq<byte>, a: seq<byte>, b: seq<byte>, k: nat)
    requires k <= |b|
    ensures start + a + b[..k] == start + (a + b)[..|a| + k]
  {
    assert a + b[..k] == (a + b)[..|a| + k];
  }

  /** A frame cut inside its magic. */
  lemma CutMagic(p: Payload, start: seq<byte>, k: nat)
    requires k <= 21
    ensures start + MAGIC_DATA_SET[..k] == start + Frame(p)[..k]
  {
    FrontFrame(MAGIC_DATA_SET, Htonl(|p|), p);
    CutFirst(start, MAGIC_DATA_SET, Htonl(|p|) + p, k);
  }

  /** A frame cut inside its length. */
  lemma CutLength(p: Payload, start: seq<byte>, k: nat)
    requires k <= 4
    ensures start + MAGIC_DATA_SET + Htonl(|p|)[..k] == start + Frame(p)[..21 + k]
  {
    CutSecond(start, MAGIC_DATA_SET, Htonl(|p|), k);
    CutFirst(start, MAGIC_DATA_SET + Htonl(|p|), p, 21 + k);
  }

  /** A frame cut inside its payload. */
  lemma CutPayload(p: Payload, start: seq<byte>, k: nat)
    requires k <= |p|
    ensures start + MAGIC_DATA_SET + Htonl(|p|) + p[..k] == start + Frame(p)[..25 + k]
  {
    FrontFrame(start, MAGIC_DATA_SET, Htonl(|p|));
    CutSecond(start, MAGIC_DATA_SET + Htonl(|p|), p, k);
  }

  // ---------------------------------------------------------------- the client's half

  /** What the front of a stream is.  `Bad` stands for bytes the client's assertion rejects. */
  datatype Parsed = End(rest: seq<byte>) | Got(payload: Payload, rest: seq<byte>) | Bad

  function ParseFrame(stream: seq<byte>): (r: Parsed) {
    if |stream| < 21 then End([])
    else if stream[..21] != MAGIC_DATA_SET then Bad
    else if |stream| < 25 then End([])
    else
      var len := Ntohl(stream[21..25]);
      if len == 0 then End(stream[25..])
      else if |stream| < 25 + len then End([])
      else Got(stream[25..25 + len], stream[25 + len..])
  }

  datatype ReadResult = Eof | Read(ret: int, payload: seq<byte>) | Aborted

  /** pm_read up to the unpacking.  It answers `Eof` for any transfer that reports 0, and ends the
      process when a transfer fails or the magic is wrong. */
  method ReadFrame(fd: Socket) returns (r: ReadResult)
    modifies fd
    ensures fd.outgoing == old(fd.outgoing)
    ensures NoFailure(old(fd.schedule)) ==>
              && NoFailure(fd.schedule)
              && match ParseFrame(old(fd.incoming))
                 case End(rest) => r == Eof && fd.incoming == rest
                 case Got(payload, rest) => r == Read(Int32(25 + |payload|), payload) && fd.incoming == rest
                 case Bad => r == Aborted
    ensures r.Eof? ==> ParseFrame(old(fd.incoming)).End?
    ensures r.Read? && |r.payload| < TWO32 - 1 ==>
              && ParseFrame(old(fd.incoming)) == Got(r.payload, fd.incoming)
              && r.ret == Int32(25 + |r.payload|)
  {
    var err, msgLen := ReadHeader(fd);
    if err == 0 {
      return Eof;
    }
    if err != 25 {
      return Aborted;
    }
    r := ReadBody(fd, msgLen, err);
  }

  /** The last transfer of pm_read, added to the bytes read before. */
  method ReadBody(fd: Socket, msgLen: nat, ret: int) returns (r: ReadResult)
    requires msgLen < TWO32 && ret == 25
    modifies fd
    ensures fd.outgoing == old(fd.outgoing)
    ensures NoFailure(old(fd.schedule)) ==> NoFailure(fd.schedule) && !r.Aborted?
    ensures r.Eof? ==>
              || (msgLen == 0 && fd.incoming == old(fd.incoming))
              || (|old(fd.incoming)| < msgLen && fd.incoming == [])
    ensures r.Read? && |r.payload| < TWO32 - 1 ==>
              && 0 < msgLen <= |old(fd.incoming)| && r.ret == Int32(25 + msgLen)
              && r.payload == old(fd.incoming)[..msgLen] && fd.incoming == old(fd.incoming)[msgLen..]
    ensures NoFailure(old(fd.schedule)) && r.Read? ==>
              && 0 < msgLen <= |old(fd.incoming)| && r.ret == Int32(25 + msgLen)
              && r.payload == old(fd.incoming)[..msgLen] && fd.incoming == old(fd.incoming)[msgLen..]
  {
    var buffer := new byte[msgLen];
    var err := ReadPart(fd, buffer);
    err := Int32(err);
    if err == 0 {
      return Eof;
    }
    if err % TWO32 != msgLen {
      return Aborted;
    }
    r := Read(Int32(ret + err), buffer[..]);
  }

  /** The first two transfers of pm_read: 25 and the length announced, 0 at the end of the
      stream, or -1 when an assertion fails. */
  method ReadHeader(fd: Socket) returns (err: int, msgLen: nat)
    modifies fd
    ensures fd.outgoing == old(fd.outgoing) && msgLen < TWO32
    ensures NoFailure(old(fd.schedule)) ==> NoFailure(fd.schedule) && (err == -1 ==> ParseFrame(old(fd.incoming)).Bad?)
    ensures err == 25 || err == 0 || err == -1
    ensures err == 0 ==> ParseFrame(old(fd.incoming)) == End([]) && fd.incoming == []
    ensures err == 25 ==>
              && 25 <= |old(fd.incoming)| && fd.incoming == old(fd.incoming)[25..]
              && ParseFrame(old(fd.incoming)) ==
                   if msgLen == 0 then End(fd.incoming)
                   else if |fd.incoming| < msgLen then End([])
                   else Got(fd.incoming[..msgLen], fd.incoming[msgLen..])
  {
    ghost var stream := fd.incoming;
    msgLen := 0;
    var magic := new byte[21];
    err := ReadPart(fd, magic);
    if err != 21 {
      return;
    }
    if magic[..] != MAGIC_DATA_SET {
      return -1, 0;
    }

    var netMsgLen := new byte[4];
    err := ReadPart(fd, netMsgLen);
    if err != 4 {
      return;
    }
    SplitHeader(stream);
    err, msgLen := 25, Ntohl(netMsgLen[..]);
  }

  lemma SplitHeader(stream: seq<byte>)
    requires 25 <= |stream|
    ensures stream[21..][..4] == stream[21..25] && stream[21..][4..] == stream[25..]
    ensures forall n: nat :: 25 + n <= |stream| ==> stream[25..][..n] == stream[25..25 + n]
    ensures forall n: nat :: 25 + n <= |stream| ==> stream[25..][n..] == stream[25 + n..]
  {
  }

  /** One full_read of pm_read that fills a buffer. */
  method ReadPart(fd: Socket, buffer: array<byte>) returns (err: int)
    modifies fd, buffer
    ensures fd.outgoing == old(fd.outgoing)
    ensures NoFailure(old(fd.schedule)) ==> NoFailure(fd.schedule) && err != -1
    ensures err == buffer.Length || err == 0 || err == -1
    ensures err == 0 && 0 < buffer.Length ==> |old(fd.incoming)| < buffer.Length && fd.incoming == []
    ensures err == buffer.Length ==>
              && buffer.Length <= |old(fd.incoming)|
              && buffer[..] == old(fd.incoming)[..buffer.Length] && fd.incoming == old(fd.incoming)[buffer.Length..]
  {
    ghost var stream := fd.incoming;
    if NoFailure(fd.schedule) {
      ReadingCompletesIff(fd.schedule, buffer.Length, |fd.incoming|);
    }
    err := FullRead(fd, buffer, buffer.Length);
    assert stream[|stream|..] == [];
  }

  // ---------------------------------------------------------------- round trip

  lemma FrontOfFrame(p: Payload, tail: seq<byte>)
    ensures
      var s := Frame(p) + tail;
      && s[..21] == MAGIC_DATA_SET && s[21..25] == Htonl(|p|) && s[25..25 + |p|] == p
      && s[25 + |p|..] == tail
  {
  }

  /** A frame is read back exactly when its payload is not empty; an empty one is taken for the
      end of the stream. */
  lemma FrameRoundTripIff(p: Payload, tail: seq<byte>)
    ensures ParseFrame(Frame(p) + tail) == Got(p, tail) <==> p != []
    ensures p == [] ==> ParseFrame(Frame(p) + tail) == End(tail)
  {
    FrontOfFrame(p, tail);
    NetworkOrderRoundTrip(|p|);
  }

  /** Part of a frame, which is what a client finds when the daemon stops in the middle of one,
      reads as the end of the stream. */
  lemma PartOfFrameIsEnd(p: Payload, k: nat)
    requires k < |Frame(p)|
    ensures ParseFrame(Frame(p)[..k]).End?
  {
    FrontOfFrame(p, []);
    NetworkOrderRoundTrip(|p|);
    assert Frame(p) + [] == Frame(p);
    var s := Frame(p)[..k];
    if 21 <= k {
      assert s[..21] == Frame(p)[..21];
    }
    if 25 <= k {
      assert s[21..25] == Frame(p)[21..25];
    }
  }

  /** Exactly when the client's comparison with the magic fails: 21 bytes are there and are not it. */
  lemma BadIff(stream: seq<byte>)
    ensures ParseFrame(stream).Bad? <==> |stream| >= 21 && !(MAGIC_DATA_SET <= stream)
  {
  }

  lemma GotIsShorter(stream: seq<byte>)
    ensures ParseFrame(stream).Got? ==> |ParseFrame(stream).rest| < |stream|
  {
  }

  /** What a client that reads until pm_read no longer returns a positive number gets. */
  function ReadAllOf(stream: seq<byte>): (payloads: seq<Payload>)
    decreases |stream|
  {
    GotIsShorter(stream);
    match ParseFrame(stream)
    case Got(payload, rest) => if Int32(25 + |payload|) > 0 then [payload] + ReadAllOf(rest) else []
    case _ => []
  }

  /** What is left of the stream when it reads on and finds no frame any more. */
  function Unread(stream: seq<byte>): (rest: seq<byte>)
    decreases |stream|
  {
    GotIsShorter(stream);
    match ParseFrame(stream)
    case Got(payload, rest) => if Int32(25 + |payload|) > 0 then Unread(rest) else stream
    case _ => stream
  }

  /** The client gets back the payloads the daemon framed, in order and nothing else, and is left
      at a frame boundary, when what follows them is the end of the stream. */
  lemma {:induction false} FramesRoundTrip(ps: seq<Payload>, tail: seq<byte>)
    requires forall i :: 0 <= i < |ps| ==> Deliverable(ps[i])
    requires ParseFrame(tail).End?
    ensures ReadAllOf(Frames(ps) + tail) == ps && Unread(Frames(ps) + tail) == tail
  {
    if ps == [] {
      assert Frames(ps) + tail == tail;
    } else {
      FramesInFront(ps, tail);
      FrontFrameIsRead(ps[0], Frames(ps[1..]) + tail);
      FramesRoundTrip(ps[1..], tail);
    }
  }

  lemma FramesInFront(ps: seq<Payload>, tail: seq<byte>)
    requires ps != []
    ensures Frames(ps) + tail == Frame(ps[0]) + (Frames(ps[1..]) + tail)
  {
  }

  lemma FrontFrameIsRead(p: Payload, rest: seq<byte>)
    requires Deliverable(p)
    ensures ReadAllOf(Frame(p) + rest) == [p] + ReadAllOf(rest) && Unread(Frame(p) + rest) == Unread(rest)
  {
    FrameRoundTripIff(p, rest);
  }

  /** The loop of the command line client, without its output.  The last call, which finds no
      frame, uses up what it could not read. */
  method ReadAll(fd: Socket) returns (payloads: seq<Payload>)
    requires NoFailure(fd.schedule)
    modifies fd
    ensures payloads == ReadAllOf(old(fd.incoming))
    ensures ParseFrame(Unread(old(fd.incoming))).End? ==> fd.incoming == ParseFrame(Unread(old(fd.incoming))).rest
  {
    payloads := [];
    ghost var all, unread := ReadAllOf(fd.incoming), Unread(fd.incoming);
    while true
      invariant NoFailure(fd.schedule)
      invariant unread == Unread(fd.incoming)
      invariant all == payloads + ReadAllOf(fd.incoming)
      decreases |fd.incoming|
    {
      var more, payload := ReadNext(fd);
      if !more {
        return;
      }
      payloads := payloads + [payload];
    }
  }

  method ReadNext(fd: Socket) returns (more: bool, payload: Payload)
    requires NoFailure(fd.schedule)
    modifies fd
    ensures NoFailure(fd.schedule)
    ensures ReadAllOf(old(fd.incoming)) == if more then [payload] + ReadAllOf(fd.incoming) else []
    ensures more ==> Unread(old(fd.incoming)) == Unread(fd.incoming)
    ensures !more ==> Unread(old(fd.incoming)) == old(fd.incoming)
    ensures !more && ParseFrame(old(fd.incoming)).End? ==> fd.incoming == ParseFrame(old(fd.incoming)).rest
    ensures more ==> |fd.incoming| < |old(fd.incoming)|
  {
    GotIsShorter(fd.incoming);
    var r := ReadFrame(fd);
    more := r.Read? && r.ret > 0;
    payload := if more then r.payload else [];
  }

  /** One connection from end to end: whatever the two schedules of short transfers and
      interruptions are, the client returns the payloads the daemon wrote. */
  method Conversation(ps: seq<Payload>, daemonSchedule: seq<Outcome>, clientSchedule: seq<Outcome>)
    returns (received: seq<Payload>)
    requires NoFailure(daemonSchedule) && NoFailure(clientSchedule)
    requires forall i :: 0 <= i < |ps| ==> Deliverable(ps[i])
    ensures received == ps
  {
    var server := new Socket([], daemonSchedule);
    assert Frames(ps[..0]) == [];
    for i := 0 to |ps|
      invariant NoFailure(server.schedule)
      invariant server.outgoing == Frames(ps[..i])
    {
      FramesAppend(ps[..i], ps[i]);
      assert ps[..i] + [ps[i]] == ps[..i + 1];
      var ret, sent := WriteFrame(server, ps[i]);
    }
    assert ps[..|ps|] == ps;
    FramesRoundTrip(ps, []);
    assert Frames(ps) + [] == Frames(ps);
    var client := new Socket(server.outgoing, clientSchedule);
    received := ReadAll(client);
  }
}
