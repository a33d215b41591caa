/** common/utils.c: complete transfers over a socket that moves as little as it likes at a time
    and may be interrupted. */
module Transfer {
  import opened Wire

  /** What one read or write call of the environment does: moves some bytes, is interrupted by a
      signal, or fails.  A call always moves at least one byte and at most what is asked for. */
  datatype Outcome = Moves(k: nat) | Interrupted | Fails

  function AtMost(k: nat, limit: nat): (n: nat)
    requires 0 < limit
    ensures 0 < n <= limit
  {
    if k == 0 then 1 else if k < limit then k else limit
  }

  /** What one call returns, whether it was interrupted, and the schedule it leaves. */
  datatype Call = Call(res: int, eintr: bool, rest: seq<Outcome>)

  /** A call that could move `limit` bytes, and that asks for more than none. */
  function CallOn(schedule: seq<Outcome>, limit: nat): (c: Call)
    ensures c.res <= limit && |c.rest| <= |schedule|
    ensures c.res < 0 ==> |c.rest| < |schedule|
  {
    if schedule == [] then Call(limit, false, [])
    else match schedule[0]
      case Interrupted => Call(-1, true, schedule[1..])
      case Fails => Call(-1, false, schedule[1..])
      case Moves(k) => Call(if limit == 0 then 0 else AtMost(k, limit), false, schedule[1..])
  }

  /** The environment is free: a call can move any number of bytes it is asked for, be interrupted,
      or fail. */
  lemma AnyOutcome(limit: nat, n: nat)
    requires 0 < n <= limit
    ensures CallOn([Moves(n)], limit) == Call(n, false, [])
    ensures CallOn([Interrupted], limit) == Call(-1, true, [])
    ensures CallOn([Fails], limit) == Call(-1, false, [])
  {
  }

  function Min(a: nat, b: nat): nat {
    if a < b then a else b
  }

  /** One end of a connection.  `incoming` is what the peer has sent and will ever send,
      `outgoing` what this end has sent.  `schedule` is the environment's choice for the calls to
      come; when it is used up, every call does all that is asked for. */
  class Socket {
    var incoming: seq<byte>
    var outgoing: seq<byte>
    var schedule: seq<Outcome>

    constructor (incoming: seq<byte>, schedule: seq<Outcome>)
      ensures this.incoming == incoming && outgoing == [] && this.schedule == schedule
    {
      this.incoming, this.schedule, outgoing := incoming, schedule, [];
    }

    /** write(2): the number of bytes taken from the front of `buf`, or -1. */
    method Write(buf: seq<byte>) returns (res: int, eintr: bool)
      requires buf != []
      modifies this
      ensures -1 <= res <= |buf| && res != 0 && (res < 0 ==> |schedule| < |old(schedule)|)
      ensures Writing(old(schedule), |buf|) ==
                if res > 0 then Advance(res, Writing(schedule, |buf| - res))
                else if eintr then Writing(schedule, |buf|)
                else Result(0, Failure, schedule)
      ensures incoming == old(incoming)
      ensures outgoing == old(outgoing) + if res > 0 then buf[..res] else []
    {
      var call := CallOn(schedule, |buf|);
      res, eintr, schedule := call.res, call.eintr, call.rest;
      if res > 0 {
        outgoing := outgoing + buf[..res];
      }
    }

    /** read(2) into `buf` from `offset`, at most `size` bytes: the number read, 0 at the end of
        the stream, or -1. */
    method Read(buf: array<byte>, offset: nat, size: nat) returns (res: int, eintr: bool)
      requires 0 < size && offset + size <= buf.Length
      modifies this, buf
      ensures -1 <= res <= size && res <= |old(incoming)| && (res < 0 ==> |schedule| < |old(schedule)|)
      ensures Reading(old(schedule), size, |old(incoming)|) ==
                if res > 0 then Advance(res, Reading(schedule, size - res, |incoming|))
                else if res == 0 then Result(0, EndOfStream, schedule)
                else if eintr then Reading(schedule, size, |incoming|)
                else Result(0, Failure, schedule)
      ensures outgoing == old(outgoing)
      ensures incoming == if res > 0 then old(incoming)[res..] else old(incoming)
      ensures buf[..] == if res > 0 then Overwritten(old(buf[..]), offset, old(incoming)[..res]) else old(buf[..])
    {
      var call := CallOn(schedule, Min(size, |incoming|));
      res, eintr, schedule := call.res, call.eintr, call.rest;
      if res > 0 {
        Store(buf, offset, incoming[..res]);
        incoming := incoming[res..];
      }
    }
  }

  /** These bytes in the place of as many others. */
  function Overwritten(a: seq<byte>, offset: nat, bytes: seq<byte>): seq<byte>
    requires offset + |bytes| <= |a|
  {
    a[..offset] + bytes + a[offset + |bytes|..]
  }

  method Store(buf: array<byte>, offset: nat, bytes: seq<byte>)
    requires offset + |bytes| <= buf.Length
    modifies buf
    ensures buf[..] == Overwritten(old(buf[..]), offset, bytes)
  {
    forall i | 0 <= i < |bytes| {
      buf[offset + i] := bytes[i];
    }
  }

  // ---------------------------------------------------------------- what a complete transfer does

  /** How a transfer of `size` bytes ends under a schedule when `available` bytes can be moved:
      how many are moved, and what is left of the schedule. */
  datatype End = Complete | EndOfStream | Failure

  datatype Result = Result(moved: nat, end: End, rest: seq<Outcome>)

  function Advance(n: nat, r: Result): Result {
    r.(moved := r.moved + n)
  }

  function Writing(schedule: seq<Outcome>, size: nat): (r: Result)
    ensures r.moved <= size && (r.end.Complete? <==> r.moved == size) && !r.end.EndOfStream?
    decreases size, |schedule|
  {
    if size == 0 then Result(0, Complete, schedule)
    else
      var call := CallOn(schedule, size);
      if call.res > 0 then Advance(call.res, Writing(call.rest, size - call.res))
      else if call.eintr then Writing(call.rest, size)
      else Result(0, Failure, call.rest)
  }

  function Reading(schedule: seq<Outcome>, size: nat, available: nat): (r: Result)
    ensures r.moved <= size && r.moved <= available
    ensures r.end.Complete? <==> r.moved == size
    ensures r.end.EndOfStream? ==> r.moved == available < size
    decreases size, |schedule|
  {
    if size == 0 then Result(0, Complete, schedule)
    else
      var call := CallOn(schedule, Min(size, available));
      if call.res > 0 then Advance(call.res, Reading(call.rest, size - call.res, available - call.res))
      else if call.res == 0 then Result(0, EndOfStream, call.rest)
      else if call.eintr then Reading(call.rest, size, available)
      else Result(0, Failure, call.rest)
  }

  predicate NoFailure(schedule: seq<Outcome>) {
    forall i :: 0 <= i < |schedule| ==> !schedule[i].Fails?
  }

  lemma NoFailedCall(schedule: seq<Outcome>, limit: nat)
    requires NoFailure(schedule)
    ensures NoFailure(CallOn(schedule, limit).rest)
    ensures CallOn(schedule, limit).res < 0 ==> CallOn(schedule, limit).eintr
  {
    if schedule != [] {
      assert !schedule[0].Fails?;
    }
  }

  /** However the environment cuts and interrupts a write, it completes unless a call fails. */
  lemma {:induction false} WritingCompletes(schedule: seq<Outcome>, size: nat)
    requires NoFailure(schedule)
    ensures Writing(schedule, size).end.Complete? && Writing(schedule, size).moved == size
    ensures NoFailure(Writing(schedule, size).rest)
    decreases size, |schedule|
  {
    if size != 0 {
      NoFailedCall(schedule, size);
      var call := CallOn(schedule, size);
      WritingCompletes(call.rest, if call.res > 0 then size - call.res else size);
    }
  }

  /** The calls a write consumes: those of the schedule that its rest does not have. */
  function Consumed(schedule: seq<Outcome>, size: nat): (calls: seq<Outcome>)
    ensures calls <= schedule && schedule == calls + Writing(schedule, size).rest
  {
    RestIsTail(schedule, size);
    schedule[..|schedule| - |Writing(schedule, size).rest|]
  }

  lemma {:induction false} RestIsTail(schedule: seq<Outcome>, size: nat)
    ensures
      var rest := Writing(schedule, size).rest;
      |rest| <= |schedule| && rest == schedule[|schedule| - |rest|..]
    decreases size, |schedule|
  {
    if size != 0 && schedule != [] {
      var call := CallOn(schedule, size);
      if call.res > 0 {
        RestIsTail(call.rest, size - call.res);
      } else if call.eintr {
        RestIsTail(call.rest, size);
      }
    }
  }

  /** A write completes iff none of the calls it consumes fails. */
  lemma {:induction false} WritingCompletesIff(schedule: seq<Outcome>, size: nat)
    ensures Writing(schedule, size).end.Complete? <==> NoFailure(Consumed(schedule, size))
    decreases |schedule|
  {
    if size == 0 || schedule == [] {
      NothingToFail(schedule, size);
    } else if schedule[0].Fails? {
      FirstFails(schedule, size);
    } else {
      var left := FirstCall(schedule, size);
      WritingCompletesIff(schedule[1..], left);
      NoFailureFirst(schedule[0], Consumed(schedule[1..], left));
    }
  }

  lemma NothingToFail(schedule: seq<Outcome>, size: nat)
    requires size == 0 || schedule == []
    ensures Writing(schedule, size).end.Complete? && Consumed(schedule, size) == []
  {
  }

  lemma FirstFails(schedule: seq<Outcome>, size: nat)
    requires size != 0 && schedule != [] && schedule[0].Fails?
    ensures Writing(schedule, size).end.Failure? && Consumed(schedule, size) == [schedule[0]]
  {
  }

  /** How much the first call leaves to be written. */
  lemma FirstCall(schedule: seq<Outcome>, size: nat) returns (left: nat)
    requires size != 0 && schedule != [] && !schedule[0].Fails?
    ensures Writing(schedule, size).end.Complete? <==> Writing(schedule[1..], left).end.Complete?
    ensures Consumed(schedule, size) == [schedule[0]] + Consumed(schedule[1..], left)
  {
    var call := CallOn(schedule, size);
    left := if call.res > 0 then size - call.res else size;
    FirstCallRest(schedule, size, left);
    RestIsTail(schedule[1..], left);
    var n := |schedule| - |Writing(schedule[1..], left).rest|;
    assert schedule[..n] == [schedule[0]] + schedule[1..][..n - 1];
  }

  lemma FirstCallRest(schedule: seq<Outcome>, size: nat, left: nat)
    requires size != 0 && schedule != [] && !schedule[0].Fails?
    requires left == if CallOn(schedule, size).res > 0 then size - CallOn(schedule, size).res else size
    ensures Writing(schedule, size).rest == Writing(schedule[1..], left).rest
    ensures Writing(schedule, size).end == Writing(schedule[1..], left).end
  {
  }

  lemma NoFailureFirst(first: Outcome, rest: seq<Outcome>)
    ensures NoFailure([first] + rest) <==> !first.Fails? && NoFailure(rest)
  {
    var all := [first] + rest;
    assert all[0] == first;
    assert forall i :: 0 <= i < |rest| ==> rest[i] == all[i + 1];
  }

  /** However the environment cuts and interrupts a read, it completes iff the stream is long
      enough, and reports its end iff not. */
  lemma {:induction false} ReadingCompletesIff(schedule: seq<Outcome>, size: nat, available: nat)
    requires NoFailure(schedule)
    ensures
      var r := Reading(schedule, size, available);
      && (r.end.Complete? <==> size <= available)
      && (r.end.EndOfStream? <==> available < size)
      && r.moved == Min(size, available)
      && NoFailure(r.rest)
    decreases size, |schedule|
  {
    if size != 0 {
      NoFailedCall(schedule, Min(size, available));
      var call := CallOn(schedule, Min(size, available));
      if call.res > 0 {
        ReadingCompletesIff(call.rest, size - call.res, available - call.res);
      } else if call.res < 0 {
        ReadingCompletesIff(call.rest, size, available);
      }
    }
  }

  // ---------------------------------------------------------------- the loops

  /** What is still to be written and what has been written make up the whole transfer. */
  ghost predicate WritesOn(whole: Result, done: nat, schedule: seq<Outcome>, size: nat) {
    whole == Advance(done, Writing(schedule, size))
  }

  ghost predicate ReadsOn(whole: Result, done: nat, schedule: seq<Outcome>, size: nat, available: nat) {
    whole == Advance(done, Reading(schedule, size, available))
  }

  /** One round of full_write. */
  method WriteMore(fd: Socket, buf: seq<byte>, offset: nat, count: nat, ghost before: seq<byte>, ghost whole: Result)
    returns (res: int, eintr: bool)
    requires offset < count <= |buf|
    requires fd.outgoing == before + buf[..offset] && WritesOn(whole, offset, fd.schedule, count - offset)
    modifies fd
    ensures fd.incoming == old(fd.incoming)
    ensures -1 <= res <= count - offset && res != 0 && (res < 0 ==> |fd.schedule| < |old(fd.schedule)|)
    ensures res > 0 ==> fd.outgoing == before + buf[..offset + res]
    ensures res > 0 ==> WritesOn(whole, offset + res, fd.schedule, count - offset - res)
    ensures res < 0 ==> fd.outgoing == before + buf[..offset]
    ensures res < 0 && eintr ==> WritesOn(whole, offset, fd.schedule, count - offset)
    ensures res < 0 && !eintr ==> whole == Result(offset, Failure, fd.schedule)
  {
    res, eintr := fd.Write(buf[offset..count]);
    if res > 0 {
      assert buf[..offset] + buf[offset..count][..res] == buf[..offset + res];
    }
  }

  /** full_write.  The loop ends because each call either shrinks what is left or uses up an
      interruption. */
  method FullWrite(fd: Socket, buf: seq<byte>, count: nat) returns (ret: int)
    requires count <= |buf|
    modifies fd
    ensures fd.incoming == old(fd.incoming)
    ensures var r := Writing(old(fd.schedule), count);
            && fd.schedule == r.rest
            && fd.outgoing == old(fd.outgoing) + buf[..r.moved]
            && ret == if r.end.Complete? then count else -1
  {
    ghost var before, whole := fd.outgoing, Writing(fd.schedule, count);
    var size: nat, offset: nat := count, 0;
    while size > 0
      invariant offset + size == count
      invariant fd.incoming == old(fd.incoming)
      invariant fd.outgoing == before + buf[..offset]
      invariant WritesOn(whole, offset, fd.schedule, size)
      decreases size, |fd.schedule|
    {
      var res, eintr := WriteMore(fd, buf, offset, count, before, whole);
      if res == size {
        return count;
      }
      if res < 0 && eintr {
        continue;
      }
      if res < 0 {
        return res;
      }
      size := size - res;
      offset := offset + res;
    }
    return count;
  }

  /** The first bytes of `stream` have gone to the front of what was `target`. */
  ghost predicate Filling(incoming: seq<byte>, content: seq<byte>, stream: seq<byte>, target: seq<byte>, offset: nat) {
    && offset <= |stream| && offset <= |target|
    && incoming == stream[offset..]
    && content == stream[..offset] + target[offset..]
  }

  /** The next bytes of the stream go behind the ones already there. */
  lemma FillingMore(incoming: seq<byte>, content: seq<byte>, stream: seq<byte>, target: seq<byte>, offset: nat, n: nat)
    requires Filling(incoming, content, stream, target, offset) && n <= |incoming| && offset + n <= |target|
    ensures Filling(incoming[n..], Overwritten(content, offset, incoming[..n]), stream, target, offset + n)
  {
  }

  /** One round of full_read. */
  method ReadMore(fd: Socket, buf: array<byte>, offset: nat, size: nat,
                  ghost stream: seq<byte>, ghost target: seq<byte>, ghost whole: Result)
    returns (res: int, eintr: bool)
    requires 0 < size && offset + size <= buf.Length
    requires Filling(fd.incoming, buf[..], stream, target, offset)
    requires ReadsOn(whole, offset, fd.schedule, size, |fd.incoming|)
    modifies fd, buf
    ensures fd.outgoing == old(fd.outgoing)
    ensures -1 <= res <= size && (res < 0 ==> |fd.schedule| < |old(fd.schedule)|)
    ensures Filling(fd.incoming, buf[..], stream, target, if res > 0 then offset + res else offset)
    ensures res > 0 ==> ReadsOn(whole, offset + res, fd.schedule, size - res, |fd.incoming|)
    ensures res == 0 ==> whole == Result(offset, EndOfStream, fd.schedule)
    ensures res < 0 && eintr ==> ReadsOn(whole, offset, fd.schedule, size, |fd.incoming|)
    ensures res < 0 && !eintr ==> whole == Result(offset, Failure, fd.schedule)
  {
    ghost var incoming, content := fd.incoming, buf[..];
    res, eintr := fd.Read(buf, offset, size);
    if res > 0 {
      FillingMore(incoming, content, stream, target, offset, res);
    }
  }

  /** full_read: `count` bytes into the front of `buf`.  It reports 0 both for a stream that ends
      early and for an empty transfer. */
  method FullRead(fd: Socket, buf: array<byte>, count: nat) returns (ret: int)
    requires count <= buf.Length
    modifies fd, buf
    ensures fd.outgoing == old(fd.outgoing)
    ensures var r := Reading(old(fd.schedule), count, |old(fd.incoming)|);
            && fd.schedule == r.rest
            && fd.incoming == old(fd.incoming)[r.moved..]
            && buf[..] == old(fd.incoming)[..r.moved] + old(buf[r.moved..])
            && ret == match r.end case Complete => count case EndOfStream => 0 case Failure => -1
  {
    ghost var stream, target := fd.incoming, buf[..];
    ghost var whole := Reading(fd.schedule, count, |stream|);
    var size: nat, offset: nat := count, 0;
    while size > 0
      invariant offset + size == count
      invariant fd.outgoing == old(fd.outgoing)
      invariant Filling(fd.incoming, buf[..], stream, target, offset)
      invariant ReadsOn(whole, offset, fd.schedule, size, |fd.incoming|)
      decreases size, |fd.schedule|
    {
      var res, eintr := ReadMore(fd, buf, offset, size, stream, target, whole);
      if res == size {
        return count;
      }
      if res < 0 && eintr {
        continue;
      }
      if res < 0 {
        return res;
      }
      if res == 0 {
        return 0;
      }
      size := size - res;
      offset := offset + res;
    }
    return count;
  }
}
