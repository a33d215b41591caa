/** The handshake: the client names its channels, the daemon refuses or greets it. */
module Handshake {
  import opened Wire
  import opened Transfer
  import opened Framing
  import opened HandlerThreads

  // ---------------------------------------------------------------- the request

  predicate IsUint32(ids: seq<nat>) {
    forall i :: 0 <= i < |ids| ==> ids[i] < TWO32
  }

  function EncodeIds(ids: seq<nat>): (bytes: seq<byte>)
    requires IsUint32(ids)
    ensures |bytes| == 4 * |ids|
  {
    if ids == [] then [] else EncodeIds(ids[..|ids| - 1]) + Htonl(ids[|ids| - 1])
  }

  function Request(ids: seq<nat>): seq<byte>
    requires IsUint32(ids) && |ids| < TWO32
  {
    Htonl(|ids|) + EncodeIds(ids)
  }

  /** The conversion loop of pm_connect and the two writes after it. */
  method SendRequest(fd: Socket, channels: seq<nat>) returns (ok: bool)
    requires IsUint32(channels) && |channels| < TWO32
    modifies fd
    ensures fd.incoming == old(fd.incoming)
    ensures exists k: nat :: k <= |Request(channels)| && (ok <==> 4 <= k) &&
              fd.outgoing == old(fd.outgoing) + Request(channels)[..k]
    ensures NoFailure(old(fd.schedule)) ==>
              NoFailure(fd.schedule) && ok && fd.outgoing == old(fd.outgoing) + Request(channels)
  {
    var netChannels: seq<byte> := [];
    for i := 0 to |channels|
      invariant netChannels == EncodeIds(channels[..i])
    {
      assert channels[..i + 1][..i] == channels[..i];
      netChannels := netChannels + Htonl(channels[i]);
    }
    assert channels[..|channels|] == channels;
    ghost var start := fd.outgoing;
    var netNc := Htonl(|channels|);
    var err, k := WritePart(fd, netNc);
    CutFirst(start, netNc, netChannels, k);
    assert fd.outgoing == start + Request(channels)[..k];
    ok := err == 4;
    if !ok {
      return;
    }
    if NoFailure(fd.schedule) {
      WritingCompletes(fd.schedule, |netChannels|);
    }
    ghost var moved := Writing(fd.schedule, |netChannels|).moved;
    err := FullWrite(fd, netChannels, |netChannels|);
    CutSecond(start, netNc, netChannels, moved);
    assert Request(channels)[..4 + |netChannels|] == Request(channels);
  }

  datatype Accepted = Refused | Channels(ids: seq<nat>, rest: seq<byte>)

  function DecodeIds(bytes: seq<byte>, n: nat): (ids: seq<nat>)
    requires |bytes| == 4 * n
    ensures |ids| == n && IsUint32(ids)
  {
    seq(n, i requires 0 <= i < n => Ntohl(bytes[4 * i..4 * i + 4]))
  }

  /** The request at the front of a stream, as a daemon with `channels` channels takes it. */
  function ParseRequest(stream: seq<byte>, channels: nat): Accepted {
    if |stream| < 4 then Refused
    else
      var n := Ntohl(stream[..4]);
      if n > MAX_CHANNELS || |stream| < 4 + 4 * n then Refused
      else
        var ids := DecodeIds(stream[4..4 + 4 * n], n);
        if ChannelsWithin(ids, channels) then Channels(ids, stream[4 + 4 * n..]) else Refused
  }

  /** The start of handler_thread_main, up to the check of the last channel number. */
  method ReceiveRequest(fd: Socket, channels: nat) returns (ok: bool, ids: seq<nat>)
    modifies fd
    ensures fd.outgoing == old(fd.outgoing)
    ensures ok ==> |ids| <= MAX_CHANNELS && ChannelsWithin(ids, channels)
    ensures ok ==> ParseRequest(old(fd.incoming), channels) == Channels(ids, fd.incoming)
    ensures NoFailure(old(fd.schedule)) ==>
              NoFailure(fd.schedule) && (ok <==> ParseRequest(old(fd.incoming), channels).Channels?)
  {
    ghost var stream := fd.incoming;
    ok, ids := false, [];
    var netNc := new byte[4];
    var err := ReadPart(fd, netNc);
    if err != 4 {
      return;
    }
    var numChannels := Ntohl(netNc[..]);
    if numChannels > MAX_CHANNELS {
      return;
    }
    var netChannels := new byte[4 * numChannels];
    err := ReadPart(fd, netChannels);
    if err != 4 * numChannels {
      return;
    }
    SplitRequest(stream, numChannels);
    ok, ids := CheckChannels(netChannels, numChannels, channels);
  }

  /** Its loop: all channel numbers converted, and all of them known. */
  method CheckChannels(netChannels: array<byte>, numChannels: nat, channels: nat) returns (ok: bool, ids: seq<nat>)
    requires netChannels.Length == 4 * numChannels
    ensures ok <==> ChannelsWithin(DecodeIds(netChannels[..], numChannels), channels)
    ensures ok ==> ids == DecodeIds(netChannels[..], numChannels)
  {
    ghost var all := DecodeIds(netChannels[..], numChannels);
    ok, ids := false, [];
    for i := 0 to numChannels
      invariant ids == all[..i]
      invariant ChannelsWithin(ids, channels)
    {
      assert netChannels[..][4 * i..4 * i + 4] == netChannels[4 * i..4 * i + 4];
      ids := ids + [Ntohl(netChannels[4 * i..4 * i + 4])];
      assert ids[i] == all[i];
      if ids[i] >= channels {
        return;
      }
    }
    ok := true;
  }

  lemma SplitRequest(stream: seq<byte>, n: nat)
    requires 4 + 4 * n <= |stream|
    ensures stream[4..][..4 * n] == stream[4..4 + 4 * n] && stream[4..][4 * n..] == stream[4 + 4 * n..]
  {
  }

  lemma {:induction false} DecodeEncode(ids: seq<nat>)
    requires IsUint32(ids)
    ensures DecodeIds(EncodeIds(ids), |ids|) == ids
  {
    if ids != [] {
      var front, last := ids[..|ids| - 1], ids[|ids| - 1];
      DecodeEncode(front);
      NetworkOrderRoundTrip(last);
      DecodeAppend(EncodeIds(front), |front|, Htonl(last));
    }
  }

  lemma DecodeAppend(bytes: seq<byte>, n: nat, more: seq<byte>)
    requires |bytes| == 4 * n && |more| == 4
    ensures DecodeIds(bytes + more, n + 1) == DecodeIds(bytes, n) + [Ntohl(more)]
  {
    var all := bytes + more;
    forall i | 0 <= i < n ensures all[4 * i..4 * i + 4] == bytes[4 * i..4 * i + 4] {
    }
    assert all[4 * n..4 * n + 4] == more;
  }

  /** The daemon gets exactly the channels the client chose, or refuses; and it refuses exactly a
      list that is too long or names a channel it does not have. */
  lemma RequestRoundTripIff(ids: seq<nat>, channels: nat, tail: seq<byte>)
    requires IsUint32(ids) && |ids| < TWO32
    ensures ParseRequest(Request(ids) + tail, channels) ==
              if |ids| <= MAX_CHANNELS && ChannelsWithin(ids, channels) then Channels(ids, tail) else Refused
  {
    var s := Request(ids) + tail;
    assert s[..4] == Htonl(|ids|);
    NetworkOrderRoundTrip(|ids|);
    if |ids| <= MAX_CHANNELS {
      assert s[4..4 + 4 * |ids|] == EncodeIds(ids);
      assert s[4 + 4 * |ids|..] == tail;
      DecodeEncode(ids);
    }
  }

  /** A request that is cut anywhere is refused. */
  lemma PartOfRequestIsRefused(ids: seq<nat>, channels: nat, k: nat)
    requires IsUint32(ids) && |ids| < TWO32 && k < |Request(ids)|
    ensures ParseRequest(Request(ids)[..k], channels) == Refused
  {
    if 4 <= k {
      assert Request(ids)[..k][..4] == Htonl(|ids|);
      NetworkOrderRoundTrip(|ids|);
    }
  }

  /** Where the parts of a request stand. */
  lemma RequestLayout(ids: seq<nat>, i: nat)
    requires IsUint32(ids) && |ids| < TWO32 && i < |ids|
    ensures |Request(ids)| == 4 + 4 * |ids| && Ntohl(Request(ids)[..4]) == |ids|
    ensures Ntohl(Request(ids)[4 + 4 * i..8 + 4 * i]) == ids[i]
  {
    assert Request(ids)[..4] == Htonl(|ids|);
    NetworkOrderRoundTrip(|ids|);
    DecodeEncode(ids);
    assert DecodeIds(EncodeIds(ids), |ids|)[i] == ids[i];
    assert Request(ids)[4 + 4 * i..8 + 4 * i] == EncodeIds(ids)[4 * i..4 * i + 4];
  }

  /** The event in which a handler accepts is enabled for exactly the channel lists that can be read
      from some request: at most eight channels, each of them one of the block's eight. */
  lemma AcceptIffParsed(c: Config, v: View, x: HandlerThreads.Connection, ids: seq<nat>)
    requires c.rate < TWO32 && x.pc.Handshaking? && IsUint32(ids) && |ids| < TWO32
    ensures HandlerGuard(c, v, x, Accept(ids)) <==>
              ParseRequest(Request(ids), v.shared.header.channels) == Channels(ids, [])
    ensures HandlerGuard(c, v, x, Accept(ids)) <==>
              |ids| <= 8 && forall j :: 0 <= j < |ids| ==> ids[j] < v.shared.header.channels
  {
    RequestRoundTripIff(ids, v.shared.header.channels, []);
    assert Request(ids) + [] == Request(ids);
  }

  // ---------------------------------------------------------------- the greeting

  datatype Welcomed = NoHandle | Handle(samplingRate: nat, rest: seq<byte>) | BadWelcome

  function ParseGreeting(stream: seq<byte>): Welcomed {
    if |stream| < 17 then NoHandle
    else if stream[..17] != WELCOME_MSG then BadWelcome
    else if |stream| < 21 then NoHandle
    else Handle(Ntohl(stream[17..21]), stream[21..])
  }

  /** The assertions in the daemon's half of the greeting, which end the whole daemon when they fail,
      on the calls to come: both writes complete. */
  predicate GreetingGoesOut(schedule: seq<Outcome>) {
    var welcome := Writing(schedule, 17);
    welcome.end.Complete? && Writing(welcome.rest, 4).end.Complete?
  }

  /** Exactly: no call fails of those the first write consumes, nor of those the second does. */
  lemma GreetingGoesOutIff(schedule: seq<Outcome>)
    ensures
      GreetingGoesOut(schedule) <==>
        && NoFailure(Consumed(schedule, 17))
        && NoFailure(Consumed(Writing(schedule, 17).rest, 4))
  {
    WritingCompletesIff(schedule, 17);
    WritingCompletesIff(Writing(schedule, 17).rest, 4);
  }

  /** The daemon's half of the greeting.  It can be told from the calls to come whether its two
      assertions hold, and they hold exactly when the client takes all of it. */
  method SendGreeting(fd: Socket, rate: nat) returns (asserted: bool)
    requires rate < TWO32
    modifies fd
    ensures fd.incoming == old(fd.incoming)
    ensures asserted <==> GreetingGoesOut(old(fd.schedule))
    ensures asserted ==> fd.outgoing == old(fd.outgoing) + Greeting(rate)
    ensures !asserted ==> exists k: nat :: k < 21 && fd.outgoing == old(fd.outgoing) + Greeting(rate)[..k]
    ensures NoFailure(old(fd.schedule)) ==> NoFailure(fd.schedule) && asserted
  {
    asserted := SendWelcome(fd, rate);
    if asserted {
      asserted := SendRate(fd, rate, old(fd.outgoing));
    }
  }

  method SendWelcome(fd: Socket, rate: nat) returns (asserted: bool)
    requires rate < TWO32
    modifies fd
    ensures fd.incoming == old(fd.incoming)
    ensures asserted <==> Writing(old(fd.schedule), 17).end.Complete?
    ensures fd.schedule == Writing(old(fd.schedule), 17).rest
    ensures asserted ==> fd.outgoing == old(fd.outgoing) + WELCOME_MSG
    ensures !asserted ==> exists k: nat :: k < 21 && fd.outgoing == old(fd.outgoing) + Greeting(rate)[..k]
    ensures NoFailure(old(fd.schedule)) ==> NoFailure(fd.schedule) && asserted
  {
    ghost var start := fd.outgoing;
    var err, k := WritePart(fd, WELCOME_MSG);
    CutFirst(start, WELCOME_MSG, Htonl(rate), k);
    assert fd.outgoing == start + Greeting(rate)[..k];
    asserted := err == 17;
  }

  method SendRate(fd: Socket, rate: nat, ghost start: seq<byte>) returns (asserted: bool)
    requires rate < TWO32 && fd.outgoing == start + WELCOME_MSG
    modifies fd
    ensures fd.incoming == old(fd.incoming)
    ensures asserted <==> Writing(old(fd.schedule), 4).end.Complete?
    ensures asserted ==> fd.outgoing == start + Greeting(rate)
    ensures !asserted ==> exists k: nat :: k < 21 && fd.outgoing == start + Greeting(rate)[..k]
    ensures NoFailure(old(fd.schedule)) ==> NoFailure(fd.schedule) && asserted
  {
    var netSamplingRate := Htonl(rate);
    var err, k := WritePart(fd, netSamplingRate);
    CutSecond(start, WELCOME_MSG, netSamplingRate, k);
    assert fd.outgoing == start + Greeting(rate)[..17 + k];
    assert Greeting(rate)[..21] == Greeting(rate);
    asserted := err == 4;
  }

  datatype ConnectResult = Null | Connected(samplingRate: nat) | AssertionFailed

  /** The rest of pm_connect: the welcome message and the sampling rate. */
  method ReceiveGreeting(fd: Socket) returns (r: ConnectResult)
    modifies fd
    ensures fd.outgoing == old(fd.outgoing)
    ensures r.Connected? ==> ParseGreeting(old(fd.incoming)) == Handle(r.samplingRate, fd.incoming)
    ensures NoFailure(old(fd.schedule)) ==>
              && NoFailure(fd.schedule)
              && (r.Connected? <==> ParseGreeting(old(fd.incoming)).Handle?)
              && (r.Null? <==> ParseGreeting(old(fd.incoming)).NoHandle?)
  {
    ghost var stream := fd.incoming;
    var welcome := new byte[17];
    var err := ReadPart(fd, welcome);
    if err != 17 {
      return Null;
    }
    if welcome[..] != WELCOME_MSG {
      return AssertionFailed;
    }
    var netSamplingRate := new byte[4];
    err := ReadPart(fd, netSamplingRate);
    if err != 4 {
      return Null;
    }
    assert stream[17..][..4] == stream[17..21] && stream[17..][4..] == stream[21..];
    r := Connected(Ntohl(netSamplingRate[..]));
  }

  /** The client learns the daemon's sampling rate, and what follows are the frames. */
  lemma GreetingRoundTrip(rate: nat, tail: seq<byte>)
    requires rate < TWO32
    ensures ParseGreeting(Greeting(rate) + tail) == Handle(rate, tail)
  {
    var s := Greeting(rate) + tail;
    assert s[..17] == WELCOME_MSG && s[17..21] == Htonl(rate) && s[21..] == tail;
    NetworkOrderRoundTrip(rate);
  }

  /** A client that is cut off during the greeting gets no handle. */
  lemma PartOfGreetingIsNoHandle(rate: nat, k: nat)
    requires rate < TWO32 && k < 21
    ensures ParseGreeting(Greeting(rate)[..k]) == NoHandle
  {
    if 17 <= k {
      assert Greeting(rate)[..k][..17] == WELCOME_MSG;
    }
  }
}
