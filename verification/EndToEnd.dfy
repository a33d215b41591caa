/** From the acquisition thread to the client's buffer: the run of blocks the daemon guarantees,
    the bytes on the wire, the client's reads and its unpacking, put together. */
module EndToEnd {
  import opened HandlerSets
  import opened Wire
  import opened Transfer
  import Framing
  import Handshake
  import opened HandlerThreads
  import opened HandlerInvariant
  import opened Daemon
  import opened DaemonInvariant
  import opened DaemonTheorems
  import Channels
  import SampleQueue
  import Fifo
  import opened Descriptors

  /** A data set the daemon can produce. */
  ghost predicate Sendable(d: DataSet) {
    && d.timestamp < TWO64 && |d.channelData| <= MAX_CHANNELS
    && forall j :: 0 <= j < |d.channelData| ==>
         && |d.channelData[j].analog| == |d.channelData[j].digital|
         && NUM_CHANNELS * |d.channelData[j].analog| <= DATA_SIZE
  }

  /** What is assumed of the generated code: a data set the daemon can produce packs into a
      payload of acceptable length, and unpacks to itself. */
  ghost predicate Serialises(pack: DataSet -> Payload, unpack: Payload -> DataSet) {
    forall d :: Sendable(d) ==> Framing.Deliverable(pack(d)) && unpack(pack(d)) == d
  }

  /** The blocks whose frame is on the wire completely. */
  ghost function Delivered(c: Config, x: Connection): seq<Block> {
    if |x.current| == 1 && x.sent == |FrameOf(c, x)| then x.written + x.current else x.written
  }

  lemma DeliveredIsPublished(c: Config, s: State, h: Thread, i: nat)
    requires ValidConfig(c) && Reachable(c, s) && h in s.connections && i < |Delivered(c, s.connections[h])|
    ensures s.connections[h].registered && s.connections[h].since + i < |s.history|
    ensures Delivered(c, s.connections[h])[i] == s.history[s.connections[h].since + i]
  {
    ReachableStream(c, s, h);
    var x := s.connections[h];
    var out := x.written + x.current;
    assert x.registered && Delivered(c, x)[i] == out[i];
    assert out[i] == s.history[x.since..x.since + |out|][i];
  }

  /** A published block can be projected to the channels of any client, and the result sent. */
  lemma PublishedIsSendable(c: Config, s: State, h: Thread, k: nat)
    requires ValidConfig(c) && Reachable(c, s) && h in s.connections && k < |s.history|
    ensures
      var b, ids := s.history[k], s.connections[h].ids;
      && WellFormed(b) && b.channels == NUM_CHANNELS && ChannelsWithin(ids, b.channels)
      && Sendable(Project(b, ids))
  {
    ReachableHistory(c, s);
    StampedHistory(c, s, k);
    ReachableControl(c, s, h);
  }

  lemma PayloadIsPacked(c: Config, s: State, h: Thread, i: nat)
    requires ValidConfig(c) && Reachable(c, s) && h in s.connections && i < |Delivered(c, s.connections[h])|
    requires forall d :: Sendable(d) ==> Framing.Deliverable(c.pack(d))
    ensures
      var x := s.connections[h];
      var b := Delivered(c, x)[i];
      && WellFormed(b) && ChannelsWithin(x.ids, b.channels) && Sendable(Project(b, x.ids))
      && PayloadsOf(c, x.ids, Delivered(c, x))[i] == c.pack(Project(b, x.ids))
      && Framing.Deliverable(PayloadsOf(c, x.ids, Delivered(c, x))[i])
  {
    DeliveredIsPublished(c, s, h, i);
    PublishedIsSendable(c, s, h, s.connections[h].since + i);
  }

  // ---------------------------------------------------------------- the bytes

  lemma CompleteFrameOnTheWire(c: Config, x: Connection)
    requires ValidConfig(c) && |x.current| == 1 && x.sent == |FrameOf(c, x)|
    requires x.wire == Greeting(c.rate) + Frames(PayloadsOf(c, x.ids, x.written)) + Partial(c, x)
    ensures x.wire == Greeting(c.rate) + Frames(PayloadsOf(c, x.ids, Delivered(c, x)))
  {
    CompletedFrame(c, x);
    FrontFrame(Greeting(c.rate), Frames(PayloadsOf(c, x.ids, x.written)), Partial(c, x));
  }

  lemma PartialIsEnd(c: Config, x: Connection)
    requires SenderInv(c, x) && !(|x.current| == 1 && x.sent == |FrameOf(c, x)|)
    ensures Framing.ParseFrame(Partial(c, x)).End? && Delivered(c, x) == x.written
  {
    if |x.current| == 1 {
      Framing.PartOfFrameIsEnd(PayloadOf(c, x.ids, x.current[0]), x.sent);
    }
  }

  /** The bytes behind the greeting are the frames of the delivered blocks, followed by something
      that reads as the end of the stream. */
  lemma WireIsFrames(c: Config, s: State, h: Thread) returns (tail: seq<byte>)
    requires ValidConfig(c) && Reachable(c, s) && h in s.connections
    requires s.connections[h].registered && !s.connections[h].pc.SendingGreeting?
    ensures
      var x := s.connections[h];
      && x.wire == Greeting(c.rate) + (Frames(PayloadsOf(c, x.ids, Delivered(c, x))) + tail)
      && Framing.ParseFrame(tail).End?
  {
    BytesOnTheWire(c, s, h);
    ReachableSender(c, s, h);
    tail := TailOfWire(c, s.connections[h]);
  }

  lemma ReachableSender(c: Config, s: State, h: Thread)
    requires ValidConfig(c) && Reachable(c, s) && h in s.connections
    ensures SenderInv(c, s.connections[h])
  {
    ReachableData(c, s, h);
  }

  lemma TailOfWire(c: Config, x: Connection) returns (tail: seq<byte>)
    requires ValidConfig(c) && SenderInv(c, x)
    requires x.wire == Greeting(c.rate) + Frames(PayloadsOf(c, x.ids, x.written)) + Partial(c, x)
    ensures x.wire == Greeting(c.rate) + (Frames(PayloadsOf(c, x.ids, Delivered(c, x))) + tail)
    ensures Framing.ParseFrame(tail).End?
  {
    var delivered := Frames(PayloadsOf(c, x.ids, Delivered(c, x)));
    if |x.current| == 1 && x.sent == |FrameOf(c, x)| {
      CompleteFrameOnTheWire(c, x);
      tail := [];
      assert delivered + [] == delivered;
    } else {
      PartialIsEnd(c, x);
      tail := Partial(c, x);
      FrontFrame(Greeting(c.rate), delivered, tail);
    }
  }

  /** The bytes a connection's threads have written, read to the end: the sampling rate, then one
      payload for each block delivered. */
  lemma WrittenBytesRead(c: Config, s: State, h: Thread)
    requires ValidConfig(c) && Reachable(c, s) && h in s.connections
    requires s.connections[h].registered && !s.connections[h].pc.SendingGreeting?
    requires forall d :: Sendable(d) ==> Framing.Deliverable(c.pack(d))
    ensures
      var x := s.connections[h];
      var greeted := Handshake.ParseGreeting(x.wire);
      && greeted.Handle? && greeted.samplingRate == c.rate
      && Framing.ReadAllOf(greeted.rest) == PayloadsOf(c, x.ids, Delivered(c, x))
      && x.since + |Delivered(c, x)| <= |s.history|
  {
    var x := s.connections[h];
    var tail := WireIsFrames(c, s, h);
    var payloads := PayloadsOf(c, x.ids, Delivered(c, x));
    Handshake.GreetingRoundTrip(c.rate, Frames(payloads) + tail);
    forall i | 0 <= i < |payloads| ensures Framing.Deliverable(payloads[i]) {
      PayloadIsPacked(c, s, h, i);
    }
    Framing.FramesRoundTrip(payloads, tail);
    ReachableStream(c, s, h);
  }

  // ---------------------------------------------------------------- the samples

  ghost predicate CarriesSamples(analog: seq<Sample>, digital: seq<Digital>, b: Block, ids: seq<nat>) {
    forall j: nat, k: nat {:trigger Channels.Carries(analog, digital, b, ids, j, k)} ::
      j < |ids| && k < b.points ==> Channels.Carries(analog, digital, b, ids, j, k)
  }

  /** A data set carries a block to a client that chose `ids`: same timestamp, and every sample of
      every chosen channel in its place. */
  ghost predicate CarriesBlock(d: DataSet, b: Block, ids: seq<nat>) {
    && d.timestamp == b.timestamp
    && CarriesSamples(Channels.FlatAnalog(d.channelData), Channels.FlatDigital(d.channelData), b, ids)
  }

  lemma ProjectionCarries(b: Block, ids: seq<nat>)
    requires WellFormed(b) && ChannelsWithin(ids, b.channels)
    ensures CarriesBlock(Project(b, ids), b, ids)
  {
    var ps := Project(b, ids).channelData;
    forall j: nat, k: nat | j < |ids| && k < b.points
      ensures Channels.Carries(Channels.FlatAnalog(ps), Channels.FlatDigital(ps), b, ids, j, k)
    {
      Channels.ClientSampleIsDaemonSample(b, ids, j, k);
    }
  }

  /** The i-th payload carries the i-th block offered to this client. */
  lemma PayloadCarries(c: Config, unpack: Payload -> DataSet, s: State, h: Thread, i: nat)
    requires ValidConfig(c) && Reachable(c, s) && h in s.connections && Serialises(c.pack, unpack)
    requires i < |Delivered(c, s.connections[h])|
    ensures
      var x := s.connections[h];
      && x.since + i < |s.history|
      && CarriesBlock(unpack(PayloadsOf(c, x.ids, Delivered(c, x))[i]), s.history[x.since + i], x.ids)
  {
    var x := s.connections[h];
    DeliveredIsPublished(c, s, h, i);
    PayloadIsPacked(c, s, h, i);
    ProjectionCarries(s.history[x.since + i], x.ids);
  }

  // ---------------------------------------------------------------- what arrives

  /** What a client gets that connects and then reads until the stream ends, when these bytes
      arrive: nothing before the greeting is complete. */
  function ClientReads(stream: seq<byte>): seq<Payload> {
    match Handshake.ParseGreeting(stream)
    case Handle(_, rest) => Framing.ReadAllOf(rest)
    case _ => []
  }

  /** In every state reachable with clear descriptor numbers, a client whose greeting is written
      gets from what has arrived on its connection the daemon's sampling rate and then one payload
      for each block delivered, in order: packed from consecutive published blocks, beginning with
      the first block offered to it. */
  lemma ClientReadsPublishedBlocks(c: Config, number: Numbers, n: Net, h: Thread)
    requires ValidConfig(c) && ReachableNet(c, number, n) && h in n.s.connections
    requires n.s.connections[h].registered && !n.s.connections[h].pc.SendingGreeting?
    requires forall d :: Sendable(d) ==> Framing.Deliverable(c.pack(d))
    ensures h in n.arrived
    ensures
      var x := n.s.connections[h];
      var greeted := Handshake.ParseGreeting(n.arrived[h]);
      && greeted.Handle? && greeted.samplingRate == c.rate
      && ClientReads(n.arrived[h]) == PayloadsOf(c, x.ids, Delivered(c, x))
      && x.since + |Delivered(c, x)| <= |n.s.history|
  {
    ArrivedIsWritten(c, number, n);
    WrittenBytesRead(c, n.s, h);
  }

  /** The i-th data set a client unpacks from what has arrived carries the i-th block offered to
      it: the timestamp, and at k + j * points of its buffer sample k of the j-th channel it chose,
      as the acquisition thread published it. */
  lemma ClientGetsPublishedSamples(c: Config, unpack: Payload -> DataSet, number: Numbers, n: Net, h: Thread, i: nat)
    requires ValidConfig(c) && ReachableNet(c, number, n) && Serialises(c.pack, unpack)
    requires h in n.arrived && i < |ClientReads(n.arrived[h])|
    ensures h in n.s.connections
    ensures
      var x := n.s.connections[h];
      && x.since + i < |n.s.history|
      && CarriesBlock(unpack(ClientReads(n.arrived[h])[i]), n.s.history[x.since + i], x.ids)
  {
    ReadsDelivered(c, number, n, h);
    PayloadCarries(c, unpack, n.s, h, i);
  }

  /** A client that has read anything has read the payloads delivered. */
  lemma ReadsDelivered(c: Config, number: Numbers, n: Net, h: Thread)
    requires ValidConfig(c) && ReachableNet(c, number, n)
    requires h in n.arrived && ClientReads(n.arrived[h]) != []
    requires forall d :: Sendable(d) ==> Framing.Deliverable(c.pack(d))
    ensures Reachable(c, n.s) && h in n.s.connections
    ensures
      var x := n.s.connections[h];
      ClientReads(n.arrived[h]) == PayloadsOf(c, x.ids, Delivered(c, x))
  {
    ArrivedIsWritten(c, number, n);
    GreetedWhenReading(c, n.s, h);
    ClientReadsPublishedBlocks(c, number, n, h);
  }

  /** A data set carries one reading: at k + j * points stands the value the hardware last delivered
      for sample k of the j-th of these channels, and a digital zero. */
  ghost predicate CarriesReading(d: DataSet, r: Reading, ids: seq<nat>, j: nat, k: nat)
    requires j < |ids| && k < r.points
  {
    var analog, digital := Channels.FlatAnalog(d.channelData), Channels.FlatDigital(d.channelData);
    var there, here := k + j * r.points, ids[j] * r.points + k;
    && 0 <= there < |analog| == |digital| && 0 <= here < |r.samples|
    && analog[there] == r.samples[here] && digital[there] == false
  }

  lemma BlockCarriesReading(d: DataSet, b: Block, r: Reading, ids: seq<nat>, j: nat, k: nat)
    requires CarriesBlock(d, b, ids) && b.points == r.points && j < |ids| && k < r.points
    requires |b.analog| == |b.digital| <= |r.samples|
    requires forall i :: 0 <= i < |b.analog| ==> b.analog[i] == r.samples[i]
    requires forall i :: 0 <= i < |b.digital| ==> b.digital[i] == false
    ensures CarriesReading(d, r, ids, j, k)
  {
    assert Channels.Carries(Channels.FlatAnalog(d.channelData), Channels.FlatDigital(d.channelData), b, ids, j, k);
  }

  /** From the hardware to the client: the i-th data set a client unpacks from what has arrived
      carries, for every channel it chose, the reading behind the i-th block offered to it. */
  lemma ClientGetsAcquiredSamples(
    c: Config, unpack: Payload -> DataSet, number: Numbers, n: Net, h: Thread, i: nat, j: nat, k: nat)
    requires ValidConfig(c) && ReachableNet(c, number, n) && Serialises(c.pack, unpack)
    requires h in n.arrived && i < |ClientReads(n.arrived[h])|
    ensures h in n.s.connections && n.s.connections[h].since + i < |n.s.readings|
    ensures
      var x := n.s.connections[h];
      var r := n.s.readings[x.since + i];
      j < |x.ids| && k < r.points ==> CarriesReading(unpack(ClientReads(n.arrived[h])[i]), r, x.ids, j, k)
  {
    ClientGetsPublishedSamples(c, unpack, number, n, h, i);
    ArrivedIsWritten(c, number, n);
    var x := n.s.connections[h];
    var b := x.since + i;
    PublishedIsAcquired(c, n.s, b);
    if j < |x.ids| && k < n.s.readings[b].points {
      BlockCarriesReading(unpack(ClientReads(n.arrived[h])[i]), n.s.history[b], n.s.readings[b], x.ids, j, k);
    }
  }

  /** Before its greeting is complete a client reads nothing. */
  lemma GreetedWhenReading(c: Config, s: State, h: Thread)
    requires ValidConfig(c) && Reachable(c, s) && h in s.connections && ClientReads(s.connections[h].wire) != []
    ensures s.connections[h].registered && !s.connections[h].pc.SendingGreeting?
  {
    BytesOnTheWire(c, s, h);
    var x := s.connections[h];
    if x.registered && x.pc.SendingGreeting? {
      Handshake.PartOfGreetingIsNoHandle(c.rate, |x.wire|);
    }
  }

  // ---------------------------------------------------------------- the sender, as one method

  /** write_buf_element once there is an element: the oldest one leaves the queue, its frame goes
      out, and its memory is freed, whether or not the write succeeded. */
  method WriteBufElement(fd: Socket, buf: SampleQueue.SampleBuffer, ids: seq<nat>, pack: DataSet -> Payload)
    returns (ret: int)
    requires buf.Valid() && buf.count > 0 && buf.inFlight == []
    requires WellFormed(buf.Contents()[0]) && ChannelsWithin(ids, buf.Contents()[0].channels)
    requires |buf.Contents()[0].analog| < TWO32
    modifies fd, buf
    ensures buf.Valid() && buf.inFlight == [] && buf.Contents() == Fifo.Pop(old(buf.Contents()))
    ensures buf.live == old(buf.live) - SampleQueue.Arrays(old(buf.Window())[0])
    ensures SampleQueue.Arrays(old(buf.Window())[0]) <= old(buf.live)
    ensures
      var payload := pack(Project(old(Fifo.Head(buf.Contents())), ids));
      && (NoFailure(old(fd.schedule)) ==>
            fd.outgoing == old(fd.outgoing) + Frame(payload) && (ret > 0 <==> CountFits(payload)))
      && (ret > 0 ==> fd.outgoing == old(fd.outgoing) + Frame(payload))
      && ret != 0
  {
    var slot := buf.TakeFirst();
    ghost var rest := buf.Contents();
    var d := Channels.EncodeDataSet(ids, slot.channels, slot.points, slot.timestamp, slot.analog, slot.digital);
    ghost var sent;
    ret, sent := Framing.WriteFrame(fd, pack(d));
    assert buf.Contents() == rest;
    buf.Release(slot);
  }
}
