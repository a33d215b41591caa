/** Where the bytes go that a connection's threads write.  A handler closes its descriptor before
    it joins its sender, so the number can be handed out again while that sender still has a
    block to write; what it then writes arrives on another connection. */
module Descriptors {
  import opened HandlerSets
  import opened Wire
  import opened HandlerThreads
  import opened HandlerInvariant
  import opened Daemon
  import opened DaemonInvariant
  import opened DaemonTheorems
  import DaemonRuns
  import Fifo

  /** The daemon, and the bytes that have arrived on each connection. */
  datatype Net = Net(s: State, arrived: map<Thread, seq<byte>>)

  /** The descriptor number each connection is given when it is accepted. */
  type Numbers = Thread -> nat

  predicate Open(s: State, g: Thread) {
    g in s.connections && s.connections[g].open
  }

  /** Closed, but its sender is in the middle of a frame, or can still take one more block. */
  predicate LateWriter(s: State, g: Thread) {
    g in s.connections && !s.connections[g].open && CanWrite(s.connections[g], s.running)
  }

  predicate CanWrite(x: Connection, running: bool) {
    x.sender.Sending? || (x.sender.Dequeuing? && running && x.queue != [])
  }

  /** What the system guarantees: the number of an open descriptor is not given out again, and a
      write through a number that is not open fails. */
  ghost predicate Allowed(number: Numbers, s: State, e: Event) {
    match e
    case Connect(h) => forall g :: Open(s, g) ==> number(g) != number(h)
    case OfSender(h, Send(_)) => exists g :: Open(s, g) && number(g) == number(h)
    case _ => true
  }

  /** What the source relies on beyond that. */
  ghost predicate Clear(number: Numbers, s: State, h: Thread) {
    forall g :: LateWriter(s, g) ==> number(g) != number(h)
  }

  datatype Output = Silent | Bytes(writer: Thread, bytes: seq<byte>)

  ghost function OutputOf(c: Config, s: State, e: Event): Output
    requires ValidConfig(c) && Guard(c, s, e)
  {
    match e
    case OfHandler(h, Greet(k)) =>
      var n := |s.connections[h].wire|;
      Bytes(h, Greeting(c.rate)[n..n + k])
    case OfSender(h, Send(k)) =>
      var x := s.connections[h];
      Bytes(h, FrameOf(c, x)[x.sent..x.sent + k])
    case _ => Silent
  }

  /** The system delivers bytes to the open connection whose number was used. */
  function Deliver(number: Numbers, s: State, arrived: map<Thread, seq<byte>>, o: Output): map<Thread, seq<byte>> {
    map g | g in arrived ::
      if o.Bytes? && Open(s, g) && number(g) == number(o.writer) then arrived[g] + o.bytes else arrived[g]
  }

  ghost predicate NetGuard(c: Config, number: Numbers, n: Net, e: Event)
    requires ValidConfig(c)
  {
    Addressable(n.s) && Guard(c, n.s, e) && Allowed(number, n.s, e)
  }

  ghost function NetStep(c: Config, number: Numbers, n: Net, e: Event): Net
    requires ValidConfig(c) && NetGuard(c, number, n, e)
  {
    Net(Step(c, n.s, e),
        if e.Connect? then n.arrived[e.h := []] else Deliver(number, n.s, n.arrived, OutputOf(c, n.s, e)))
  }

  ghost predicate NetNext(c: Config, number: Numbers, n: Net, n': Net, e: Event)
    requires ValidConfig(c)
  {
    NetGuard(c, number, n, e) && n' == NetStep(c, number, n, e)
  }

  /** A stretch of a run in which every accepted number is clear. */
  ghost predicate Continues(c: Config, number: Numbers, nets: seq<Net>, events: seq<Event>)
    requires ValidConfig(c)
  {
    && |nets| == |events| + 1
    && (forall i :: 0 <= i < |events| ==> NetNext(c, number, nets[i], nets[i + 1], events[i]))
    && (forall i :: 0 <= i < |events| && events[i].Connect? ==> Clear(number, nets[i].s, events[i].h))
  }

  ghost predicate ReachableNet(c: Config, number: Numbers, n: Net)
    requires ValidConfig(c)
  {
    exists nets: seq<Net>, events: seq<Event> ::
      Continues(c, number, nets, events) && Init(c, nets[0].s) && nets[0].arrived == map[] && nets[|events|] == n
  }

  /** On every connection exactly the bytes have arrived that its own threads wrote. */
  ghost predicate Own(n: Net) {
    && n.arrived.Keys == n.s.connections.Keys
    && forall g :: g in n.s.connections ==> n.arrived[g] == n.s.connections[g].wire
  }

  /** No open connection shares its number with another that may still write. */
  ghost predicate Apart(number: Numbers, s: State) {
    forall g, h :: g != h && Open(s, h) && (Open(s, g) || LateWriter(s, g)) ==> number(g) != number(h)
  }

  ghost predicate NetInv(c: Config, number: Numbers, n: Net)
    requires ValidConfig(c)
  {
    Reachable(c, n.s) && Own(n) && Apart(number, n.s)
  }

  // ---------------------------------------------------------------- one connection

  lemma HandlerStepWrites(c: Config, v: View, x: Connection, e: HandlerEvent)
    requires ValidConfig(c) && HandlerGuard(c, v, x, e) && RegistrationInv(v, x)
    ensures
      var x' := HandlerStep(c, v, x, e);
      && (x'.open ==> x.open)
      && (!x.open && CanWrite(x', v.running) ==> CanWrite(x, v.running))
      && x'.wire == x.wire + (if e.Greet? then Greeting(c.rate)[|x.wire|..|x.wire| + e.k] else [])
      && (e.Greet? ==> x.open)
  {
  }

  lemma SenderStepWrites(c: Config, v: View, x: Connection, e: SenderEvent)
    requires ValidConfig(c) && SenderGuard(c, v.running, x, e) && RegistrationInv(v, x)
    ensures
      var x' := SenderStep(c, v.running, x, e);
      && (x'.open <==> x.open)
      && (!x.open && CanWrite(x', v.running) ==> CanWrite(x, v.running))
      && x'.wire == x.wire + (if e.Send? then FrameOf(c, x)[x.sent..x.sent + e.k] else [])
  {
  }

  // ---------------------------------------------------------------- clear numbers suffice

  lemma HandlerOutput(c: Config, s: State, h: Thread, e: HandlerEvent)
    requires ValidConfig(c) && Reachable(c, s) && Addressable(s) && Guard(c, s, OfHandler(h, e))
    ensures
      var s', o := Step(c, s, OfHandler(h, e)), OutputOf(c, s, OfHandler(h, e));
      && h in s'.connections
      && s'.connections[h].wire == s.connections[h].wire + (if o.Bytes? then o.bytes else [])
      && (o.Bytes? ==> o.writer == h && Open(s, h))
  {
    ReachableRegistration(c, s, h);
    HandlerStepWrites(c, ViewOf(s, h), s.connections[h], e);
  }

  lemma SenderOutput(c: Config, s: State, h: Thread, e: SenderEvent)
    requires ValidConfig(c) && Reachable(c, s) && Addressable(s) && Guard(c, s, OfSender(h, e))
    ensures
      var s', o := Step(c, s, OfSender(h, e)), OutputOf(c, s, OfSender(h, e));
      && h in s'.connections
      && s'.connections[h].wire == s.connections[h].wire + (if o.Bytes? then o.bytes else [])
      && (o.Bytes? ==> o.writer == h && (Open(s, h) || LateWriter(s, h)))
  {
    ReachableRegistration(c, s, h);
    SenderStepWrites(c, ViewOf(s, h), s.connections[h], e);
  }

  /** What an event adds to the bytes a connection's threads have written; a thread that writes
      has the descriptor open or is a late writer. */
  lemma OutputIsWritten(c: Config, s: State, e: Event, g: Thread)
    requires ValidConfig(c) && Reachable(c, s) && Addressable(s) && Guard(c, s, e) && g in s.connections
    ensures
      var s', o := Step(c, s, e), OutputOf(c, s, e);
      && g in s'.connections
      && s'.connections[g].wire == s.connections[g].wire + (if o.Bytes? && o.writer == g then o.bytes else [])
      && (o.Bytes? && o.writer == g ==> Open(s, g) || LateWriter(s, g))
  {
    match e
    case OfHandler(h, he) => if h == g { HandlerOutput(c, s, h, he); } else { OthersStay(c, s, e, g); }
    case OfSender(h, se) => if h == g { SenderOutput(c, s, h, se); } else { OthersStay(c, s, e, g); }
    case _ => OthersStay(c, s, e, g);
  }

  /** A closed connection does not become a late writer, and none opens again. */
  lemma WritersShrink(c: Config, s: State, e: Event, g: Thread)
    requires ValidConfig(c) && Reachable(c, s) && Addressable(s) && Guard(c, s, e) && g in s.connections
    ensures
      var s' := Step(c, s, e);
      && (Open(s', g) ==> Open(s, g))
      && (LateWriter(s', g) ==> Open(s, g) || LateWriter(s, g))
  {
    if By(e, g) {
      ReachableRegistration(c, s, g);
      match e
      case OfHandler(_, he) => HandlerStepWrites(c, ViewOf(s, g), s.connections[g], he);
      case OfSender(_, se) => SenderStepWrites(c, ViewOf(s, g), s.connections[g], se);
    } else {
      OthersStay(c, s, e, g);
    }
  }

  lemma ConnectionsComeByConnecting(c: Config, s: State, e: Event)
    requires ValidConfig(c) && Addressable(s) && Guard(c, s, e)
    ensures Step(c, s, e).connections.Keys == s.connections.Keys + if e.Connect? then {e.h} else {}
  {
    forall g
      ensures g in Step(c, s, e).connections.Keys <==> g in s.connections.Keys + if e.Connect? then {e.h} else {}
    {
      if !By(e, g) {
        OthersStay(c, s, e, g);
      }
    }
  }

  lemma StepKeepsApart(c: Config, number: Numbers, s: State, e: Event)
    requires ValidConfig(c) && Reachable(c, s) && Addressable(s)
    requires Guard(c, s, e) && Allowed(number, s, e) && Apart(number, s)
    requires e.Connect? ==> Clear(number, s, e.h)
    ensures Apart(number, Step(c, s, e))
  {
    var s' := Step(c, s, e);
    ConnectionsComeByConnecting(c, s, e);
    forall g | g in s.connections
      ensures (Open(s', g) ==> Open(s, g)) && (LateWriter(s', g) ==> Open(s, g) || LateWriter(s, g))
    {
      WritersShrink(c, s, e, g);
    }
    if e.Connect? {
      assert s'.connections[e.h] == FRESH;
    }
  }

  /** Bytes go to the connection of the thread that writes them, and to no other. */
  lemma OutputGoesHome(c: Config, number: Numbers, s: State, e: Event, g: Thread)
    requires ValidConfig(c) && Reachable(c, s) && Addressable(s)
    requires Guard(c, s, e) && Allowed(number, s, e) && Apart(number, s)
    requires OutputOf(c, s, e).Bytes? && g in s.connections
    ensures Open(s, g) && number(g) == number(OutputOf(c, s, e).writer) <==> g == OutputOf(c, s, e).writer
  {
    var h := OutputOf(c, s, e).writer;
    if e.OfHandler? {
      HandlerOutput(c, s, h, e.he);
    } else {
      SenderOutput(c, s, h, e.se);
    }
  }

  lemma StepKeepsOwn(c: Config, number: Numbers, n: Net, e: Event)
    requires ValidConfig(c) && NetInv(c, number, n) && NetGuard(c, number, n, e)
    ensures Own(NetStep(c, number, n, e))
  {
    ConnectionsComeByConnecting(c, n.s, e);
    NewcomerOwnsNothing(c, number, n, e);
    forall g | g in n.s.connections
      ensures
        var n' := NetStep(c, number, n, e);
        g in n'.arrived && g in n'.s.connections && n'.arrived[g] == n'.s.connections[g].wire
    {
      StepKeepsOneOwn(c, number, n, e, g);
    }
  }

  lemma NewcomerOwnsNothing(c: Config, number: Numbers, n: Net, e: Event)
    requires ValidConfig(c) && NetGuard(c, number, n, e) && Own(n)
    ensures
      var n' := NetStep(c, number, n, e);
      && n'.arrived.Keys == n.arrived.Keys + (if e.Connect? then {e.h} else {})
      && (e.Connect? ==> n'.s.connections[e.h] == FRESH && n'.arrived[e.h] == [])
  {
  }

  lemma StepKeepsOneOwn(c: Config, number: Numbers, n: Net, e: Event, g: Thread)
    requires ValidConfig(c) && NetInv(c, number, n) && NetGuard(c, number, n, e) && g in n.s.connections
    ensures
      var n' := NetStep(c, number, n, e);
      g in n'.arrived && g in n'.s.connections && n'.arrived[g] == n'.s.connections[g].wire
  {
    OutputIsWritten(c, n.s, e, g);
    if OutputOf(c, n.s, e).Bytes? {
      OutputGoesHome(c, number, n.s, e, g);
    }
  }

  lemma StepKeepsNetInv(c: Config, number: Numbers, n: Net, e: Event)
    requires ValidConfig(c) && NetInv(c, number, n) && NetGuard(c, number, n, e)
    requires e.Connect? ==> Clear(number, n.s, e.h)
    ensures NetInv(c, number, NetStep(c, number, n, e))
  {
    StepReachable(c, n.s, e);
    StepKeepsOwn(c, number, n, e);
    StepKeepsApart(c, number, n.s, e);
  }

  lemma {:induction false} ContinuesKeepsNetInv(c: Config, number: Numbers, nets: seq<Net>, events: seq<Event>, i: nat)
    requires ValidConfig(c) && Continues(c, number, nets, events) && NetInv(c, number, nets[0]) && i < |nets|
    ensures NetInv(c, number, nets[i])
  {
    if i > 0 {
      ContinuesKeepsNetInv(c, number, nets, events, i - 1);
      assert NetNext(c, number, nets[i - 1], nets[i - 1 + 1], events[i - 1]);
      StepKeepsNetInv(c, number, nets[i - 1], events[i - 1]);
    }
  }

  /** As long as no accepted number belongs to a late writer, every connection receives what its
      own threads wrote: the greeting and whole frames, as BytesOnTheWire says. */
  lemma ArrivedIsWritten(c: Config, number: Numbers, n: Net)
    requires ValidConfig(c) && ReachableNet(c, number, n)
    ensures NetInv(c, number, n)
  {
    var nets: seq<Net>, events: seq<Event> :|
      Continues(c, number, nets, events) && Init(c, nets[0].s) && nets[0].arrived == map[] && nets[|events|] == n;
    DaemonRuns.InitReachable(c, nets[0].s);
    ContinuesKeepsNetInv(c, number, nets, events, |events|);
  }

  // ---------------------------------------------------------------- and are necessary

  /** An open connection `h` has the number of the late writer `g`, and only bytes of its own. */
  ghost predicate Endangered(c: Config, number: Numbers, n: Net, g: Thread, h: Thread)
    requires ValidConfig(c)
  {
    && Reachable(c, n.s) && Addressable(n.s)
    && g != h && LateWriter(n.s, g) && Open(n.s, h) && number(g) == number(h)
    && h in n.arrived && n.arrived[h] == n.s.connections[h].wire
  }

  /** A sender in the middle of a frame writes one more byte through its old number. */
  lemma StrayByte(c: Config, number: Numbers, n: Net, g: Thread, h: Thread) returns (n': Net, e: Event)
    requires ValidConfig(c) && Endangered(c, number, n, g, h) && n.s.connections[g].sender.Sending?
    ensures NetNext(c, number, n, n', e) && !e.Connect? && !Own(n')
  {
    ReachableData(c, n.s, g);
    e := OfSender(g, Send(1));
    n' := NetStep(c, number, n, e);
    OthersStay(c, n.s, e, h);
    assert |n'.arrived[h]| == |n.s.connections[h].wire| + 1;
  }

  /** A sender that still finds a block takes it out. */
  lemma LateDequeue(c: Config, number: Numbers, n: Net, g: Thread, h: Thread) returns (n': Net, e: Event)
    requires ValidConfig(c) && Endangered(c, number, n, g, h) && n.s.connections[g].sender.Dequeuing?
    ensures NetNext(c, number, n, n', e) && !e.Connect?
    ensures Endangered(c, number, n', g, h) && n'.s.connections[g].sender.Sending?
  {
    ReachableControl(c, n.s, g);
    e := OfSender(g, Dequeue);
    n' := NetStep(c, number, n, e);
    OthersStay(c, n.s, e, h);
    StepReachable(c, n.s, e);
    AlwaysAddressable(c, n'.s);
  }

  lemma AcceptEndangers(c: Config, number: Numbers, n: Net, g: Thread, h: Thread)
    requires ValidConfig(c) && NetInv(c, number, n) && NetGuard(c, number, n, Connect(h))
    requires LateWriter(n.s, g) && number(g) == number(h)
    ensures Endangered(c, number, NetStep(c, number, n, Connect(h)), g, h)
    ensures
      var x := NetStep(c, number, n, Connect(h)).s.connections[g];
      x.sender.Sending? || x.sender.Dequeuing?
  {
    StepReachable(c, n.s, Connect(h));
    AlwaysAddressable(c, Step(c, n.s, Connect(h)));
  }

  /** If the number given to `h` is that of a late writer, at most two more steps of that writer
      put a byte of its frame on h's connection. */
  lemma Misdelivery(c: Config, number: Numbers, n: Net, h: Thread) returns (nets: seq<Net>, events: seq<Event>)
    requires ValidConfig(c) && NetInv(c, number, n) && NetGuard(c, number, n, Connect(h))
    requires !Clear(number, n.s, h)
    ensures Continues(c, number, nets, events) && nets[0] == NetStep(c, number, n, Connect(h))
    ensures !Own(nets[|events|])
  {
    var g :| LateWriter(n.s, g) && number(g) == number(h);
    var n1 := NetStep(c, number, n, Connect(h));
    AcceptEndangers(c, number, n, g, h);
    if n1.s.connections[g].sender.Sending? {
      var n2, e := StrayByte(c, number, n1, g, h);
      nets, events := [n1, n2], [e];
    } else {
      var n2, e := LateDequeue(c, number, n1, g, h);
      var n3, e' := StrayByte(c, number, n2, g, h);
      nets, events := [n1, n2, n3], [e, e'];
    }
  }

  /** Exactly when a connection can be accepted without harm: from then on, as long as later
      numbers are clear, every connection receives only its own bytes if and only if the number
      is not one through which a closed connection's sender will still write. */
  lemma AcceptIsSafeIff(c: Config, number: Numbers, n: Net, h: Thread)
    requires ValidConfig(c) && ReachableNet(c, number, n) && NetGuard(c, number, n, Connect(h))
    ensures
      Clear(number, n.s, h) <==>
        forall nets: seq<Net>, events: seq<Event> ::
          Continues(c, number, nets, events) && nets[0] == NetStep(c, number, n, Connect(h)) ==> Own(nets[|events|])
  {
    ArrivedIsWritten(c, number, n);
    if Clear(number, n.s, h) {
      StepKeepsNetInv(c, number, n, Connect(h));
      forall nets: seq<Net>, events: seq<Event> |
        Continues(c, number, nets, events) && nets[0] == NetStep(c, number, n, Connect(h))
        ensures Own(nets[|events|])
      {
        ContinuesKeepsNetInv(c, number, nets, events, |events|);
      }
    } else {
      var nets, events := Misdelivery(c, number, n, h);
    }
  }

  // ---------------------------------------------------------------- a run in which it happens

  /** One more event of a run. */
  lemma Go(c: Config, number: Numbers, n: Net, e: Event) returns (n': Net)
    requires ValidConfig(c) && ReachableNet(c, number, n) && NetGuard(c, number, n, e)
    requires e.Connect? ==> Clear(number, n.s, e.h)
    ensures ReachableNet(c, number, n') && Addressable(n'.s) && n' == NetStep(c, number, n, e)
  {
    n' := NetStep(c, number, n, e);
    OneMoreEvent(c, number, n, e);
    ArrivedIsWritten(c, number, n');
    AlwaysAddressable(c, n'.s);
  }

  lemma OneMoreEvent(c: Config, number: Numbers, n: Net, e: Event)
    requires ValidConfig(c) && ReachableNet(c, number, n) && NetGuard(c, number, n, e)
    requires e.Connect? ==> Clear(number, n.s, e.h)
    ensures ReachableNet(c, number, NetStep(c, number, n, e))
  {
    var n' := NetStep(c, number, n, e);
    var nets: seq<Net>, events: seq<Event> :|
      Continues(c, number, nets, events) && Init(c, nets[0].s) && nets[0].arrived == map[] && nets[|events|] == n;
    var more, longer := nets + [n'], events + [e];
    ContinuesAppend(c, number, nets, events, e, n');
    assert more[0] == nets[0] && more[|longer|] == n';
  }

  lemma ContinuesAppend(c: Config, number: Numbers, nets: seq<Net>, events: seq<Event>, e: Event, n': Net)
    requires ValidConfig(c) && Continues(c, number, nets, events) && NetNext(c, number, nets[|events|], n', e)
    requires e.Connect? ==> Clear(number, nets[|events|].s, e.h)
    ensures Continues(c, number, nets + [n'], events + [e])
  {
    var more, longer := nets + [n'], events + [e];
    forall i | 0 <= i < |longer| ensures NetNext(c, number, more[i], more[i + 1], longer[i]) {
      if i < |events| {
        assert NetNext(c, number, nets[i], nets[i + 1], events[i]);
      }
    }
  }

  /** A run with one client so far, whose connection is `x`. */
  ghost predicate Single(c: Config, number: Numbers, n: Net, x: Connection)
    requires ValidConfig(c)
  {
    && ReachableNet(c, number, n) && Addressable(n.s)
    && n.s.connections == map[0 := x]
  }

  lemma HandlerGo(c: Config, number: Numbers, n: Net, x: Connection, e: HandlerEvent) returns (n': Net, x': Connection)
    requires ValidConfig(c) && Single(c, number, n, x) && HandlerGuard(c, ViewOf(n.s, 0), x, e)
    ensures Single(c, number, n', x') && x' == HandlerStep(c, ViewOf(n.s, 0), x, e)
    ensures n'.s.running == n.s.running && n'.s.shared == n.s.shared && n'.s.reader == n.s.reader
    ensures n'.s.sets == SetsAfter(n.s.sets, 0, e)
  {
    x' := HandlerStep(c, ViewOf(n.s, 0), x, e);
    n' := Go(c, number, n, OfHandler(0, e));
    assert n'.s.connections == map[0 := x'];
  }

  lemma SenderGo(c: Config, number: Numbers, n: Net, x: Connection, e: SenderEvent) returns (n': Net, x': Connection)
    requires ValidConfig(c) && Single(c, number, n, x) && SenderGuard(c, n.s.running, x, e) && !e.Send?
    ensures Single(c, number, n', x') && x' == SenderStep(c, n.s.running, x, e)
    ensures n'.s.running == n.s.running && n'.s.shared == n.s.shared && n'.s.reader == n.s.reader
    ensures n'.s.sets == n.s.sets
  {
    x' := SenderStep(c, n.s.running, x, e);
    n' := Go(c, number, n, OfSender(0, e));
    assert n'.s.connections == map[0 := x'];
  }

  lemma ReaderGo(c: Config, number: Numbers, n: Net, x: Connection, e: ReaderEvent) returns (n': Net)
    requires ValidConfig(c) && Single(c, number, n, x) && ReaderGuard(n.s, e)
    ensures Single(c, number, n', x) && n'.s == ReaderStep(c, n.s, e)
  {
    n' := Go(c, number, n, OfReader(e));
  }

  lemma OneEnlisted(c: Config, number: Numbers) returns (n: Net, x: Connection)
    requires ValidConfig(c)
    ensures Idle(c, number, n, x) && DaemonRuns.JustEnlisted(x) && x.sender.Polling?
  {
    var start := Net(DaemonRuns.Start(), map[]);
    assert Continues(c, number, [start], []);
    assert ReachableNet(c, number, start);
    n := Go(c, number, start, Connect(0));
    x := FRESH;
    assert n.s.connections == map[0 := x];
    n, x := HandlerGo(c, number, n, x, Accept([]));
    n, x := HandlerGo(c, number, n, x, Enlist);
  }

  /** The daemon runs, and the acquisition thread finds the barrier open. */
  ghost predicate Idle(c: Config, number: Numbers, n: Net, x: Connection)
    requires ValidConfig(c)
  {
    && Single(c, number, n, x) && n.s.running && n.s.reader.pc.AtLoop?
    && BarrierOpen(n.s.sets) && 0 in n.s.sets.alive
  }

  /** The only client still has to copy a block of no samples. */
  ghost predicate Told(c: Config, number: Numbers, n: Net, x: Connection)
    requires ValidConfig(c)
  {
    && Single(c, number, n, x) && n.s.running && n.s.reader.pc.AtLoop?
    && 0 in n.s.sets.pending && SampleCount(n.s.shared.header) == 0
  }

  lemma OneRead(c: Config, number: Numbers, n: Net, x: Connection) returns (n': Net)
    requires ValidConfig(c) && Idle(c, number, n, x)
    ensures Single(c, number, n', x) && n'.s.running && n'.s.sets == n.s.sets
    ensures n'.s.reader.pc.Stamping? && n'.s.reader.points == 0
  {
    n' := ReaderGo(c, number, n, x, LoopTest);
    n' := ReaderGo(c, number, n', x, PassBarrier);
    n' := ReaderGo(c, number, n', x, RecheckRunning);
    n' := ReaderGo(c, number, n', x, ReadDone(0));
    n' := ReaderGo(c, number, n', x, Digitize);
  }

  lemma OnePublished(c: Config, number: Numbers, n: Net, x: Connection) returns (n': Net)
    requires ValidConfig(c) && Single(c, number, n, x) && n.s.running && 0 in n.s.sets.alive
    requires n.s.reader.pc.Stamping? && n.s.reader.points == 0
    ensures Told(c, number, n', x)
  {
    n' := ReaderGo(c, number, n, x, Stamp);
    n' := ReaderGo(c, number, n', x, Publish);
    n' := ReaderGo(c, number, n', x, ResetReady);
  }

  /** A handler in its loop wakes up and is about to test for space. */
  lemma OneWoken(c: Config, number: Numbers, n: Net, x: Connection) returns (n': Net, x': Connection)
    requires ValidConfig(c) && Told(c, number, n, x) && x.pc.Testing? && x.running
    ensures Told(c, number, n', x') && x' == x.(pc := Reserving)
  {
    n', x' := HandlerGo(c, number, n, x, TestLoop);
    n', x' := HandlerGo(c, number, n', x', Wake);
    n', x' := HandlerGo(c, number, n', x', Recheck);
  }

  lemma OneCopied(c: Config, number: Numbers, n: Net, x: Connection) returns (n': Net, x': Connection)
    requires ValidConfig(c) && Told(c, number, n, x) && x.pc.Reserving? && Fifo.Accepts(x.queue, c.maxElems)
    ensures Told(c, number, n', x') && x'.pc.Reporting? && |x'.queue| == |x.queue| + 1
    ensures x'.sender == x.sender && x'.running == x.running
  {
    n', x' := HandlerGo(c, number, n, x, Reserve);
    n', x' := OneFilled(c, number, n', x');
    n', x' := HandlerGo(c, number, n', x', Enqueue);
  }

  lemma OneFilled(c: Config, number: Numbers, n: Net, x: Connection) returns (n': Net, x': Connection)
    requires ValidConfig(c) && Told(c, number, n, x) && x.pc.CopyingHeader? && x.samples == 0
    ensures Told(c, number, n', x') && x'.pc.Enqueuing? && x'.queue == x.queue
    ensures x'.sender == x.sender && x'.running == x.running
  {
    n', x' := HandlerGo(c, number, n, x, CopyHeader);
    n', x' := HandlerGo(c, number, n', x', CopyAnalog);
    n', x' := HandlerGo(c, number, n', x', CopyDigital);
  }

  /** Nobody but the only client can be pending; when it has reported, the barrier is open. */
  lemma OneReported(c: Config, number: Numbers, n: Net, x: Connection) returns (n': Net, x': Connection)
    requires ValidConfig(c) && Told(c, number, n, x) && x.pc.Reporting?
    ensures Idle(c, number, n', x') && x' == x.(pc := Testing)
  {
    ArrivedIsWritten(c, number, n);
    OnlyOnePending(c, n.s);
    ReportOpens(n.s.sets);
    n', x' := HandlerGo(c, number, n, x, SetReady);
  }

  lemma OnlyOnePending(c: Config, s: State)
    requires ValidConfig(c) && Reachable(c, s) && s.connections.Keys == {0} && 0 in s.sets.pending
    ensures SetsInv(s.sets) && s.sets.pending.Keys == {0}
  {
    ReachableBooks(c, s);
    forall h | h in s.sets.pending ensures h == 0 {
      AliveIsConnected(c, s, h);
    }
  }

  lemma ReportOpens(s: Sets)
    requires SetsInv(s) && s.pending.Keys == {0}
    ensures 0 in s.active && 0 in s.alive && BarrierOpen(Ready(s, 0)) && Ready(s, 0).alive == s.alive
  {
    assert 0 in s.pending;
    HandlerSets.ReadyKeepsInv(s, 0);
    assert Ready(s, 0).pending.Keys == {};
    BarrierOpenMeansNonePending(Ready(s, 0));
  }

  /** A client whose sender is in the middle of a frame, and so takes nothing out of the queue. */
  ghost predicate Stuck(c: Config, number: Numbers, n: Net, x: Connection)
    requires ValidConfig(c)
  {
    Idle(c, number, n, x) && x.pc.Testing? && x.running && x.sender.Sending?
  }

  /** The first block is copied, and the sender begins to write it. */
  lemma FirstBlock(c: Config, number: Numbers) returns (n: Net, x: Connection)
    requires ValidConfig(c) && 2 <= c.maxElems
    ensures Stuck(c, number, n, x)
  {
    n, x := OneEnlisted(c, number);
    n := OneRead(c, number, n, x);
    n := OnePublished(c, number, n, x);
    n, x := HandlerGo(c, number, n, x, Greet(|Greeting(c.rate)|));
    n, x := OneWoken(c, number, n, x);
    n, x := OneCopied(c, number, n, x);
    n, x := OneReported(c, number, n, x);
    n, x := SenderGo(c, number, n, x, Poll);
    n, x := SenderGo(c, number, n, x, Dequeue);
  }

  /** Block after block is published, until the queue is full and the handler drops the client. */
  lemma {:induction false} BlocksUntilFull(c: Config, number: Numbers, n: Net, x: Connection)
    returns (n': Net, x': Connection)
    requires ValidConfig(c) && Stuck(c, number, n, x)
    ensures Told(c, number, n', x') && x'.pc.Reserving? && x'.sender.Sending? && !Fifo.Accepts(x'.queue, c.maxElems)
    decreases if |x.queue| < c.maxElems then c.maxElems - |x.queue| else 0
  {
    n' := OneRead(c, number, n, x);
    n' := OnePublished(c, number, n', x);
    n', x' := OneWoken(c, number, n', x);
    if Fifo.Accepts(x'.queue, c.maxElems) {
      n', x' := OneCopied(c, number, n', x');
      n', x' := OneReported(c, number, n', x');
      n', x' := BlocksUntilFull(c, number, n', x');
    }
  }

  lemma OneDropped(c: Config, number: Numbers, n: Net, x: Connection) returns (n': Net, x': Connection)
    requires ValidConfig(c) && Told(c, number, n, x) && x.pc.Reserving? && x.sender.Sending?
    requires !Fifo.Accepts(x.queue, c.maxElems)
    ensures Single(c, number, n', x') && n'.s.running && x'.sender.Sending? && !x'.open
  {
    n', x' := HandlerGo(c, number, n, x, Reserve);
    n', x' := HandlerGo(c, number, n', x', Resign);
    n', x' := HandlerGo(c, number, n', x', StopFlag);
    n', x' := HandlerGo(c, number, n', x', CloseSocket);
  }

  /** It can happen in service: a client reads so slowly that its sender is still writing one block
      when the queue is full; its handler drops it and closes the descriptor, and a client accepted
      after that is given the number.  AcceptIsSafeIff says that a later byte of the first client's
      block can then arrive on the second client's connection. */
  lemma AcceptCanBeUnsafe(c: Config)
    requires ValidConfig(c) && 2 <= c.maxElems
    ensures exists number, n ::
              ReachableNet(c, number, n) && NetGuard(c, number, n, Connect(1)) && !Clear(number, n.s, 1) && n.s.running
  {
    var number: Numbers := _ => 0;
    var n, x := FirstBlock(c, number);
    n, x := BlocksUntilFull(c, number, n, x);
    n, x := OneDropped(c, number, n, x);
    SingleIsUnsafe(c, number, n, x);
  }

  lemma SingleIsUnsafe(c: Config, number: Numbers, n: Net, x: Connection)
    requires ValidConfig(c) && Single(c, number, n, x) && x.sender.Sending? && !x.open && number(0) == number(1)
    ensures NetGuard(c, number, n, Connect(1)) && !Clear(number, n.s, 1)
  {
    assert LateWriter(n.s, 0);
  }
}
