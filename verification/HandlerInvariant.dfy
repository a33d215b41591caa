/** What holds of one connection in every state, and why each event keeps it.  The statements
    here are about a connection and its view of the daemon only, so that an event of one
    connection, which changes no other connection's view, needs no argument for the others. */
module HandlerInvariant {
  import opened Wire
  import opened HandlerThreads
  import Fifo

  // ---------------------------------------------------------------- the invariant, by topic

  /** The program points between registering with the sets and leaving them. */
  predicate Enlisted(pc: HandlerPc) {
    !(pc.Handshaking? || pc.Enlisting? || pc.Stopping? || pc.Closing? || pc.Joining? || pc.Cleaning? || pc.Exited?)
  }

  /** The program points at which the published block is being, or is about to be, copied. */
  predicate InCopy(pc: HandlerPc) {
    pc.Reserving? || HoldsQueueLock(pc) || pc.Reporting?
  }

  /** The shared block is `b`, as far as its arrays are not freed. */
  ghost predicate Holds(sh: Shared, b: Block)
    requires InBounds(sh)
  {
    var n := SampleCount(sh.header);
    && sh.header == Header(b.timestamp, b.points, b.channels) && |b.analog| == |b.digital| == n
    && (sh.analogLive ==> b.analog == sh.analog[..n]) && (sh.digitalLive ==> b.digital == sh.digital[..n])
  }

  lemma HoldsSnapshot(sh: Shared, b: Block)
    requires InBounds(sh) && Live(sh)
    ensures Holds(sh, b) <==> b == Snapshot(sh)
  {
  }

  ghost predicate ViewInv(v: View) {
    && (v.mePending ==> v.meActive) && (v.meActive ==> v.meAlive) && !(v.meAlive && v.meDead)
    && InBounds(v.shared)
    && v.offered <= |v.history|
    && (v.mePending ==> 0 < v.offered == |v.history| && Holds(v.shared, v.history[v.offered - 1]))
    && (v.running ==> Live(v.shared))
  }

  ghost predicate RegistrationInv(v: View, x: Connection) {
    && (v.meAlive <==> Enlisted(x.pc))
    && (v.meDead ==> x.registered)
    && (Enlisted(x.pc) ==> x.registered)
    && (x.pc.Handshaking? || x.pc.Enlisting? ==> !x.registered)
    && (x.registered ==> !x.sender.Absent?)
    && (x.pc.Enlisting? ==> !x.sender.Absent?)
    && (x.pc.Handshaking? ==> x.sender.Absent?)
    && (x.pc.Cleaning? || x.pc.Exited? ==> x.sender.Absent? || x.sender.Finished?)
    && (x.pc.Closing? || x.pc.Joining? || x.pc.Cleaning? || x.pc.Exited? ==> !x.running)
    && (x.sender.Finished? ==> !x.running)
    && (x.open <==> !(x.pc.Joining? || x.pc.Cleaning? || x.pc.Exited?))
    && |x.ids| <= MAX_CHANNELS && ChannelsWithin(x.ids, NUM_CHANNELS)
  }

  /** A handler copies only while it is pending. */
  ghost predicate CopyInv(v: View, x: Connection) {
    && (InCopy(x.pc) ==> v.mePending)
    && (x.pc.Rechecking? && v.running ==> v.mePending)
  }

  ghost predicate SenderInv(c: Config, x: Connection) {
    && |x.current| <= 1
    && (x.sender.Absent? || x.sender.Polling? || x.sender.Dequeuing? ==> x.current == [])
    && (x.current == [] ==> x.sent == 0)
    && (x.sender.Sending? ==> |x.current| == 1 && x.sent < |FrameOf(c, x)|)
    && (x.sender.Releasing? ==> |x.current| == 1)
    && (|x.current| == 1 ==> x.sent <= |FrameOf(c, x)|)
    && (x.sender.Releasing? ==> (x.sender.ok <==> Reported(c, x)))
    && (x.sender.Quitting? || x.sender.Finished? ==> !Reported(c, x))
  }

  /** The frame in progress is out completely, and its length fits. */
  ghost predicate Reported(c: Config, x: Connection) {
    |x.current| == 1 && x.sent == |FrameOf(c, x)| && CountFits(PayloadOf(c, x.ids, x.current[0]))
  }

  /** Nothing is queued, and so nothing framed, until the greeting is complete. */
  ghost predicate QuietInv(x: Connection) {
    !x.registered || x.pc.SendingGreeting? ==> Copied(x) == [] && x.freed == {}
  }

  ghost function PayloadsOf(c: Config, ids: seq<nat>, bs: seq<Block>): seq<Payload> {
    seq(|bs|, i requires 0 <= i < |bs| => PayloadOf(c, ids, bs[i]))
  }

  /** The bytes of the frame in progress that are on the wire. */
  ghost function Partial(c: Config, x: Connection): seq<byte> {
    if |x.current| == 1 && x.sent <= |FrameOf(c, x)| then FrameOf(c, x)[..x.sent] else []
  }

  ghost predicate WireInv(c: Config, x: Connection)
    requires c.rate < TWO32
  {
    var greeting := Greeting(c.rate);
    && (!x.registered ==> x.wire == [])
    && (x.pc.SendingGreeting? ==> |x.wire| < |greeting| && x.wire == greeting[..|x.wire|])
    && (x.registered && !x.pc.SendingGreeting? ==>
          x.wire == greeting + Frames(PayloadsOf(c, x.ids, x.written)) + Partial(c, x))
  }

  /** A published block this handler has not copied yet. */
  function Owed(v: View, x: Connection): nat {
    if v.mePending && !x.pc.Reporting? then 1 else 0
  }

  /** These blocks are the published ones from `since` on. */
  ghost predicate IsRun(bs: seq<Block>, history: seq<Block>, since: nat) {
    since + |bs| <= |history| && bs == history[since..since + |bs|]
  }

  /** The copies are a contiguous run of the published blocks, and the run is up to date.  A
      handler that has read freed memory vouches only for what its sender has taken out. */
  ghost predicate StreamInv(v: View, x: Connection) {
    x.registered ==>
      && x.since + |Copied(x)| <= v.offered <= |v.history|
      && IsRun(x.written + x.current, v.history, x.since)
      && (!x.spoiled ==> IsRun(Copied(x), v.history, x.since))
      && (v.meAlive ==> x.since + |Copied(x)| + Owed(v, x) == v.offered)
      && (v.meAlive && !v.meActive ==> Copied(x) == [])
  }

  /** The element being filled is a part of `b`. */
  ghost predicate PartOf(x: Connection, b: Block) {
    var d := x.draft;
    && d.timestamp == b.timestamp && d.points == b.points && d.channels == b.channels
    && |b.analog| == |b.digital| == x.samples && |d.analog| <= x.samples && |d.digital| <= x.samples
    && (!x.spoiled ==> d.analog == b.analog[..|d.analog|] && d.digital == b.digital[..|d.digital|])
  }

  predicate Drafting(pc: HandlerPc) {
    pc.CopyingAnalog? || pc.CopyingDigital? || pc.Enqueuing?
  }

  ghost predicate DraftInv(c: Config, v: View, x: Connection) {
    && (HoldsQueueLock(x.pc) ==>
          x.samples == SampleCount(v.shared.header) <= DATA_SIZE && Fifo.Accepts(x.queue, c.maxElems))
    && (Drafting(x.pc) ==> 0 < v.offered <= |v.history| && PartOf(x, v.history[v.offered - 1]))
    && (x.pc.CopyingAnalog? ==> x.draft.digital == [])
    && (x.pc.CopyingDigital? ==> |x.draft.analog| == x.samples)
    && (x.pc.Enqueuing? ==> |x.draft.analog| == |x.draft.digital| == x.samples)
  }

  /** Every copy made, and the one being made, has its arrays. */
  ghost predicate AllocInv(x: Connection) {
    && x.analogs == |Copied(x)| + (if Drafting(x.pc) then 1 else 0)
    && x.digitals == |Copied(x)| + (if x.pc.CopyingDigital? || x.pc.Enqueuing? then 1 else 0)
  }

  /** Of the copies made, exactly those are freed that the sender is done with, and in the end
      those that were still queued. */
  ghost predicate FreedInv(x: Connection) {
    forall i: nat :: i in x.freed <==>
      || i < |x.written|
      || (i == |x.written| && |x.current| == 1 && (x.sender.Quitting? || x.sender.Finished?))
      || (x.pc.Exited? && Between(|x.written| + |x.current|, i, |Copied(x)|))
  }

  /** Past its last test of `handler_running`, with a copy still to make. */
  function CopyAhead(pc: HandlerPc): nat {
    if pc.Waiting? || pc.Rechecking? || pc.Reserving? || HoldsQueueLock(pc) then 1 else 0
  }

  /** Once the flag is cleared, at most one more block is copied. */
  ghost predicate OverrunInv(x: Connection) {
    if x.running then x.overrun == 0 else x.overrun + CopyAhead(x.pc) <= 1
  }

  /** Where the threads are, and what the copy in progress holds. */
  ghost predicate ControlInv(c: Config, v: View, x: Connection) {
    ViewInv(v) && RegistrationInv(v, x) && CopyInv(v, x) && DraftInv(c, v, x)
  }

  /** What has been copied, framed, written and freed. */
  ghost predicate DataInv(c: Config, v: View, x: Connection)
    requires c.rate < TWO32
  {
    && SenderInv(c, x) && QuietInv(x) && WireInv(c, x) && StreamInv(v, x) && FreedInv(x) && AllocInv(x)
    && OverrunInv(x)
    && |x.queue| < c.maxElems && (x.spoiled ==> !Live(v.shared))
  }

  ghost predicate LocalInv(c: Config, v: View, x: Connection)
    requires c.rate < TWO32
  {
    ControlInv(c, v, x) && DataInv(c, v, x)
  }

  // ---------------------------------------------------------------- start

  lemma FreshKeepsInv(c: Config, v: View)
    requires ValidConfig(c) && ViewInv(v) && !v.meAlive && !v.meDead
    ensures LocalInv(c, v, FRESH)
  {
  }

  // ---------------------------------------------------------------- runs of blocks

  lemma RunGrows(bs: seq<Block>, history: seq<Block>, since: nat)
    requires IsRun(bs, history, since) && since + |bs| < |history|
    ensures IsRun(bs + [history[since + |bs|]], history, since)
  {
  }

  lemma FrontOfRun(bs: seq<Block>, history: seq<Block>, since: nat, m: nat)
    requires IsRun(bs, history, since) && m <= |bs|
    ensures IsRun(bs[..m], history, since)
  {
  }

  lemma RunStays(bs: seq<Block>, history: seq<Block>, since: nat, b: Block)
    requires IsRun(bs, history, since)
    ensures IsRun(bs, history + [b], since)
  {
  }

  // ---------------------------------------------------------------- what does not change

  lemma StreamFrame(v: View, x: Connection, y: Connection)
    requires StreamInv(v, x) && y.registered == x.registered && y.since == x.since && y.spoiled == x.spoiled
    requires Copied(y) == Copied(x) && y.written + y.current == x.written + x.current
    requires y.pc.Reporting? == x.pc.Reporting?
    ensures StreamInv(v, y)
  {
  }

  lemma WireFrame(c: Config, x: Connection, y: Connection)
    requires ValidConfig(c) && WireInv(c, x) && y.wire == x.wire && y.ids == x.ids && y.registered == x.registered
    requires y.pc.SendingGreeting? == x.pc.SendingGreeting? && y.written == x.written
    requires Partial(c, y) == Partial(c, x)
    ensures WireInv(c, y)
  {
  }

  /** Nothing that this connection copies, takes out, sends or frees has changed. */
  lemma QueueFrame(c: Config, x: Connection, y: Connection)
    requires ValidConfig(c) && SenderInv(c, x) && QuietInv(x) && WireInv(c, x) && FreedInv(x)
    requires y.sender == x.sender && y.current == x.current && y.sent == x.sent
    requires y.written == x.written && y.queue == x.queue
    requires y.freed == x.freed && y.wire == x.wire && y.ids == x.ids && y.registered == x.registered
    requires y.pc.SendingGreeting? == x.pc.SendingGreeting? && y.pc.Exited? == x.pc.Exited?
    ensures SenderInv(c, y) && QuietInv(y) && WireInv(c, y) && FreedInv(y)
  {
    WireFrame(c, x, y);
  }

  // ---------------------------------------------------------------- events of the handler

  /** The view after an event of the handler itself: three events move it between the sets. */
  ghost function ViewAfter(v: View, e: HandlerEvent): View {
    match e
    case Enlist => v.(meAlive := true)
    case SetReady => v.(mePending := false)
    case Resign => v.(meAlive := false, meActive := false, mePending := false, meDead := true)
    case _ => v
  }

  lemma HandlerStepKeepsInv(c: Config, v: View, x: Connection, e: HandlerEvent)
    requires ValidConfig(c) && LocalInv(c, v, x) && HandlerGuard(c, v, x, e)
    requires e.Enlist? ==> !v.meDead
    ensures LocalInv(c, ViewAfter(v, e), HandlerStep(c, v, x, e))
  {
    match e {
      case Accept(ids) => AcceptKeepsInv(c, v, x, ids);
      case Enlist => EnlistKeepsInv(c, v, x);
      case Greet(k) => GreetKeepsInv(c, v, x, k);
      case Enqueue => EnqueueKeepsInv(c, v, x);
      case SetReady => SetReadyKeepsInv(c, v, x);
      case Resign => ResignKeepsInv(c, v, x);
      case Cleanup => CleanupKeepsInv(c, v, x);
      case _ => MoveKeepsInv(c, v, x, e);
    }
  }

  /** Events that move the handler on, or fill the element it is copying, and nothing else. */
  predicate IsMove(e: HandlerEvent) {
    || e.Refuse? || e.TestLoop? || e.Wake? || e.Recheck? || e.Reserve? || e.CopyHeader?
    || e.CopyAnalog? || e.CopyDigital? || e.StopFlag? || e.CloseSocket? || e.JoinSender?
  }

  lemma MoveKeepsInv(c: Config, v: View, x: Connection, e: HandlerEvent)
    requires ValidConfig(c) && LocalInv(c, v, x) && HandlerGuard(c, v, x, e) && IsMove(e)
    ensures LocalInv(c, v, HandlerStep(c, v, x, e))
  {
    MoveKeepsControl(c, v, x, e);
    MoveMoves(c, v, x, e);
    MoveKeepsAlloc(c, v, x, e);
    MoveKeepsData(c, v, x, HandlerStep(c, v, x, e));
  }

  /** What such an event changes, and which points it starts from and ends at. */
  predicate Moved(v: View, x: Connection, y: Connection) {
    && y == x.(pc := y.pc, running := y.running, open := y.open, samples := y.samples, draft := y.draft,
               analogs := y.analogs, digitals := y.digitals, spoiled := y.spoiled)
    && (x.spoiled ==> y.spoiled) && (y.spoiled ==> x.spoiled || !Live(v.shared))
    && (y.running ==> x.running)
    && (!y.running ==> CopyAhead(y.pc) <= if x.running then 0 else CopyAhead(x.pc))
    && !x.pc.SendingGreeting? && !x.pc.Reporting? && !x.pc.Exited?
    && !y.pc.SendingGreeting? && !y.pc.Reporting? && !y.pc.Exited?
  }

  lemma MoveMoves(c: Config, v: View, x: Connection, e: HandlerEvent)
    requires c.rate < TWO32 && HandlerGuard(c, v, x, e) && IsMove(e)
    ensures Moved(v, x, HandlerStep(c, v, x, e))
  {
    if IsFlow(e) {
      FlowFlows(c, v, x, e);
    } else {
      CopyMoves(c, v, x, e);
    }
  }

  lemma CopyMoves(c: Config, v: View, x: Connection, e: HandlerEvent)
    requires c.rate < TWO32 && HandlerGuard(c, v, x, e)
    requires e.Reserve? || e.CopyHeader? || e.CopyAnalog? || e.CopyDigital?
    ensures Moved(v, x, HandlerStep(c, v, x, e))
  {
    ReserveMoves(c, v, x);
    CopyHeaderMoves(v, x);
    CopyAnalogMoves(v, x);
    CopyDigitalMoves(v, x);
  }

  lemma ReserveMoves(c: Config, v: View, x: Connection)
    ensures x.pc.Reserving? ==> Moved(v, x, Reserved(c, v, x))
  {
  }

  lemma CopyHeaderMoves(v: View, x: Connection)
    ensures x.pc.CopyingHeader? ==> Moved(v, x, HeaderCopied(v, x))
  {
  }

  lemma CopyAnalogMoves(v: View, x: Connection)
    ensures x.pc.CopyingAnalog? ==> Moved(v, x, AnalogCopied(v, x))
  {
  }

  lemma CopyDigitalMoves(v: View, x: Connection)
    ensures x.pc.CopyingDigital? ==> Moved(v, x, DigitalCopied(v, x))
  {
  }

  lemma MoveKeepsAlloc(c: Config, v: View, x: Connection, e: HandlerEvent)
    requires ControlInv(c, v, x) && c.rate < TWO32 && AllocInv(x) && HandlerGuard(c, v, x, e) && IsMove(e)
    ensures AllocInv(HandlerStep(c, v, x, e))
  {
    assert Copied(HandlerStep(c, v, x, e)) == Copied(x);
  }

  lemma MoveKeepsControl(c: Config, v: View, x: Connection, e: HandlerEvent)
    requires ValidConfig(c) && ControlInv(c, v, x) && HandlerGuard(c, v, x, e) && IsMove(e)
    ensures ControlInv(c, v, HandlerStep(c, v, x, e))
  {
    if e.CopyAnalog? {
      CopyAnalogKeepsControl(c, v, x);
    } else if e.CopyDigital? {
      CopyDigitalKeepsControl(c, v, x);
    } else if e.CopyHeader? {
      CopyHeaderKeepsControl(c, v, x);
    } else if e.Reserve? {
      ReserveKeepsControl(c, v, x);
    } else {
      FlowKeepsControl(c, v, x, e);
    }
  }

  /** Events that only move the handler on. */
  predicate IsFlow(e: HandlerEvent) {
    e.Refuse? || e.TestLoop? || e.Wake? || e.Recheck? || e.StopFlag? || e.CloseSocket? || e.JoinSender?
  }

  lemma FlowKeepsControl(c: Config, v: View, x: Connection, e: HandlerEvent)
    requires c.rate < TWO32 && ControlInv(c, v, x) && HandlerGuard(c, v, x, e) && IsFlow(e)
    ensures ControlInv(c, v, HandlerStep(c, v, x, e))
  {
    FlowFlows(c, v, x, e);
    FlowKeepsRegistration(c, v, x, e);
  }

  lemma FlowFlows(c: Config, v: View, x: Connection, e: HandlerEvent)
    requires c.rate < TWO32 && HandlerGuard(c, v, x, e) && IsFlow(e)
    ensures Flowed(v, x, HandlerStep(c, v, x, e))
  {
    if e.Refuse? || e.TestLoop? || e.Wake? || e.Recheck? {
      LoopFlows(c, v, x, e);
    } else {
      EndFlows(c, v, x, e);
    }
  }

  predicate Flowed(v: View, x: Connection, y: Connection) {
    y == x.(pc := y.pc, running := y.running, open := y.open) && !HoldsQueueLock(y.pc) && Moved(v, x, y)
  }

  lemma LoopFlows(c: Config, v: View, x: Connection, e: HandlerEvent)
    requires c.rate < TWO32 && HandlerGuard(c, v, x, e) && (e.Refuse? || e.TestLoop? || e.Wake? || e.Recheck?)
    ensures Flowed(v, x, HandlerStep(c, v, x, e))
  {
  }

  lemma EndFlows(c: Config, v: View, x: Connection, e: HandlerEvent)
    requires c.rate < TWO32 && HandlerGuard(c, v, x, e) && (e.StopFlag? || e.CloseSocket? || e.JoinSender?)
    ensures Flowed(v, x, HandlerStep(c, v, x, e))
  {
  }

  lemma FlowKeepsRegistration(c: Config, v: View, x: Connection, e: HandlerEvent)
    requires c.rate < TWO32 && HandlerGuard(c, v, x, e) && IsFlow(e)
    requires RegistrationInv(v, x) && CopyInv(v, x)
    ensures RegistrationInv(v, HandlerStep(c, v, x, e)) && CopyInv(v, HandlerStep(c, v, x, e))
  {
  }

  lemma CopyHeaderKeepsControl(c: Config, v: View, x: Connection)
    requires ControlInv(c, v, x) && x.pc.CopyingHeader? && c.rate < TWO32
    ensures ControlInv(c, v, HandlerStep(c, v, x, CopyHeader))
  {
  }

  lemma ReserveKeepsControl(c: Config, v: View, x: Connection)
    requires ControlInv(c, v, x) && x.pc.Reserving? && c.rate < TWO32
    ensures ControlInv(c, v, HandlerStep(c, v, x, Reserve))
  {
  }

  lemma CopyAnalogKeepsControl(c: Config, v: View, x: Connection)
    requires ControlInv(c, v, x) && x.pc.CopyingAnalog? && c.rate < TWO32
    ensures ControlInv(c, v, HandlerStep(c, v, x, CopyAnalog))
  {
    var i := |x.draft.analog|;
    if i < x.samples {
      assert v.shared.analog[..i + 1] == v.shared.analog[..i] + [v.shared.analog[i]];
    }
  }

  lemma CopyDigitalKeepsControl(c: Config, v: View, x: Connection)
    requires ControlInv(c, v, x) && x.pc.CopyingDigital? && c.rate < TWO32
    ensures ControlInv(c, v, HandlerStep(c, v, x, CopyDigital))
  {
    var i := |x.draft.digital|;
    if i < x.samples {
      assert v.shared.digital[..i + 1] == v.shared.digital[..i] + [v.shared.digital[i]];
    }
  }

  lemma MoveKeepsData(c: Config, v: View, x: Connection, y: Connection)
    requires ValidConfig(c) && DataInv(c, v, x) && Moved(v, x, y) && AllocInv(y)
    ensures DataInv(c, v, y)
  {
    QueueFrame(c, x, y);
    MoveKeepsStream(v, x, y);
  }

  lemma MoveKeepsStream(v: View, x: Connection, y: Connection)
    requires StreamInv(v, x) && Moved(v, x, y)
    ensures StreamInv(v, y)
  {
  }

  lemma AcceptKeepsInv(c: Config, v: View, x: Connection, ids: seq<nat>)
    requires ValidConfig(c) && LocalInv(c, v, x) && HandlerGuard(c, v, x, Accept(ids))
    ensures LocalInv(c, v, HandlerStep(c, v, x, Accept(ids)))
  {
  }

  lemma EnlistKeepsInv(c: Config, v: View, x: Connection)
    requires ValidConfig(c) && LocalInv(c, v, x) && x.pc.Enlisting? && !v.meDead
    ensures LocalInv(c, ViewAfter(v, Enlist), HandlerStep(c, v, x, Enlist))
  {
    assert x.wire == Greeting(c.rate)[..0];
  }

  lemma GreetKeepsInv(c: Config, v: View, x: Connection, k: nat)
    requires ValidConfig(c) && LocalInv(c, v, x) && HandlerGuard(c, v, x, Greet(k))
    ensures LocalInv(c, v, HandlerStep(c, v, x, Greet(k)))
  {
    var y := HandlerStep(c, v, x, Greet(k));
    assert y == x.(pc := y.pc, wire := y.wire);
    LoopKeepsControl(c, v, x, y);
    GreetKeepsWire(c, x, k);
    StreamFrame(v, x, y);
  }

  /** Inside the greeting, or around the loop, a handler is alive and copies nothing. */
  lemma LoopKeepsControl(c: Config, v: View, x: Connection, y: Connection)
    requires ControlInv(c, v, x) && y == x.(pc := y.pc, wire := y.wire)
    requires x.pc.SendingGreeting? && (y.pc.SendingGreeting? || y.pc.Testing?)
    ensures ControlInv(c, v, y)
  {
  }

  lemma GreetKeepsWire(c: Config, x: Connection, k: nat)
    requires ValidConfig(c) && WireInv(c, x) && x.pc.SendingGreeting? && x.registered && Copied(x) == []
    requires 0 < k && |x.wire| + k <= |Greeting(c.rate)|
    ensures WireInv(c, Greeted(c, x, k))
  {
    var g := Greeting(c.rate);
    var y := Greeted(c, x, k);
    assert y.wire == g[..|x.wire| + k];
    assert y.written == [] && y.current == [];
    assert Frames(PayloadsOf(c, y.ids, y.written)) == [];
    if |y.wire| == |g| {
      assert y.wire == g + [] + [];
    }
  }

  lemma SetReadyKeepsInv(c: Config, v: View, x: Connection)
    requires ValidConfig(c) && LocalInv(c, v, x) && x.pc.Reporting?
    ensures LocalInv(c, ViewAfter(v, SetReady), HandlerStep(c, v, x, SetReady))
  {
    var y := HandlerStep(c, v, x, SetReady);
    SetReadyKeepsControl(c, v, x);
    QueueFrame(c, x, y);
  }

  lemma SetReadyKeepsControl(c: Config, v: View, x: Connection)
    requires ControlInv(c, v, x) && x.pc.Reporting? && c.rate < TWO32
    ensures ControlInv(c, ViewAfter(v, SetReady), x.(pc := Testing))
  {
  }

  lemma ResignKeepsInv(c: Config, v: View, x: Connection)
    requires ValidConfig(c) && LocalInv(c, v, x) && x.pc.Resigning?
    ensures LocalInv(c, ViewAfter(v, Resign), HandlerStep(c, v, x, Resign))
  {
    var y := HandlerStep(c, v, x, Resign);
    ResignKeepsControl(c, v, x);
    QueueFrame(c, x, y);
  }

  lemma ResignKeepsControl(c: Config, v: View, x: Connection)
    requires ControlInv(c, v, x) && x.pc.Resigning? && c.rate < TWO32
    ensures ControlInv(c, ViewAfter(v, Resign), x.(pc := Stopping))
  {
  }

  lemma CleanupKeepsInv(c: Config, v: View, x: Connection)
    requires ValidConfig(c) && LocalInv(c, v, x) && x.pc.Cleaning?
    ensures LocalInv(c, v, HandlerStep(c, v, x, Cleanup))
  {
    var y := HandlerStep(c, v, x, Cleanup);
    assert y == x.(pc := Exited, freed := y.freed);
    CleanupKeepsFreed(x);
    CleanupKeepsControl(c, v, x, y);
    StreamFrame(v, x, y);
    WireFrame(c, x, y);
  }

  lemma CleanupKeepsFreed(x: Connection)
    requires FreedInv(x) && x.pc.Cleaning?
    ensures FreedInv(Cleaned(x))
  {
    assert Copied(Cleaned(x)) == Copied(x);
  }

  lemma CleanupKeepsControl(c: Config, v: View, x: Connection, y: Connection)
    requires ControlInv(c, v, x) && x.pc.Cleaning? && y == x.(pc := Exited, freed := y.freed)
    ensures ControlInv(c, v, y)
  {
  }

  lemma EnqueueKeepsInv(c: Config, v: View, x: Connection)
    requires ValidConfig(c) && LocalInv(c, v, x) && x.pc.Enqueuing?
    ensures LocalInv(c, v, HandlerStep(c, v, x, Enqueue))
  {
    var y := HandlerStep(c, v, x, Enqueue);
    assert Copied(y) == Copied(x) + [x.draft];
    assert !x.spoiled ==> x.draft == v.history[v.offered - 1];
    EnqueueKeepsStream(v, x, y);
    EnqueueKeepsControl(c, v, x);
    EnqueueKeepsQueue(c, x);
  }

  lemma EnqueueKeepsControl(c: Config, v: View, x: Connection)
    requires ControlInv(c, v, x) && x.pc.Enqueuing?
    ensures ControlInv(c, v, Enqueued(x))
  {
  }

  lemma EnqueueKeepsQueue(c: Config, x: Connection)
    requires ValidConfig(c) && x.pc.Enqueuing? && x.registered
    requires SenderInv(c, x) && WireInv(c, x) && FreedInv(x)
    ensures SenderInv(c, Enqueued(x)) && WireInv(c, Enqueued(x)) && FreedInv(Enqueued(x))
  {
    WireFrame(c, x, Enqueued(x));
  }

  lemma EnqueueKeepsStream(v: View, x: Connection, y: Connection)
    requires StreamInv(v, x) && x.registered && v.mePending && v.meActive && v.meAlive && 0 < v.offered <= |v.history|
    requires x.pc.Enqueuing? && y.pc.Reporting?
    requires y == x.(pc := y.pc, queue := y.queue, draft := y.draft, overrun := y.overrun)
    requires Copied(y) == Copied(x) + [x.draft] && (!x.spoiled ==> x.draft == v.history[v.offered - 1])
    ensures StreamInv(v, y)
  {
    if !x.spoiled {
      RunGrows(Copied(x), v.history, x.since);
    }
  }

  // ---------------------------------------------------------------- events of the sender

  lemma SenderStepKeepsInv(c: Config, v: View, x: Connection, e: SenderEvent)
    requires ValidConfig(c) && LocalInv(c, v, x) && SenderGuard(c, v.running, x, e)
    ensures LocalInv(c, v, SenderStep(c, v.running, x, e))
  {
    match e {
      case Send(k) => SendKeepsInv(c, v, x, k);
      case Release => ReleaseKeepsInv(c, v, x);
      case Dequeue => DequeueKeepsInv(c, v, x);
      case _ => TurnKeepsInv(c, v, x, e);
    }
  }

  lemma TurnKeepsInv(c: Config, v: View, x: Connection, e: SenderEvent)
    requires ValidConfig(c) && LocalInv(c, v, x) && SenderGuard(c, v.running, x, e)
    requires e.Poll? || e.Shut? || e.FailSend? || e.Quit?
    ensures LocalInv(c, v, SenderStep(c, v.running, x, e))
  {
    var y := SenderStep(c, v.running, x, e);
    TurnKeepsControl(c, v, x, y);
    TurnKeepsData(c, v, x, e);
  }

  lemma TurnKeepsData(c: Config, v: View, x: Connection, e: SenderEvent)
    requires ValidConfig(c) && DataInv(c, v, x) && SenderGuard(c, v.running, x, e)
    requires e.Poll? || e.Shut? || e.FailSend? || e.Quit?
    ensures DataInv(c, v, SenderStep(c, v.running, x, e))
  {
    var y := SenderStep(c, v.running, x, e);
    assert y == x.(sender := y.sender, running := y.running);
    StreamFrame(v, x, y);
    WireFrame(c, x, y);
    TurnKeepsSender(c, v, x, e);
  }

  lemma TurnKeepsSender(c: Config, v: View, x: Connection, e: SenderEvent)
    requires SenderInv(c, x) && FreedInv(x) && SenderGuard(c, v.running, x, e)
    requires e.Poll? || e.Shut? || e.FailSend? || e.Quit?
    ensures SenderInv(c, SenderStep(c, v.running, x, e)) && FreedInv(SenderStep(c, v.running, x, e))
  {
  }

  lemma TurnKeepsControl(c: Config, v: View, x: Connection, y: Connection)
    requires ControlInv(c, v, x) && !x.sender.Absent? && !x.sender.Finished? && !y.sender.Absent?
    requires y == x.(sender := y.sender, running := y.running, wire := y.wire, freed := y.freed,
                     written := y.written, current := y.current, sent := y.sent)
    requires (y.running ==> x.running) && (y.sender.Finished? ==> !y.running)
    ensures ControlInv(c, v, y)
  {
  }

  lemma DequeueKeepsInv(c: Config, v: View, x: Connection)
    requires ValidConfig(c) && LocalInv(c, v, x) && SenderGuard(c, v.running, x, Dequeue)
    ensures LocalInv(c, v, SenderStep(c, v.running, x, Dequeue))
  {
    var y := SenderStep(c, v.running, x, Dequeue);
    DequeueKeepsCopied(c, x, v.running);
    DequeueKeepsControl(c, v, x, y);
    DequeueKeepsStream(v, x, y);
    WireFrame(c, x, y);
  }

  lemma DequeueKeepsCopied(c: Config, x: Connection, running: bool)
    requires x.current == [] && SenderGuard(c, running, x, Dequeue)
    ensures
      var y := SenderStep(c, running, x, Dequeue);
      && Copied(y) == Copied(x) && y.written + y.current == Copied(x)[..|x.written| + 1]
      && Partial(c, y) == [] == Partial(c, x)
  {
    var y := SenderStep(c, running, x, Dequeue);
    assert x.current + x.queue == y.current + y.queue;
    assert Copied(x) == x.written + (x.current + x.queue);
  }

  lemma DequeueKeepsControl(c: Config, v: View, x: Connection, y: Connection)
    requires ControlInv(c, v, x) && x.sender.Dequeuing? && !HoldsQueueLock(x.pc)
    requires y == x.(sender := Sending, current := y.current, queue := y.queue, sent := 0)
    ensures ControlInv(c, v, y)
  {
  }

  /** Only a running daemon takes an element out, and then the arrays have not been freed. */
  lemma DequeueKeepsStream(v: View, x: Connection, y: Connection)
    requires StreamInv(v, x) && !x.spoiled && y.spoiled == x.spoiled
    requires y.pc == x.pc && y.registered == x.registered && y.since == x.since
    requires Copied(y) == Copied(x) && |y.written + y.current| <= |Copied(x)|
    requires y.written + y.current == Copied(x)[..|y.written + y.current|]
    ensures StreamInv(v, y)
  {
    if x.registered {
      FrontOfRun(Copied(x), v.history, x.since, |y.written + y.current|);
    }
  }

  lemma SendKeepsInv(c: Config, v: View, x: Connection, k: nat)
    requires ValidConfig(c) && LocalInv(c, v, x) && SenderGuard(c, v.running, x, Send(k))
    ensures LocalInv(c, v, SenderStep(c, v.running, x, Send(k)))
  {
    var y := SenderStep(c, v.running, x, Send(k));
    TurnKeepsControl(c, v, x, y);
    assert x.registered && !x.pc.SendingGreeting?;
    SendKeepsWire(c, x, k);
    StreamFrame(v, x, y);
    assert FrameOf(c, y) == FrameOf(c, x);
  }

  /** The part of the frame on the wire grows. */
  lemma SendKeepsWire(c: Config, x: Connection, k: nat)
    requires ValidConfig(c) && WireInv(c, x) && SenderGuard(c, true, x, Send(k))
    requires x.registered && !x.pc.SendingGreeting?
    ensures WireInv(c, SenderStep(c, true, x, Send(k)))
  {
    var y := SenderStep(c, true, x, Send(k));
    var front, bytes := Greeting(c.rate) + Frames(PayloadsOf(c, x.ids, x.written)), FrameOf(c, x)[x.sent..x.sent + k];
    PartialGrows(c, x, k);
    FrontFrame(front, Partial(c, x), bytes);
    assert y.wire == front + Partial(c, x) + bytes;
  }

  lemma PartialGrows(c: Config, x: Connection, k: nat)
    requires |x.current| == 1 && x.sent + k <= |FrameOf(c, x)|
    ensures Partial(c, Sent(c, x, k)) == Partial(c, x) + FrameOf(c, x)[x.sent..x.sent + k]
  {
    assert FrameOf(c, Sent(c, x, k)) == FrameOf(c, x);
  }

  lemma ReleaseKeepsInv(c: Config, v: View, x: Connection)
    requires ValidConfig(c) && LocalInv(c, v, x) && x.sender.Releasing?
    ensures LocalInv(c, v, SenderStep(c, v.running, x, Release))
  {
    if x.sender.ok {
      ReleaseWrittenKeepsInv(c, v, x);
    } else {
      ReleaseFailedKeepsInv(c, v, x);
    }
  }

  lemma ReleaseFailedKeepsInv(c: Config, v: View, x: Connection)
    requires ValidConfig(c) && LocalInv(c, v, x) && x.sender.Releasing? && !x.sender.ok
    ensures LocalInv(c, v, SenderStep(c, v.running, x, Release))
  {
    var y := SenderStep(c, v.running, x, Release);
    TurnKeepsControl(c, v, x, y);
    StreamFrame(v, x, y);
    WireFrame(c, x, y);
  }

  /** The frame just completed joins the frames written before it. */
  lemma CompletedFrame(c: Config, x: Connection)
    requires ValidConfig(c) && |x.current| == 1 && x.sent == |FrameOf(c, x)|
    ensures Frames(PayloadsOf(c, x.ids, x.written + x.current))
         == Frames(PayloadsOf(c, x.ids, x.written)) + Partial(c, x)
  {
    var b := x.current[0];
    var before := PayloadsOf(c, x.ids, x.written);
    assert PayloadsOf(c, x.ids, x.written + x.current) == before + [PayloadOf(c, x.ids, b)];
    FramesAppend(before, PayloadOf(c, x.ids, b));
    assert Partial(c, x) == FrameOf(c, x);
  }

  lemma ReleaseWrittenKeepsWire(c: Config, x: Connection)
    requires ValidConfig(c) && SenderInv(c, x) && QuietInv(x) && WireInv(c, x) && x.sender.Releasing? && x.sender.ok
    ensures WireInv(c, SenderStep(c, true, x, Release))
  {
    CompletedFrame(c, x);
    FrontFrame(Greeting(c.rate), Frames(PayloadsOf(c, x.ids, x.written)), Partial(c, x));
    assert x.wire == Greeting(c.rate) + Frames(PayloadsOf(c, x.ids, x.written + x.current)) + [];
  }

  lemma ReleaseWrittenKeepsInv(c: Config, v: View, x: Connection)
    requires ValidConfig(c) && LocalInv(c, v, x) && x.sender.Releasing? && x.sender.ok
    ensures LocalInv(c, v, SenderStep(c, v.running, x, Release))
  {
    var y := SenderStep(c, v.running, x, Release);
    TurnKeepsControl(c, v, x, y);
    ReleaseWrittenKeepsWire(c, x);
    ReleaseWrittenKeepsFreed(c, x);
    assert y.written + y.current == x.written + x.current;
    StreamFrame(v, x, y);
  }

  lemma ReleaseWrittenKeepsFreed(c: Config, x: Connection)
    requires FreedInv(x) && |x.current| == 1 && !x.pc.Exited? && x.sender.Releasing? && x.sender.ok
    ensures FreedInv(SenderStep(c, true, x, Release))
  {
  }

  // ---------------------------------------------------------------- changes of the view

  /** The acquisition thread frees its arrays, whatever becomes of what they held. */
  lemma FreeKeepsInv(c: Config, v: View, x: Connection, sh: Shared)
    requires ValidConfig(c) && LocalInv(c, v, x) && !v.running
    requires InBounds(sh) && sh.header == v.shared.header && !Live(sh)
    requires sh.analogLive ==> v.shared.analogLive && sh.analog == v.shared.analog
    requires sh.digitalLive ==> v.shared.digitalLive && sh.digital == v.shared.digital
    ensures LocalInv(c, v.(shared := sh), x)
  {
  }

  lemma ShutdownKeepsInv(c: Config, v: View, x: Connection)
    requires ValidConfig(c) && LocalInv(c, v, x)
    ensures LocalInv(c, v.(running := false), x)
  {
  }

  /** The reader may write the shared block while this handler is not pending. */
  lemma SharedWriteKeepsInv(c: Config, v: View, x: Connection, sh: Shared)
    requires ValidConfig(c) && LocalInv(c, v, x) && !v.mePending && InBounds(sh)
    requires Live(sh) <==> Live(v.shared)
    ensures LocalInv(c, v.(shared := sh), x)
  {
  }

  lemma PublishKeepsInv(c: Config, v: View, x: Connection, sh: Shared, b: Block)
    requires ValidConfig(c) && LocalInv(c, v, x) && !v.mePending && InBounds(sh)
    requires Live(sh) <==> Live(v.shared)
    ensures LocalInv(c, v.(shared := sh, history := v.history + [b]), x)
  {
    if x.registered {
      RunStays(x.written + x.current, v.history, x.since, b);
      if !x.spoiled {
        RunStays(Copied(x), v.history, x.since, b);
      }
    }
  }

  /** A reset after the barrier: everyone alive becomes active and owes one block. */
  lemma ResetKeepsInv(c: Config, v: View, x: Connection)
    requires ValidConfig(c) && LocalInv(c, v, x) && !v.mePending
    requires |v.history| == v.offered + 1 && Holds(v.shared, v.history[v.offered])
    ensures LocalInv(c, v.(offered := |v.history|, meActive := v.meAlive, mePending := v.meAlive), x)
  {
  }

  lemma TakeKeepsInv(c: Config, v: View, x: Connection)
    requires ValidConfig(c) && LocalInv(c, v, x)
    ensures LocalInv(c, v.(meDead := false), x)
  {
  }
}
