/** The barrier never wedges.  Each pending handler can always take a step, each of its steps
    lowers a rank, and nothing raises the rank again until the acquisition thread announces the
    next block. */
module Progress {
  import opened HandlerSets
  import opened HandlerThreads
  import opened HandlerInvariant
  import opened Daemon
  import opened DaemonInvariant
  import opened DaemonTheorems

  // ---------------------------------------------------------------- sums over finite maps

  ghost function Sum(m: map<Thread, nat>): nat {
    if m == map[] then 0
    else
      assert m.Keys != {};
      var t :| t in m;
      m[t] + Sum(m - {t})
  }

  /** The sum does not depend on the order of summation. */
  lemma {:induction false} SumRemove(m: map<Thread, nat>, t: Thread)
    requires t in m
    ensures Sum(m) == m[t] + Sum(m - {t})
    decreases |m|
  {
    assert m.Keys != {};
    var u: Thread :| u in m && Sum(m) == m[u] + Sum(m - {u});
    if u != t {
      SumRemove(m - {u}, t);
      SumRemove(m - {t}, u);
      assert m - {u} - {t} == m - {t} - {u};
    }
  }

  lemma {:induction false} SumMonotone(m: map<Thread, nat>, m': map<Thread, nat>)
    requires m'.Keys <= m.Keys && forall t :: t in m' ==> m'[t] <= m[t]
    ensures Sum(m') <= Sum(m)
    decreases |m|
  {
    if m != map[] {
      assert m.Keys != {};
      var t :| t in m;
      SumRemove(m, t);
      SumMonotone(m - {t}, m' - {t});
      if t in m' {
        SumRemove(m', t);
      } else {
        assert m' - {t} == m';
      }
    } else {
      assert m'.Keys == {};
    }
  }

  lemma SumDrops(m: map<Thread, nat>, m': map<Thread, nat>, t: Thread)
    requires m'.Keys <= m.Keys && forall u :: u in m' ==> m'[u] <= m[u]
    requires t in m && 0 < m[t] && (t in m' ==> m'[t] < m[t])
    ensures Sum(m') < Sum(m)
  {
    SumRemove(m, t);
    SumMonotone(m - {t}, m' - {t});
    if t in m' {
      SumRemove(m', t);
    } else {
      assert m' - {t} == m';
    }
  }

  // ---------------------------------------------------------------- the rank of one handler

  function Left(whole: nat, part: nat): nat {
    if part < whole then whole - part else 0
  }

  /** How many steps at most separate a handler from reporting ready or leaving. */
  function Rank(v: View, x: Connection): (r: nat)
    ensures r > 0
  {
    var n := SampleCount(v.shared.header);
    match x.pc
    case SendingGreeting => 10 + 2 * n + Left(21, |x.wire|)
    case Testing => 9 + 2 * n
    case Waiting => 8 + 2 * n
    case Rechecking => 7 + 2 * n
    case Reserving => 6 + 2 * n
    case CopyingHeader => 5 + 2 * n
    case CopyingAnalog => 4 + n + Left(n, |x.draft.analog|)
    case CopyingDigital => 3 + Left(n, |x.draft.digital|)
    case Enqueuing => 2
    case _ => 1
  }

  /** The event a pending handler can take next. */
  function NextEvent(x: Connection): HandlerEvent {
    match x.pc
    case SendingGreeting => Greet(1)
    case Testing => TestLoop
    case Waiting => Wake
    case Rechecking => Recheck
    case Reserving => Reserve
    case CopyingHeader => CopyHeader
    case CopyingAnalog => CopyAnalog
    case CopyingDigital => CopyDigital
    case Enqueuing => Enqueue
    case Reporting => SetReady
    case _ => Resign
  }

  lemma PendingEnabled(c: Config, v: View, x: Connection)
    requires ValidConfig(c) && LocalInv(c, v, x) && v.mePending
    ensures HandlerGuard(c, v, x, NextEvent(x))
  {
  }

  lemma OwnStepLowersRank(c: Config, v: View, x: Connection, e: HandlerEvent)
    requires ValidConfig(c) && ControlInv(c, v, x) && Enlisted(x.pc) && HandlerGuard(c, v, x, e)
    ensures e.SetReady? || e.Resign? || Rank(v, HandlerStep(c, v, x, e)) < Rank(v, x)
    ensures !e.Refuse? && !e.Accept? && !e.Enlist?
  {
  }

  /** The sender shares the socket with its handler, and still cannot set it back. */
  lemma SenderStepKeepsRank(c: Config, v: View, x: Connection, e: SenderEvent)
    requires ValidConfig(c) && SenderInv(c, x) && QuietInv(x) && SenderGuard(c, v.running, x, e)
    ensures Rank(v, SenderStep(c, v.running, x, e)) == Rank(v, x)
  {
    var y := SenderStep(c, v.running, x, e);
    assert y.pc == x.pc && y.draft == x.draft;
    if x.pc.SendingGreeting? {
      assert x.current == [];
      assert y.wire == x.wire;
    }
  }

  // ---------------------------------------------------------------- the rank of the barrier

  ghost predicate PendingConnected(s: State) {
    forall h :: h in s.sets.pending ==> h in s.connections
  }

  ghost function Ranks(s: State): map<Thread, nat>
    requires PendingConnected(s)
  {
    map h | h in s.sets.pending :: Rank(ViewOf(s, h), s.connections[h])
  }

  ghost function BarrierRank(s: State): nat {
    if PendingConnected(s) then Sum(Ranks(s)) else 0
  }

  lemma ReachablePending(c: Config, s: State)
    requires ValidConfig(c) && Reachable(c, s)
    ensures PendingConnected(s) && SetsInv(s.sets)
  {
    ReachableBooks(c, s);
    forall h | h in s.sets.pending ensures h in s.connections {
      assert h in s.records;
    }
  }

  /** While the acquisition thread waits at a closed barrier, some handler is pending, and every
      pending handler has an enabled step: none waits for another thread. */
  lemma NeverWedged(c: Config, s: State)
    requires ValidConfig(c) && Reachable(c, s) && s.reader.pc.AtBarrier? && !Guard(c, s, OfReader(PassBarrier))
    ensures s.sets.pending != map[]
    ensures forall h :: h in s.sets.pending ==>
              h in s.connections && Guard(c, s, OfHandler(h, NextEvent(s.connections[h])))
  {
    ReachablePending(c, s);
    BarrierOpenMeansNonePending(s.sets);
    forall h | h in s.sets.pending
      ensures h in s.connections && Guard(c, s, OfHandler(h, NextEvent(s.connections[h])))
    {
      ReachableConnection(c, s, h);
      PendingEnabled(c, ViewOf(s, h), s.connections[h]);
    }
  }

  lemma RankZeroIffOpen(c: Config, s: State)
    requires ValidConfig(c) && Reachable(c, s)
    ensures BarrierRank(s) == 0 <==> BarrierOpen(s.sets)
  {
    ReachablePending(c, s);
    BarrierOpenMeansNonePending(s.sets);
    if s.sets.pending != map[] {
      assert s.sets.pending.Keys != {};
      var h :| h in s.sets.pending;
      SumRemove(Ranks(s), h);
    } else {
      assert Ranks(s) == map[];
    }
  }

  /** No event but the announcement of the next block adds to the pending handlers or raises the
      rank of one. */
  ghost predicate RanksShrink(s: State, s': State) {
    && PendingConnected(s) && PendingConnected(s')
    && Ranks(s').Keys <= Ranks(s).Keys
    && forall h :: h in Ranks(s') ==> Ranks(s')[h] <= Ranks(s)[h]
  }

  lemma HandlerEventShrinks(c: Config, s: State, h: Thread, e: HandlerEvent)
    requires ValidConfig(c) && Reachable(c, s) && Addressable(s) && Guard(c, s, OfHandler(h, e))
    ensures
      var s' := Step(c, s, OfHandler(h, e));
      && RanksShrink(s, s')
      && (h in s.sets.pending && h in Ranks(s') ==> Ranks(s')[h] < Ranks(s)[h])
  {
    var s' := Step(c, s, OfHandler(h, e));
    ReachablePending(c, s);
    PendingShrinks(s.sets, h, e);
    forall g | g in s'.sets.pending
      ensures
        var before := Rank(ViewOf(s, g), s.connections[g]);
        var after := Rank(ViewOf(s', g), s'.connections[g]);
        after <= before && (g == h ==> after < before)
    {
      if g == h {
        OwnEventShrinks(c, s, h, e);
      } else {
        RankOfHeader(ViewOf(s', g), ViewOf(s, g), s.connections[g]);
      }
    }
  }

  /** The rank depends on the size of the block and on the connection only. */
  lemma RankOfHeader(v: View, w: View, x: Connection)
    requires v.shared.header == w.shared.header
    ensures Rank(v, x) == Rank(w, x)
  {
  }

  lemma OwnEventShrinks(c: Config, s: State, h: Thread, e: HandlerEvent)
    requires ValidConfig(c) && Reachable(c, s) && Addressable(s) && Guard(c, s, OfHandler(h, e))
    requires h in Step(c, s, OfHandler(h, e)).sets.pending
    ensures
      var s' := Step(c, s, OfHandler(h, e));
      Rank(ViewOf(s', h), s'.connections[h]) < Rank(ViewOf(s, h), s.connections[h])
  {
    var s' := Step(c, s, OfHandler(h, e));
    PendingShrinks(s.sets, h, e);
    ReachableAssertion(c, s, h, e);
    ReachableControl(c, s, h);
    StillPending(s.sets, h, e);
    OwnStepLowersRank(c, ViewOf(s, h), s.connections[h], e);
    RankOfHeader(ViewOf(s', h), ViewOf(s, h), s'.connections[h]);
  }

  /** A handler that reports or leaves is not pending any more. */
  lemma StillPending(s: Sets, h: Thread, e: HandlerEvent)
    requires HandlerAssertion(s, h, e) && h in SetsAfter(s, h, e).pending
    ensures !e.SetReady? && !e.Resign?
  {
  }

  lemma SenderEventShrinks(c: Config, s: State, h: Thread, e: SenderEvent)
    requires ValidConfig(c) && Reachable(c, s) && Addressable(s) && Guard(c, s, OfSender(h, e))
    ensures RanksShrink(s, Step(c, s, OfSender(h, e)))
  {
    ReachablePending(c, s);
    ReachableData(c, s, h);
    SenderStepKeepsRank(c, ViewOf(s, h), s.connections[h], e);
  }

  lemma ReaderEventShrinks(c: Config, s: State, e: ReaderEvent)
    requires ValidConfig(c) && Reachable(c, s) && Addressable(s) && ReaderGuard(s, e) && !e.ResetReady?
    ensures RanksShrink(s, ReaderStep(c, s, e))
  {
    ReachablePending(c, s);
    ReachableReader(c, s);
    var s' := ReaderStep(c, s, e);
    ReaderEventStays(c, s, e);
    if s.sets.pending != map[] {
      HeaderStays(c, s, e);
      RanksUnchanged(s, s');
    } else {
      assert Ranks(s') == map[];
    }
  }

  lemma HeaderStays(c: Config, s: State, e: ReaderEvent)
    requires ValidConfig(c) && ReaderInv(s) && ReaderGuard(s, e) && s.sets.pending != map[]
    ensures ReaderStep(c, s, e).shared.header == s.shared.header
    ensures ReaderStep(c, s, e).connections == s.connections
  {
  }

  lemma EventShrinks(c: Config, s: State, e: Event)
    requires ValidConfig(c) && Reachable(c, s) && Addressable(s) && Guard(c, s, e) && e != OfReader(ResetReady)
    ensures RanksShrink(s, Step(c, s, e))
  {
    ReachablePending(c, s);
    match e {
      case OfHandler(h, he) => HandlerEventShrinks(c, s, h, he);
      case OfSender(h, se) => SenderEventShrinks(c, s, h, se);
      case OfReader(re) => ReaderEventShrinks(c, s, re);
      case Connect(h) => RanksUnchanged(s, Step(c, s, e));
      case Shutdown => RanksUnchanged(s, Step(c, s, e));
      case OfReaper(pe) => RanksUnchanged(s, ReaperStep(s, pe));
    }
  }

  lemma RanksUnchanged(s: State, s': State)
    requires PendingConnected(s) && s'.sets.pending == s.sets.pending && s'.shared.header == s.shared.header
    requires forall h :: h in s.connections ==> h in s'.connections && s'.connections[h] == s.connections[h]
    ensures RanksShrink(s, s')
  {
    forall h | h in Ranks(s') ensures Ranks(s')[h] <= Ranks(s)[h] {
      assert ViewOf(s', h).shared.header == ViewOf(s, h).shared.header;
    }
  }

  /** Is this the step of a handler the barrier waits for? */
  ghost predicate PendingStep(s: State, e: Event) {
    e.OfHandler? && e.h in s.sets.pending
  }

  /** The rank never rises before the next announcement, whoever joins, sends, is reaped or tells
      the daemon to stop, and drops with every step of a pending handler: also of one that gives
      up for want of space and never reports ready. */
  lemma BarrierRankDrops(c: Config, s: State, e: Event)
    requires ValidConfig(c) && Reachable(c, s) && Addressable(s) && Guard(c, s, e) && e != OfReader(ResetReady)
    ensures BarrierRank(Step(c, s, e)) <= BarrierRank(s)
    ensures PendingStep(s, e) ==> BarrierRank(Step(c, s, e)) < BarrierRank(s)
  {
    var s' := Step(c, s, e);
    EventShrinks(c, s, e);
    SumMonotone(Ranks(s), Ranks(s'));
    if PendingStep(s, e) {
      HandlerEventShrinks(c, s, e.h, e.he);
      SumDrops(Ranks(s), Ranks(s'), e.h);
    }
  }

  // ---------------------------------------------------------------- whole waits

  ghost predicate Link(c: Config, s: State, e: Event, s': State)
    requires ValidConfig(c)
  {
    Addressable(s) && Guard(c, s, e) && s' == Step(c, s, e)
  }

  /** States and the events between them. */
  ghost predicate Trace(c: Config, states: seq<State>, events: seq<Event>)
    requires ValidConfig(c)
  {
    && |states| == |events| + 1
    && Reachable(c, states[0])
    && forall i :: 0 <= i < |events| ==> Link(c, states[i], events[i], states[i + 1])
  }

  ghost function PendingSteps(states: seq<State>, events: seq<Event>): nat
    requires |states| == |events| + 1
  {
    if events == [] then 0
    else (if PendingStep(states[0], events[0]) then 1 else 0) + PendingSteps(states[1..], events[1..])
  }

  ghost predicate NoReset(events: seq<Event>) {
    forall i :: 0 <= i < |events| ==> events[i] != OfReader(ResetReady)
  }

  /** Everything after the first event. */
  lemma TraceTail(c: Config, states: seq<State>, events: seq<Event>)
    requires ValidConfig(c) && Trace(c, states, events) && events != []
    ensures Trace(c, states[1..], events[1..]) && Link(c, states[0], events[0], states[1])
    ensures NoReset(events) ==> NoReset(events[1..])
  {
    assert Link(c, states[0], events[0], states[0 + 1]);
    StepReachable(c, states[0], events[0]);
    var rest, after := states[1..], events[1..];
    forall i | 0 <= i < |after| ensures Link(c, rest[i], after[i], rest[i + 1]) {
      assert Link(c, states[i + 1], events[i + 1], states[i + 1 + 1]);
    }
  }

  lemma {:induction false} TraceReachable(c: Config, states: seq<State>, events: seq<Event>)
    requires ValidConfig(c) && Trace(c, states, events)
    ensures Reachable(c, states[|events|])
    decreases |events|
  {
    if events != [] {
      TraceTail(c, states, events);
      TraceReachable(c, states[1..], events[1..]);
    }
  }

  /** Between two announcements the pending handlers take, all together and however they are
      scheduled, at most as many steps as the rank says. */
  lemma {:induction false} PendingStepsBounded(c: Config, states: seq<State>, events: seq<Event>)
    requires ValidConfig(c) && Trace(c, states, events) && NoReset(events)
    ensures PendingSteps(states, events) + BarrierRank(states[|events|]) <= BarrierRank(states[0])
    decreases |events|
  {
    if events != [] {
      TraceTail(c, states, events);
      assert events[0] != OfReader(ResetReady);
      BarrierRankDrops(c, states[0], events[0]);
      PendingStepsBounded(c, states[1..], events[1..]);
    }
  }

  /** And once they have taken that many, the barrier is open. */
  lemma BarrierOpens(c: Config, states: seq<State>, events: seq<Event>)
    requires ValidConfig(c) && Trace(c, states, events) && NoReset(events)
    requires PendingSteps(states, events) >= BarrierRank(states[0])
    ensures BarrierOpen(states[|events|].sets)
  {
    PendingStepsBounded(c, states, events);
    TraceReachable(c, states, events);
    RankZeroIffOpen(c, states[|events|]);
  }

  // ---------------------------------------------------------------- the assertions of the barrier

  /** Nobody becomes pending before the next announcement. */
  lemma {:induction false} NonePendingStays(c: Config, states: seq<State>, events: seq<Event>)
    requires ValidConfig(c) && Trace(c, states, events) && NoReset(events) && states[0].sets.pending == map[]
    ensures states[|events|].sets.pending == map[]
    decreases |events|
  {
    if events != [] {
      TraceTail(c, states, events);
      assert events[0] != OfReader(ResetReady);
      EventShrinks(c, states[0], events[0]);
      assert Ranks(states[1]).Keys == states[1].sets.pending.Keys && Ranks(states[0]).Keys == {};
      NonePendingStays(c, states[1..], events[1..]);
    }
  }

  /** In each of these runs the assertions after the loop of wait_read_barrier hold. */
  ghost predicate AssertionsWillHold(c: Config, s: State)
    requires ValidConfig(c)
  {
    forall states: seq<State>, events: seq<Event> :: Trace(c, states, events) && states[0] == s && NoReset(events) ==>
      Guard(c, states[|events|], OfReader(PassBarrier)) ==> BarrierAssertion(states[|events|].sets)
  }

  /** Whether a call of wait_read_barrier can end in a failed assertion is decided when it starts
      to wait: it cannot if and only if no handler still has to copy. */
  lemma AssertionsWillHoldIff(c: Config, s: State)
    requires ValidConfig(c) && Reachable(c, s) && s.reader.pc.AtBarrier?
    ensures s.sets.pending == map[] <==> AssertionsWillHold(c, s)
  {
    if s.sets.pending == map[] {
      forall states: seq<State>, events: seq<Event> |
        Trace(c, states, events) && states[0] == s && NoReset(events)
        && Guard(c, states[|events|], OfReader(PassBarrier))
        ensures BarrierAssertion(states[|events|].sets)
      {
        NonePendingStays(c, states, events);
        TraceReachable(c, states, events);
        ReachablePending(c, states[|events|]);
        BarrierOpenMeansNonePending(states[|events|].sets);
      }
    } else {
      AlwaysAddressable(c, s);
      var states, events := [s, Step(c, s, Shutdown)], [Shutdown];
      assert Link(c, s, Shutdown, states[1]);
      assert Trace(c, states, events) && !BarrierAssertion(states[|events|].sets);
    }
  }

  // ---------------------------------------------------------------- who waits for what

  predicate HandlerWaits(v: View, x: Connection) {
    || x.pc.Exited? || (x.pc.Waiting? && v.running && !v.mePending)
    || (x.pc.Joining? && !x.sender.Absent? && !x.sender.Finished?)
  }

  function AnyEvent(x: Connection): HandlerEvent {
    match x.pc
    case Handshaking => Refuse
    case Enlisting => Enlist
    case Stopping => StopFlag
    case Closing => CloseSocket
    case Joining => JoinSender
    case Cleaning => Cleanup
    case _ => NextEvent(x)
  }

  lemma AnyEventEnabled(c: Config, v: View, x: Connection)
    requires ValidConfig(c) && WireInv(c, x) && !HandlerWaits(v, x)
    ensures HandlerGuard(c, v, x, AnyEvent(x))
  {
  }

  lemma NoneEnabled(c: Config, v: View, x: Connection, e: HandlerEvent)
    requires ValidConfig(c) && HandlerWaits(v, x)
    ensures !HandlerGuard(c, v, x, e)
  {
  }

  /** A handler can go on except where it waits: for a block, until it is pending or the daemon
      stops, and for its sender to end. */
  lemma HandlerGoesOnIff(c: Config, s: State, h: Thread)
    requires ValidConfig(c) && Reachable(c, s) && h in s.connections
    ensures
      var x := s.connections[h];
      (exists e :: Guard(c, s, OfHandler(h, e))) <==>
        && !x.pc.Exited?
        && (x.pc.Waiting? ==> !s.running || h in s.sets.pending)
        && (x.pc.Joining? ==> x.sender.Absent? || x.sender.Finished?)
  {
    var x := s.connections[h];
    if HandlerWaits(ViewOf(s, h), x) {
      forall e ensures !Guard(c, s, OfHandler(h, e)) {
        NoneEnabled(c, ViewOf(s, h), x, e);
      }
    } else {
      ReachableWire(c, s, h);
      AnyEventEnabled(c, ViewOf(s, h), x);
      assert Guard(c, s, OfHandler(h, AnyEvent(x)));
    }
  }

  lemma ReachableWire(c: Config, s: State, h: Thread)
    requires ValidConfig(c) && Reachable(c, s) && h in s.connections
    ensures WireInv(c, s.connections[h]) && SenderInv(c, s.connections[h])
  {
    ReachableData(c, s, h);
  }

  /** A sender can go on except where it waits for a block: the queue is empty, or its mutex is
      held by the handler, and the daemon runs. */
  lemma SenderGoesOnIff(c: Config, s: State, h: Thread)
    requires ValidConfig(c) && Reachable(c, s) && h in s.connections
    ensures
      var x := s.connections[h];
      (exists e :: Guard(c, s, OfSender(h, e))) <==>
        && !x.sender.Absent? && !x.sender.Finished?
        && (x.sender.Dequeuing? ==> !s.running || (x.queue != [] && !HoldsQueueLock(x.pc)))
  {
    var x := s.connections[h];
    if !x.sender.Absent? && !x.sender.Finished?
       && (x.sender.Dequeuing? ==> !s.running || (x.queue != [] && !HoldsQueueLock(x.pc))) {
      var e := match x.sender
        case Polling => Poll
        case Dequeuing => if s.running then Dequeue else Shut
        case Sending => FailSend
        case Releasing(_) => SenderEvent.Release
        case _ => Quit;
      assert Guard(c, s, OfSender(h, e));
    }
  }

  /** A sender in the middle of a frame can write any part of what is left of it. */
  lemma SenderCanSend(c: Config, s: State, h: Thread, k: nat)
    requires ValidConfig(c) && Reachable(c, s) && h in s.connections && s.connections[h].sender.Sending?
    ensures |s.connections[h].current| == 1 && s.connections[h].sent < |FrameOf(c, s.connections[h])|
    ensures Guard(c, s, OfSender(h, Send(k))) <==> 0 < k <= |FrameOf(c, s.connections[h])| - s.connections[h].sent
  {
    ReachableWire(c, s, h);
    SendEnabledIff(c, s.running, s.connections[h], k);
  }

  lemma SendEnabledIff(c: Config, running: bool, x: Connection, k: nat)
    requires SenderInv(c, x) && x.sender.Sending?
    ensures SenderGuard(c, running, x, Send(k)) <==> 0 < k <= |FrameOf(c, x)| - x.sent
  {
  }

  /** The acquisition thread can go on except at a closed barrier, or when it has ended. */
  lemma ReaderGoesOnIff(c: Config, s: State)
    requires ValidConfig(c) && Reachable(c, s)
    ensures
      (exists e :: Guard(c, s, OfReader(e))) <==>
        !s.reader.pc.Ended? && (s.reader.pc.AtBarrier? && s.running ==> BarrierOpen(s.sets))
  {
    ReachableReader(c, s);
    if !s.reader.pc.Ended? && (s.reader.pc.AtBarrier? && s.running ==> BarrierOpen(s.sets)) {
      var e := match s.reader.pc
        case AtLoop => LoopTest
        case AtBarrier => PassBarrier
        case AtRecheck => RecheckRunning
        case Sampling => ReadFailed
        case Digitizing => Digitize
        case Stamping => Stamp
        case Publishing => Publish
        case Resetting => ResetReady
        case Halted => FreeAnalog(s.shared.analog)
        case _ => FreeDigital(s.shared.digital);
      assert Guard(c, s, OfReader(e));
    }
  }

  /** The reaper can go on except where it waits: for a handler to die, and for it to end. */
  lemma ReaperGoesOnIff(c: Config, s: State)
    requires ValidConfig(c) && Reachable(c, s)
    ensures
      (exists e :: Guard(c, s, OfReaper(e))) <==>
        && !s.reaper.Retired?
        && (s.reaper.AwaitingDead? ==> exists t :: t in s.sets.dead)
        && (s.reaper.JoiningThread? ==> s.reaper.thread in s.connections && s.connections[s.reaper.thread].pc.Exited?)
  {
    match s.reaper {
      case Checking => assert Guard(c, s, OfReaper(CheckAlive));
      case AwaitingDead =>
        if t :| t in s.sets.dead {
          assert Guard(c, s, OfReaper(TakeDead(t)));
        }
      case JoiningThread(_, _) =>
        if s.reaper.thread in s.connections && s.connections[s.reaper.thread].pc.Exited? {
          assert Guard(c, s, OfReaper(JoinThread));
        }
      case FreeingRecord(_, _) => assert Guard(c, s, OfReaper(FreeRecord));
      case Retired =>
    }
  }

  // ---------------------------------------------------------------- a client that is gone

  /** Blocks copied for a client, and the one its handler is bound to copy yet. */
  function CopiesBound(x: Connection): nat {
    |Copied(x)| + CopyAhead(x.pc)
  }

  lemma HandlerStepKeepsBound(c: Config, v: View, x: Connection, e: HandlerEvent)
    requires ValidConfig(c) && ControlInv(c, v, x) && HandlerGuard(c, v, x, e) && !x.running
    ensures !HandlerStep(c, v, x, e).running && CopiesBound(HandlerStep(c, v, x, e)) <= CopiesBound(x)
  {
    if IsMove(e) {
      MoveMoves(c, v, x, e);
    } else {
      OtherStepKeepsBound(c, v, x, e);
    }
  }

  lemma OtherStepKeepsBound(c: Config, v: View, x: Connection, e: HandlerEvent)
    requires ValidConfig(c) && HandlerGuard(c, v, x, e) && !x.running && !IsMove(e)
    ensures !HandlerStep(c, v, x, e).running && CopiesBound(HandlerStep(c, v, x, e)) <= CopiesBound(x)
  {
  }

  lemma SenderStepKeepsBound(c: Config, running: bool, x: Connection, e: SenderEvent)
    requires SenderInv(c, x) && SenderGuard(c, running, x, e) && !x.running
    ensures !SenderStep(c, running, x, e).running && CopiesBound(SenderStep(c, running, x, e)) == CopiesBound(x)
  {
  }

  lemma StepKeepsBound(c: Config, s: State, e: Event, h: Thread)
    requires ValidConfig(c) && Reachable(c, s) && Addressable(s) && Guard(c, s, e)
    requires h in s.connections && !s.connections[h].running
    ensures
      var s' := Step(c, s, e);
      && h in s'.connections && !s'.connections[h].running
      && CopiesBound(s'.connections[h]) <= CopiesBound(s.connections[h])
  {
    if e.OfHandler? && e.h == h {
      ReachableControl(c, s, h);
      HandlerStepKeepsBound(c, ViewOf(s, h), s.connections[h], e.he);
    } else if e.OfSender? && e.h == h {
      ReachableWire(c, s, h);
      SenderStepKeepsBound(c, s.running, s.connections[h], e.se);
    } else {
      OthersStay(c, s, e, h);
    }
  }

  lemma {:induction false} BoundStays(c: Config, states: seq<State>, events: seq<Event>, h: Thread)
    requires ValidConfig(c) && Trace(c, states, events)
    requires h in states[0].connections && !states[0].connections[h].running
    ensures
      var z := states[|events|];
      h in z.connections && CopiesBound(z.connections[h]) <= CopiesBound(states[0].connections[h])
    decreases |events|
  {
    if events != [] {
      TraceTail(c, states, events);
      StepKeepsBound(c, states[0], events[0], h);
      BoundStays(c, states[1..], events[1..], h);
    }
  }

  /** A client that is gone costs at most one more copy, whatever else happens: none if its handler
      is at the test of its loop when the flag is cleared, and it does not wait again. */
  lemma DeadClientCostsOneCopy(c: Config, states: seq<State>, events: seq<Event>, h: Thread)
    requires ValidConfig(c) && Trace(c, states, events)
    requires h in states[0].connections && !states[0].connections[h].running
    ensures
      var x := states[0].connections[h];
      var z := states[|events|];
      && h in z.connections && |Copied(z.connections[h])| <= |Copied(x)| + 1
      && (x.pc.Testing? ==> |Copied(z.connections[h])| <= |Copied(x)| && !z.connections[h].pc.Waiting?)
  {
    BoundStays(c, states, events, h);
    if states[0].connections[h].pc.Testing? {
      CopiesOnlyGrow(c, states, events, h);
    }
  }

  /** Nothing that was copied is lost. */
  lemma {:induction false} CopiesOnlyGrow(c: Config, states: seq<State>, events: seq<Event>, h: Thread)
    requires ValidConfig(c) && Trace(c, states, events) && h in states[0].connections
    ensures
      var z := states[|events|];
      h in z.connections && |Copied(states[0].connections[h])| <= |Copied(z.connections[h])|
    decreases |events|
  {
    if events != [] {
      TraceTail(c, states, events);
      StepLosesNoCopy(c, states[0], events[0], h);
      CopiesOnlyGrow(c, states[1..], events[1..], h);
    }
  }

  lemma StepLosesNoCopy(c: Config, s: State, e: Event, h: Thread)
    requires ValidConfig(c) && Reachable(c, s) && Addressable(s) && Guard(c, s, e) && h in s.connections
    ensures
      var s' := Step(c, s, e);
      h in s'.connections && |Copied(s.connections[h])| <= |Copied(s'.connections[h])|
  {
    if e.OfHandler? && e.h == h {
      HandlerLosesNoCopy(c, ViewOf(s, h), s.connections[h], e.he);
    } else if e.OfSender? && e.h == h {
      ReachableWire(c, s, h);
      SenderLosesNoCopy(c, s.running, s.connections[h], e.se);
    } else {
      OthersStay(c, s, e, h);
    }
  }

  lemma HandlerLosesNoCopy(c: Config, v: View, x: Connection, e: HandlerEvent)
    requires ValidConfig(c) && HandlerGuard(c, v, x, e)
    ensures |Copied(x)| <= |Copied(HandlerStep(c, v, x, e))|
  {
  }

  lemma SenderLosesNoCopy(c: Config, running: bool, x: Connection, e: SenderEvent)
    requires SenderInv(c, x) && SenderGuard(c, running, x, e)
    ensures |Copied(x)| == |Copied(SenderStep(c, running, x, e))|
  {
  }
}
