/** The end of the acquisition thread: it frees the two shared arrays when it has left its loop,
    and waits for no handler.  A handler that is still copying then reads freed memory. */
module SharedArrays {
  import opened HandlerSets
  import Wire
  import opened HandlerThreads
  import opened HandlerInvariant
  import Fifo
  import opened Daemon
  import opened DaemonInvariant
  import opened DaemonTheorems
  import opened Progress
  import DaemonRuns

  /** Past its last test of `running`, and with samples of the shared arrays still to copy. */
  predicate StillReads(c: Config, sh: Shared, x: Connection) {
    0 < SampleCount(sh.header) && (
      || (x.pc.Reserving? && Fifo.Accepts(x.queue, c.maxElems))
      || x.pc.CopyingHeader?
      || x.pc.CopyingAnalog?
      || (x.pc.CopyingDigital? && |x.draft.digital| < x.samples))
  }

  ghost predicate NobodyReads(c: Config, s: State) {
    forall h :: h in s.connections ==> !StillReads(c, s.shared, s.connections[h])
  }

  /** Some handler has read freed memory. */
  ghost predicate Spoiled(s: State) {
    exists h :: h in s.connections && s.connections[h].spoiled
  }

  ghost predicate NeverSpoils(c: Config, s: State)
    requires ValidConfig(c)
  {
    forall states: seq<State>, events: seq<Event> ::
      Trace(c, states, events) && states[0] == s ==> !Spoiled(states[|events|])
  }

  // ---------------------------------------------------------------- nobody reads: it stays so

  /** Out of its loop, the thread does nothing but free; and nobody starts to copy. */
  ghost predicate Calm(c: Config, s: State) {
    LeftLoop(s.reader.pc) && NobodyReads(c, s) && !Spoiled(s)
  }

  ghost predicate CalmOne(c: Config, sh: Shared, x: Connection) {
    !StillReads(c, sh, x) && !x.spoiled
  }

  lemma HandlerStepKeepsCalm(c: Config, v: View, x: Connection, e: HandlerEvent)
    requires ValidConfig(c) && ControlInv(c, v, x) && HandlerGuard(c, v, x, e) && !v.running
    requires CalmOne(c, v.shared, x)
    ensures CalmOne(c, v.shared, HandlerStep(c, v, x, e))
  {
  }

  lemma SenderStepKeepsCalm(c: Config, v: View, x: Connection, e: SenderEvent)
    requires SenderGuard(c, v.running, x, e) && !v.running && CalmOne(c, v.shared, x)
    ensures CalmOne(c, v.shared, SenderStep(c, v.running, x, e))
  {
  }

  lemma StepKeepsCalm(c: Config, s: State, e: Event)
    requires ValidConfig(c) && Reachable(c, s) && Addressable(s) && Guard(c, s, e) && Calm(c, s)
    ensures Calm(c, Step(c, s, e))
  {
    var s' := Step(c, s, e);
    ReachableReader(c, s);
    OnlyFrees(c, s, e);
    forall h | h in s'.connections ensures CalmOne(c, s'.shared, s'.connections[h]) {
      if h in s.connections {
        ReachableControl(c, s, h);
        assert CalmOne(c, s.shared, s.connections[h]);
        OneStaysCalm(c, s, e, h);
      }
    }
  }

  lemma OneStaysCalm(c: Config, s: State, e: Event, h: Thread)
    requires ValidConfig(c) && Addressable(s) && Guard(c, s, e) && !s.running
    requires h in s.connections && ControlInv(c, ViewOf(s, h), s.connections[h])
    requires CalmOne(c, s.shared, s.connections[h])
    ensures
      var s' := Step(c, s, e);
      h in s'.connections && CalmOne(c, s.shared, s'.connections[h])
  {
    if e.OfHandler? && e.h == h {
      HandlerStepKeepsCalm(c, ViewOf(s, h), s.connections[h], e.he);
    } else if e.OfSender? && e.h == h {
      SenderStepKeepsCalm(c, ViewOf(s, h), s.connections[h], e.se);
    } else {
      assert Step(c, s, e).connections[h] == s.connections[h];
    }
  }

  lemma OnlyFrees(c: Config, s: State, e: Event)
    requires ValidConfig(c) && Addressable(s) && Guard(c, s, e) && LeftLoop(s.reader.pc)
    ensures
      var s' := Step(c, s, e);
      && LeftLoop(s'.reader.pc) && s'.shared.header == s.shared.header
      && forall h :: h in s'.connections && h !in s.connections ==> s'.connections[h] == FRESH
  {
    if e.OfReader? {
      ReaderOnlyFrees(c, s, e.re);
    }
  }

  lemma ReaderOnlyFrees(c: Config, s: State, e: ReaderEvent)
    requires ValidConfig(c) && Addressable(s) && ReaderGuard(s, e) && LeftLoop(s.reader.pc)
    ensures
      var s' := ReaderStep(c, s, e);
      LeftLoop(s'.reader.pc) && s'.shared.header == s.shared.header && s'.connections == s.connections
  {
  }

  lemma {:induction false} CalmTrace(c: Config, states: seq<State>, events: seq<Event>)
    requires ValidConfig(c) && Trace(c, states, events) && Calm(c, states[0])
    ensures !Spoiled(states[|events|])
    decreases |events|
  {
    if events != [] {
      TraceTail(c, states, events);
      StepKeepsCalm(c, states[0], events[0]);
      CalmTrace(c, states[1..], events[1..]);
    }
  }

  // ---------------------------------------------------------------- somebody reads: it can go wrong

  ghost predicate CanSpoil(c: Config, s: State)
    requires ValidConfig(c)
  {
    exists states: seq<State>, events: seq<Event> ::
      Trace(c, states, events) && states[0] == s && Spoiled(states[|events|])
  }

  lemma SpoiledNow(c: Config, s: State)
    requires ValidConfig(c) && Reachable(c, s) && Spoiled(s)
    ensures CanSpoil(c, s)
  {
    var events: seq<Event> := [];
    assert Trace(c, [s], events) && [s][|events|] == s;
  }

  lemma SpoiledLater(c: Config, s: State, e: Event)
    requires ValidConfig(c) && Reachable(c, s) && Addressable(s) && Guard(c, s, e) && CanSpoil(c, Step(c, s, e))
    ensures CanSpoil(c, s)
  {
    var states: seq<State>, events: seq<Event> :|
      Trace(c, states, events) && states[0] == Step(c, s, e) && Spoiled(states[|events|]);
    TracePrepend(c, s, e, states, events);
    assert ([s] + states)[|[e] + events|] == states[|events|];
  }

  lemma TracePrepend(c: Config, s: State, e: Event, states: seq<State>, events: seq<Event>)
    requires ValidConfig(c) && Reachable(c, s) && Addressable(s) && Guard(c, s, e)
    requires Trace(c, states, events) && states[0] == Step(c, s, e)
    ensures Trace(c, [s] + states, [e] + events)
  {
    var longer, more := [s] + states, [e] + events;
    assert Link(c, s, e, states[0]);
    forall i | 0 < i < |more| ensures Link(c, longer[i], more[i], longer[i + 1]) {
      assert Link(c, states[i - 1], events[i - 1], states[i - 1 + 1]);
    }
  }

  /** This handler is in its copy, the thread is out of its loop, and nothing is freed yet. */
  ghost predicate Endangered(c: Config, s: State, h: Thread)
    requires ValidConfig(c)
  {
    && Reachable(c, s) && s.reader.pc.Halted? && h in s.connections
    && StillReads(c, s.shared, s.connections[h])
  }

  /** Some order of the remaining steps lets the frees come first. */
  lemma {:induction false} ReaderCanSpoil(c: Config, s: State, h: Thread)
    requires ValidConfig(c) && Endangered(c, s, h)
    ensures CanSpoil(c, s)
    decreases Rank(ViewOf(s, h), s.connections[h])
  {
    var x := s.connections[h];
    AlwaysAddressable(c, s);
    ReachableControl(c, s, h);
    if x.pc.CopyingDigital? {
      FreedUnderDigital(c, s, h);
    } else if !BetweenCopies(x) {
      FreedUnderAnalog(c, s, h);
    } else {
      var e := OfHandler(h, NextEvent(x));
      StaysEndangered(c, s, h);
      ReaderCanSpoil(c, Step(c, s, e), h);
      SpoiledLater(c, s, e);
    }
  }

  lemma StaysEndangered(c: Config, s: State, h: Thread)
    requires ValidConfig(c) && Endangered(c, s, h) && Addressable(s)
    requires BetweenCopies(s.connections[h])
    ensures
      var e := OfHandler(h, NextEvent(s.connections[h]));
      && Guard(c, s, e) && Endangered(c, Step(c, s, e), h)
      && Rank(ViewOf(Step(c, s, e), h), Step(c, s, e).connections[h]) < Rank(ViewOf(s, h), s.connections[h])
  {
    var x := s.connections[h];
    var e := OfHandler(h, NextEvent(x));
    ReachableControl(c, s, h);
    CopyGoesOn(c, ViewOf(s, h), x);
    StepReachable(c, s, e);
    RankOfHeader(ViewOf(Step(c, s, e), h), ViewOf(s, h), Step(c, s, e).connections[h]);
  }

  /** Not in the middle of either copy. */
  predicate BetweenCopies(x: Connection) {
    !x.pc.CopyingDigital? && (x.pc.CopyingAnalog? ==> |x.draft.analog| == x.samples)
  }

  lemma CopyGoesOn(c: Config, v: View, x: Connection)
    requires ValidConfig(c) && ControlInv(c, v, x) && StillReads(c, v.shared, x) && BetweenCopies(x)
    ensures
      var e := NextEvent(x);
      && HandlerGuard(c, v, x, e) && StillReads(c, v.shared, HandlerStep(c, v, x, e))
      && Rank(v, HandlerStep(c, v, x, e)) < Rank(v, x)
  {
    OwnStepLowersRank(c, v, x, NextEvent(x));
  }

  lemma FreedUnderAnalog(c: Config, s: State, h: Thread)
    requires ValidConfig(c) && Endangered(c, s, h) && Addressable(s)
    requires s.connections[h].pc.CopyingAnalog? && |s.connections[h].draft.analog| < s.connections[h].samples
    ensures CanSpoil(c, s)
  {
    var e := OfReader(FreeAnalog(s.shared.analog));
    var t := Step(c, s, e);
    StepReachable(c, s, e);
    AlwaysAddressable(c, t);
    ReachableControl(c, s, h);
    ReadsFreed(c, t, h, CopyAnalog);
    SpoiledLater(c, s, e);
  }

  lemma FreedUnderDigital(c: Config, s: State, h: Thread)
    requires ValidConfig(c) && Endangered(c, s, h) && Addressable(s) && s.connections[h].pc.CopyingDigital?
    ensures CanSpoil(c, s)
  {
    var e := OfReader(FreeAnalog(s.shared.analog));
    var t := Step(c, s, e);
    StepReachable(c, s, e);
    AlwaysAddressable(c, t);
    var f := OfReader(FreeDigital(t.shared.digital));
    var u := Step(c, t, f);
    StepReachable(c, t, f);
    AlwaysAddressable(c, u);
    ReachableControl(c, s, h);
    ReadsFreed(c, u, h, CopyDigital);
    SpoiledLater(c, t, f);
    SpoiledLater(c, s, e);
  }

  lemma ReadsFreed(c: Config, s: State, h: Thread, e: HandlerEvent)
    requires ValidConfig(c) && Reachable(c, s) && Addressable(s) && h in s.connections
    requires
      var x := s.connections[h];
      && x.samples <= DATA_SIZE
      && ((e.CopyAnalog? && x.pc.CopyingAnalog? && |x.draft.analog| < x.samples && !s.shared.analogLive)
          || (e.CopyDigital? && x.pc.CopyingDigital? && |x.draft.digital| < x.samples && !s.shared.digitalLive))
    ensures CanSpoil(c, s)
  {
    var t := Step(c, s, OfHandler(h, e));
    StepReachable(c, s, OfHandler(h, e));
    assert t.connections[h].spoiled;
    SpoiledNow(c, t);
    SpoiledLater(c, s, OfHandler(h, e));
  }

  // ---------------------------------------------------------------- exactly when it is safe

  /** When the acquisition thread has left its loop, no continuation lets a handler read freed
      memory if and only if no handler is between its last test of `running` and the end of its
      second copy with something left to read. */
  lemma FreeIsSafeIff(c: Config, s: State)
    requires ValidConfig(c) && Reachable(c, s) && s.reader.pc.Halted?
    ensures NobodyReads(c, s) <==> NeverSpoils(c, s)
  {
    if NobodyReads(c, s) {
      HaltedIsLive(c, s);
      NotSpoiledYet(c, s);
      forall states: seq<State>, events: seq<Event> | Trace(c, states, events) && states[0] == s
        ensures !Spoiled(states[|events|])
      {
        CalmTrace(c, states, events);
      }
    } else {
      var h :| h in s.connections && StillReads(c, s.shared, s.connections[h]);
      ReaderCanSpoil(c, s, h);
    }
  }

  lemma NotSpoiledYet(c: Config, s: State)
    requires ValidConfig(c) && Reachable(c, s) && Live(s.shared)
    ensures !Spoiled(s)
  {
    forall h | h in s.connections ensures !s.connections[h].spoiled {
      ReachableData(c, s, h);
    }
  }

  lemma HaltedIsLive(c: Config, s: State)
    requires ValidConfig(c) && Reachable(c, s) && s.reader.pc.Halted?
    ensures Live(s.shared) && !s.running
  {
    ReachableReader(c, s);
  }

  /** Nobody pending, nobody copying. */
  lemma NonePendingNoneReads(c: Config, s: State)
    requires ValidConfig(c) && Reachable(c, s) && s.sets.pending == map[]
    ensures NobodyReads(c, s)
  {
    forall h | h in s.connections ensures !StillReads(c, s.shared, s.connections[h]) {
      ReachableControl(c, s, h);
    }
  }

  /** A failed read of the hardware ends the thread safely. */
  lemma FailedReadIsSafe(c: Config, s: State)
    requires ValidConfig(c) && Reachable(c, s) && Addressable(s) && Guard(c, s, OfReader(ReadFailed))
    ensures NeverSpoils(c, Step(c, s, OfReader(ReadFailed)))
  {
    ReachableReader(c, s);
    var t := Step(c, s, OfReader(ReadFailed));
    StepReachable(c, s, OfReader(ReadFailed));
    NonePendingNoneReads(c, t);
    FreeIsSafeIff(c, t);
  }

  /** So does a shutdown noticed after the barrier has been passed, or found open, with nobody
      pending. */
  lemma OpenBarrierIsSafe(c: Config, states: seq<State>, events: seq<Event>)
    requires ValidConfig(c) && Trace(c, states, events) && NoReset(events)
    requires BarrierOpen(states[0].sets) && states[|events|].reader.pc.Halted?
    ensures NeverSpoils(c, states[|events|])
  {
    ReachablePending(c, states[0]);
    BarrierOpenMeansNonePending(states[0].sets);
    NonePendingStays(c, states, events);
    TraceReachable(c, states, events);
    NonePendingNoneReads(c, states[|events|]);
    FreeIsSafeIff(c, states[|events|]);
  }

  /** It can go wrong: a client is registered and greeted, its handler has just been told of a block
      with samples and has tested `running` for the last time, and then the daemon is told to stop. */
  lemma FreeCanBeUnsafe(c: Config)
    requires ValidConfig(c) && 2 <= c.maxElems
    ensures exists s :: Reachable(c, s) && s.reader.pc.Halted? && !NeverSpoils(c, s)
  {
    var s := DaemonRuns.OneClient(c);
    s := DaemonRuns.ReadBlock(c, s, 1);
    s := DaemonRuns.PublishBlock(c, s);
    s := ToReserving(c, s);
    s := StopsLoop(c, s);
    FreeIsSafeIff(c, s);
  }

  lemma ToReserving(c: Config, s: State) returns (z: State)
    requires ValidConfig(c) && 2 <= c.maxElems && Reachable(c, s) && s.running && s.reader.pc.AtLoop?
    requires 0 in s.connections && 0 in s.sets.pending && SampleCount(s.shared.header) == NUM_CHANNELS
    requires DaemonRuns.JustEnlisted(s.connections[0])
    ensures Reachable(c, z) && z.running && z.reader.pc.AtLoop? && !NobodyReads(c, z)
  {
    z := DaemonRuns.Follow(c, s, OfHandler(0, Greet(|Wire.Greeting(c.rate)|)));
    z := DaemonRuns.Follow(c, z, OfHandler(0, TestLoop));
    z := DaemonRuns.Follow(c, z, OfHandler(0, Wake));
    z := DaemonRuns.Follow(c, z, OfHandler(0, Recheck));
    assert StillReads(c, z.shared, z.connections[0]);
  }

  lemma StopsLoop(c: Config, s: State) returns (z: State)
    requires ValidConfig(c) && Reachable(c, s) && s.reader.pc.AtLoop? && !NobodyReads(c, s)
    ensures Reachable(c, z) && z.reader.pc.Halted? && !NobodyReads(c, z)
  {
    var h :| h in s.connections && StillReads(c, s.shared, s.connections[h]);
    z := DaemonRuns.Follow(c, s, Shutdown);
    z := DaemonRuns.Follow(c, z, OfReader(LoopTest));
    assert z.connections == s.connections && z.shared == s.shared;
  }
}
