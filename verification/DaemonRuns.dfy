/** Statements about whole runs: what never shrinks, and a run that ends in a failed assertion. */
module DaemonRuns {
  import opened HandlerSets
  import opened HandlerThreads
  import opened HandlerInvariant
  import opened Daemon
  import opened DaemonInvariant
  import opened DaemonTheorems

  // ---------------------------------------------------------------- what only grows

  /** A client keeps its channels and its first block, and never loses what was written. */
  ghost predicate ClientGrows(x: Connection, x': Connection) {
    && x.written <= x'.written && x.wire <= x'.wire && x.freed <= x'.freed
    && (x.registered ==> x'.registered && x'.since == x.since && x'.ids == x.ids)
  }

  ghost predicate Grows(s: State, s': State) {
    && s.history <= s'.history && s.offered <= s'.offered && (s'.running ==> s.running)
    && s.taken <= s'.taken && s.released <= s'.released
    && (forall h :: h in s.connections ==> h in s'.connections && ClientGrows(s.connections[h], s'.connections[h]))
  }

  lemma HandlerStepGrows(c: Config, v: View, x: Connection, e: HandlerEvent)
    requires ValidConfig(c) && HandlerGuard(c, v, x, e) && RegistrationInv(v, x)
    ensures ClientGrows(x, HandlerStep(c, v, x, e))
  {
  }

  lemma SenderStepGrows(c: Config, running: bool, x: Connection, e: SenderEvent)
    requires SenderGuard(c, running, x, e)
    ensures ClientGrows(x, SenderStep(c, running, x, e))
  {
  }

  lemma GrowsReflexive(s: State)
    ensures Grows(s, s)
  {
  }

  /** The acquisition thread and the reaper touch no connection. */
  lemma ReaderStepGrows(c: Config, s: State, e: ReaderEvent)
    requires ValidConfig(c) && ReaderInv(s) && ReaderGuard(s, e)
    ensures Grows(s, ReaderStep(c, s, e))
  {
    var s' := ReaderStep(c, s, e);
    assert s'.connections == s.connections && s.history <= s'.history && s.offered <= s'.offered;
  }

  lemma ReaperStepGrows(s: State, e: ReaperEvent)
    requires ReaperGuard(s, e)
    ensures Grows(s, ReaperStep(s, e))
  {
    var s' := ReaperStep(s, e);
    assert s'.connections == s.connections && s'.history == s.history;
  }

  lemma StepGrows(c: Config, s: State, e: Event)
    requires ValidConfig(c) && Reachable(c, s) && Addressable(s) && Guard(c, s, e)
    ensures Grows(s, Step(c, s, e))
  {
    GrowsReflexive(s);
    match e {
      case OfHandler(h, he) =>
        HandlerEventGrows(c, s, h, he);
      case OfSender(h, se) => SenderStepGrows(c, s.running, s.connections[h], se);
      case OfReader(re) =>
        ReachableReader(c, s);
        ReaderStepGrows(c, s, re);
      case OfReaper(pe) => ReaperStepGrows(s, pe);
      case _ =>
    }
  }

  lemma HandlerEventGrows(c: Config, s: State, h: Thread, e: HandlerEvent)
    requires ValidConfig(c) && Reachable(c, s) && Addressable(s) && Guard(c, s, OfHandler(h, e))
    ensures Grows(s, Step(c, s, OfHandler(h, e)))
  {
    ReachableControl(c, s, h);
    HandlerStepGrows(c, ViewOf(s, h), s.connections[h], e);
    GrowsReflexive(s);
  }

  lemma PrefixReachable(c: Config, run: seq<State>, i: nat)
    requires ValidConfig(c) && Run(c, run) && i < |run|
    ensures Reachable(c, run[i])
  {
    var prefix := run[..i + 1];
    forall k | 0 <= k < |prefix| - 1 ensures Next(c, prefix[k], prefix[k + 1]) {
      assert Next(c, run[k], run[k + 1]);
    }
    assert Run(c, prefix) && prefix[|prefix| - 1] == run[i];
  }

  lemma NextGrows(c: Config, s: State, s': State)
    requires ValidConfig(c) && Reachable(c, s) && Next(c, s, s')
    ensures Grows(s, s')
  {
    var e :| Guard(c, s, e) && s' == Step(c, s, e);
    StepGrows(c, s, e);
  }

  lemma GrowsTransitive(s: State, t: State, u: State)
    requires Grows(s, t) && Grows(t, u)
    ensures Grows(s, u)
  {
    forall h | h in s.connections ensures h in u.connections && ClientGrows(s.connections[h], u.connections[h]) {
      assert ClientGrows(s.connections[h], t.connections[h]) && ClientGrows(t.connections[h], u.connections[h]);
    }
  }

  /** Along a run the published history, what each client was sent and what was freed only
      grow, and a client's first block never changes: the run of blocks that GaplessStream speaks
      of is extended, never replaced. */
  lemma {:induction false} RunGrows(c: Config, run: seq<State>, i: nat, j: nat)
    requires ValidConfig(c) && Run(c, run) && i <= j < |run|
    ensures Grows(run[i], run[j])
    decreases j - i
  {
    if i < j {
      PrefixReachable(c, run, j - 1);
      assert Next(c, run[j - 1], run[j - 1 + 1]);
      NextGrows(c, run[j - 1], run[j]);
      RunGrows(c, run, i, j - 1);
      GrowsTransitive(run[i], run[j - 1], run[j]);
    } else {
      GrowsReflexive(run[i]);
    }
  }

  // ---------------------------------------------------------------- a run

  lemma InitReachable(c: Config, s: State)
    requires ValidConfig(c) && Init(c, s)
    ensures Reachable(c, s)
  {
    assert Run(c, [s]) && [s][|[s]| - 1] == s;
  }

  /** The daemon before anything has happened, with zeroed memory. */
  ghost function Start(): State {
    State(true,
          Shared(Header(0, 0, NUM_CHANNELS), seq(DATA_SIZE, _ => 0), seq(DATA_SIZE, _ => false), true, true),
          Reader(AtLoop, 0, 0, 0), EMPTY_SETS, map[], Checking, [], 0, map[], {}, {}, seq(DATA_SIZE, _ => 0), [])
  }

  /** One more event of a run. */
  lemma Follow(c: Config, s: State, e: Event) returns (z: State)
    requires ValidConfig(c) && Reachable(c, s) && Guard(c, s, e)
    ensures Addressable(s) && Reachable(c, z) && z == Step(c, s, e)
  {
    AlwaysAddressable(c, s);
    StepReachable(c, s, e);
    z := Step(c, s, e);
  }

  predicate JustEnlisted(x: Connection) {
    x.pc.SendingGreeting? && x.running && x.queue == [] && x.wire == []
  }

  /** One client with no channels has registered. */
  lemma OneClient(c: Config) returns (s: State)
    requires ValidConfig(c)
    ensures Reachable(c, s) && s.running && s.reader.pc.AtLoop? && BarrierOpen(s.sets) && 0 in s.sets.alive
    ensures 0 in s.connections && JustEnlisted(s.connections[0])
  {
    s := Start();
    InitReachable(c, s);
    s := Follow(c, s, Connect(0));
    s := Follow(c, s, OfHandler(0, Accept([])));
    s := Follow(c, s, OfHandler(0, Enlist));
  }

  /** The acquisition thread passes an open barrier and reads a block. */
  lemma ReadBlock(c: Config, s: State, points: nat) returns (z: State)
    requires ValidConfig(c) && Reachable(c, s) && s.running && s.reader.pc.AtLoop? && BarrierOpen(s.sets)
    requires NUM_CHANNELS * points <= DATA_SIZE
    ensures Reachable(c, z) && z.running && z.sets == s.sets && z.connections == s.connections
    ensures z.reader.pc.Stamping? && z.reader.points == points
  {
    z := Follow(c, s, OfReader(LoopTest));
    z := Follow(c, z, OfReader(PassBarrier));
    z := Follow(c, z, OfReader(RecheckRunning));
    z := Follow(c, z, OfReader(ReadDone(points)));
    z := DigitizeAll(c, z);
  }

  lemma {:induction false} DigitizeAll(c: Config, s: State) returns (z: State)
    requires ValidConfig(c) && Reachable(c, s) && s.running && s.reader.pc.Digitizing?
    ensures Reachable(c, z) && z.running && z.sets == s.sets && z.connections == s.connections
    ensures z.reader.pc.Stamping? && z.reader.points == s.reader.points
    decreases NUM_CHANNELS * s.reader.points - s.reader.filled
  {
    z := Follow(c, s, OfReader(Digitize));
    if z.reader.pc.Digitizing? {
      z := DigitizeAll(c, z);
    }
  }

  lemma PublishBlock(c: Config, s: State) returns (z: State)
    requires ValidConfig(c) && Reachable(c, s) && s.running && s.reader.pc.Stamping?
    ensures Reachable(c, z) && z.running && z.reader.pc.AtLoop? && z.connections == s.connections
    ensures z.sets == Reset(s.sets) && SampleCount(z.shared.header) == NUM_CHANNELS * s.reader.points
  {
    z := Follow(c, s, OfReader(Stamp));
    z := Follow(c, z, OfReader(Publish));
    z := Follow(c, z, OfReader(ResetReady));
  }

  /** The assertions after the barrier loop can fail: when the daemon is told to stop while a
      handler still has to copy, the loop is left with that handler pending. */
  lemma BarrierAssertionCanFail(c: Config)
    requires ValidConfig(c)
    ensures exists s :: Reachable(c, s) && Guard(c, s, OfReader(PassBarrier)) && !BarrierAssertion(s.sets) && !s.running
  {
    var s := OneClient(c);
    s := ReadBlock(c, s, 0);
    s := PublishBlock(c, s);
    assert 0 in s.sets.pending;
    s := Follow(c, s, OfReader(LoopTest));
    s := Follow(c, s, Shutdown);
    assert Guard(c, s, OfReader(PassBarrier)) && !BarrierAssertion(s.sets);
  }
}
