/** The inductive invariant of the whole daemon, and the proof that every event of every thread
    keeps it. */
module DaemonInvariant {
  import opened HandlerSets
  import opened Wire
  import opened HandlerThreads
  import opened HandlerInvariant
  import opened Timestamps
  import opened Daemon

  /** The acquisition thread is past the barrier and has not announced its block yet. */
  predicate Acquiring(pc: ReaderPc) {
    pc.Sampling? || pc.Digitizing? || pc.Stamping? || pc.Publishing? || pc.Resetting?
  }

  ghost predicate ReaderInv(s: State) {
    && Addressable(s)
    && (Acquiring(s.reader.pc) ==> s.sets.pending == map[])
    && (s.reader.pc.AtRecheck? && s.running ==> s.sets.pending == map[])
    && |s.history| == s.offered + (if s.reader.pc.Resetting? then 1 else 0)
    && (s.reader.pc.Resetting? ==> s.history[s.offered] == Snapshot(s.shared))
    && (s.shared.analogLive <==> !s.reader.pc.HalfFreed? && !s.reader.pc.Ended?)
    && (s.shared.digitalLive <==> !s.reader.pc.Ended?)
    && (LeftLoop(s.reader.pc) ==> !s.running)
  }

  /** The acquisition thread is out of its loop. */
  predicate LeftLoop(pc: ReaderPc) {
    pc.Halted? || pc.HalfFreed? || pc.Ended?
  }

  ghost function Sizes(history: seq<Block>): seq<nat> {
    seq(|history|, i requires 0 <= i < |history| => history[i].points)
  }

  /** The sizes of the blocks the clock has advanced over. */
  ghost function Stamped(s: State): seq<nat> {
    if s.reader.pc.Publishing? then Sizes(s.history) + [s.reader.points] else Sizes(s.history)
  }

  ghost predicate StampsInv(c: Config, history: seq<Block>)
    requires 0 < c.rate
  {
    forall k :: 0 <= k < |history| ==> history[k].timestamp == Clock(c.rate, Sizes(history)[..k + 1])
  }

  ghost predicate HistoryInv(c: Config, s: State)
    requires 0 < c.rate
  {
    && (forall k :: 0 <= k < |s.history| ==> WellFormed(s.history[k]) && s.history[k].channels == NUM_CHANNELS)
    && (forall k :: 0 <= k < |s.history| ==> s.history[k].points * NUM_CHANNELS <= DATA_SIZE)
    && StampsInv(c, s.history)
    && s.reader.clock == Clock(c.rate, Stamped(s))
  }

  /** A block is what one reading delivered, with digital samples that are all zero. */
  ghost predicate IsReading(b: Block, r: Reading) {
    var n := NUM_CHANNELS * r.points;
    && b.points == r.points && b.channels == NUM_CHANNELS
    && |b.analog| == |b.digital| == n <= |r.samples| && b.analog == r.samples[..n]
    && AllZero(b.digital, n)
  }

  predicate AllZero(digital: seq<Digital>, n: nat) {
    forall i :: 0 <= i < n && i < |digital| ==> !digital[i]
  }

  /** The read is done and its block not published yet. */
  predicate Unpublished(pc: ReaderPc) {
    pc.Digitizing? || pc.Stamping? || pc.Publishing?
  }

  /** What is published, and what is about to be, is what the hardware delivered. */
  ghost predicate AcquiredInv(s: State) {
    && |s.heard| == DATA_SIZE && (s.shared.analogLive ==> s.shared.analog == s.heard)
    && |s.readings| == |s.history| + (if Unpublished(s.reader.pc) then 1 else 0)
    && (forall k :: 0 <= k < |s.history| ==> IsReading(s.history[k], s.readings[k]))
    && (Unpublished(s.reader.pc) ==> s.readings[|s.history|] == Reading(s.reader.points, s.heard))
    && (s.reader.pc.Digitizing? ==> AllZero(s.shared.digital, s.reader.filled))
    && (s.reader.pc.Stamping? || s.reader.pc.Publishing? ==>
          AllZero(s.shared.digital, NUM_CHANNELS * s.reader.points))
  }

  ghost predicate OwnRecords(m: map<Thread, Record>) {
    forall t, u :: t in m && u in m && t != u ==> m[t] != m[u]
  }

  /** Who ever registered is alive, dead or taken by the reaper, one of the three, and has kept
      the record it registered with, which is nobody else's. */
  ghost predicate RegistryInv(s: State) {
    SetsInv(s.sets) && PartitionInv(s) && RecordsInv(s)
  }

  ghost predicate PartitionInv(s: State) {
    && s.records.Keys == s.sets.alive.Keys + s.sets.dead.Keys + s.taken
    && s.taken !! s.sets.alive.Keys && s.taken !! s.sets.dead.Keys
    && Within(s.sets.alive, s.records) && Within(s.sets.dead, s.records)
  }

  ghost predicate RecordsInv(s: State) {
    && OwnRecords(s.records)
    && (forall t :: t in s.records ==> s.records[t] < s.sets.next)
  }

  ghost predicate RegisteredInv(s: State) {
    && (forall h :: h in s.records ==> h in s.connections)
    && (forall h :: h in s.connections ==> (s.connections[h].registered <==> h in s.records))
  }

  /** The thread whose record the reaper holds and has not freed. */
  ghost predicate InHand(s: State, t: Thread) {
    (s.reaper.JoiningThread? || s.reaper.FreeingRecord?) && s.reaper.thread == t
  }

  /** The records freed are exactly those of the threads taken, but for the one in hand. */
  ghost predicate ReaperInv(s: State) {
    && (s.reaper.JoiningThread? || s.reaper.FreeingRecord? ==>
          s.reaper.thread in s.taken && s.reaper.thread in s.records && s.records[s.reaper.thread] == s.reaper.record)
    && (forall t :: t in s.records ==> (s.records[t] in s.released <==> t in s.taken && !InHand(s, t)))
    && (forall r :: r in s.released ==> r < s.sets.next)
  }

  /** Only a thread that has ended is let go. */
  ghost predicate JoinedInv(s: State) {
    forall t :: t in s.taken ==>
      t in s.connections && (s.connections[t].pc.Exited? || (InHand(s, t) && s.reaper.JoiningThread?))
  }

  ghost predicate BooksInv(s: State) {
    RegistryInv(s) && RegisteredInv(s) && ReaperInv(s) && JoinedInv(s)
  }

  ghost predicate ConnectionsInv(c: Config, s: State)
    requires c.rate < TWO32
  {
    forall h :: h in s.connections ==> LocalInv(c, ViewOf(s, h), s.connections[h])
  }

  ghost predicate Inv(c: Config, s: State)
    requires ValidConfig(c)
  {
    && ReaderInv(s) && HistoryInv(c, s) && AcquiredInv(s) && BooksInv(s) && ConnectionsInv(c, s)
  }

  // ---------------------------------------------------------------- start

  lemma InitInv(c: Config, s: State)
    requires ValidConfig(c) && Init(c, s)
    ensures Inv(c, s)
  {
  }

  // ---------------------------------------------------------------- what does not change

  /** The registry does not depend on the shared block, the acquisition thread or what the
      connections do, as long as nobody registers and nobody who has exited comes back. */
  ghost predicate SameRegistry(s: State, s': State) {
    && s'.sets == s.sets && s'.records == s.records && s'.taken == s.taken
    && s'.released == s.released && s'.reaper == s.reaper
    && (forall h :: h in s.connections ==> h in s'.connections)
    && (forall h :: h in s.connections ==> s'.connections[h].registered == s.connections[h].registered)
    && (forall h :: h in s.connections && s.connections[h].pc.Exited? ==> s'.connections[h].pc.Exited?)
    && (forall h :: h in s'.connections && h !in s.connections ==> !s'.connections[h].registered)
  }

  lemma RegistryFrame(s: State, s': State)
    requires BooksInv(s) && SameRegistry(s, s')
    ensures BooksInv(s')
  {
    assert forall t :: InHand(s', t) == InHand(s, t);
  }

  lemma ReaderFrame(c: Config, s: State, s': State)
    requires ValidConfig(c) && ReaderInv(s) && HistoryInv(c, s) && AcquiredInv(s)
    requires s'.reader == s.reader && s'.shared == s.shared && s'.history == s.history && s'.offered == s.offered
    requires s'.heard == s.heard && s'.readings == s.readings
    requires (s'.running ==> s.running) && s'.sets.pending.Keys <= s.sets.pending.Keys
    ensures ReaderInv(s') && HistoryInv(c, s') && AcquiredInv(s')
  {
    if s.sets.pending == map[] {
      assert s'.sets.pending.Keys == {};
    }
  }

  /** One connection of the invariant. */
  lemma OneConnection(c: Config, s: State, h: Thread)
    requires ValidConfig(c) && ConnectionsInv(c, s) && h in s.connections
    ensures LocalInv(c, ViewOf(s, h), s.connections[h])
  {
  }

  // ---------------------------------------------------------------- connections and shutdown

  lemma ConnectKeepsInv(c: Config, s: State, h: Thread)
    requires ValidConfig(c) && Inv(c, s) && h !in s.connections
    ensures Inv(c, Step(c, s, Connect(h)))
  {
    var s' := Step(c, s, Connect(h));
    RegistryFrame(s, s');
    ReaderFrame(c, s, s');
    ConnectKeepsConnections(c, s, h);
  }

  lemma ConnectKeepsConnections(c: Config, s: State, h: Thread)
    requires ValidConfig(c) && ReaderInv(s) && RegistryInv(s)
    requires RegisteredInv(s) && ConnectionsInv(c, s) && h !in s.connections
    ensures ConnectionsInv(c, Step(c, s, Connect(h)))
  {
    var s' := Step(c, s, Connect(h));
    Unregistered(s, h);
    forall g | g in s'.connections ensures LocalInv(c, ViewOf(s', g), s'.connections[g]) {
      assert ViewOf(s', g) == ViewOf(s, g);
      if g == h {
        FreshKeepsInv(c, ViewOf(s, h));
      } else {
        OneConnection(c, s, g);
      }
    }
  }

  /** A thread in no set has no block to copy. */
  lemma Unregistered(s: State, h: Thread)
    requires ReaderInv(s) && RegistryInv(s) && RegisteredInv(s) && h !in s.connections
    ensures ViewInv(ViewOf(s, h)) && !ViewOf(s, h).meAlive && !ViewOf(s, h).meDead
  {
    assert h !in s.records;
  }

  lemma ShutdownKeepsGlobalInv(c: Config, s: State)
    requires ValidConfig(c) && Inv(c, s)
    ensures Inv(c, Step(c, s, Shutdown))
  {
    var s' := Step(c, s, Shutdown);
    RegistryFrame(s, s');
    ReaderFrame(c, s, s');
    StoppedKeepsConnections(c, s, s');
  }

  lemma StoppedKeepsConnections(c: Config, s: State, s': State)
    requires ValidConfig(c) && ConnectionsInv(c, s)
    requires s'.connections == s.connections && s'.sets == s.sets && s'.history == s.history
    requires s'.offered == s.offered && s'.shared == s.shared && (s'.running ==> s.running)
    ensures ConnectionsInv(c, s')
  {
    forall h | h in s'.connections ensures LocalInv(c, ViewOf(s', h), s'.connections[h]) {
      var v := ViewOf(s, h);
      OneConnection(c, s, h);
      ShutdownKeepsInv(c, v, s.connections[h]);
      assert ViewOf(s', h) == v || ViewOf(s', h) == v.(running := false);
    }
  }

  // ---------------------------------------------------------------- handler events

  /** In no reachable state does an assertion of set_ready or dec_available_handlers fail. */
  lemma AssertionsHold(c: Config, s: State, h: Thread, e: HandlerEvent)
    requires ValidConfig(c) && RegistryInv(s) && ConnectionsInv(c, s) && Guard(c, s, OfHandler(h, e))
    ensures HandlerAssertion(s.sets, h, e)
  {
    OneConnection(c, s, h);
  }

  /** A handler registers once. */
  lemma EnlistsOnce(c: Config, s: State, h: Thread)
    requires ValidConfig(c) && RegisteredInv(s) && ConnectionsInv(c, s) && Guard(c, s, OfHandler(h, Enlist))
    ensures h !in s.records && !ViewOf(s, h).meDead && h !in s.sets.alive
  {
    OneConnection(c, s, h);
  }

  /** What an event of one handler does to the sets, thread by thread. */
  lemma HandlerEventSets(s: State, h: Thread, e: HandlerEvent, g: Thread)
    requires SetsInv(s.sets) && HandlerAssertion(s.sets, h, e)
    ensures
      var s' := s.(sets := SetsAfter(s.sets, h, e));
      ViewOf(s', g) == if g == h then ViewAfter(ViewOf(s, h), e) else ViewOf(s, g)
  {
  }

  lemma PendingShrinks(s: Sets, h: Thread, e: HandlerEvent)
    ensures SetsAfter(s, h, e).pending.Keys <= s.pending.Keys
  {
  }

  lemma HandlerStepRegisters(c: Config, v: View, x: Connection, e: HandlerEvent)
    requires c.rate < TWO32 && HandlerGuard(c, v, x, e)
    ensures HandlerStep(c, v, x, e).registered == (x.registered || e.Enlist?)
    ensures !x.pc.Exited?
  {
  }

  lemma HandlerEventKeepsInv(c: Config, s: State, h: Thread, e: HandlerEvent)
    requires ValidConfig(c) && Inv(c, s) && Guard(c, s, OfHandler(h, e))
    ensures Inv(c, Step(c, s, OfHandler(h, e)))
  {
    var s' := Step(c, s, OfHandler(h, e));
    PendingShrinks(s.sets, h, e);
    ReaderFrame(c, s, s');
    HandlerEventKeepsConnections(c, s, h, e);
    HandlerEventKeepsRegistry(c, s, h, e);
  }

  lemma HandlerEventKeepsConnections(c: Config, s: State, h: Thread, e: HandlerEvent)
    requires ValidConfig(c) && RegistryInv(s) && RegisteredInv(s) && ConnectionsInv(c, s)
    requires Guard(c, s, OfHandler(h, e)) && InBounds(s.shared)
    ensures ConnectionsInv(c, Step(c, s, OfHandler(h, e)))
  {
    var s' := Step(c, s, OfHandler(h, e));
    AssertionsHold(c, s, h, e);
    if e.Enlist? {
      EnlistsOnce(c, s, h);
    }
    forall g | g in s'.connections ensures LocalInv(c, ViewOf(s', g), s'.connections[g]) {
      OneConnection(c, s, g);
      HandlerEventKeepsOne(c, s, h, e, g);
    }
  }

  lemma HandlerEventKeepsOne(c: Config, s: State, h: Thread, e: HandlerEvent, g: Thread)
    requires ValidConfig(c) && SetsInv(s.sets) && HandlerAssertion(s.sets, h, e) && InBounds(s.shared)
    requires Guard(c, s, OfHandler(h, e)) && (e.Enlist? ==> !ViewOf(s, h).meDead)
    requires g in s.connections && LocalInv(c, ViewOf(s, g), s.connections[g])
    ensures
      var s' := Step(c, s, OfHandler(h, e));
      LocalInv(c, ViewOf(s', g), s'.connections[g])
  {
    var s' := Step(c, s, OfHandler(h, e));
    HandlerEventSets(s, h, e, g);
    assert ViewOf(s', g) == ViewOf(s.(sets := SetsAfter(s.sets, h, e)), g);
    if g == h {
      HandlerStepKeepsInv(c, ViewOf(s, h), s.connections[h], e);
    }
  }

  lemma HandlerEventKeepsRegistry(c: Config, s: State, h: Thread, e: HandlerEvent)
    requires ValidConfig(c) && BooksInv(s) && ConnectionsInv(c, s)
    requires Guard(c, s, OfHandler(h, e)) && InBounds(s.shared)
    ensures BooksInv(Step(c, s, OfHandler(h, e)))
  {
    AssertionsHold(c, s, h, e);
    if e.Enlist? {
      EnlistsOnce(c, s, h);
    }
    HandlerEventKeepsBooks(c, s, h, e);
  }

  lemma HandlerEventKeepsBooks(c: Config, s: State, h: Thread, e: HandlerEvent)
    requires ValidConfig(c) && BooksInv(s) && Guard(c, s, OfHandler(h, e)) && InBounds(s.shared)
    requires HandlerAssertion(s.sets, h, e) && (e.Enlist? ==> h !in s.records)
    ensures BooksInv(Step(c, s, OfHandler(h, e)))
  {
    var y := HandlerStep(c, ViewOf(s, h), s.connections[h], e);
    HandlerStepRegisters(c, ViewOf(s, h), s.connections[h], e);
    if e.Enlist? {
      EnlistKeepsRegistry(s, h, y);
    } else {
      BooksUpdate(s, h, y);
      var middle := s.(connections := s.connections[h := y]);
      if e.SetReady? {
        ReadyKeepsRegistry(middle, h);
      } else if e.Resign? {
        ResignKeepsRegistry(middle, h);
      }
    }
  }

  lemma ReadyKeepsRegistry(s: State, h: Thread)
    requires BooksInv(s) && h in s.sets.pending
    ensures BooksInv(s.(sets := Ready(s.sets, h)))
  {
    var s' := s.(sets := Ready(s.sets, h));
    HandlerSets.ReadyKeepsInv(s.sets, h);
    assert forall t :: InHand(s', t) == InHand(s, t);
  }

  lemma ResignKeepsRegistry(s: State, h: Thread)
    requires BooksInv(s) && h in s.sets.alive
    ensures BooksInv(s.(sets := Leave(s.sets, h)))
  {
    var s' := s.(sets := Leave(s.sets, h));
    HandlerSets.LeaveKeepsInv(s.sets, h);
    LeaveKeepsPartition(s, h);
    assert forall t :: InHand(s', t) == InHand(s, t);
  }

  lemma LeaveKeepsPartition(s: State, h: Thread)
    requires SetsInv(s.sets) && PartitionInv(s) && h in s.sets.alive
    ensures PartitionInv(s.(sets := Leave(s.sets, h)))
  {
    assert Leave(s.sets, h).alive.Keys == s.sets.alive.Keys - {h};
    assert Leave(s.sets, h).dead.Keys == s.sets.dead.Keys + {h};
    assert h in s.records && h !in s.taken;
  }

  function Registered(s: State, h: Thread, y: Connection): State {
    s.(sets := Register(s.sets, h),
       records := s.records[h := s.sets.next],
       connections := s.connections[h := y])
  }

  lemma EnlistKeepsRegistry(s: State, h: Thread, y: Connection)
    requires BooksInv(s) && h !in s.records && h in s.connections && y.registered
    ensures BooksInv(Registered(s, h, y))
  {
    RegisterKeepsRegistry(s, h);
    RegisterKeepsReaper(s, h);
    EnlistKeepsRegistered(s, h, y);
  }

  lemma EnlistKeepsRegistered(s: State, h: Thread, y: Connection)
    requires RegisteredInv(s) && JoinedInv(s) && h !in s.taken && h in s.connections && y.registered
    ensures
      RegisteredInv(Registered(s, h, y)) && JoinedInv(Registered(s, h, y))
  {
    assert forall t :: InHand(Registered(s, h, y), t) == InHand(s, t);
  }

  lemma RegisterKeepsRegistry(s: State, h: Thread)
    requires RegistryInv(s) && h !in s.records
    ensures RegistryInv(s.(sets := Register(s.sets, h), records := s.records[h := s.sets.next]))
  {
    HandlerSets.RegisterKeepsInv(s.sets, h);
    RegisterKeepsPartition(s, h);
    RegisterKeepsRecords(s, h);
  }

  lemma RegisterKeepsPartition(s: State, h: Thread)
    requires SetsInv(s.sets) && PartitionInv(s) && h !in s.records
    ensures PartitionInv(s.(sets := Register(s.sets, h), records := s.records[h := s.sets.next]))
  {
    assert Register(s.sets, h).alive.Keys == s.sets.alive.Keys + {h};
  }

  lemma RegisterKeepsRecords(s: State, h: Thread)
    requires RecordsInv(s) && h !in s.records
    ensures RecordsInv(s.(sets := Register(s.sets, h), records := s.records[h := s.sets.next]))
  {
  }

  /** The new record is not one that was freed. */
  lemma RegisterKeepsReaper(s: State, h: Thread)
    requires RecordsInv(s) && ReaperInv(s) && h !in s.records && h !in s.taken
    ensures ReaperInv(s.(sets := Register(s.sets, h), records := s.records[h := s.sets.next]))
  {
    var s' := s.(sets := Register(s.sets, h), records := s.records[h := s.sets.next]);
    assert forall t :: InHand(s', t) == InHand(s, t);
  }

  // ---------------------------------------------------------------- sender events

  lemma SenderStepStaysRegistered(c: Config, running: bool, x: Connection, e: SenderEvent)
    requires SenderGuard(c, running, x, e)
    ensures SenderStep(c, running, x, e).registered == x.registered
    ensures SenderStep(c, running, x, e).pc == x.pc
  {
  }

  lemma SenderEventKeepsInv(c: Config, s: State, h: Thread, e: SenderEvent)
    requires ValidConfig(c) && Inv(c, s) && Guard(c, s, OfSender(h, e))
    ensures Inv(c, Step(c, s, OfSender(h, e)))
  {
    SenderEventKeepsBooks(c, s, h, e);
    SenderEventKeepsConnections(c, s, h, e);
    ReaderFrame(c, s, Step(c, s, OfSender(h, e)));
  }

  lemma SenderEventKeepsBooks(c: Config, s: State, h: Thread, e: SenderEvent)
    requires ValidConfig(c) && InBounds(s.shared) && BooksInv(s) && Guard(c, s, OfSender(h, e))
    ensures BooksInv(Step(c, s, OfSender(h, e)))
  {
    SenderStepStaysRegistered(c, s.running, s.connections[h], e);
    BooksUpdate(s, h, SenderStep(c, s.running, s.connections[h], e));
  }

  lemma BooksUpdate(s: State, h: Thread, y: Connection)
    requires BooksInv(s) && h in s.connections
    requires y.registered == s.connections[h].registered && (s.connections[h].pc.Exited? ==> y.pc.Exited?)
    ensures BooksInv(s.(connections := s.connections[h := y]))
  {
    RegistryFrame(s, s.(connections := s.connections[h := y]));
  }

  lemma SenderEventKeepsConnections(c: Config, s: State, h: Thread, e: SenderEvent)
    requires ValidConfig(c) && ConnectionsInv(c, s) && Guard(c, s, OfSender(h, e)) && InBounds(s.shared)
    ensures ConnectionsInv(c, Step(c, s, OfSender(h, e)))
  {
    var s' := Step(c, s, OfSender(h, e));
    forall g | g in s'.connections ensures LocalInv(c, ViewOf(s', g), s'.connections[g]) {
      assert ViewOf(s', g) == ViewOf(s, g);
      OneConnection(c, s, g);
      if g == h {
        SenderStepKeepsInv(c, ViewOf(s, h), s.connections[h], e);
      }
    }
  }

  // ---------------------------------------------------------------- acquisition events

  lemma ReaderEventKeepsInv(c: Config, s: State, e: ReaderEvent)
    requires ValidConfig(c) && Inv(c, s) && ReaderGuard(s, e)
    ensures Inv(c, Step(c, s, OfReader(e)))
  {
    ReaderEventKeepsReader(c, s, e);
    ReaderEventKeepsAcquired(c, s, e);
    ReaderEventKeepsRegistry(c, s, e);
    ReaderEventKeepsConnections(c, s, e);
  }

  lemma ReaderEventKeepsReader(c: Config, s: State, e: ReaderEvent)
    requires ValidConfig(c) && ReaderInv(s) && HistoryInv(c, s) && SetsInv(s.sets) && ReaderGuard(s, e)
    ensures ReaderInv(ReaderStep(c, s, e))
    ensures HistoryInv(c, ReaderStep(c, s, e))
  {
    if e.PassBarrier? {
      PassBarrierKeepsReader(c, s);
    } else if e.Stamp? {
      StampKeepsReader(c, s);
    } else if e.Publish? {
      PublishKeepsReader(c, s);
    } else if e.Fill? || e.Digitize? {
      WriteKeepsReader(c, s, e);
    } else {
      TurnKeepsReader(c, s, e);
    }
  }

  lemma PassBarrierKeepsReader(c: Config, s: State)
    requires ValidConfig(c) && ReaderInv(s) && HistoryInv(c, s) && SetsInv(s.sets) && ReaderGuard(s, PassBarrier)
    ensures ReaderInv(ReaderStep(c, s, PassBarrier)) && HistoryInv(c, ReaderStep(c, s, PassBarrier))
  {
    BarrierOpenMeansNonePending(s.sets);
    HistoryFrame(c, s, ReaderStep(c, s, PassBarrier));
  }

  lemma StampKeepsReader(c: Config, s: State)
    requires ValidConfig(c) && ReaderInv(s) && HistoryInv(c, s) && ReaderGuard(s, Stamp)
    ensures ReaderInv(ReaderStep(c, s, Stamp)) && HistoryInv(c, ReaderStep(c, s, Stamp))
  {
    ClockAppend(c.rate, Sizes(s.history), s.reader.points);
  }

  lemma TurnKeepsReader(c: Config, s: State, e: ReaderEvent)
    requires ValidConfig(c) && ReaderInv(s) && HistoryInv(c, s) && ReaderGuard(s, e)
    requires !(e.PassBarrier? || e.Stamp? || e.Publish? || e.Fill? || e.Digitize?)
    ensures ReaderInv(ReaderStep(c, s, e)) && HistoryInv(c, ReaderStep(c, s, e))
  {
    HistoryFrame(c, s, ReaderStep(c, s, e));
  }

  lemma ReaderEventKeepsAcquired(c: Config, s: State, e: ReaderEvent)
    requires ValidConfig(c) && ReaderInv(s) && AcquiredInv(s) && ReaderGuard(s, e)
    ensures AcquiredInv(ReaderStep(c, s, e))
  {
    if e.Fill? {
      FillKeepsAcquired(c, s, e.i, e.value);
    } else if e.ReadDone? {
      ReadDoneKeepsAcquired(c, s, e.points);
    } else if e.Digitize? {
      DigitizeKeepsAcquired(c, s);
    } else if e.Publish? {
      PublishKeepsAcquired(c, s);
    } else {
      TurnKeepsAcquired(c, s, e);
    }
  }

  lemma FillKeepsAcquired(c: Config, s: State, i: nat, value: Sample)
    requires ValidConfig(c) && ReaderInv(s) && AcquiredInv(s) && ReaderGuard(s, Fill(i, value))
    ensures AcquiredInv(ReaderStep(c, s, Fill(i, value)))
  {
  }

  lemma ReadDoneKeepsAcquired(c: Config, s: State, points: nat)
    requires ValidConfig(c) && ReaderInv(s) && AcquiredInv(s) && ReaderGuard(s, ReadDone(points))
    ensures AcquiredInv(ReaderStep(c, s, ReadDone(points)))
  {
  }

  /** The memcpy of TEST_DIGITAL_DATA: one more element is zero, or all are. */
  lemma DigitizeKeepsAcquired(c: Config, s: State)
    requires ValidConfig(c) && ReaderInv(s) && AcquiredInv(s) && ReaderGuard(s, Digitize)
    ensures AcquiredInv(ReaderStep(c, s, Digitize))
  {
  }

  lemma PublishKeepsAcquired(c: Config, s: State)
    requires ValidConfig(c) && ReaderInv(s) && AcquiredInv(s) && ReaderGuard(s, Publish)
    ensures AcquiredInv(ReaderStep(c, s, Publish))
  {
    var s' := ReaderStep(c, s, Publish);
    assert IsReading(Snapshot(Published(s)), s.readings[|s.history|]);
    forall k | 0 <= k < |s'.history| ensures IsReading(s'.history[k], s'.readings[k]) {
      if k < |s.history| {
        assert IsReading(s.history[k], s.readings[k]);
      }
    }
  }

  lemma TurnKeepsAcquired(c: Config, s: State, e: ReaderEvent)
    requires ValidConfig(c) && ReaderInv(s) && AcquiredInv(s) && ReaderGuard(s, e)
    requires !(e.Fill? || e.ReadDone? || e.Digitize? || e.Publish?)
    ensures AcquiredInv(ReaderStep(c, s, e))
  {
  }

  lemma WriteKeepsReader(c: Config, s: State, e: ReaderEvent)
    requires ValidConfig(c) && ReaderInv(s) && HistoryInv(c, s) && ReaderGuard(s, e) && (e.Fill? || e.Digitize?)
    ensures ReaderInv(ReaderStep(c, s, e)) && HistoryInv(c, ReaderStep(c, s, e))
  {
    WriteKeepsBounds(c, s, e);
    HistoryFrame(c, s, ReaderStep(c, s, e));
  }

  lemma HistoryFrame(c: Config, s: State, s': State)
    requires 0 < c.rate && HistoryInv(c, s) && s'.history == s.history
    requires s'.reader.clock == s.reader.clock && !s.reader.pc.Publishing? && !s'.reader.pc.Publishing?
    ensures HistoryInv(c, s')
  {
  }

  lemma PublishKeepsReader(c: Config, s: State)
    requires ValidConfig(c) && ReaderInv(s) && HistoryInv(c, s) && ReaderGuard(s, Publish)
    ensures ReaderInv(ReaderStep(c, s, Publish)) && HistoryInv(c, ReaderStep(c, s, Publish))
  {
    PublishKeepsHistory(c, s);
  }

  lemma ReaderEventKeepsRegistry(c: Config, s: State, e: ReaderEvent)
    requires ValidConfig(c) && ReaderInv(s) && BooksInv(s)
    requires ReaderGuard(s, e)
    ensures BooksInv(ReaderStep(c, s, e))
  {
    if e.ResetReady? {
      ResetKeepsRegistry(c, s);
    } else {
      ReaderEventStays(c, s, e);
      RegistryFrame(s, ReaderStep(c, s, e));
    }
  }

  lemma ReaderEventStays(c: Config, s: State, e: ReaderEvent)
    requires ValidConfig(c) && Addressable(s) && ReaderGuard(s, e) && !e.ResetReady?
    ensures SameRegistry(s, ReaderStep(c, s, e))
  {
    var s' := ReaderStep(c, s, e);
    assert s'.connections == s.connections && s'.sets == s.sets;
  }

  lemma ResetKeepsRegistry(c: Config, s: State)
    requires ValidConfig(c) && Addressable(s) && BooksInv(s) && ReaderGuard(s, ResetReady)
    ensures BooksInv(ReaderStep(c, s, ResetReady))
  {
    HandlerSets.ResetKeepsInv(s.sets);
    assert forall t :: InHand(ReaderStep(c, s, ResetReady), t) == InHand(s, t);
  }

  lemma ReaderEventKeepsConnections(c: Config, s: State, e: ReaderEvent)
    requires ValidConfig(c) && ReaderInv(s) && SetsInv(s.sets) && ConnectionsInv(c, s) && ReaderGuard(s, e)
    ensures ConnectionsInv(c, ReaderStep(c, s, e))
  {
    match e {
      case Fill(i, value) => WriteKeepsConnections(c, s, e);
      case Digitize => WriteKeepsConnections(c, s, e);
      case Publish => PublishKeepsConnections(c, s);
      case ResetReady => ResetKeepsConnections(c, s);
      case FreeAnalog(_) => FreeKeepsConnections(c, s, e);
      case FreeDigital(_) => FreeKeepsConnections(c, s, e);
      case _ => StoppedKeepsConnections(c, s, ReaderStep(c, s, e));
    }
  }

  lemma FreeKeepsConnections(c: Config, s: State, e: ReaderEvent)
    requires ValidConfig(c) && ReaderInv(s) && ConnectionsInv(c, s)
    requires ReaderGuard(s, e) && (e.FreeAnalog? || e.FreeDigital?)
    ensures ConnectionsInv(c, ReaderStep(c, s, e))
  {
    var s' := ReaderStep(c, s, e);
    forall h | h in s'.connections ensures LocalInv(c, ViewOf(s', h), s'.connections[h]) {
      OneConnection(c, s, h);
      FreeKeepsInv(c, ViewOf(s, h), s.connections[h], s'.shared);
      assert ViewOf(s', h) == ViewOf(s, h).(shared := s'.shared);
    }
  }

  /** One element written into an array no mutex protects: nobody is pending. */
  lemma WriteKeepsConnections(c: Config, s: State, e: ReaderEvent)
    requires ValidConfig(c) && ReaderInv(s) && ConnectionsInv(c, s) && ReaderGuard(s, e) && (e.Fill? || e.Digitize?)
    ensures ConnectionsInv(c, ReaderStep(c, s, e))
  {
    var s' := ReaderStep(c, s, e);
    WriteKeepsBounds(c, s, e);
    SharedChangeKeepsConnections(c, s, s');
  }

  lemma WriteKeepsBounds(c: Config, s: State, e: ReaderEvent)
    requires ValidConfig(c) && ReaderInv(s) && ReaderGuard(s, e) && (e.Fill? || e.Digitize?)
    ensures
      var s' := ReaderStep(c, s, e);
      && InBounds(s'.shared) && s'.sets == s.sets && s'.connections == s.connections
      && s'.history == s.history && s'.offered == s.offered && s'.running == s.running
      && s'.shared.analogLive == s.shared.analogLive && s'.shared.digitalLive == s.shared.digitalLive
  {
  }

  lemma SharedChangeKeepsConnections(c: Config, s: State, s': State)
    requires ValidConfig(c) && ConnectionsInv(c, s) && s.sets.pending == map[] && InBounds(s'.shared)
    requires Live(s'.shared) <==> Live(s.shared)
    requires s'.sets == s.sets && s'.connections == s.connections
    requires s'.history == s.history && s'.offered == s.offered && s'.running == s.running
    ensures ConnectionsInv(c, s')
  {
    forall h | h in s'.connections ensures LocalInv(c, ViewOf(s', h), s'.connections[h]) {
      OneConnection(c, s, h);
      SharedWriteKeepsInv(c, ViewOf(s, h), s.connections[h], s'.shared);
      assert ViewOf(s', h) == ViewOf(s, h).(shared := s'.shared);
    }
  }

  lemma PublishKeepsConnections(c: Config, s: State)
    requires ValidConfig(c) && ReaderInv(s) && ConnectionsInv(c, s) && ReaderGuard(s, Publish)
    ensures ConnectionsInv(c, ReaderStep(c, s, Publish))
  {
    var s' := ReaderStep(c, s, Publish);
    var b := Snapshot(Published(s));
    forall h | h in s'.connections ensures LocalInv(c, ViewOf(s', h), s'.connections[h]) {
      OneConnection(c, s, h);
      PublishKeepsInv(c, ViewOf(s, h), s.connections[h], Published(s), b);
      assert ViewOf(s', h) == ViewOf(s, h).(shared := Published(s), history := s.history + [b]);
    }
  }

  lemma PublishKeepsHistory(c: Config, s: State)
    requires ValidConfig(c) && ReaderInv(s) && HistoryInv(c, s) && ReaderGuard(s, Publish)
    ensures HistoryInv(c, ReaderStep(c, s, Publish))
  {
    var b := Snapshot(Published(s));
    StampsAppend(c, s.history, b);
    assert Sizes(s.history + [b]) == Sizes(s.history) + [b.points];
  }

  lemma StampsAppend(c: Config, history: seq<Block>, b: Block)
    requires 0 < c.rate && StampsInv(c, history) && b.timestamp == Clock(c.rate, Sizes(history) + [b.points])
    ensures StampsInv(c, history + [b])
  {
    var longer := history + [b];
    assert Sizes(longer) == Sizes(history) + [b.points];
    forall k | 0 <= k < |longer| ensures longer[k].timestamp == Clock(c.rate, Sizes(longer)[..k + 1]) {
      if k < |history| {
        assert Sizes(longer)[..k + 1] == Sizes(history)[..k + 1];
      } else {
        assert Sizes(longer)[..k + 1] == Sizes(longer);
      }
    }
  }

  lemma ResetKeepsConnections(c: Config, s: State)
    requires ValidConfig(c) && ReaderInv(s) && SetsInv(s.sets) && ConnectionsInv(c, s) && ReaderGuard(s, ResetReady)
    ensures ConnectionsInv(c, ReaderStep(c, s, ResetReady))
  {
    var s' := ReaderStep(c, s, ResetReady);
    HandlerSets.ResetKeepsInv(s.sets);
    forall h | h in s'.connections ensures LocalInv(c, ViewOf(s', h), s'.connections[h]) {
      var v := ViewOf(s, h);
      OneConnection(c, s, h);
      HandlerInvariant.ResetKeepsInv(c, v, s.connections[h]);
      assert ViewOf(s', h) == v.(offered := |v.history|, meActive := v.meAlive, mePending := v.meAlive);
    }
  }

  // ---------------------------------------------------------------- reaper events

  lemma ReaperEventKeepsInv(c: Config, s: State, e: ReaperEvent)
    requires ValidConfig(c) && Inv(c, s) && ReaperGuard(s, e)
    ensures Inv(c, Step(c, s, OfReaper(e)))
  {
    ReaperEventKeepsReader(c, s, e);
    ReaperEventKeepsRegistry(s, e);
    ReaperEventKeepsConnections(c, s, e);
  }

  lemma ReaperEventKeepsReader(c: Config, s: State, e: ReaperEvent)
    requires ValidConfig(c) && ReaderInv(s) && HistoryInv(c, s) && AcquiredInv(s) && ReaperGuard(s, e)
    ensures ReaderInv(ReaperStep(s, e)) && HistoryInv(c, ReaperStep(s, e)) && AcquiredInv(ReaperStep(s, e))
  {
    ReaderFrame(c, s, ReaperStep(s, e));
  }

  lemma ReaperEventKeepsConnections(c: Config, s: State, e: ReaperEvent)
    requires ValidConfig(c) && ConnectionsInv(c, s) && ReaperGuard(s, e)
    ensures ConnectionsInv(c, ReaperStep(s, e))
  {
    var s' := ReaperStep(s, e);
    forall h | h in s'.connections ensures LocalInv(c, ViewOf(s', h), s'.connections[h]) {
      OneConnection(c, s, h);
      if e.TakeDead? && e.t == h {
        HandlerInvariant.TakeKeepsInv(c, ViewOf(s, h), s.connections[h]);
        assert ViewOf(s', h) == ViewOf(s, h).(meDead := false);
      } else {
        assert ViewOf(s', h) == ViewOf(s, h);
      }
    }
  }

  lemma ReaperEventKeepsRegistry(s: State, e: ReaperEvent)
    requires BooksInv(s) && ReaperGuard(s, e)
    ensures BooksInv(ReaperStep(s, e))
  {
    match e {
      case TakeDead(t) => TakeKeepsBooks(s, t);
      case FreeRecord => FreeRecordKeepsBooks(s);
      case _ =>
        var s' := ReaperStep(s, e);
        assert forall u :: InHand(s', u) == InHand(s, u);
    }
  }

  lemma TakeKeepsBooks(s: State, t: Thread)
    requires BooksInv(s) && ReaperGuard(s, TakeDead(t))
    ensures BooksInv(ReaperStep(s, TakeDead(t)))
  {
    var s' := ReaperStep(s, TakeDead(t));
    HandlerSets.TakeKeepsInv(s.sets, t);
    TakeKeepsPartition(s, t);
    assert forall u :: InHand(s', u) <==> u == t;
    assert forall u :: !InHand(s, u);
  }

  lemma TakeKeepsPartition(s: State, t: Thread)
    requires SetsInv(s.sets) && PartitionInv(s) && ReaperGuard(s, TakeDead(t))
    ensures PartitionInv(ReaperStep(s, TakeDead(t)))
    ensures t in s.records && t !in s.taken && s.records[t] == s.sets.dead[t]
  {
    assert ReaperStep(s, TakeDead(t)).sets.dead.Keys == s.sets.dead.Keys - {t};
  }

  lemma FreeRecordKeepsBooks(s: State)
    requires BooksInv(s) && ReaperGuard(s, FreeRecord)
    ensures BooksInv(ReaperStep(s, FreeRecord))
  {
    var s' := ReaperStep(s, FreeRecord);
    assert forall u :: !InHand(s', u);
    assert forall u :: InHand(s, u) <==> u == s.reaper.thread;
  }

  // ---------------------------------------------------------------- every event, every run

  lemma StepKeepsInv(c: Config, s: State, e: Event)
    requires ValidConfig(c) && Inv(c, s) && Guard(c, s, e)
    ensures Inv(c, Step(c, s, e))
  {
    match e {
      case Connect(h) => ConnectKeepsInv(c, s, h);
      case Shutdown => ShutdownKeepsGlobalInv(c, s);
      case OfHandler(h, he) => HandlerEventKeepsInv(c, s, h, he);
      case OfSender(h, se) => SenderEventKeepsInv(c, s, h, se);
      case OfReader(re) => ReaderEventKeepsInv(c, s, re);
      case OfReaper(pe) => ReaperEventKeepsInv(c, s, pe);
    }
  }

  lemma {:induction false} RunKeepsInv(c: Config, run: seq<State>, i: nat)
    requires ValidConfig(c) && Run(c, run) && i < |run|
    ensures Inv(c, run[i])
  {
    if i == 0 {
      InitInv(c, run[0]);
    } else {
      RunKeepsInv(c, run, i - 1);
      assert Next(c, run[i - 1], run[i - 1 + 1]);
      var e :| Guard(c, run[i - 1], e) && run[i] == Step(c, run[i - 1], e);
      StepKeepsInv(c, run[i - 1], e);
    }
  }
}
