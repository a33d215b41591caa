/** The whole daemon as a transition system: one acquisition thread, one reaper, any number of
    connections, and a flag that a signal clears.  An event is one atomic step of one thread:
    a critical section, a test, or a single element copied from or into memory that no mutex
    protects.  `Guard` says where an event can happen, `Step` what it does. */
module Daemon {
  import opened HandlerSets
  import opened Wire
  import opened HandlerThreads
  import opened Timestamps

  /** Program points of ni_thread_main. */
  datatype ReaderPc =
    | AtLoop        // while(running)
    | AtBarrier     // in wait_read_barrier
    | AtRecheck     // if(!running) break
    | Sampling      // in read_ni, which fills the analog array
    | Digitizing    // inside the memcpy into the digital array
    | Stamping      // about to advance the timestamp
    | Publishing    // about to write the header under its lock
    | Resetting     // about to call reset_ready_handlers
    | Halted        // out of the loop, about to free the analog array
    | HalfFreed     // about to free the digital array
    | Ended

  datatype Reader = Reader(pc: ReaderPc, points: nat, filled: nat, clock: nat)

  /** What one call of read_ni delivered: how many points per channel, and for every index of the
      array the value last read there. */
  datatype Reading = Reading(points: nat, samples: seq<Sample>)

  /** Program points of dead_handler_thread_main. */
  datatype Reaper =
    | Checking
    | AwaitingDead
    | JoiningThread(thread: Thread, record: Record)
    | FreeingRecord(thread: Thread, record: Record)
    | Retired

  /** `history` lists the published blocks and `offered` counts those a reset has announced.
      `records` remembers the record of every thread that ever registered, `taken` the threads
      the reaper took out of the dead set, and `released` the records it freed.  `heard` remembers
      for every index the value the hardware last delivered there, and `readings` what it was when
      each read was done: both are written by the hardware only, and no step reads them. */
  datatype State = State(
    running: bool, shared: Shared, reader: Reader, sets: Sets,
    connections: map<Thread, Connection>, reaper: Reaper,
    history: seq<Block>, offered: nat,
    records: map<Thread, Record>, taken: set<Thread>, released: set<Record>,
    heard: seq<Sample>, readings: seq<Reading>)

  datatype ReaderEvent =
    | LoopTest | PassBarrier | RecheckRunning | Fill(i: nat, value: Sample) | ReadDone(points: nat)
    | ReadFailed | Digitize | Stamp | Publish | ResetReady
    | FreeAnalog(junk: seq<Sample>) | FreeDigital(junkBits: seq<Digital>)

  datatype ReaperEvent = CheckAlive | TakeDead(t: Thread) | JoinThread | FreeRecord

  datatype Event =
    | Connect(h: Thread)
    | Shutdown
    | OfHandler(h: Thread, he: HandlerEvent)
    | OfSender(h: Thread, se: SenderEvent)
    | OfReader(re: ReaderEvent)
    | OfReaper(pe: ReaperEvent)

  ghost predicate Init(c: Config, s: State) {
    && s.running && InBounds(s.shared) && Live(s.shared)
    && s.reader == Reader(AtLoop, 0, 0, 0)
    && s.sets == EMPTY_SETS && s.connections == map[] && s.reaper == Checking
    && s.history == [] && s.offered == 0 && s.records == map[] && s.taken == {} && s.released == {}
    && s.heard == s.shared.analog && s.readings == []
  }

  function ViewOf(s: State, h: Thread): View {
    View(s.running, s.history, s.offered, s.shared,
         h in s.sets.alive, h in s.sets.active, h in s.sets.pending, h in s.sets.dead)
  }

  // ---------------------------------------------------------------- the source's assertions

  /** set_ready: the handler is active and pending.  dec_available_handlers: it is alive, and
      its record is one and the same wherever it occurs. */
  ghost predicate HandlerAssertion(s: Sets, h: Thread, e: HandlerEvent) {
    match e
    case SetReady => h in s.active && h in s.pending
    case Resign =>
      && h in s.alive
      && (h in s.pending ==> s.pending[h] == s.alive[h])
      && (h in s.done ==> s.done[h] == s.alive[h])
      && (h in s.active ==> s.active[h] == s.alive[h])
    case _ => true
  }

  /** What the sets are after an event of a handler.  A failed assertion ends the process: the
      sets are then left as they were. */
  ghost function SetsAfter(s: Sets, h: Thread, e: HandlerEvent): Sets {
    if !HandlerAssertion(s, h, e) then s else
    match e
    case Enlist => Register(s, h)
    case SetReady => Ready(s, h)
    case Resign => Leave(s, h)
    case _ => s
  }

  // ---------------------------------------------------------------- the acquisition thread

  /** With assertions on, PassBarrier ends the process when somebody is still pending, which
      happens only after a shutdown; the model goes on, as the source does with assertions off. */
  ghost predicate ReaderGuard(s: State, e: ReaderEvent) {
    var pc := s.reader.pc;
    match e
    case LoopTest => pc.AtLoop?
    case PassBarrier => pc.AtBarrier? && (!s.running || BarrierOpen(s.sets))
    case RecheckRunning => pc.AtRecheck?
    case Fill(i, _) => pc.Sampling? && i < |s.shared.analog| && i < |s.heard|
    case ReadDone(points) => pc.Sampling? && NUM_CHANNELS * points <= DATA_SIZE
    case ReadFailed => pc.Sampling?
    case Digitize => pc.Digitizing?
    case Stamp => pc.Stamping?
    case Publish => pc.Publishing?
    case ResetReady => pc.Resetting?
    case FreeAnalog(junk) => pc.Halted? && |junk| == DATA_SIZE
    case FreeDigital(junk) => pc.HalfFreed? && |junk| == DATA_SIZE
  }

  /** The block whose header the publication step writes. */
  function Published(s: State): Shared {
    s.shared.(header := Header(s.reader.clock, s.reader.points, NUM_CHANNELS))
  }

  ghost function ReaderStep(c: Config, s: State, e: ReaderEvent): State
    requires 0 < c.rate && InBounds(s.shared) && ReaderGuard(s, e)
    requires e.Publish? ==> NUM_CHANNELS * s.reader.points <= DATA_SIZE
  {
    var r := s.reader;
    match e
    case LoopTest => s.(reader := r.(pc := if s.running then AtBarrier else Halted))
    case PassBarrier => s.(reader := r.(pc := AtRecheck))
    case RecheckRunning => s.(reader := r.(pc := if s.running then Sampling else Halted))
    case Fill(i, value) =>
      s.(shared := s.shared.(analog := s.shared.analog[i := value]), heard := s.heard[i := value])
    case ReadDone(points) =>
      s.(reader := r.(pc := Digitizing, points := points, filled := 0),
         readings := s.readings + [Reading(points, s.heard)])
    case ReadFailed => s.(reader := r.(pc := Halted), running := false)
    case Digitize =>
      if r.filled < NUM_CHANNELS * r.points && r.filled < |s.shared.digital|
      then s.(reader := r.(filled := r.filled + 1), shared := s.shared.(digital := s.shared.digital[r.filled := false]))
      else s.(reader := r.(pc := Stamping))
    case Stamp => s.(reader := r.(pc := Publishing, clock := (r.clock + Duration(c.rate, r.points)) % TWO64))
    case Publish =>
      s.(reader := r.(pc := Resetting), shared := Published(s), history := s.history + [Snapshot(Published(s))])
    case ResetReady => s.(reader := r.(pc := AtLoop), sets := Reset(s.sets), offered := |s.history|)
    case FreeAnalog(junk) => s.(reader := r.(pc := HalfFreed), shared := s.shared.(analog := junk, analogLive := false))
    case FreeDigital(junk) => s.(reader := r.(pc := Ended), shared := s.shared.(digital := junk, digitalLive := false))
  }

  // ---------------------------------------------------------------- the reaper

  ghost predicate ReaperGuard(s: State, e: ReaperEvent) {
    match e
    case CheckAlive => s.reaper.Checking?
    case TakeDead(t) => s.reaper.AwaitingDead? && t in s.sets.dead
    case JoinThread =>
      && s.reaper.JoiningThread? && s.reaper.thread in s.connections
      && s.connections[s.reaper.thread].pc.Exited?
    case FreeRecord => s.reaper.FreeingRecord?
  }

  ghost function ReaperStep(s: State, e: ReaperEvent): State
    requires ReaperGuard(s, e)
  {
    match e
    case CheckAlive => s.(reaper := if s.running || s.sets.alive != map[] then AwaitingDead else Retired)
    case TakeDead(t) =>
      var record := s.sets.dead[t];
      s.(reaper := JoiningThread(t, record), sets := Take(s.sets, t), taken := s.taken + {t})
    case JoinThread => s.(reaper := FreeingRecord(s.reaper.thread, s.reaper.record))
    case FreeRecord => s.(reaper := Checking, released := s.released + {s.reaper.record})
  }

  // ---------------------------------------------------------------- all events

  ghost predicate Guard(c: Config, s: State, e: Event)
    requires ValidConfig(c)
  {
    match e
    case Connect(h) => h !in s.connections
    case Shutdown => true
    case OfHandler(h, he) => h in s.connections && HandlerGuard(c, ViewOf(s, h), s.connections[h], he)
    case OfSender(h, se) => h in s.connections && SenderGuard(c, s.running, s.connections[h], se)
    case OfReader(re) => ReaderGuard(s, re)
    case OfReaper(pe) => ReaperGuard(s, pe)
  }

  ghost function Step(c: Config, s: State, e: Event): State
    requires ValidConfig(c) && InBounds(s.shared) && Guard(c, s, e)
    requires e == OfReader(Publish) ==> NUM_CHANNELS * s.reader.points <= DATA_SIZE
  {
    match e
    case Connect(h) => s.(connections := s.connections[h := FRESH])
    case Shutdown => s.(running := false)
    case OfHandler(h, he) =>
      s.(connections := s.connections[h := HandlerStep(c, ViewOf(s, h), s.connections[h], he)],
         sets := SetsAfter(s.sets, h, he),
         records := if he.Enlist? then s.records[h := s.sets.next] else s.records)
    case OfSender(h, se) =>
      s.(connections := s.connections[h := SenderStep(c, s.running, s.connections[h], se)])
    case OfReader(re) => ReaderStep(c, s, re)
    case OfReaper(pe) => ReaperStep(s, pe)
  }

  /** The memory the steps address exists: what `Step` relies on, and the invariant provides. */
  ghost predicate Addressable(s: State) {
    && InBounds(s.shared)
    && (s.reader.pc.Digitizing? || s.reader.pc.Stamping? || s.reader.pc.Publishing? ==>
          NUM_CHANNELS * s.reader.points <= DATA_SIZE)
  }

  ghost predicate Next(c: Config, s: State, s': State)
    requires ValidConfig(c)
  {
    Addressable(s) && exists e :: Guard(c, s, e) && s' == Step(c, s, e)
  }

  /** A run of the daemon, from its start, as the states it goes through. */
  ghost predicate Run(c: Config, run: seq<State>)
    requires ValidConfig(c)
  {
    && |run| > 0 && Init(c, run[0])
    && forall i :: 0 <= i < |run| - 1 ==> Next(c, run[i], run[i + 1])
  }
}
