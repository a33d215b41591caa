/** One connection of the daemon: the handler thread, its sender thread, the queue between
    them, and the connection they both write.  Every atomic step of the two threads is an
    event; `HandlerGuard` says at which program point it can happen and `HandlerStep` what it
    does.  Steps of daemon/sync.c that a handler takes are completed by Daemon, which owns the
    five sets. */
module HandlerThreads {
  import opened Wire
  import Fifo

  const NUM_CHANNELS: nat := 8
  const MAX_CHANNELS: nat := 8
  /** Capacity of the acquisition arrays: BUFFER_SAMPLES_PER_CHANNEL * NUM_CHANNELS. */
  const DATA_SIZE: nat := 240000

  /** `maxElems` is BUF_SIZE, `rate` is SAMPLING_RATE, `pack` the generated serialiser. */
  datatype Config = Config(maxElems: nat, rate: nat, pack: DataSet -> Payload)

  ghost predicate ValidConfig(c: Config) {
    c.maxElems >= 1 && 0 < c.rate < TWO32
  }

  // ---------------------------------------------------------------- shared block

  datatype Header = Header(timestamp: nat, points: nat, channels: nat)

  /** input_data_t: a header under a mutex, and two arrays that no mutex protects.  An array that
      is not live any more has been freed: it then holds whatever its next owner leaves there. */
  datatype Shared = Shared(
    header: Header, analog: seq<Sample>, digital: seq<Digital>, analogLive: bool, digitalLive: bool)

  predicate Live(sh: Shared) {
    sh.analogLive && sh.digitalLive
  }

  function SampleCount(h: Header): nat {
    h.channels * h.points
  }

  ghost predicate InBounds(sh: Shared) {
    && |sh.analog| == DATA_SIZE && |sh.digital| == DATA_SIZE
    && sh.header.channels == NUM_CHANNELS
    && SampleCount(sh.header) <= DATA_SIZE
  }

  /** The block the shared memory holds right now. */
  ghost function Snapshot(sh: Shared): (b: Block)
    requires InBounds(sh)
    ensures WellFormed(b) && b.channels == NUM_CHANNELS
  {
    var n := SampleCount(sh.header);
    Block(sh.header.timestamp, sh.header.points, sh.header.channels, sh.analog[..n], sh.digital[..n])
  }

  // ---------------------------------------------------------------- state of one connection

  /** Program points of handler_thread_main. */
  datatype HandlerPc =
    | Handshaking      // reading and checking the channel list
    | Enlisting        // sender started, about to call inc_available_handlers
    | SendingGreeting  // writing the welcome message and the sampling rate
    | Testing          // while(running && handler_running)
    | Waiting          // in wait_data_available
    | Rechecking       // if(!running) break
    | Reserving        // copy_to_buffer, about to test for space
    | CopyingHeader    // about to copy the header; the sample count has been read
    | CopyingAnalog    // inside the first memcpy, its target allocated
    | CopyingDigital   // inside the second memcpy, its target allocated
    | Enqueuing        // about to execute count++
    | Reporting        // about to call set_ready
    | Resigning        // about to call dec_available_handlers
    | Stopping         // about to clear handler_running
    | Closing          // about to close the socket
    | Joining          // in pthread_join on the sender
    | Cleaning         // about to call free_buffer
    | Exited

  /** Program points of handler_sender_main. */
  datatype SenderPc =
    | Absent                // not created
    | Polling               // while(*handler_running)
    | Dequeuing             // write_buf_element, waiting for an element
    | Sending               // inside write_dataset
    | Releasing(ok: bool)   // about to free the block it has written, or failed to write
    | Quitting              // about to clear handler_running
    | Finished

  /** `current` holds the element the sender has taken out and not finished with, `sent` how
      many bytes of its frame are written.  `wire` is what the two threads have written so far
      through the connection's descriptor.  `since`, `written` and `freed` record history:
      the index of the first block offered to this client, the blocks completely written, and
      the positions (in the order of copying) of the copies whose memory has been freed.
      `analogs` and `digitals` count the arrays allocated for copies, and `spoiled` tells whether
      the handler has read an element of a shared array that was freed already.  `overrun` counts
      the elements queued after `running`, which is handler_running, had been cleared. */
  datatype Connection = Connection(
    pc: HandlerPc, running: bool, registered: bool, ids: seq<nat>, since: nat,
    queue: seq<Block>, samples: nat, draft: Block,
    sender: SenderPc, current: seq<Block>, sent: nat, written: seq<Block>,
    open: bool, wire: seq<byte>, freed: set<nat>, analogs: nat, digitals: nat, spoiled: bool,
    overrun: nat)

  const NO_BLOCK := Block(0, 0, 0, [], [])

  const FRESH := Connection(
    Handshaking, true, false, [], 0, [], 0, NO_BLOCK, Absent, [], 0, [], true, [], {}, 0, 0, false, 0)

  /** Everything copied for this client, oldest first. */
  function Copied(x: Connection): seq<Block> {
    x.written + x.current + x.queue
  }

  predicate Between(lo: nat, i: nat, hi: nat) {
    lo <= i < hi
  }

  function Positions(lo: nat, hi: nat): set<nat> {
    set i: nat | i < hi && Between(lo, i, hi)
  }

  /** Bytes of the frame that carries a block to a client that chose `ids`. */
  ghost function PayloadOf(c: Config, ids: seq<nat>, b: Block): Payload {
    if WellFormed(b) && ChannelsWithin(ids, b.channels) then c.pack(Project(b, ids)) else []
  }

  ghost function FrameOf(c: Config, x: Connection): seq<byte>
    requires |x.current| == 1
  {
    Frame(PayloadOf(c, x.ids, x.current[0]))
  }

  /** The queue lock is held from the first test for space to the end of copy_to_buffer. */
  predicate HoldsQueueLock(pc: HandlerPc) {
    pc.CopyingHeader? || pc.CopyingAnalog? || pc.CopyingDigital? || pc.Enqueuing?
  }

  // ---------------------------------------------------------------- events

  datatype HandlerEvent =
    | Refuse | Accept(ids: seq<nat>) | Enlist | Greet(k: nat) | TestLoop | Wake | Recheck
    | Reserve | CopyHeader | CopyAnalog | CopyDigital | Enqueue | SetReady | Resign
    | StopFlag | CloseSocket | JoinSender | Cleanup

  datatype SenderEvent = Poll | Shut | Dequeue | Send(k: nat) | FailSend | Release | Quit

  /** What a handler can see of the rest of the daemon.  `me*` say in which sets it is. */
  datatype View = View(
    running: bool, history: seq<Block>, offered: nat, shared: Shared,
    meAlive: bool, meActive: bool, mePending: bool, meDead: bool)

  ghost predicate HandlerGuard(c: Config, v: View, x: Connection, e: HandlerEvent)
    requires c.rate < TWO32
  {
    match e
    case Refuse => x.pc.Handshaking?
    case Accept(ids) => x.pc.Handshaking? && |ids| <= MAX_CHANNELS && ChannelsWithin(ids, v.shared.header.channels)
    case Enlist => x.pc.Enlisting?
    case Greet(k) => x.pc.SendingGreeting? && 0 < k && |x.wire| + k <= |Greeting(c.rate)|
    case TestLoop => x.pc.Testing?
    case Wake => x.pc.Waiting? && (!v.running || v.mePending)
    case Recheck => x.pc.Rechecking?
    case Reserve => x.pc.Reserving?
    case CopyHeader => x.pc.CopyingHeader?
    case CopyAnalog => x.pc.CopyingAnalog?
    case CopyDigital => x.pc.CopyingDigital?
    case Enqueue => x.pc.Enqueuing?
    case SetReady => x.pc.Reporting?
    case Resign => x.pc.Resigning?
    case StopFlag => x.pc.Stopping?
    case CloseSocket => x.pc.Closing?
    case JoinSender => x.pc.Joining? && (x.sender.Absent? || x.sender.Finished?)
    case Cleanup => x.pc.Cleaning?
  }

  ghost function HandlerStep(c: Config, v: View, x: Connection, e: HandlerEvent): Connection
    requires c.rate < TWO32 && HandlerGuard(c, v, x, e)
  {
    match e
    case Refuse => x.(pc := Stopping)
    case Accept(ids) => x.(pc := Enlisting, ids := ids, sender := Polling)
    case Enlist => x.(pc := SendingGreeting, registered := true, since := v.offered)
    case Greet(k) => Greeted(c, x, k)
    case TestLoop => x.(pc := if v.running && x.running then Waiting else Resigning)
    case Wake => x.(pc := Rechecking)
    case Recheck => x.(pc := if v.running then Reserving else Resigning)
    case Reserve => Reserved(c, v, x)
    case CopyHeader => HeaderCopied(v, x)
    case CopyAnalog => AnalogCopied(v, x)
    case CopyDigital => DigitalCopied(v, x)
    case Enqueue => Enqueued(x)
    case SetReady => x.(pc := Testing)
    case Resign => x.(pc := Stopping)
    case StopFlag => x.(pc := Closing, running := false)
    case CloseSocket => x.(pc := Joining, open := false)
    case JoinSender => x.(pc := Cleaning)
    case Cleanup => Cleaned(x)
  }

  ghost function Greeted(c: Config, x: Connection, k: nat): Connection
    requires c.rate < TWO32 && |x.wire| + k <= |Greeting(c.rate)|
  {
    var wire := x.wire + Greeting(c.rate)[|x.wire|..|x.wire| + k];
    x.(wire := wire, pc := if |wire| == |Greeting(c.rate)| then Testing else SendingGreeting)
  }

  /** The test for space.  The sample count is read before the lock of the block is taken. */
  function Reserved(c: Config, v: View, x: Connection): Connection {
    if Fifo.Accepts(x.queue, c.maxElems)
    then x.(pc := CopyingHeader, samples := SampleCount(v.shared.header))
    else x.(pc := Resigning)
  }

  function HeaderCopied(v: View, x: Connection): Connection {
    var h := v.shared.header;
    x.(pc := CopyingAnalog, draft := Block(h.timestamp, h.points, h.channels, [], []), analogs := x.analogs + 1)
  }

  /** One element of the first memcpy, or its end. */
  function AnalogCopied(v: View, x: Connection): Connection {
    var i := |x.draft.analog|;
    if i < x.samples && i < |v.shared.analog|
    then x.(draft := x.draft.(analog := x.draft.analog + [v.shared.analog[i]]),
            spoiled := x.spoiled || !v.shared.analogLive)
    else x.(pc := CopyingDigital, digitals := x.digitals + 1)
  }

  function DigitalCopied(v: View, x: Connection): Connection {
    var i := |x.draft.digital|;
    if i < x.samples && i < |v.shared.digital|
    then x.(draft := x.draft.(digital := x.draft.digital + [v.shared.digital[i]]),
            spoiled := x.spoiled || !v.shared.digitalLive)
    else x.(pc := Enqueuing)
  }

  function Enqueued(x: Connection): Connection {
    x.(pc := Reporting, queue := Fifo.Push(x.queue, x.draft), draft := NO_BLOCK,
       overrun := if x.running then x.overrun else x.overrun + 1)
  }

  /** free_buffer frees what is still queued. */
  function Cleaned(x: Connection): Connection {
    x.(pc := Exited, freed := x.freed + Positions(|x.written| + |x.current|, |Copied(x)|))
  }

  ghost predicate SenderGuard(c: Config, running: bool, x: Connection, e: SenderEvent) {
    match e
    case Poll => x.sender.Polling?
    case Shut => x.sender.Dequeuing? && !running
    case Dequeue => x.sender.Dequeuing? && running && x.queue != [] && !HoldsQueueLock(x.pc)
    case Send(k) => x.sender.Sending? && |x.current| == 1 && 0 < k && x.sent + k <= |FrameOf(c, x)|
    case FailSend => x.sender.Sending?
    case Release => x.sender.Releasing?
    case Quit => x.sender.Quitting?
  }

  ghost function SenderStep(c: Config, running: bool, x: Connection, e: SenderEvent): Connection
    requires SenderGuard(c, running, x, e)
  {
    match e
    case Poll => x.(sender := if x.running then Dequeuing else Quitting)
    case Shut => x.(sender := Polling)
    case Dequeue => x.(sender := Sending, current := [Fifo.Head(x.queue)], queue := Fifo.Pop(x.queue), sent := 0)
    case Send(k) => Sent(c, x, k)
    case FailSend => x.(sender := Releasing(false))
    case Release => Released(x)
    case Quit => x.(sender := Finished, running := false)
  }

  ghost function Sent(c: Config, x: Connection, k: nat): Connection
    requires |x.current| == 1 && x.sent + k <= |FrameOf(c, x)|
  {
    var frame := FrameOf(c, x);
    x.(wire := x.wire + frame[x.sent..x.sent + k],
       sent := x.sent + k,
       sender := if x.sent + k < |frame| then Sending
                 else Releasing(CountFits(PayloadOf(c, x.ids, x.current[0]))))
  }

  /** The memory of the element is freed, whether or not its frame was written. */
  function Released(x: Connection): Connection
    requires x.sender.Releasing?
  {
    var freed := x.freed + {|x.written|};
    if x.sender.ok
    then x.(sender := Polling, freed := freed, written := x.written + x.current, current := [], sent := 0)
    else x.(sender := Quitting, freed := freed)
  }
}
