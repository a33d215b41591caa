/** The end of main: it waits for the acquisition thread, cancels the reaper, waits for it and frees
    the five sets.  It does not wait for the handlers. */
module Teardown {
  import opened HandlerSets
  import Wire
  import opened HandlerThreads
  import opened HandlerInvariant
  import opened Daemon
  import opened DaemonInvariant
  import opened DaemonTheorems
  import opened Progress
  import DaemonRuns

  datatype MainPc =
    | Accepting       // in wait_for_connections
    | JoiningReader
    | Cancelling      // about to cancel the reaper
    | JoiningReaper
    | FreeingSets     // about to call finish_sync
    | Returning
    | Gone            // the process has ended

  /** `cancel` tells whether the reaper has been asked to end, `ended` whether it has ended for that
      reason, and `held` whether it took the set mutex with it.  `touched` tells whether a thread
      has used a set after it was freed. */
  datatype Whole = Whole(s: State, main: MainPc, cancel: bool, ended: bool, held: bool, touched: bool)

  datatype Act = Of(e: Event) | MainStep | ReaperEnds

  function SetsLive(w: Whole): bool {
    !w.main.Returning? && !w.main.Gone?
  }

  /** Events that look into one of the sets.  Both wait loops test `running` first. */
  predicate UsesSets(s: State, e: Event) {
    match e
    case OfHandler(_, he) => he.Enlist? || he.SetReady? || he.Resign? || (he.Wake? && s.running)
    case OfReader(re) => re.PassBarrier? || re.ResetReady?
    case OfReaper(pe) => pe.TakeDead? || (pe.CheckAlive? && !s.running)
    case _ => false
  }

  predicate TakesSetMutex(s: State, e: Event) {
    UsesSets(s, e) || (e.OfHandler? && e.he.Wake?)
  }

  ghost predicate WholeGuard(c: Config, w: Whole, a: Act)
    requires ValidConfig(c)
  {
    !w.main.Gone? &&
    match a
    case Of(e) =>
      && Addressable(w.s) && Guard(c, w.s, e)
      && (e.Connect? ==> w.main.Accepting?) && (e.OfReaper? ==> !w.ended)
      && (w.held ==> !TakesSetMutex(w.s, e))
    case MainStep => MainGuard(w)
    case ReaperEnds => w.cancel && !w.ended && (w.s.reaper.AwaitingDead? || w.s.reaper.JoiningThread?)
  }

  predicate MainGuard(w: Whole) {
    match w.main
    case Accepting => !w.s.running
    case JoiningReader => w.s.reader.pc.Ended?
    case JoiningReaper => w.ended || w.s.reaper.Retired?
    case _ => true
  }

  function NextMain(main: MainPc): MainPc {
    match main
    case Accepting => JoiningReader
    case JoiningReader => Cancelling
    case Cancelling => JoiningReaper
    case JoiningReaper => FreeingSets
    case FreeingSets => Returning
    case _ => Gone
  }

  /** A thread can be cancelled in pthread_join and in pthread_cond_wait, in the latter also when it
      is already being woken.  It then gets the mutex back before it ends, and nobody gives it up. */
  ghost function WholeStep(c: Config, w: Whole, a: Act): Whole
    requires ValidConfig(c) && WholeGuard(c, w, a)
  {
    match a
    case Of(e) => w.(s := Step(c, w.s, e), touched := w.touched || (UsesSets(w.s, e) && !SetsLive(w)))
    case MainStep => w.(main := NextMain(w.main), cancel := w.cancel || w.main.Cancelling?)
    case ReaperEnds => w.(ended := true, held := w.s.reaper.AwaitingDead?)
  }

  ghost predicate WholeNext(c: Config, w: Whole, w': Whole)
    requires ValidConfig(c)
  {
    exists a :: WholeGuard(c, w, a) && w' == WholeStep(c, w, a)
  }

  ghost predicate Leads(c: Config, ws: seq<Whole>)
    requires ValidConfig(c)
  {
    |ws| > 0 && forall i :: 0 <= i < |ws| - 1 ==> WholeNext(c, ws[i], ws[i + 1])
  }

  ghost predicate WholeInit(c: Config, w: Whole)
    requires ValidConfig(c)
  {
    Init(c, w.s) && w == Whole(w.s, Accepting, false, false, false, false)
  }

  ghost predicate ReachableWhole(c: Config, w: Whole)
    requires ValidConfig(c)
  {
    exists ws: seq<Whole> :: Leads(c, ws) && WholeInit(c, ws[0]) && ws[|ws| - 1] == w
  }

  // ---------------------------------------------------------------- what every run of main keeps

  ghost predicate WholeInv(c: Config, w: Whole)
    requires ValidConfig(c)
  {
    && Reachable(c, w.s)
    && (!w.main.Accepting? ==> !w.s.running)
    && (!w.main.Accepting? && !w.main.JoiningReader? ==> w.s.reader.pc.Ended?)
    && (w.main.FreeingSets? || !SetsLive(w) ==> w.ended || w.s.reaper.Retired?)
    && (w.ended ==> w.cancel)
    && (w.cancel ==> !w.main.Accepting? && !w.main.JoiningReader? && !w.main.Cancelling?)
    && (w.held ==> w.ended)
    && (w.touched ==> !SetsLive(w))
  }

  lemma StepKeepsWhole(c: Config, w: Whole, a: Act)
    requires ValidConfig(c) && WholeInv(c, w) && WholeGuard(c, w, a)
    ensures WholeInv(c, WholeStep(c, w, a))
  {
    if a.Of? {
      StepReachable(c, w.s, a.e);
      StaysStopped(c, w.s, a.e);
    }
  }

  /** Nothing starts again. */
  lemma StaysStopped(c: Config, s: State, e: Event)
    requires ValidConfig(c) && Addressable(s) && Guard(c, s, e)
    ensures !s.running ==> !Step(c, s, e).running
    ensures s.reader.pc.Ended? ==> Step(c, s, e).reader == s.reader && !e.OfReader?
    ensures s.reaper.Retired? ==> Step(c, s, e).reaper == s.reaper && !e.OfReaper?
  {
  }

  lemma {:induction false} LeadsKeepsWhole(c: Config, ws: seq<Whole>, i: nat)
    requires ValidConfig(c) && Leads(c, ws) && WholeInv(c, ws[0]) && i < |ws|
    ensures WholeInv(c, ws[i])
  {
    if i > 0 {
      LeadsKeepsWhole(c, ws, i - 1);
      assert WholeNext(c, ws[i - 1], ws[i - 1 + 1]);
      var a :| WholeGuard(c, ws[i - 1], a) && ws[i] == WholeStep(c, ws[i - 1], a);
      StepKeepsWhole(c, ws[i - 1], a);
    }
  }

  lemma ReachableWholeInv(c: Config, w: Whole)
    requires ValidConfig(c) && ReachableWhole(c, w)
    ensures WholeInv(c, w)
  {
    var ws: seq<Whole> :| Leads(c, ws) && WholeInit(c, ws[0]) && ws[|ws| - 1] == w;
    DaemonRuns.InitReachable(c, ws[0].s);
    LeadsKeepsWhole(c, ws, |ws| - 1);
  }

  /** As long as main has not freed the sets, every use of them finds what DaemonTheorems says. */
  lemma UntilTheSetsAreFreed(c: Config, w: Whole)
    requires ValidConfig(c) && ReachableWhole(c, w)
    ensures Reachable(c, w.s)
    ensures w.touched ==> !SetsLive(w)
    ensures !SetsLive(w) ==> !w.s.running && w.s.reader.pc.Ended? && (w.ended || w.s.reaper.Retired?)
  {
    ReachableWholeInv(c, w);
  }

  lemma AfterFirst(c: Config, ws: seq<Whole>)
    requires ValidConfig(c) && Leads(c, ws) && |ws| > 1
    ensures WholeNext(c, ws[0], ws[1]) && Leads(c, ws[1..])
  {
    assert WholeNext(c, ws[0], ws[0 + 1]);
    var rest := ws[1..];
    forall i | 0 <= i < |rest| - 1 ensures WholeNext(c, rest[i], rest[i + 1]) {
      assert WholeNext(c, ws[i + 1], ws[i + 1 + 1]);
    }
  }

  // ---------------------------------------------------------------- nobody is left to use the sets

  /** Refused, or past dec_available_handlers. */
  predicate Past(pc: HandlerPc) {
    pc.Stopping? || pc.Closing? || pc.Joining? || pc.Cleaning? || pc.Exited?
  }

  ghost predicate AllPast(s: State) {
    forall h :: h in s.connections ==> Past(s.connections[h].pc)
  }

  ghost predicate NeverTouched(c: Config, w: Whole)
    requires ValidConfig(c)
  {
    forall ws: seq<Whole> :: Leads(c, ws) && ws[0] == w ==> !ws[|ws| - 1].touched
  }

  /** Main is about to free the sets or has done so, and whoever could use them cannot. */
  ghost predicate Settled(c: Config, w: Whole)
    requires ValidConfig(c)
  {
    && WholeInv(c, w) && (w.main.FreeingSets? || !SetsLive(w)) && !w.touched
    && (w.held || AllPast(w.s))
  }

  lemma PastStaysPast(c: Config, v: View, x: Connection, e: HandlerEvent)
    requires c.rate < Wire.TWO32 && HandlerGuard(c, v, x, e) && Past(x.pc)
    ensures Past(HandlerStep(c, v, x, e).pc)
    ensures !(e.Enlist? || e.SetReady? || e.Resign? || e.Wake?)
  {
  }

  lemma StepKeepsPast(c: Config, s: State, e: Event)
    requires ValidConfig(c) && Addressable(s) && Guard(c, s, e) && !e.Connect? && AllPast(s)
    ensures AllPast(Step(c, s, e)) && (e.OfHandler? ==> !UsesSets(s, e))
  {
    match e {
      case OfHandler(h, he) => HandlerKeepsPast(c, s, h, he);
      case OfSender(h, se) => SenderStepStaysRegistered(c, s.running, s.connections[h], se);
      case OfReader(re) => ReaderTouchesNoConnection(c, s, re);
      case _ =>
    }
  }

  lemma HandlerKeepsPast(c: Config, s: State, h: Thread, e: HandlerEvent)
    requires ValidConfig(c) && Addressable(s) && Guard(c, s, OfHandler(h, e)) && AllPast(s)
    ensures AllPast(Step(c, s, OfHandler(h, e))) && !UsesSets(s, OfHandler(h, e))
  {
    PastStaysPast(c, ViewOf(s, h), s.connections[h], e);
  }

  lemma ReaderTouchesNoConnection(c: Config, s: State, e: ReaderEvent)
    requires ValidConfig(c) && Addressable(s) && ReaderGuard(s, e)
    ensures ReaderStep(c, s, e).connections == s.connections
  {
  }

  lemma StepKeepsSettled(c: Config, w: Whole, a: Act)
    requires ValidConfig(c) && Settled(c, w) && WholeGuard(c, w, a)
    ensures Settled(c, WholeStep(c, w, a))
  {
    StepKeepsWhole(c, w, a);
    if a.Of? {
      StaysStopped(c, w.s, a.e);
      if !w.held {
        StepKeepsPast(c, w.s, a.e);
      }
    }
  }

  lemma {:induction false} SettledStays(c: Config, ws: seq<Whole>)
    requires ValidConfig(c) && Leads(c, ws) && Settled(c, ws[0])
    ensures !ws[|ws| - 1].touched
    decreases |ws|
  {
    if |ws| > 1 {
      AfterFirst(c, ws);
      var a :| WholeGuard(c, ws[0], a) && ws[1] == WholeStep(c, ws[0], a);
      StepKeepsSettled(c, ws[0], a);
      SettledStays(c, ws[1..]);
    }
  }

  // ---------------------------------------------------------------- somebody is

  /** A handler that can still come to leave the sets, in a daemon that has stopped. */
  ghost predicate Leaving(c: Config, w: Whole, h: Thread)
    requires ValidConfig(c)
  {
    && WholeInv(c, w) && (w.main.FreeingSets? || w.main.Returning?) && !w.held
    && h in w.s.connections && Enlisted(w.s.connections[h].pc)
  }

  /** How many steps at most separate it from that, as `running` is false. */
  function Distance(v: View, x: Connection): nat {
    match x.pc
    case Resigning => 1
    case Testing => 2
    case Rechecking => 2
    case Waiting => 3
    case Reporting => 3
    case _ => 3 + Rank(v, x)
  }

  lemma StoppedEnabled(c: Config, v: View, x: Connection)
    requires ValidConfig(c) && LocalInv(c, v, x) && !v.running && Enlisted(x.pc)
    ensures HandlerGuard(c, v, x, NextEvent(x))
  {
  }

  lemma StoppedGoesOn(c: Config, v: View, x: Connection)
    requires ValidConfig(c) && ControlInv(c, v, x) && !v.running && Enlisted(x.pc) && !x.pc.Resigning?
    requires HandlerGuard(c, v, x, NextEvent(x))
    ensures
      var y := HandlerStep(c, v, x, NextEvent(x));
      Enlisted(y.pc) && Distance(v, y) < Distance(v, x)
  {
    OwnStepLowersRank(c, v, x, NextEvent(x));
  }

  /** Run by this handler alone, to the point where it has left the sets. */
  lemma {:induction false} LeavesAlone(c: Config, w: Whole, h: Thread) returns (ws: seq<Whole>)
    requires ValidConfig(c) && Leaving(c, w, h)
    ensures Leads(c, ws) && ws[0] == w
    ensures
      var z := ws[|ws| - 1];
      && h in z.s.connections && z.s.connections[h].pc.Stopping?
      && (!SetsLive(w) ==> z.touched)
    decreases Distance(ViewOf(w.s, h), w.s.connections[h])
  {
    var a := Of(OfHandler(h, NextEvent(w.s.connections[h])));
    NextIsEnabled(c, w, h);
    var next := WholeStep(c, w, a);
    if w.s.connections[h].pc.Resigning? {
      ws := [w, next];
      assert WholeNext(c, w, next);
    } else {
      StaysLeaving(c, w, h);
      var rest := LeavesAlone(c, next, h);
      ws := Prepend(c, w, a, rest);
    }
  }

  lemma NextIsEnabled(c: Config, w: Whole, h: Thread)
    requires ValidConfig(c) && Leaving(c, w, h)
    ensures WholeGuard(c, w, Of(OfHandler(h, NextEvent(w.s.connections[h]))))
  {
    AlwaysAddressable(c, w.s);
    ReachableConnection(c, w.s, h);
    StoppedEnabled(c, ViewOf(w.s, h), w.s.connections[h]);
  }

  lemma StaysLeaving(c: Config, w: Whole, h: Thread)
    requires ValidConfig(c) && Leaving(c, w, h) && !w.s.connections[h].pc.Resigning?
    requires WholeGuard(c, w, Of(OfHandler(h, NextEvent(w.s.connections[h]))))
    ensures
      var next := WholeStep(c, w, Of(OfHandler(h, NextEvent(w.s.connections[h]))));
      && Leaving(c, next, h) && SetsLive(next) == SetsLive(w)
      && Distance(ViewOf(next.s, h), next.s.connections[h]) < Distance(ViewOf(w.s, h), w.s.connections[h])
  {
    var x := w.s.connections[h];
    var a := Of(OfHandler(h, NextEvent(x)));
    var next := WholeStep(c, w, a);
    StepKeepsWhole(c, w, a);
    ReachableControl(c, w.s, h);
    StoppedGoesOn(c, ViewOf(w.s, h), x);
    DistanceOfHeader(ViewOf(next.s, h), ViewOf(w.s, h), next.s.connections[h]);
  }

  lemma DistanceOfHeader(v: View, u: View, x: Connection)
    requires v.shared.header == u.shared.header
    ensures Distance(v, x) == Distance(u, x)
  {
    RankOfHeader(v, u, x);
  }

  lemma Prepend(c: Config, w: Whole, a: Act, rest: seq<Whole>) returns (ws: seq<Whole>)
    requires ValidConfig(c) && WholeGuard(c, w, a) && Leads(c, rest) && rest[0] == WholeStep(c, w, a)
    ensures Leads(c, ws) && ws == [w] + rest
  {
    ws := [w] + rest;
    assert WholeNext(c, w, rest[0]);
    forall i | 0 <= i < |ws| - 1 ensures WholeNext(c, ws[i], ws[i + 1]) {
      if i > 0 {
        assert WholeNext(c, rest[i - 1], rest[i - 1 + 1]);
      }
    }
  }

  /** A client whose request has not been read yet can still be accepted, and then registers. */
  lemma Enlists(c: Config, w: Whole, h: Thread) returns (ws: seq<Whole>)
    requires ValidConfig(c) && WholeInv(c, w) && w.main.Returning? && !w.held && h in w.s.connections
    requires w.s.connections[h].pc.Handshaking? || w.s.connections[h].pc.Enlisting?
    ensures Leads(c, ws) && ws[0] == w && ws[|ws| - 1].touched
  {
    if w.s.connections[h].pc.Enlisting? {
      ws := Registers(c, w, h);
    } else {
      AlwaysAddressable(c, w.s);
      var accept := Of(OfHandler(h, Accept([])));
      StepKeepsWhole(c, w, accept);
      var rest := Registers(c, WholeStep(c, w, accept), h);
      ws := Prepend(c, w, accept, rest);
    }
  }

  lemma Registers(c: Config, w: Whole, h: Thread) returns (ws: seq<Whole>)
    requires ValidConfig(c) && Reachable(c, w.s) && w.main.Returning? && !w.held
    requires h in w.s.connections && w.s.connections[h].pc.Enlisting?
    ensures Leads(c, ws) && ws[0] == w && ws[|ws| - 1].touched
  {
    AlwaysAddressable(c, w.s);
    var next := WholeStep(c, w, Of(OfHandler(h, Enlist)));
    ws := [w, next];
    assert WholeNext(c, w, next);
  }

  lemma TouchesFreed(c: Config, w: Whole, h: Thread) returns (ws: seq<Whole>)
    requires ValidConfig(c) && WholeInv(c, w) && w.main.FreeingSets? && !w.held
    requires h in w.s.connections && !Past(w.s.connections[h].pc)
    ensures Leads(c, ws) && ws[0] == w && ws[|ws| - 1].touched
  {
    StepKeepsWhole(c, w, MainStep);
    var freed := WholeStep(c, w, MainStep);
    var rest: seq<Whole>;
    if Enlisted(w.s.connections[h].pc) {
      rest := LeavesAlone(c, freed, h);
    } else {
      rest := Enlists(c, freed, h);
    }
    ws := Prepend(c, w, MainStep, rest);
  }

  // ---------------------------------------------------------------- exactly when it is safe

  /** When main is about to free the sets, no continuation lets a thread use a freed set if and only
      if every handler was refused or has left the sets, or the reaper took the set mutex with it
      when it was cancelled. */
  lemma FinishIsSafeIff(c: Config, w: Whole)
    requires ValidConfig(c) && ReachableWhole(c, w) && w.main.FreeingSets?
    ensures w.held || AllPast(w.s) <==> NeverTouched(c, w)
  {
    ReachableWholeInv(c, w);
    if w.held || AllPast(w.s) {
      forall ws: seq<Whole> | Leads(c, ws) && ws[0] == w ensures !ws[|ws| - 1].touched {
        SettledStays(c, ws);
      }
    } else {
      var h :| h in w.s.connections && !Past(w.s.connections[h].pc);
      var ws := TouchesFreed(c, w, h);
    }
  }

  /** But then nobody leaves any more: while main is about to free the sets, a registered handler can
      still come to leave them if and only if the reaper did not take the mutex with it. */
  lemma HandlerCanLeaveIff(c: Config, w: Whole, h: Thread)
    requires ValidConfig(c) && ReachableWhole(c, w) && w.main.FreeingSets? && h in w.s.sets.alive
    ensures !w.held <==> exists ws: seq<Whole> :: Leads(c, ws) && ws[0] == w && h !in ws[|ws| - 1].s.sets.alive
  {
    ReachableWholeInv(c, w);
    if w.held {
      forall ws: seq<Whole> | Leads(c, ws) && ws[0] == w ensures h in ws[|ws| - 1].s.sets.alive {
        HeldKeepsSets(c, ws);
      }
    } else {
      AliveIsConnected(c, w.s, h);
      ReachableControl(c, w.s, h);
      var ws := LeavesAlone(c, w, h);
      LeadsKeepsWhole(c, ws, |ws| - 1);
      ReachableControl(c, ws[|ws| - 1].s, h);
    }
  }

  lemma {:induction false} HeldKeepsSets(c: Config, ws: seq<Whole>)
    requires ValidConfig(c) && Leads(c, ws) && WholeInv(c, ws[0]) && ws[0].held
    ensures ws[|ws| - 1].s.sets == ws[0].s.sets
    decreases |ws|
  {
    if |ws| > 1 {
      AfterFirst(c, ws);
      var a :| WholeGuard(c, ws[0], a) && ws[1] == WholeStep(c, ws[0], a);
      StepKeepsWhole(c, ws[0], a);
      if a.Of? {
        OnlyUsersChangeSets(c, ws[0].s, a.e);
      }
      HeldKeepsSets(c, ws[1..]);
    }
  }

  lemma OnlyUsersChangeSets(c: Config, s: State, e: Event)
    requires ValidConfig(c) && Addressable(s) && Guard(c, s, e) && !UsesSets(s, e)
    ensures Step(c, s, e).sets == s.sets
  {
  }

  // ---------------------------------------------------------------- runs in which it goes wrong

  lemma Go(c: Config, w: Whole, a: Act) returns (w': Whole)
    requires ValidConfig(c) && ReachableWhole(c, w) && WholeGuard(c, w, a)
    ensures ReachableWhole(c, w') && w' == WholeStep(c, w, a) && Addressable(w'.s)
  {
    w' := WholeStep(c, w, a);
    var ws: seq<Whole> :| Leads(c, ws) && WholeInit(c, ws[0]) && ws[|ws| - 1] == w;
    var longer := ws + [w'];
    assert WholeNext(c, w, w');
    forall i | 0 <= i < |longer| - 1 ensures WholeNext(c, longer[i], longer[i + 1]) {
      if i < |ws| - 1 {
        assert WholeNext(c, ws[i], ws[i + 1]);
      }
    }
    assert Leads(c, longer) && longer[0] == ws[0] && longer[|longer| - 1] == w';
    ReachableWholeInv(c, w');
    AlwaysAddressable(c, w'.s);
  }

  lemma Begin(c: Config) returns (w: Whole)
    requires ValidConfig(c)
    ensures ReachableWhole(c, w) && WholeInit(c, w) && w.s == DaemonRuns.Start()
  {
    w := Whole(DaemonRuns.Start(), Accepting, false, false, false, false);
    assert Leads(c, [w]) && [w][0] == w && [w][|[w]| - 1] == w;
  }

  /** What the end of the acquisition thread and the steps of main leave as it is. */
  predicate Elsewhere(w: Whole, w': Whole) {
    && w'.s.connections == w.s.connections && w'.s.sets == w.s.sets && w'.s.reaper == w.s.reaper
    && w'.ended == w.ended && w'.held == w.held
  }

  /** The daemon is told to stop, the acquisition thread ends, and main asks the reaper to end. */
  lemma Stops(c: Config, w: Whole) returns (w': Whole)
    requires ValidConfig(c) && ReachableWhole(c, w) && w.main.Accepting? && w.s.reader.pc.AtLoop?
    ensures ReachableWhole(c, w') && w'.main.JoiningReaper? && w'.cancel && Addressable(w'.s) && !w'.s.running
    ensures Elsewhere(w, w')
  {
    w' := ReaderStops(c, w);
    w' := Go(c, w', MainStep);
    w' := Go(c, w', MainStep);
    w' := Go(c, w', MainStep);
  }

  lemma ReaderStops(c: Config, w: Whole) returns (w': Whole)
    requires ValidConfig(c) && ReachableWhole(c, w) && w.main.Accepting? && w.s.reader.pc.AtLoop?
    ensures ReachableWhole(c, w') && w'.main.Accepting? && w'.s.reader.pc.Ended? && !w'.s.running
    ensures Elsewhere(w, w')
  {
    ReachableWholeInv(c, w);
    AlwaysAddressable(c, w.s);
    assert !w.held;
    w' := Go(c, w, Of(Shutdown));
    w' := ReaderGo(c, w', LoopTest);
    w' := ReaderGo(c, w', FreeAnalog(w'.s.shared.analog));
    w' := ReaderGo(c, w', FreeDigital(w'.s.shared.digital));
  }

  lemma ReaderGo(c: Config, w: Whole, e: ReaderEvent) returns (w': Whole)
    requires ValidConfig(c) && ReachableWhole(c, w) && Addressable(w.s) && w.main.Accepting? && !w.held
    requires ReaderGuard(w.s, e) && (e.LoopTest? || e.FreeAnalog? || e.FreeDigital?)
    ensures ReachableWhole(c, w') && Addressable(w'.s) && w'.main.Accepting? && Elsewhere(w, w')
    ensures w'.s.running == w.s.running && w'.s.reader == ReaderStep(c, w.s, e).reader
  {
    w' := Go(c, w, Of(OfReader(e)));
  }

  /** The sets can be freed too early: a client is connecting when the daemon stops, the reaper finds
      nobody alive and returns, and the client is accepted after the sets are gone. */
  lemma FinishCanBeUnsafe(c: Config)
    requires ValidConfig(c)
    ensures exists w :: ReachableWhole(c, w) && w.main.FreeingSets? && !NeverTouched(c, w)
  {
    var w := Begin(c);
    w := Go(c, w, Of(Connect(0)));
    w := Stops(c, w);
    w := Go(c, w, Of(OfReaper(CheckAlive)));
    w := Go(c, w, MainStep);
    assert !Past(w.s.connections[0].pc);
    FinishIsSafeIff(c, w);
  }

  /** And a handler can be left waiting: it is alive, and the reaper is cancelled while it waits for
      somebody to die. */
  lemma HandlerCanBeStuck(c: Config)
    requires ValidConfig(c)
    ensures exists w, h :: ReachableWhole(c, w) && w.main.FreeingSets? && h in w.s.sets.alive && w.held
  {
    var w := OneAlive(c);
    w := Stops(c, w);
    w := Go(c, w, ReaperEnds);
    w := Go(c, w, MainStep);
    assert 0 in w.s.sets.alive && w.held;
  }

  lemma OneAlive(c: Config) returns (w: Whole)
    requires ValidConfig(c)
    ensures ReachableWhole(c, w) && w.main.Accepting? && w.s.reader.pc.AtLoop? && !w.ended
    ensures 0 in w.s.sets.alive && w.s.reaper.AwaitingDead?
  {
    w := Begin(c);
    w := Go(c, w, Of(OfReaper(CheckAlive)));
    w := Go(c, w, Of(Connect(0)));
    w := Go(c, w, Of(OfHandler(0, Accept([]))));
    w := Go(c, w, Of(OfHandler(0, Enlist)));
  }
}
