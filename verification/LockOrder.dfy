/** The mutexes of the daemon, with acquiring and releasing as steps of their own.  Every function
    that takes a mutex is a script of such steps; a thread runs scripts one after the other.  In
    no reachable state does a thread wait for a mutex it holds, nor do threads wait for each
    other in a circle. */
module LockOrder {

  type ThreadId = nat

  /** The mutex of the five sets, the mutex in the shared block, and one per client queue. */
  datatype Lock = QueueLock(h: nat) | InputLock | SetLock

  /** What the mutexes guard: the five sets, the header of the shared block, and the window of one
      client's queue. */
  datatype Datum = Sets | Header | Queue(h: nat)

  function GuardOf(d: Datum): Lock {
    match d
    case Sets => SetLock
    case Header => InputLock
    case Queue(h) => QueueLock(h)
  }

  datatype Action = Acquire(l: Lock) | Release(l: Lock) | Access(d: Datum)

  /** The functions that take a mutex, one constructor for each path through them.  `waits` counts
      how often the caller waits on a condition variable, which gives the mutex back and takes it
      again. */
  datatype Function =
    | WaitReadBarrier(waits: nat)
    | NotifyReadBarrier
    | SetReady
    | WaitDataAvailable(waits: nat)
    | NotifyDataAvailable
    | IncAvailableHandlers
    | DecAvailableHandlers
    | ResetReadyHandlers
    | WaitDeadHandler(waits: nat)
    | HaveAliveThreads
    | PublishHeader
    | CopyToBuffer(h: nat, fits: bool)
    | TakeElement(h: nat, waits: nat)
    | FreeBuffer(h: nat)

  function Waits(d: Datum, n: nat): seq<Action> {
    if n == 0 then [] else [Release(GuardOf(d)), Acquire(GuardOf(d)), Access(d)] + Waits(d, n - 1)
  }

  /** A critical section that uses a datum, and looks at it again after each wait. */
  function Section(d: Datum, waits: nat): seq<Action> {
    [Acquire(GuardOf(d)), Access(d)] + Waits(d, waits) + [Release(GuardOf(d))]
  }

  /** notify_read_barrier and notify_data_available use no datum. */
  const NOTIFY: seq<Action> := [Acquire(SetLock), Release(SetLock)]

  /** In the order of the source.  The operations that end with a notification take the set mutex
      a second time, after having released it.  The sample count that copy_to_buffer reads before
      it takes the mutex of the block is not guarded by a mutex, and neither are the sample arrays:
      what keeps them from changing is the barrier. */
  function Script(f: Function): seq<Action> {
    match f
    case WaitReadBarrier(n) => Section(Sets, n)
    case NotifyReadBarrier => NOTIFY
    case SetReady => Section(Sets, 0) + NOTIFY
    case WaitDataAvailable(n) => Section(Sets, n)
    case NotifyDataAvailable => NOTIFY
    case IncAvailableHandlers => Section(Sets, 0) + NOTIFY
    case DecAvailableHandlers => Section(Sets, 0) + NOTIFY
    case ResetReadyHandlers => Section(Sets, 0)
    case WaitDeadHandler(n) => Section(Sets, n)
    case HaveAliveThreads => Section(Sets, 0)
    case PublishHeader => Section(Header, 0)
    case CopyToBuffer(h, fits) => if fits then CopyScript(h) else Section(Queue(h), 0)
    case TakeElement(h, n) => Section(Queue(h), n)
    case FreeBuffer(h) => Section(Queue(h), 0)
  }

  function CopyScript(h: nat): seq<Action> {
    [Acquire(QueueLock(h)), Access(Queue(h)), Acquire(InputLock), Access(Header), Release(InputLock),
     Access(Queue(h)), Release(QueueLock(h))]
  }

  // ---------------------------------------------------------------- the machine

  /** What each thread still has to do of its script, who owns each mutex, which function each
      thread called last, and which threads were cancelled in a wait. */
  datatype State = State(
    rest: map<ThreadId, seq<Action>>, owner: map<Lock, ThreadId>,
    calls: map<ThreadId, Function>, dead: set<ThreadId>)

  datatype Event = Start(t: ThreadId) | Call(t: ThreadId, f: Function) | Do(t: ThreadId) | Cancel(t: ThreadId)

  predicate Guard(s: State, e: Event) {
    match e
    case Start(t) => t !in s.rest
    case Call(t, _) => t in s.rest && s.rest[t] == [] && t !in s.dead
    case Do(t) => t in s.rest && s.rest[t] != [] && (s.rest[t][0].Acquire? ==> s.rest[t][0].l !in s.owner)
    case Cancel(t) => InDeadWait(s, t) && SetLock !in s.owner
  }

  /** In pthread_cond_wait of wait_dead_handler, the one wait in which the daemon cancels a thread. */
  predicate InDeadWait(s: State, t: ThreadId) {
    && t in s.rest && t in s.calls && s.calls[t].WaitDeadHandler?
    && s.rest[t] != [] && s.rest[t][0] == Acquire(SetLock) && s.rest[t] != Script(s.calls[t])
  }

  function Step(s: State, e: Event): State
    requires Guard(s, e)
  {
    match e
    case Start(t) => s.(rest := s.rest[t := []])
    case Call(t, f) => s.(rest := s.rest[t := Script(f)], calls := s.calls[t := f])
    case Do(t) =>
      s.(rest := s.rest[t := s.rest[t][1..]],
         owner := match s.rest[t][0]
                  case Acquire(l) => s.owner[l := t]
                  case Release(l) => s.owner - {l}
                  case Access(_) => s.owner)
    case Cancel(t) =>
      // the cancelled thread gets the mutex back before it ends, and nobody unlocks it
      s.(rest := s.rest[t := []], owner := s.owner[SetLock := t], dead := s.dead + {t})
  }

  function Initial(): State {
    State(map[], map[], map[], {})
  }

  ghost predicate Next(s: State, s': State) {
    exists e :: Guard(s, e) && s' == Step(s, e)
  }

  ghost predicate Run(states: seq<State>) {
    && |states| > 0 && states[0] == Initial()
    && forall i :: 0 <= i < |states| - 1 ==> Next(states[i], states[i + 1])
  }

  ghost predicate Reachable(s: State) {
    exists states :: Run(states) && states[|states| - 1] == s
  }

  // ---------------------------------------------------------------- a discipline for scripts

  /** The order: a queue's mutex before the shared block's, the set mutex with no other. */
  function Rank(l: Lock): nat {
    match l
    case QueueLock(_) => 0
    case InputLock => 1
    case SetLock => 2
  }

  /** A thread that holds these mutexes and has this left to do takes only mutexes above those it
      holds, releases only what it holds, uses a datum only under its mutex, ends with none, and
      holds none besides the set mutex. */
  ghost predicate Disciplined(held: set<Lock>, rest: seq<Action>)
    decreases |rest|
  {
    && (SetLock in held ==> held == {SetLock})
    && if rest == [] then held == {}
       else match rest[0]
         case Acquire(l) => (forall m :: m in held ==> Rank(m) < Rank(l)) && Disciplined(held + {l}, rest[1..])
         case Release(l) => l in held && Disciplined(held - {l}, rest[1..])
         case Access(d) => GuardOf(d) in held && Disciplined(held, rest[1..])
  }

  /** A disciplined script may be followed by another. */
  lemma {:induction false} DisciplinedThen(held: set<Lock>, first: seq<Action>, second: seq<Action>)
    requires Disciplined(held, first) && Disciplined({}, second)
    ensures Disciplined(held, first + second)
    decreases |first|
  {
    var both := first + second;
    if first == [] {
      assert both == second;
    } else {
      assert both[0] == first[0] && both[1..] == first[1..] + second;
      match first[0] {
        case Acquire(l) => DisciplinedThen(held + {l}, first[1..], second);
        case Release(l) => DisciplinedThen(held - {l}, first[1..], second);
        case Access(d) => DisciplinedThen(held, first[1..], second);
      }
    }
  }

  lemma {:induction false} WaitsDisciplined(d: Datum, n: nat)
    ensures Disciplined({GuardOf(d)}, Waits(d, n) + [Release(GuardOf(d))])
  {
    var l := GuardOf(d);
    var rest := Waits(d, n) + [Release(l)];
    assert {l} - {l} == {} && {} + {l} == {l};
    if n == 0 {
      assert rest == [Release(l)] && rest[1..] == [];
    } else {
      var fewer := Waits(d, n - 1) + [Release(l)];
      WaitsDisciplined(d, n - 1);
      assert rest == [Release(l), Acquire(l), Access(d)] + fewer;
      assert rest[1..][1..][1..] == fewer && rest[1..][1..][0] == Access(d) && rest[1..][0] == Acquire(l);
      assert Disciplined({l}, rest[1..][1..]);
      assert Disciplined({}, rest[1..]);
    }
  }

  lemma SectionDisciplined(d: Datum, n: nat)
    ensures Disciplined({}, Section(d, n))
  {
    var l := GuardOf(d);
    WaitsDisciplined(d, n);
    var s := Section(d, n);
    assert {} + {l} == {l};
    assert s[1..][1..] == Waits(d, n) + [Release(l)] && s[1..][0] == Access(d) && s[0] == Acquire(l);
    assert Disciplined({l}, s[1..]);
  }

  lemma NotifyDisciplined()
    ensures Disciplined({}, NOTIFY)
  {
    assert NOTIFY[1..] == [Release(SetLock)] && NOTIFY[1..][1..] == [];
    assert {} + {SetLock} == {SetLock} && {SetLock} - {SetLock} == {};
    assert Disciplined({SetLock}, NOTIFY[1..]);
  }

  lemma CopyDisciplined(h: nat)
    ensures Disciplined({}, CopyScript(h))
  {
    var q, i := QueueLock(h), InputLock;
    var s := CopyScript(h);
    assert {} + {q} == {q} && {q} + {i} == {q, i} && {q, i} - {i} == {q} && {q} - {q} == {};
    assert s[7..] == [] && Disciplined({}, s[7..]);
    assert s[6..][1..] == s[7..] && Disciplined({q}, s[6..]);
    assert s[5..][1..] == s[6..] && Disciplined({q}, s[5..]);
    assert s[4..][1..] == s[5..] && Disciplined({q, i}, s[4..]);
    assert s[3..][1..] == s[4..] && Disciplined({q, i}, s[3..]);
    assert s[2..][1..] == s[3..] && Disciplined({q}, s[2..]);
    assert s[1..][1..] == s[2..] && Disciplined({q}, s[1..]);
  }

  /** Every function of the daemon that takes a mutex keeps the discipline, however often it has
      to wait. */
  lemma ScriptsAreDisciplined(f: Function)
    ensures Disciplined({}, Script(f))
  {
    NotifyDisciplined();
    SectionDisciplined(Sets, 0);
    DisciplinedThen({}, Section(Sets, 0), NOTIFY);
    match f {
      case WaitReadBarrier(n) => SectionDisciplined(Sets, n);
      case WaitDataAvailable(n) => SectionDisciplined(Sets, n);
      case WaitDeadHandler(n) => SectionDisciplined(Sets, n);
      case PublishHeader => SectionDisciplined(Header, 0);
      case CopyToBuffer(h, fits) =>
        CopyDisciplined(h);
        SectionDisciplined(Queue(h), 0);
      case TakeElement(h, n) => SectionDisciplined(Queue(h), n);
      case FreeBuffer(h) => SectionDisciplined(Queue(h), 0);
      case _ =>
    }
  }

  /** What each function is there for. */
  function Uses(f: Function): set<Datum> {
    match f
    case NotifyReadBarrier => {}
    case NotifyDataAvailable => {}
    case PublishHeader => {Header}
    case CopyToBuffer(h, fits) => if fits then {Queue(h), Header} else {Queue(h)}
    case TakeElement(h, _) => {Queue(h)}
    case FreeBuffer(h) => {Queue(h)}
    case _ => {Sets}
  }

  /** It uses that between taking and giving back its mutex: copy_to_buffer copies the header under
      the mutex of the block, which it takes inside the one of the queue. */
  lemma ScriptsUse(f: Function, d: Datum)
    requires d in Uses(f)
    ensures exists i, j, k :: 0 <= i < j < k < |Script(f)|
              && Script(f)[i] == Acquire(GuardOf(d)) && Script(f)[j] == Access(d) && Script(f)[k] == Release(GuardOf(d))
  {
    var s := Script(f);
    if f.CopyToBuffer? && f.fits {
      if d.Header? {
        assert s[2] == Acquire(InputLock) && s[3] == Access(Header) && s[4] == Release(InputLock);
      } else {
        assert s[0] == Acquire(QueueLock(f.h)) && s[1] == Access(d) && s[6] == Release(QueueLock(f.h));
      }
    } else {
      var waits := f.WaitReadBarrier? || f.WaitDataAvailable? || f.WaitDeadHandler? || f.TakeElement?;
      var n := if waits then f.waits else 0;
      var section := Section(d, n);
      assert section <= s;
      assert s[0] == section[0] && s[1] == section[1] && s[|section| - 1] == section[|section| - 1];
    }
  }

  // ---------------------------------------------------------------- every run

  function Held(s: State, t: ThreadId): set<Lock> {
    set l | l in s.owner && s.owner[l] == t
  }

  ghost predicate Sound(s: State, t: ThreadId)
    requires t in s.rest
  {
    if t in s.dead then s.rest[t] == [] && Held(s, t) == {SetLock} else Disciplined(Held(s, t), s.rest[t])
  }

  ghost predicate Inv(s: State) {
    && (forall l :: l in s.owner ==> s.owner[l] in s.rest)
    && (forall t :: t in s.rest ==> Sound(s, t))
    && (forall t :: t in s.dead ==> t in s.rest)
  }

  lemma StepKeepsInv(s: State, e: Event)
    requires Inv(s) && Guard(s, e)
    ensures Inv(Step(s, e))
  {
    var s' := Step(s, e);
    forall t | t in s'.rest ensures Sound(s', t) {
      match e {
        case Start(u) =>
          assert Held(s', t) == Held(s, t);
          if t == u {
            assert Held(s', t) == {};
          }
        case Call(u, f) =>
          assert Held(s', t) == Held(s, t);
          if t == u {
            ScriptsAreDisciplined(f);
            assert Sound(s, t) && Held(s', t) == {};
          }
        case Do(u) =>
          assert Sound(s, u);
          DoChangesHeld(s, u, t);
        case Cancel(u) =>
          assert Sound(s, u);
          CancelChangesHeld(s, u, t);
      }
    }
  }

  /** A thread that waits on a condition variable of the set mutex holds nothing. */
  lemma CancelChangesHeld(s: State, u: ThreadId, t: ThreadId)
    requires Inv(s) && Guard(s, Cancel(u)) && t in s.rest
    ensures Held(Step(s, Cancel(u)), t) == if t == u then {SetLock} else Held(s, t)
  {
    assert Sound(s, u);
    assert Disciplined(Held(s, u) + {SetLock}, s.rest[u][1..]);
    assert Held(s, u) + {SetLock} == {SetLock};
    assert Held(s, u) == {};
  }

  /** A step of one thread changes what that thread holds, and nothing another one holds. */
  lemma DoChangesHeld(s: State, u: ThreadId, t: ThreadId)
    requires Inv(s) && Guard(s, Do(u))
    ensures
      var a := s.rest[u][0];
      Held(Step(s, Do(u)), t) ==
        if t != u || a.Access? then Held(s, t)
        else if a.Acquire? then Held(s, t) + {a.l} else Held(s, t) - {a.l}
  {
    var a := s.rest[u][0];
    assert Sound(s, u);
    if a.Release? {
      assert a.l in Held(s, u);
    }
  }

  lemma {:induction false} RunKeepsInv(states: seq<State>, i: nat)
    requires Run(states) && i < |states|
    ensures Inv(states[i])
  {
    if i > 0 {
      RunKeepsInv(states, i - 1);
      assert Next(states[i - 1], states[i - 1 + 1]);
      var e :| Guard(states[i - 1], e) && states[i] == Step(states[i - 1], e);
      StepKeepsInv(states[i - 1], e);
    }
  }

  lemma ReachableInv(s: State)
    requires Reachable(s)
    ensures Inv(s)
  {
    var states :| Run(states) && states[|states| - 1] == s;
    RunKeepsInv(states, |states| - 1);
  }

  // ---------------------------------------------------------------- mutual exclusion

  ghost predicate About(s: State, t: ThreadId, d: Datum) {
    t in s.rest && s.rest[t] != [] && s.rest[t][0] == Access(d)
  }

  /** Nobody uses a datum without its mutex, and no two threads use it at the same time: the header
      is never copied while it is being written. */
  lemma ExclusiveAccess(s: State, t: ThreadId, u: ThreadId, d: Datum)
    requires Reachable(s) && About(s, t, d) && About(s, u, d)
    ensures t == u && GuardOf(d) in s.owner && s.owner[GuardOf(d)] == t
  {
    ReachableInv(s);
    assert Sound(s, t) && Sound(s, u);
    assert GuardOf(d) in Held(s, t) && GuardOf(d) in Held(s, u);
  }

  // ---------------------------------------------------------------- no deadlock

  ghost predicate WaitsFor(s: State, t: ThreadId, l: Lock) {
    t in s.rest && s.rest[t] != [] && s.rest[t][0] == Acquire(l) && l in s.owner
  }

  /** No thread waits for a mutex it holds itself, and whoever waits for a mutex holds only
      mutexes below it: a queue's while it waits for the shared block's, and otherwise none. */
  lemma NeverRelocks(s: State, t: ThreadId, l: Lock)
    requires Reachable(s) && WaitsFor(s, t, l)
    ensures s.owner[l] != t
    ensures forall m :: m in Held(s, t) ==> m.QueueLock? && l == InputLock
  {
    ReachableInv(s);
    assert Sound(s, t);
    WaiterHolds(Held(s, t), s.rest[t], l);
    assert s.owner[l] == t ==> l in Held(s, t);
  }

  lemma WaiterHolds(held: set<Lock>, rest: seq<Action>, l: Lock)
    requires Disciplined(held, rest) && rest != [] && rest[0] == Acquire(l)
    ensures l !in held
    ensures forall m :: m in held ==> m.QueueLock? && l == InputLock
  {
    assert Disciplined(held + {l}, rest[1..]);
    assert l == SetLock ==> held + {l} == {SetLock};
    forall m | m in held ensures m.QueueLock? && l == InputLock {
      assert Rank(m) < Rank(l) && m in held + {l};
    }
  }

  /** Whoever holds what somebody waits for either can go on, or waits for a mutex of higher
      rank: the chain of waiting ends. */
  lemma WaitingClimbs(s: State, t: ThreadId, l: Lock, m: Lock)
    requires Reachable(s) && WaitsFor(s, t, l) && WaitsFor(s, s.owner[l], m)
    ensures Rank(l) < Rank(m)
  {
    ReachableInv(s);
    assert Sound(s, s.owner[l]) && l in Held(s, s.owner[l]);
  }

  /** A list of threads, each waiting for a mutex the next one holds. */
  ghost predicate WaitChain(s: State, ts: seq<ThreadId>, ls: seq<Lock>) {
    && |ts| == |ls| > 0
    && (forall i :: 0 <= i < |ts| ==> WaitsFor(s, ts[i], ls[i]))
    && (forall i :: 0 <= i < |ts| - 1 ==> HeldByNext(s, ts, ls, i))
  }

  ghost predicate HeldByNext(s: State, ts: seq<ThreadId>, ls: seq<Lock>, i: nat)
    requires |ts| == |ls| && i < |ts| - 1
  {
    ls[i] in s.owner && s.owner[ls[i]] == ts[i + 1]
  }

  lemma ChainLink(s: State, ts: seq<ThreadId>, ls: seq<Lock>, i: nat)
    requires WaitChain(s, ts, ls) && i < |ts| - 1
    ensures WaitsFor(s, ts[i], ls[i]) && s.owner[ls[i]] == ts[i + 1] && WaitsFor(s, ts[i + 1], ls[i + 1])
  {
    assert HeldByNext(s, ts, ls, i);
  }

  lemma {:induction false} ChainClimbs(s: State, ts: seq<ThreadId>, ls: seq<Lock>, i: nat)
    requires Reachable(s) && WaitChain(s, ts, ls) && i < |ls|
    ensures Rank(ls[0]) + i <= Rank(ls[i])
  {
    if i > 0 {
      ChainClimbs(s, ts, ls, i - 1);
      ChainLink(s, ts, ls, i - 1);
      WaitingClimbs(s, ts[i - 1], ls[i - 1], ls[i]);
    }
  }

  /** No circular wait is reachable: the last thread of a chain never waits for a mutex the first
      one holds. */
  lemma NoCircularWait(s: State, ts: seq<ThreadId>, ls: seq<Lock>)
    requires Reachable(s) && WaitChain(s, ts, ls)
    ensures s.owner[ls[|ls| - 1]] != ts[0]
  {
    var last := |ls| - 1;
    ChainClimbs(s, ts, ls, last);
    if s.owner[ls[last]] == ts[0] {
      assert WaitsFor(s, ts[0], ls[0]) && WaitsFor(s, ts[last], ls[last]);
      WaitingClimbs(s, ts[last], ls[last], ls[0]);
    }
  }

  /** Some thread can always go on, unless it is a cancelled thread that is waited for: the owner of
      the mutex, or the owner of the one that owner waits for, has an enabled step. */
  lemma SomeoneCanRun(s: State, t: ThreadId, l: Lock)
    requires Reachable(s) && WaitsFor(s, t, l)
    ensures s.owner[l] in s.dead || exists u :: Guard(s, Do(u))
  {
    var u := s.owner[l];
    if u !in s.dead && !Guard(s, Do(u)) {
      OwnerGoesOn(s, l);
      var m := s.rest[u][0].l;
      OwnerGoesOn(s, m);
      assert Guard(s, Do(s.owner[m]));
    }
  }

  /** What a thread that is not cancelled does next with a mutex in its hands: only the owner of a
      queue's mutex can have to wait, and then for the one of the shared block. */
  lemma OwnerGoesOn(s: State, l: Lock)
    requires Reachable(s) && l in s.owner && s.owner[l] !in s.dead
    ensures
      var u := s.owner[l];
      && u in s.rest && s.rest[u] != []
      && (Guard(s, Do(u)) || (l.QueueLock? && s.rest[u][0] == Acquire(InputLock) && InputLock in s.owner))
    ensures InputLock in s.owner ==> s.owner[InputLock] !in s.dead
  {
    ReachableInv(s);
    var u := s.owner[l];
    assert Sound(s, u) && l in Held(s, u);
    if s.rest[u][0].Acquire? {
      WaiterHolds(Held(s, u), s.rest[u], s.rest[u][0].l);
    }
    if InputLock in s.owner {
      assert Sound(s, s.owner[InputLock]) && InputLock in Held(s, s.owner[InputLock]);
    }
  }

  // ---------------------------------------------------------------- exactly when a wait can end

  /** Some events lead from one state to another. */
  ghost predicate Leads(s: State, z: State) {
    exists states :: LeadsBy(states, s, z)
  }

  ghost predicate LeadsBy(states: seq<State>, s: State, z: State) {
    && |states| > 0 && states[0] == s && states[|states| - 1] == z
    && forall i :: 0 <= i < |states| - 1 ==> Next(states[i], states[i + 1])
  }

  lemma LeadsNowhere(s: State)
    ensures Leads(s, s)
  {
    assert LeadsBy([s], s, s);
  }

  lemma LeadsFirst(s: State, e: Event, z: State)
    requires Guard(s, e) && Leads(Step(s, e), z)
    ensures Leads(s, z)
  {
    var states :| LeadsBy(states, Step(s, e), z);
    var longer := [s] + states;
    forall i | 0 <= i < |longer| - 1 ensures Next(longer[i], longer[i + 1]) {
      if i > 0 {
        assert Next(states[i - 1], states[i - 1 + 1]);
      }
    }
    assert LeadsBy(longer, s, z);
  }

  lemma {:induction false} LeadsThen(states: seq<State>, s: State, y: State, z: State)
    requires LeadsBy(states, s, y) && Leads(y, z)
    ensures Leads(s, z)
    decreases |states|
  {
    if |states| > 1 {
      assert Next(states[0], states[0 + 1]);
      var rest := states[1..];
      forall i | 0 <= i < |rest| - 1 ensures Next(rest[i], rest[i + 1]) {
        assert Next(states[i + 1], states[i + 1 + 1]);
      }
      assert LeadsBy(rest, states[1], y);
      LeadsThen(rest, states[1], y, z);
      var e :| Guard(s, e) && states[1] == Step(s, e);
      LeadsFirst(s, e, z);
    }
  }

  lemma StepReachable(s: State, e: Event)
    requires Reachable(s) && Guard(s, e)
    ensures Reachable(Step(s, e))
  {
    var states :| Run(states) && states[|states| - 1] == s;
    var longer := states + [Step(s, e)];
    forall i | 0 <= i < |longer| - 1 ensures Next(longer[i], longer[i + 1]) {
      if i < |states| - 1 {
        assert Next(states[i], states[i + 1]);
      }
    }
    assert Run(longer) && longer[|longer| - 1] == Step(s, e);
  }

  /** Only thread u has done anything, and nobody has been cancelled. */
  ghost predicate OnlyOne(s: State, u: ThreadId, z: State) {
    && z.dead == s.dead
    && (forall t :: t in s.rest && t != u ==> t in z.rest && z.rest[t] == s.rest[t])
    && (forall l :: l in s.owner && s.owner[l] != u ==> l in z.owner && z.owner[l] == s.owner[l])
  }

  /** The owner of the shared block's mutex, or of the set mutex, gives it back by itself. */
  lemma {:induction false} GivesBack(s: State, l: Lock) returns (z: State)
    requires Reachable(s) && l in s.owner && s.owner[l] !in s.dead && !l.QueueLock?
    ensures Leads(s, z) && Reachable(z) && l !in z.owner && OnlyOne(s, s.owner[l], z)
    decreases if s.owner[l] in s.rest then |s.rest[s.owner[l]]| else 0
  {
    var u := s.owner[l];
    OwnerGoesOn(s, l);
    StepReachable(s, Do(u));
    z := Step(s, Do(u));
    DoIsOnlyOne(s, u);
    if l in z.owner {
      OwnerStays(s, u, l);
      var y := z;
      z := GivesBack(y, l);
      assert OnlyOne(s, u, y) && OnlyOne(y, u, z);
    } else {
      LeadsNowhere(z);
    }
    LeadsFirst(s, Do(u), z);
  }

  lemma DoIsOnlyOne(s: State, u: ThreadId)
    requires Reachable(s) && Guard(s, Do(u)) && u !in s.dead
    ensures OnlyOne(s, u, Step(s, Do(u)))
  {
    ReachableInv(s);
    assert Sound(s, u);
    if s.rest[u][0].Release? {
      assert s.rest[u][0].l in Held(s, u);
    }
  }

  /** A step of the owner keeps the mutex or gives it back. */
  lemma OwnerStays(s: State, u: ThreadId, l: Lock)
    requires Reachable(s) && Guard(s, Do(u)) && l in s.owner && s.owner[l] == u && l in Step(s, Do(u)).owner
    ensures Step(s, Do(u)).owner[l] == u
  {
  }

  /** Every mutex whose owner was not cancelled comes free, with no step but those of its owner and
      of the thread that owner waits for. */
  lemma {:induction false} ComesFree(s: State, l: Lock) returns (z: State)
    requires Reachable(s) && l in s.owner && s.owner[l] !in s.dead
    ensures Leads(s, z) && l !in z.owner
    decreases if s.owner[l] in s.rest then |s.rest[s.owner[l]]| else 0
  {
    var u := s.owner[l];
    OwnerGoesOn(s, l);
    var y := s;
    LeadsNowhere(s);
    if !Guard(s, Do(u)) {
      NeverRelocks(s, u, InputLock);
      y := GivesBack(s, InputLock);
    }
    StepReachable(y, Do(u));
    z := Step(y, Do(u));
    if l in z.owner {
      z := ComesFree(z, l);
    } else {
      LeadsNowhere(z);
    }
    LeadsFirst(y, Do(u), z);
    var states :| LeadsBy(states, s, y);
    LeadsThen(states, s, y, z);
  }

  /** A cancelled thread keeps the set mutex. */
  lemma {:induction false} DeadKeeps(states: seq<State>, s: State, z: State, l: Lock)
    requires LeadsBy(states, s, z) && Reachable(s) && l in s.owner && s.owner[l] in s.dead
    ensures l in z.owner && z.owner[l] == s.owner[l]
    decreases |states|
  {
    if |states| > 1 {
      assert Next(states[0], states[0 + 1]);
      var e :| Guard(s, e) && states[1] == Step(s, e);
      DeadKeepsOnce(s, e, l);
      StepReachable(s, e);
      var rest := states[1..];
      forall i | 0 <= i < |rest| - 1 ensures Next(rest[i], rest[i + 1]) {
        assert Next(states[i + 1], states[i + 1 + 1]);
      }
      DeadKeeps(rest, states[1], z, l);
    }
  }

  lemma DeadKeepsOnce(s: State, e: Event, l: Lock)
    requires Reachable(s) && Guard(s, e) && l in s.owner && s.owner[l] in s.dead
    ensures l in Step(s, e).owner && Step(s, e).owner[l] == s.owner[l] && s.owner[l] in Step(s, e).dead
  {
    ReachableInv(s);
    assert Sound(s, s.owner[l]) && l in Held(s, s.owner[l]);
    if e.Do? {
      assert Sound(s, e.t);
      assert s.rest[e.t][0].Release? ==> s.rest[e.t][0].l in Held(s, e.t);
    }
  }

  /** The mutex a thread waits for can come free if and only if its owner is not a thread that was
      cancelled in wait_dead_handler; then everybody who waits for it waits for ever. */
  lemma WaitCanEndIff(s: State, t: ThreadId, l: Lock)
    requires Reachable(s) && WaitsFor(s, t, l)
    ensures (exists z :: Leads(s, z) && l !in z.owner) <==> s.owner[l] !in s.dead
  {
    if s.owner[l] !in s.dead {
      var z := ComesFree(s, l);
    } else {
      forall z | Leads(s, z) ensures l in z.owner {
        var states :| LeadsBy(states, s, z);
        DeadKeeps(states, s, z, l);
      }
    }
  }

  // ---------------------------------------------------------------- a run in which it does not

  lemma InitialReachable()
    ensures Reachable(Initial())
  {
    assert Run([Initial()]);
  }

  lemma Follow(s: State, e: Event) returns (z: State)
    requires Reachable(s) && Guard(s, e)
    ensures Reachable(z) && z == Step(s, e)
  {
    StepReachable(s, e);
    z := Step(s, e);
  }

  lemma OneWait()
    ensures
      Script(WaitDeadHandler(1)) ==
        [Acquire(SetLock), Access(Sets), Release(SetLock), Acquire(SetLock), Access(Sets), Release(SetLock)]
  {
    assert Waits(Sets, 1) == [Release(SetLock), Acquire(SetLock), Access(Sets)] + Waits(Sets, 0);
  }

  /** The reaper, thread 0, has let go of the mutex in its wait; thread 1 does nothing. */
  lemma ReaperWaits() returns (s: State)
    ensures Reachable(s) && InDeadWait(s, 0) && SetLock !in s.owner && 1 in s.rest && s.rest[1] == [] && s.dead == {}
  {
    InitialReachable();
    OneWait();
    s := Follow(Initial(), Start(0));
    s := Follow(s, Start(1));
    s := Follow(s, Call(0, WaitDeadHandler(1)));
    s := Follow(s, Do(0));
    s := Follow(s, Do(0));
    s := Follow(s, Do(0));
  }

  /** It can happen: the reaper is cancelled while it waits for a handler to die, and then a handler
      wants to leave. */
  lemma WaitCanBeEndless()
    ensures exists s, t :: Reachable(s) && WaitsFor(s, t, SetLock) && s.owner[SetLock] in s.dead
  {
    var s := ReaperWaits();
    s := Follow(s, Cancel(0));
    s := Follow(s, Call(1, DecAvailableHandlers));
    assert s.rest[1][0] == Acquire(SetLock);
    assert WaitsFor(s, 1, SetLock);
  }
}
