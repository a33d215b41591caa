/** What comes into the daemon from outside, read off the events of a run, and where it ends up: the
    samples the hardware delivers, and the channels a client asks for. */
module Inputs {
  import opened HandlerSets
  import opened Wire
  import opened HandlerThreads
  import opened HandlerInvariant
  import opened Daemon
  import opened DaemonInvariant
  import opened DaemonTheorems
  import opened Progress

  // ---------------------------------------------------------------- samples

  /** For every index the value last delivered there: by these events, or else before them. */
  function LastDelivered(before: seq<Sample>, events: seq<Event>): (values: seq<Sample>)
    ensures |values| == |before|
  {
    if events == [] then before
    else
      var values := LastDelivered(before, events[..|events| - 1]);
      match events[|events| - 1]
      case OfReader(Fill(i, value)) => if i < |values| then values[i := value] else values
      case _ => values
  }

  /** The reads these events complete, each with the values delivered until then. */
  function Reads(before: seq<Sample>, events: seq<Event>): seq<Reading> {
    if events == [] then []
    else
      var front := events[..|events| - 1];
      match events[|events| - 1]
      case OfReader(ReadDone(points)) => Reads(before, front) + [Reading(points, LastDelivered(before, front))]
      case _ => Reads(before, front)
  }

  lemma OthersDeliverNothing(c: Config, s: State, e: Event)
    requires ValidConfig(c) && Addressable(s) && Guard(c, s, e) && !e.OfReader?
    ensures Step(c, s, e).heard == s.heard && Step(c, s, e).readings == s.readings
  {
  }

  lemma ReaderDelivers(c: Config, s: State, e: ReaderEvent)
    requires ValidConfig(c) && Addressable(s) && ReaderGuard(s, e)
    ensures ReaderStep(c, s, e).heard == if e.Fill? then s.heard[e.i := e.value] else s.heard
    ensures ReaderStep(c, s, e).readings ==
              if e.ReadDone? then s.readings + [Reading(e.points, s.heard)] else s.readings
  {
  }

  lemma EventIsRecorded(c: Config, s: State, e: Event, before: seq<Sample>, events: seq<Event>)
    requires ValidConfig(c) && Addressable(s) && Guard(c, s, e)
    requires s.heard == LastDelivered(before, events) && s.readings == Reads(before, events)
    ensures Step(c, s, e).heard == LastDelivered(before, events + [e])
    ensures Step(c, s, e).readings == Reads(before, events + [e])
  {
    assert (events + [e])[..|events|] == events;
    if e.OfReader? {
      ReaderDelivers(c, s, e.re);
    } else {
      OthersDeliverNothing(c, s, e);
    }
  }

  /** The record kept in the state is that of the events. */
  lemma {:induction false} RecordIsDelivered(c: Config, states: seq<State>, events: seq<Event>, i: nat)
    requires ValidConfig(c) && Trace(c, states, events) && states[0].readings == [] && i <= |events|
    ensures states[i].heard == LastDelivered(states[0].heard, events[..i])
    ensures states[i].readings == Reads(states[0].heard, events[..i])
  {
    if i > 0 {
      RecordIsDelivered(c, states, events, i - 1);
      assert Link(c, states[i - 1], events[i - 1], states[i - 1 + 1]);
      EventIsRecorded(c, states[i - 1], events[i - 1], states[0].heard, events[..i - 1]);
      assert events[..i - 1] + [events[i - 1]] == events[..i];
    }
  }

  /** In every run of the daemon, the k-th published block has the size of the k-th read and, at every
      index, the sample the hardware had last delivered there when that read was done; and digital
      samples that are all zero. */
  lemma PublishedIsDelivered(c: Config, states: seq<State>, events: seq<Event>, k: nat)
    requires ValidConfig(c) && Trace(c, states, events) && Init(c, states[0])
    requires k < |states[|events|].history|
    ensures
      var b, done := states[|events|].history[k], Reads(states[0].heard, events);
      && k < |done| && b.points == done[k].points
      && |b.analog| == |b.digital| == 8 * b.points <= |done[k].samples|
      && (forall i :: 0 <= i < |b.analog| ==> b.analog[i] == done[k].samples[i])
      && (forall i :: 0 <= i < |b.digital| ==> b.digital[i] == false)
  {
    RecordIsDelivered(c, states, events, |events|);
    assert events[..|events|] == events;
    TraceReachable(c, states, events);
    PublishedIsAcquired(c, states[|events|], k);
  }

  // ---------------------------------------------------------------- channels

  /** A client whose channels have been accepted. */
  predicate Chose(s: State, h: Thread, ids: seq<nat>) {
    h in s.connections && !s.connections[h].pc.Handshaking? && s.connections[h].ids == ids
  }

  lemma HandlerKeepsChoice(c: Config, v: View, x: Connection, e: HandlerEvent)
    requires ValidConfig(c) && HandlerGuard(c, v, x, e) && !x.pc.Handshaking?
    ensures HandlerStep(c, v, x, e).ids == x.ids && !HandlerStep(c, v, x, e).pc.Handshaking?
  {
    if IsMove(e) {
      MoveMoves(c, v, x, e);
      MoveLeavesHandshake(c, v, x, e);
    } else {
      OtherKeepsChoice(c, v, x, e);
    }
  }

  lemma MoveLeavesHandshake(c: Config, v: View, x: Connection, e: HandlerEvent)
    requires ValidConfig(c) && HandlerGuard(c, v, x, e) && IsMove(e)
    ensures !HandlerStep(c, v, x, e).pc.Handshaking?
  {
  }

  lemma OtherKeepsChoice(c: Config, v: View, x: Connection, e: HandlerEvent)
    requires ValidConfig(c) && HandlerGuard(c, v, x, e) && !x.pc.Handshaking? && !IsMove(e)
    ensures HandlerStep(c, v, x, e).ids == x.ids && !HandlerStep(c, v, x, e).pc.Handshaking?
  {
  }

  lemma StepKeepsChoice(c: Config, s: State, e: Event, h: Thread, ids: seq<nat>)
    requires ValidConfig(c) && Addressable(s) && Guard(c, s, e) && Chose(s, h, ids)
    ensures Chose(Step(c, s, e), h, ids)
  {
    if e.OfHandler? && e.h == h {
      HandlerKeepsChoice(c, ViewOf(s, h), s.connections[h], e.he);
    } else if e.OfSender? && e.h == h {
      SenderStepStaysRegistered(c, s.running, s.connections[h], e.se);
      SenderKeepsChoice(c, s.running, s.connections[h], e.se);
    } else {
      OthersStay(c, s, e, h);
    }
  }

  lemma SenderKeepsChoice(c: Config, running: bool, x: Connection, e: SenderEvent)
    requires SenderGuard(c, running, x, e)
    ensures SenderStep(c, running, x, e).ids == x.ids
  {
  }

  /** A client is served the channels it asked for: those of the request its handler accepted, from
      then on and whatever else happens. */
  lemma {:induction false} ServedAsAsked(
    c: Config, states: seq<State>, events: seq<Event>, i: nat, j: nat, h: Thread, ids: seq<nat>)
    requires ValidConfig(c) && Trace(c, states, events) && i < j <= |events| && events[i] == OfHandler(h, Accept(ids))
    ensures Chose(states[j], h, ids)
    decreases j
  {
    assert Link(c, states[j - 1], events[j - 1], states[j - 1 + 1]);
    if i < j - 1 {
      ServedAsAsked(c, states, events, i, j - 1, h, ids);
      StepKeepsChoice(c, states[j - 1], events[j - 1], h, ids);
    }
  }
}
