/** What the daemon guarantees in every state it can reach. */
module DaemonTheorems {
  import opened HandlerSets
  import opened Wire
  import opened HandlerThreads
  import opened HandlerInvariant
  import opened Timestamps
  import opened Daemon
  import opened DaemonInvariant

  ghost predicate Reachable(c: Config, s: State)
    requires ValidConfig(c)
  {
    exists run :: Run(c, run) && run[|run| - 1] == s
  }

  lemma StepReachable(c: Config, s: State, e: Event)
    requires ValidConfig(c) && Reachable(c, s) && Addressable(s) && Guard(c, s, e)
    ensures Reachable(c, Step(c, s, e))
  {
    var run :| Run(c, run) && run[|run| - 1] == s;
    var longer := run + [Step(c, s, e)];
    assert Next(c, s, Step(c, s, e));
    forall i | 0 <= i < |longer| - 1 ensures Next(c, longer[i], longer[i + 1]) {
      if i < |run| - 1 {
        assert Next(c, run[i], run[i + 1]);
      }
    }
    assert longer[0] == run[0];
    assert Run(c, longer) && longer[|longer| - 1] == Step(c, s, e);
  }

  lemma ReachableInv(c: Config, s: State)
    requires ValidConfig(c) && Reachable(c, s)
    ensures Inv(c, s)
  {
    var run :| Run(c, run) && run[|run| - 1] == s;
    RunKeepsInv(c, run, |run| - 1);
  }

  lemma ReachableReader(c: Config, s: State)
    requires ValidConfig(c) && Reachable(c, s)
    ensures ReaderInv(s)
  {
    ReachableInv(c, s);
  }

  lemma ReachableHistory(c: Config, s: State)
    requires ValidConfig(c) && Reachable(c, s)
    ensures HistoryInv(c, s)
  {
    ReachableInv(c, s);
  }

  lemma ReachableBooks(c: Config, s: State)
    requires ValidConfig(c) && Reachable(c, s)
    ensures BooksInv(s)
  {
    ReachableInv(c, s);
  }

  lemma ReachableConnection(c: Config, s: State, h: Thread)
    requires ValidConfig(c) && Reachable(c, s) && h in s.connections
    ensures LocalInv(c, ViewOf(s, h), s.connections[h])
  {
    ReachableInv(c, s);
    OneConnection(c, s, h);
  }

  lemma ReachableStream(c: Config, s: State, h: Thread)
    requires ValidConfig(c) && Reachable(c, s) && h in s.connections
    ensures StreamInv(ViewOf(s, h), s.connections[h]) && QuietInv(s.connections[h])
  {
    ReachableConnection(c, s, h);
  }

  lemma ReachableControl(c: Config, s: State, h: Thread)
    requires ValidConfig(c) && Reachable(c, s) && h in s.connections
    ensures ControlInv(c, ViewOf(s, h), s.connections[h])
  {
    ReachableConnection(c, s, h);
  }

  lemma ReachableData(c: Config, s: State, h: Thread)
    requires ValidConfig(c) && Reachable(c, s) && h in s.connections
    ensures DataInv(c, ViewOf(s, h), s.connections[h])
  {
    ReachableConnection(c, s, h);
  }

  lemma ReachableRegistration(c: Config, s: State, h: Thread)
    requires ValidConfig(c) && Reachable(c, s) && h in s.connections
    ensures RegistrationInv(ViewOf(s, h), s.connections[h])
  {
    ReachableControl(c, s, h);
  }

  /** An event of this connection's threads, or its arrival. */
  predicate By(e: Event, g: Thread) {
    e == Connect(g) || (e.OfHandler? && e.h == g) || (e.OfSender? && e.h == g)
  }

  lemma OthersStay(c: Config, s: State, e: Event, g: Thread)
    requires ValidConfig(c) && Addressable(s) && Guard(c, s, e) && !By(e, g)
    ensures
      var s' := Step(c, s, e);
      && (g in s'.connections <==> g in s.connections)
      && (g in s.connections ==> s'.connections[g] == s.connections[g])
      && (s'.running ==> s.running)
  {
    var s' := Step(c, s, e);
    if e.OfReader? || e.OfReaper? || e.Shutdown? {
      assert s'.connections == s.connections;
    }
  }

  lemma AliveIsConnected(c: Config, s: State, h: Thread)
    requires ValidConfig(c) && Reachable(c, s) && h in s.sets.alive
    ensures h in s.connections && s.connections[h].registered
  {
    ReachableBooks(c, s);
    assert h in s.records;
  }

  // ---------------------------------------------------------------- the stream of one client

  /** Everything copied for a client, the blocks written, then the one being written or the one
      whose write failed, then the blocks queued, is one contiguous run of the published blocks:
      no gap, no duplicate, no block out of order, whoever else joins and leaves.  While the
      handler is alive the run ends with the newest block, or just before it if the handler
      still has to copy that one.  Of what is queued this can fail, but only if this handler has
      read a shared array after it was freed; SharedArrays says when one does. */
  lemma GaplessStream(c: Config, s: State, h: Thread)
    requires ValidConfig(c) && Reachable(c, s) && h in s.connections
    ensures
      var x := s.connections[h];
      var n := |Copied(x)|;
      var out := x.written + x.current;
      && (!x.registered ==> n == 0)
      && (x.registered ==>
            && x.since + |out| <= x.since + n <= s.offered <= |s.history|
            && out == s.history[x.since..x.since + |out|]
            && (!x.spoiled ==> out + x.queue == s.history[x.since..x.since + n]))
      && (x.registered && h in s.sets.alive ==> x.since + n + Owed(ViewOf(s, h), x) == s.offered)
  {
    ReachableStream(c, s, h);
  }

  /** The run starts with the block of the reset that makes the handler active. */
  lemma StartsWhereItBecomesActive(c: Config, s: State, h: Thread)
    requires ValidConfig(c) && Reachable(c, s) && Guard(c, s, OfReader(ResetReady))
    requires h in s.sets.alive && h !in s.sets.active && InBounds(s.shared)
    ensures
      var s' := ReaderStep(c, s, ResetReady);
      && h in s'.sets.active && h in s'.sets.pending && h in s'.connections
      && s'.connections[h].since == |s'.history| - 1
      && s'.history[|s'.history| - 1] == Snapshot(s'.shared)
      && Copied(s'.connections[h]) == []
  {
    AliveIsConnected(c, s, h);
    ReachableReader(c, s);
    ReachableStream(c, s, h);
    ResetActivates(c, s, h);
  }

  lemma ResetActivates(c: Config, s: State, h: Thread)
    requires ValidConfig(c) && Reachable(c, s) && Guard(c, s, OfReader(ResetReady))
    requires h in s.sets.alive && InBounds(s.shared)
    ensures h in ReaderStep(c, s, ResetReady).sets.active && h in ReaderStep(c, s, ResetReady).sets.pending
  {
    ReachableBooks(c, s);
    HandlerSets.ResetKeepsInv(s.sets);
  }

  /** Of the blocks published since a handler became active, at most `maxElems + 1` are not
      completely written: one to be copied, one being written, and what the queue holds.  A slow
      client costs the acquisition thread no more than that; after it the client is dropped. */
  lemma BoundedLag(c: Config, s: State, h: Thread)
    requires ValidConfig(c) && Reachable(c, s) && h in s.sets.alive
    ensures h in s.connections
    ensures |s.history| - s.connections[h].since - |s.connections[h].written| <= c.maxElems + 1
  {
    AliveIsConnected(c, s, h);
    ReachableReader(c, s);
    ReachableData(c, s, h);
  }

  /** A handler gives up for want of space only when its client is that far behind: the queue
      holds all it can, whatever has been taken out of it before. */
  lemma DroppedOnlyWhenFull(c: Config, s: State, h: Thread)
    requires ValidConfig(c) && Reachable(c, s) && Guard(c, s, OfHandler(h, Reserve))
    ensures
      var x := s.connections[h];
      HandlerStep(c, ViewOf(s, h), x, Reserve).pc.Resigning? <==> |x.queue| == c.maxElems - 1
  {
    ReachableData(c, s, h);
  }

  // ---------------------------------------------------------------- what is published

  /** What is published is what the acquisition thread acquired: the k-th block has the size of the
      k-th reading, its analog samples are the values the hardware last delivered at their indices,
      and its digital samples are all zero. */
  lemma PublishedIsAcquired(c: Config, s: State, k: nat)
    requires ValidConfig(c) && Reachable(c, s) && k < |s.history|
    ensures k < |s.readings|
    ensures
      var b, r := s.history[k], s.readings[k];
      && b.points == r.points && b.channels == 8
      && |b.analog| == |b.digital| == 8 * r.points <= |r.samples|
      && (forall i :: 0 <= i < |b.analog| ==> b.analog[i] == r.samples[i])
      && (forall i :: 0 <= i < |b.digital| ==> b.digital[i] == false)
  {
    ReachableInv(c, s);
    assert IsReading(s.history[k], s.readings[k]);
  }

  // ---------------------------------------------------------------- a client that is gone

  /** A handler whose sender has ended, because a write failed or the daemon stops, finds its flag
      cleared; and after the flag is cleared it queues at most one block. */
  lemma FlagIsCleared(c: Config, s: State, h: Thread)
    requires ValidConfig(c) && Reachable(c, s) && h in s.connections
    ensures
      var x := s.connections[h];
      (x.sender.Finished? ==> !x.running) && x.overrun <= 1 && (x.running ==> x.overrun == 0)
  {
    ReachableControl(c, s, h);
    ReachableData(c, s, h);
  }

  // ---------------------------------------------------------------- copies without a lock

  /** While the acquisition thread may write the arrays or the header, no handler is anywhere in
      its copy; and while a handler copies and the arrays are not freed, the shared block is the
      last one published. */
  lemma NoTornCopy(c: Config, s: State, h: Thread)
    requires ValidConfig(c) && Reachable(c, s) && h in s.connections && InCopy(s.connections[h].pc)
    ensures !Acquiring(s.reader.pc) && !(s.reader.pc.AtRecheck? && s.running)
    ensures 0 < s.offered == |s.history| && InBounds(s.shared)
    ensures Live(s.shared) ==> Snapshot(s.shared) == s.history[s.offered - 1]
  {
    ReachableControl(c, s, h);
    ReachableReader(c, s);
    if Live(s.shared) {
      HoldsSnapshot(s.shared, s.history[s.offered - 1]);
    }
  }

  /** The element a handler is about to queue is that block, although its sample count was read
      without a lock, its header under one, and its samples one at a time without; unless some of
      them were read from freed memory. */
  lemma QueuedElementIsPublished(c: Config, s: State, h: Thread)
    requires ValidConfig(c) && Reachable(c, s) && Guard(c, s, OfHandler(h, Enqueue))
    ensures 0 < s.offered <= |s.history|
    ensures !s.connections[h].spoiled ==> s.connections[h].draft == s.history[s.offered - 1]
    ensures s.connections[h].since + |Copied(s.connections[h])| == s.offered - 1
  {
    ReachableDraft(c, s, h);
    ReachableStream(c, s, h);
  }

  lemma ReachableDraft(c: Config, s: State, h: Thread)
    requires ValidConfig(c) && Reachable(c, s) && h in s.connections && s.connections[h].pc.Enqueuing?
    ensures h in s.sets.pending && h in s.sets.alive && s.connections[h].registered && 0 < s.offered <= |s.history|
    ensures !s.connections[h].spoiled ==> s.connections[h].draft == s.history[s.offered - 1]
  {
    ReachableControl(c, s, h);
    DraftIsBlock(c, ViewOf(s, h), s.connections[h]);
  }

  lemma DraftIsBlock(c: Config, v: View, x: Connection)
    requires ControlInv(c, v, x) && x.pc.Enqueuing?
    ensures v.mePending && v.meAlive && x.registered && 0 < v.offered <= |v.history|
    ensures !x.spoiled ==> x.draft == v.history[v.offered - 1]
  {
  }

  /** The copy loops never reach outside the arrays: the bound tests of the model, which the
      source does not have, never decide.  As long as the daemon runs, the arrays exist. */
  lemma CopiesStayInBounds(c: Config, s: State, h: Thread)
    requires ValidConfig(c) && Reachable(c, s) && h in s.connections
    ensures
      var x := s.connections[h];
      && (x.pc.CopyingAnalog? && |x.draft.analog| < x.samples ==> |x.draft.analog| < |s.shared.analog|)
      && (x.pc.CopyingDigital? && |x.draft.digital| < x.samples ==> |x.draft.digital| < |s.shared.digital|)
      && (HoldsQueueLock(x.pc) ==> x.samples == SampleCount(s.shared.header))
      && (s.running ==> Live(s.shared)) && (x.spoiled ==> !Live(s.shared))
  {
    ReachableControl(c, s, h);
    ReachableData(c, s, h);
  }

  // ---------------------------------------------------------------- the bytes on a connection

  /** On each connection travel the greeting, then whole frames of the blocks written, then the
      part already sent of the frame being written or abandoned.  Handler and sender write the
      same socket without a lock and never interleave.  Descriptors says when all of that, and
      nothing else, arrives there. */
  lemma BytesOnTheWire(c: Config, s: State, h: Thread)
    requires ValidConfig(c) && Reachable(c, s) && h in s.connections
    ensures
      var x := s.connections[h];
      var greeting := Greeting(c.rate);
      && (x.pc.SendingGreeting? ==> |x.wire| < |greeting| && x.wire == greeting[..|x.wire|] && !x.sender.Sending?)
      && (x.registered && !x.pc.SendingGreeting? ==>
            x.wire == greeting + Frames(PayloadsOf(c, x.ids, x.written)) + Partial(c, x))
      && (!x.registered ==> x.wire == [])
  {
    ReachableData(c, s, h);
  }

  /** write_dataset reports a frame as written iff it is out completely and its length fits an `int`;
      a sender that has given up has left its frame incomplete or too long. */
  lemma ReportedIff(c: Config, s: State, h: Thread)
    requires ValidConfig(c) && Reachable(c, s) && h in s.connections
    ensures
      var x := s.connections[h];
      var whole := |x.current| == 1 && x.sent == |FrameOf(c, x)| && |FrameOf(c, x)| < 0x8000_0000;
      && (x.sender.Releasing? ==> (x.sender.ok <==> whole))
      && (x.sender.Quitting? || x.sender.Finished? ==> !whole)
  {
    ReachableData(c, s, h);
  }

  // ---------------------------------------------------------------- memory of the copies

  /** The copies whose memory is allocated and not freed are, until the handler has cleaned up,
      exactly the one being made, the one the sender is using and those in the queue; in the end
      there is none.  The digital array of the copy being made is allocated last. */
  lemma AllocatedIsInUse(c: Config, s: State, h: Thread, i: nat)
    requires ValidConfig(c) && Reachable(c, s) && h in s.connections
    ensures
      var x := s.connections[h];
      var inUse := (i == |x.written| && (x.sender.Sending? || x.sender.Releasing?))
        || Between(|x.written| + |x.current|, i, |Copied(x)|);
      && (i in x.freed ==> i < x.digitals <= x.analogs)
      && (!x.pc.Exited? ==>
            && (i < x.analogs && i !in x.freed <==> inUse || (i == |Copied(x)| && Drafting(x.pc)))
            && (i < x.digitals && i !in x.freed <==>
                  inUse || (i == |Copied(x)| && (x.pc.CopyingDigital? || x.pc.Enqueuing?))))
      && (x.pc.Exited? ==> (i in x.freed <==> i < x.analogs) && x.analogs == x.digitals)
  {
    ReachableConnection(c, s, h);
  }

  /** No copy is freed twice, and none while the sender may still read it. */
  lemma FreedOnceAndNotInUse(c: Config, s: State, h: Thread)
    requires ValidConfig(c) && Reachable(c, s) && h in s.connections
    ensures
      var x := s.connections[h];
      && (x.sender.Releasing? ==> |x.written| !in x.freed)
      && (x.sender.Sending? ==> |x.written| !in x.freed)
      && (x.pc.Cleaning? ==>
            && !x.sender.Sending? && !x.sender.Releasing?
            && Positions(|x.written| + |x.current|, |Copied(x)|) !! x.freed)
  {
    ReachableConnection(c, s, h);
    var x := s.connections[h];
    if x.pc.Cleaning? {
      forall i | i in Positions(|x.written| + |x.current|, |Copied(x)|) ensures i !in x.freed {
        assert Between(|x.written| + |x.current|, i, |Copied(x)|);
      }
    }
  }

  // ---------------------------------------------------------------- the barrier and its assertions

  /** The two assertions after the loop of wait_read_barrier. */
  predicate BarrierAssertion(s: Sets) {
    s.pending == map[] && s.done.Keys == s.active.Keys
  }

  /** At the moment the loop is left they hold if it is left because the sets are equal; so always
      while the daemon runs, and only then does the acquisition thread go on to fill the block.
      Progress.AssertionsWillHoldIff says when a call of wait_read_barrier is safe. */
  lemma OpenBarrierAssertion(c: Config, s: State)
    requires ValidConfig(c) && Reachable(c, s) && Guard(c, s, OfReader(PassBarrier))
    ensures BarrierOpen(s.sets) ==> BarrierAssertion(s.sets)
    ensures s.running ==> BarrierAssertion(s.sets)
  {
    ReachableBooks(c, s);
    BarrierOpenMeansNonePending(s.sets);
  }

  /** Every assertion of the set operations holds wherever it is reached: a handler that leaves
      wait_data_available while the daemon runs is pending, it is still active and pending when
      it reports ready, and when it leaves it is alive with one record in all its sets. */
  lemma ProtocolAssertions(c: Config, s: State, h: Thread, e: HandlerEvent)
    requires ValidConfig(c) && Reachable(c, s) && Guard(c, s, OfHandler(h, e))
    ensures HandlerAssertion(s.sets, h, e)
    ensures s.connections[h].pc.Rechecking? && s.running ==> h in s.sets.pending
    ensures InCopy(s.connections[h].pc) ==> h in s.sets.active && h in s.sets.pending
  {
    ReachableControl(c, s, h);
    ReachableAssertion(c, s, h, e);
  }

  lemma ReachableAssertion(c: Config, s: State, h: Thread, e: HandlerEvent)
    requires ValidConfig(c) && Reachable(c, s) && Guard(c, s, OfHandler(h, e))
    ensures HandlerAssertion(s.sets, h, e)
  {
    ReachableInv(c, s);
    AssertionsHold(c, s, h, e);
  }

  /** The memory every step addresses exists, so that no run ends for want of it. */
  lemma AlwaysAddressable(c: Config, s: State)
    requires ValidConfig(c) && Reachable(c, s)
    ensures Addressable(s)
    ensures |s.shared.analog| == |s.shared.digital| == 30000 * 8
  {
    ReachableReader(c, s);
  }

  // ---------------------------------------------------------------- registration

  /** Who ever registered is alive, dead or taken by the reaper, and only one of these; each has
      its own record, the same in every set that holds it. */
  lemma RegistryConservation(c: Config, s: State, h: Thread)
    requires ValidConfig(c) && Reachable(c, s)
    ensures h in s.connections && s.connections[h].registered <==> h in s.sets.alive || h in s.sets.dead || h in s.taken
    ensures !(h in s.sets.alive && h in s.sets.dead)
    ensures h in s.taken ==>
              && h !in s.sets.alive && h !in s.sets.dead
              && h !in s.sets.active && h !in s.sets.pending && h !in s.sets.done
    ensures h in s.sets.pending ==> h in s.sets.active && s.sets.pending[h] == s.sets.active[h]
    ensures h in s.sets.done ==> h in s.sets.active && s.sets.done[h] == s.sets.active[h]
    ensures h in s.sets.active ==> h in s.sets.alive && s.sets.active[h] == s.sets.alive[h]
    ensures h in s.sets.alive ==> h in s.records && s.sets.alive[h] == s.records[h]
    ensures h in s.sets.dead ==> h in s.records && s.sets.dead[h] == s.records[h]
  {
    ReachableBooks(c, s);
    assert h in s.records <==> h in s.sets.alive.Keys + s.sets.dead.Keys + s.taken;
  }

  /** A record that has been freed is in none of the five sets, belongs to a thread that has
      ended, and is not about to be freed again. */
  lemma FreedRecordsAreOut(c: Config, s: State, t: Thread)
    requires ValidConfig(c) && Reachable(c, s)
    ensures t in s.sets.alive ==> s.sets.alive[t] !in s.released
    ensures t in s.sets.dead ==> s.sets.dead[t] !in s.released
    ensures t in s.sets.active ==> s.sets.active[t] !in s.released
    ensures t in s.sets.pending ==> s.sets.pending[t] !in s.released
    ensures t in s.sets.done ==> s.sets.done[t] !in s.released
    ensures t in s.records && s.records[t] in s.released ==> t in s.connections && s.connections[t].pc.Exited?
    ensures s.reaper.FreeingRecord? ==> s.reaper.record !in s.released && s.reaper.thread in s.taken
  {
    ReachableBooks(c, s);
    assert InHand(s, t) || !InHand(s, t);
    if s.reaper.FreeingRecord? {
      assert InHand(s, s.reaper.thread);
    }
  }

  /** The reaper takes a thread at most once. */
  lemma TakenOnce(c: Config, s: State, t: Thread)
    requires ValidConfig(c) && Reachable(c, s) && Guard(c, s, OfReaper(TakeDead(t)))
    ensures t !in s.taken && t in ReaperStep(s, TakeDead(t)).taken && t in s.connections
  {
    ReachableBooks(c, s);
    assert t in s.records;
  }

  /** The reaper returns only when the daemon has stopped and nobody is alive. */
  lemma ReaperRetiresIff(c: Config, s: State, e: ReaperEvent)
    requires ValidConfig(c) && Reachable(c, s) && Addressable(s) && Guard(c, s, OfReaper(e))
    ensures Step(c, s, OfReaper(e)).reaper.Retired? <==> e.CheckAlive? && !s.running && forall h :: h !in s.sets.alive
  {
    if s.sets.alive != map[] {
      assert s.sets.alive.Keys != {};
      var h :| h in s.sets.alive;
    }
  }

  // ---------------------------------------------------------------- timestamps

  /** Each published block is stamped with the clock after it: the end of the block. */
  lemma BlockTimestamps(c: Config, s: State, k: nat)
    requires ValidConfig(c) && Reachable(c, s) && k < |s.history|
    ensures s.history[k].timestamp == Clock(c.rate, Sizes(s.history)[..k + 1])
    ensures k + 1 < |s.history| ==>
              s.history[k + 1].timestamp == (s.history[k].timestamp + Duration(c.rate, s.history[k + 1].points)) % TWO64
  {
    StampedHistory(c, s, k);
    if k + 1 < |s.history| {
      StampedHistory(c, s, k + 1);
      NextClock(c.rate, Sizes(s.history), k + 1);
    }
  }

  lemma StampedHistory(c: Config, s: State, k: nat)
    requires ValidConfig(c) && Reachable(c, s) && k < |s.history|
    ensures s.history[k].timestamp == Clock(c.rate, Sizes(s.history)[..k + 1])
  {
    ReachableHistory(c, s);
  }

  /** While the sum fits in 64 bits, the stamp of the k-th block is late by less than one part in
      `rate` of a nanosecond for each block so far, and never ahead of the samples. */
  lemma StampDrift(c: Config, s: State, k: nat)
    requires ValidConfig(c) && Reachable(c, s) && k < |s.history|
    requires ExactClock(c.rate, Sizes(s.history)[..k + 1]) < TWO64
    ensures
      0 <= TIME_S * Total(Sizes(s.history)[..k + 1]) - c.rate * s.history[k].timestamp <= (k + 1) * (c.rate - 1)
  {
    var sizes := Sizes(s.history)[..k + 1];
    StampedHistory(c, s, k);
    ClockFits(c.rate, sizes);
    DriftBound(c.rate, sizes);
  }

  /** What the repository's own check of a running client looks for: when every read returns one
      second of samples, consecutive blocks a client is sent are stamped one second apart. */
  lemma ClientSeesEverySecond(c: Config, s: State, h: Thread, i: nat)
    requires ValidConfig(c) && Reachable(c, s) && h in s.connections && i + 1 < |s.connections[h].written|
    requires forall k :: 0 <= k < |s.history| ==> s.history[k].points == c.rate
    ensures
      s.connections[h].written[i + 1].timestamp ==
        (s.connections[h].written[i].timestamp + 1_000_000_000) % 0x1_0000_0000_0000_0000
  {
    var x := s.connections[h];
    WrittenIsPublished(c, s, h, i);
    WrittenIsPublished(c, s, h, i + 1);
    BlockTimestamps(c, s, x.since + i);
    WholeSecond(c.rate);
  }

  /** Block by block: the i-th block written is the i-th block offered. */
  lemma WrittenIsPublished(c: Config, s: State, h: Thread, i: nat)
    requires ValidConfig(c) && Reachable(c, s) && h in s.connections && i < |s.connections[h].written|
    ensures s.connections[h].since + i < |s.history|
    ensures s.connections[h].written[i] == s.history[s.connections[h].since + i]
  {
    ReachableStream(c, s, h);
    var x := s.connections[h];
    var out := x.written + x.current;
    assert x.registered && x.written[i] == out[i];
    assert out[i] == s.history[x.since..x.since + |out|][i];
  }

  lemma WholeSecond(rate: nat)
    requires 0 < rate
    ensures Duration(rate, rate) == 1_000_000_000
  {
  }
}
