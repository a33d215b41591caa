/** daemon/sync.c as it is written: one object whose five sets every operation updates in
    place.  Each method is what its C function does between taking and releasing the set
    mutex, and is proved to leave exactly the sets HandlerSets describes.  A wait loop is
    represented by the test it repeats; who may run in between is the subject of Daemon. */
module Registry {
  import opened HandlerSets

  class HandlerRegistry {
    var done: map<Thread, Record>
    var pending: map<Thread, Record>
    var active: map<Thread, Record>
    var alive: map<Thread, Record>
    var dead: map<Thread, Record>
    var next: Record

    ghost function State(): Sets
      reads this
    {
      Sets(done, pending, active, alive, dead, next)
    }

    ghost predicate Valid()
      reads this
    {
      SetsInv(State())
    }

    /** init_sync */
    constructor ()
      ensures State() == EMPTY_SETS && Valid()
    {
      done, pending, active, alive, dead, next := map[], map[], map[], map[], map[], 0;
    }

    /** The test of the loop in wait_read_barrier; open iff no handler still has to copy. */
    method BarrierTest() returns (open: bool)
      requires Valid()
      ensures open <==> pending == map[]
    {
      open := done.Keys == active.Keys;
      BarrierOpenMeansNonePending(State());
    }

    /** The test of the loop in wait_data_available. */
    method DataAvailable(self: Thread) returns (available: bool)
      requires Valid()
      ensures available <==> self in State().active && self !in State().done
    {
      available := self in pending;
    }

    /** set_ready.  The two asserts of the source are the precondition. */
    method SetReady(self: Thread)
      requires Valid() && self in active && self in pending
      modifies this
      ensures Valid() && State() == Ready(old(State()), self)
      ensures pending.Keys == old(pending.Keys) - {self} && done.Keys == old(done.Keys) + {self}
    {
      ReadyKeepsInv(State(), self);
      var record := active[self];
      if self !in done {
        done := done[self := record];
      }
      pending := pending - {self};
    }

    /** inc_available_handlers.  The record is fresh: no set holds it. */
    method IncAvailableHandlers(self: Thread)
      requires Valid() && self !in alive && self !in dead
      modifies this
      ensures Valid() && State() == Register(old(State()), self)
      ensures self in alive && alive[self] == old(next)
      ensures forall t :: t in old(alive) ==> old(alive)[t] != alive[self]
    {
      RegisterKeepsInv(State(), self);
      var record := next;
      next := next + 1;
      if self !in alive {
        alive := alive[self := record];
      }
    }

    /** dec_available_handlers.  The source looks the record up in four sets and asserts that
        it is one record; the assertions are proved here, not assumed. */
    method DecAvailableHandlers(self: Thread)
      requires Valid() && self in alive
      modifies this
      ensures Valid() && State() == Leave(old(State()), self)
      ensures self in dead && dead[self] == old(alive)[self]
      ensures self !in alive && self !in active && self !in pending && self !in done
    {
      LeaveKeepsInv(State(), self);
      var record := alive[self];
      assert self in pending ==> pending[self] == record;
      assert self in done ==> done[self] == record;
      assert self in active ==> active[self] == record;

      alive := alive - {self};
      pending := pending - {self};
      done := done - {self};
      active := active - {self};
      if self !in dead {
        dead := dead[self := record];
      }
    }

    /** reset_ready_handlers */
    method ResetReadyHandlers()
      requires Valid()
      modifies this
      ensures Valid() && State() == Reset(old(State()))
      ensures pending == active == alive == old(alive) && done == map[]
    {
      ResetKeepsInv(State());
      active := alive + active;
      pending := active + pending;
      done := map[];
    }

    /** wait_dead_handler once its loop has ended: some member of dead is taken out. */
    method TakeDeadHandler() returns (t: Thread, record: Record)
      requires Valid() && dead != map[]
      modifies this
      ensures t in old(dead) && record == old(dead)[t]
      ensures Valid() && State() == Take(old(State()), t)
      ensures t !in dead && t !in alive && t !in active && t !in pending && t !in done
    {
      assert dead.Keys != {};
      t :| t in dead;
      TakeKeepsInv(State(), t);
      record := dead[t];
      dead := dead - {t};
    }

    /** have_alive_threads */
    method HaveAliveThreads() returns (some: bool)
      ensures some <==> exists t :: t in alive
    {
      some := |alive| > 0;
      if some {
        var t :| t in alive.Keys;
        assert t in alive;
      }
    }
  }
}
