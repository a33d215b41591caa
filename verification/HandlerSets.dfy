/** The five handler sets of the daemon, as pure values.

    Each PBL hash set is keyed by the thread identifier its element points to, so it is a
    map from thread to the address of the element: the heap record that
    `inc_available_handlers` allocates.  Every function here is one critical section of
    daemon/sync.c, and describes what that section leaves in all five sets.
 */
module HandlerSets {

  type Thread = nat
  type Record = nat

  /** `next` is the address the next allocation of a record returns. */
  datatype Sets = Sets(
    done: map<Thread, Record>,
    pending: map<Thread, Record>,
    active: map<Thread, Record>,
    alive: map<Thread, Record>,
    dead: map<Thread, Record>,
    next: Record)

  const EMPTY_SETS := Sets(map[], map[], map[], map[], map[], 0)

  /** Adding an element that compares equal to a member keeps the member. */
  function Add(s: map<Thread, Record>, t: Thread, r: Record): map<Thread, Record> {
    if t in s then s else s[t := r]
  }

  /** Adding all of `extra` keeps the members already there. */
  function AddAll(s: map<Thread, Record>, extra: map<Thread, Record>): map<Thread, Record> {
    extra + s
  }

  /** The loop condition of `wait_read_barrier`, negated: done and active have the same members. */
  predicate BarrierOpen(s: Sets) {
    s.done.Keys == s.active.Keys
  }

  function Register(s: Sets, self: Thread): Sets {
    s.(alive := Add(s.alive, self, s.next), next := s.next + 1)
  }

  function Ready(s: Sets, self: Thread): Sets
    requires self in s.active
  {
    s.(done := Add(s.done, self, s.active[self]), pending := s.pending - {self})
  }

  function Leave(s: Sets, self: Thread): Sets
    requires self in s.alive
  {
    s.(alive := s.alive - {self},
       pending := s.pending - {self},
       done := s.done - {self},
       active := s.active - {self},
       dead := Add(s.dead, self, s.alive[self]))
  }

  function Reset(s: Sets): Sets {
    var active := AddAll(s.active, s.alive);
    s.(active := active, pending := AddAll(s.pending, active), done := map[])
  }

  function Take(s: Sets, t: Thread): Sets
    requires t in s.dead
  {
    s.(dead := s.dead - {t})
  }

  // ---------------------------------------------------------------- the set invariant

  /** Every entry of `part` is the very record `whole` holds for that thread. */
  ghost predicate Within(part: map<Thread, Record>, whole: map<Thread, Record>) {
    forall t :: t in part ==> t in whole && part[t] == whole[t]
  }

  /** The comment above the sets in the source, strengthened until every operation keeps it:
      active is the disjoint union of done and pending and lies inside alive, alive and dead
      are disjoint, and a thread has one record wherever it occurs. */
  ghost predicate SetsInv(s: Sets) {
    && s.done.Keys !! s.pending.Keys
    && s.done.Keys + s.pending.Keys == s.active.Keys
    && s.alive.Keys !! s.dead.Keys
    && Within(s.done, s.active)
    && Within(s.pending, s.active)
    && Within(s.active, s.alive)
    && (forall t :: t in s.alive ==> s.alive[t] < s.next)
    && (forall t :: t in s.dead ==> s.dead[t] < s.next)
  }

  /** A thread registers once: it is in no set yet. */
  lemma RegisterKeepsInv(s: Sets, self: Thread)
    requires SetsInv(s) && self !in s.alive && self !in s.dead
    ensures SetsInv(Register(s, self))
    ensures self !in Register(s, self).active
    ensures BarrierOpen(Register(s, self)) <==> BarrierOpen(s)
  {
  }

  lemma ReadyKeepsInv(s: Sets, self: Thread)
    requires SetsInv(s) && self in s.pending
    ensures SetsInv(Ready(s, self))
    ensures Ready(s, self).active == s.active && Ready(s, self).alive == s.alive
    ensures Ready(s, self).done.Keys == s.done.Keys + {self}
    ensures Ready(s, self).pending.Keys == s.pending.Keys - {self}
  {
  }

  lemma LeaveKeepsInv(s: Sets, self: Thread)
    requires SetsInv(s) && self in s.alive
    ensures SetsInv(Leave(s, self))
    ensures Leave(s, self).dead.Keys == s.dead.Keys + {self}
    ensures Leave(s, self).dead[self] == s.alive[self]
    ensures self !in Leave(s, self).alive && self !in Leave(s, self).active
    ensures self !in Leave(s, self).done && self !in Leave(s, self).pending
  {
  }

  lemma ResetKeepsInv(s: Sets)
    requires SetsInv(s)
    ensures SetsInv(Reset(s))
    ensures Reset(s).pending == Reset(s).active == s.alive
    ensures Reset(s).done == map[]
  {
    var r := Reset(s);
    assert r.active == s.alive;
    assert r.pending == s.alive;
  }

  lemma TakeKeepsInv(s: Sets, t: Thread)
    requires SetsInv(s) && t in s.dead
    ensures SetsInv(Take(s, t))
    ensures Take(s, t).dead.Keys == s.dead.Keys - {t}
  {
  }

  /** What the barrier waits for is exactly that nobody still has to copy.  Both halves need
      the invariant: the loop compares two other sets. */
  lemma BarrierOpenMeansNonePending(s: Sets)
    requires SetsInv(s)
    ensures BarrierOpen(s) <==> s.pending == map[]
  {
    if BarrierOpen(s) {
      assert s.pending.Keys == {};
    }
    if s.pending == map[] {
      assert s.done.Keys == s.active.Keys;
    }
  }
}
