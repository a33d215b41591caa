/** The queue between a handler and its sender, as a first-in first-out sequence. */
module Fifo {

  /** Room for one more?  The test of the source leaves the last slot unused. */
  predicate Accepts<T>(q: seq<T>, maxElems: nat) {
    |q| + 1 < maxElems
  }

  function Push<T>(q: seq<T>, x: T): seq<T> {
    q + [x]
  }

  function Head<T>(q: seq<T>): T
    requires q != []
  {
    q[0]
  }

  function Pop<T>(q: seq<T>): seq<T>
    requires q != []
  {
    q[1..]
  }

  // ---------------------------------------------------------------- whole histories

  datatype Op<T> = Offer(x: T) | Take

  /** A queue with everything it accepted and everything taken out of it. */
  datatype Log<T> = Log(queue: seq<T>, accepted: seq<T>, taken: seq<T>)

  /** Operations one after the other; an offer is refused when there is no room, and taking from
      an empty queue does nothing. */
  function Play<T>(ops: seq<Op<T>>, maxElems: nat): Log<T> {
    if ops == [] then Log([], [], [])
    else
      var log := Play(ops[..|ops| - 1], maxElems);
      match ops[|ops| - 1]
      case Offer(x) =>
        if Accepts(log.queue, maxElems) then Log(Push(log.queue, x), log.accepted + [x], log.taken) else log
      case Take => if log.queue == [] then log else Log(Pop(log.queue), log.accepted, log.taken + [Head(log.queue)])
  }

  /** Whatever is done to the queue, what was taken out and then what is still in it is exactly
      what was accepted, in order, and the queue never holds more than maxElems - 1 elements. */
  lemma {:induction false} PlayConserves<T>(ops: seq<Op<T>>, maxElems: nat)
    requires 1 <= maxElems
    ensures
      var log := Play(ops, maxElems);
      log.taken + log.queue == log.accepted && |log.queue| + 1 <= maxElems
  {
    if ops != [] {
      PlayConserves(ops[..|ops| - 1], maxElems);
      var log := Play(ops[..|ops| - 1], maxElems);
      if log.queue != [] {
        assert log.taken + [Head(log.queue)] + Pop(log.queue) == log.taken + log.queue;
      }
    }
  }
}
