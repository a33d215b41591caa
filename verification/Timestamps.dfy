/** The acquisition clock: a running sum of block durations, each truncated to nanoseconds. */
module Timestamps {
  import opened Wire

  const TIME_S: nat := 1_000_000_000

  /** Length of a block of `points` samples per channel, as the integer division gives it. */
  function Duration(rate: nat, points: nat): nat
    requires 0 < rate
  {
    TIME_S * points / rate
  }

  /** The clock after blocks of these sizes, in the arithmetic of `uint64_t`. */
  function Clock(rate: nat, sizes: seq<nat>): (t: nat)
    requires 0 < rate
    ensures t < TWO64
  {
    if sizes == [] then 0
    else (Clock(rate, sizes[..|sizes| - 1]) + Duration(rate, sizes[|sizes| - 1])) % TWO64
  }

  function Total(sizes: seq<nat>): nat {
    if sizes == [] then 0 else Total(sizes[..|sizes| - 1]) + sizes[|sizes| - 1]
  }

  lemma ClockAppend(rate: nat, sizes: seq<nat>, points: nat)
    requires 0 < rate
    ensures Clock(rate, sizes + [points]) == (Clock(rate, sizes) + Duration(rate, points)) % TWO64
  {
    assert (sizes + [points])[..|sizes|] == sizes;
  }

  lemma NextClock(rate: nat, sizes: seq<nat>, k: nat)
    requires 0 < rate && k < |sizes|
    ensures Clock(rate, sizes[..k + 1]) == (Clock(rate, sizes[..k]) + Duration(rate, sizes[k])) % TWO64
  {
    ClockAppend(rate, sizes[..k], sizes[k]);
    assert sizes[..k] + [sizes[k]] == sizes[..k + 1];
  }

  /** The loop of the acquisition thread, for the sizes its reads return. */
  method Accumulate(rate: nat, sizes: seq<nat>) returns (timestamps: seq<nat>)
    requires 0 < rate
    ensures |timestamps| == |sizes|
    ensures forall k :: 0 <= k < |sizes| ==> timestamps[k] == Clock(rate, sizes[..k + 1])
  {
    var timestamp := 0;
    timestamps := [];
    for k := 0 to |sizes|
      invariant timestamp == Clock(rate, sizes[..k])
      invariant |timestamps| == k
      invariant forall i :: 0 <= i < k ==> timestamps[i] == Clock(rate, sizes[..i + 1])
    {
      NextClock(rate, sizes, k);
      timestamp := (timestamp + TIME_S * sizes[k] / rate) % TWO64;
      timestamps := timestamps + [timestamp];
    }
  }

  /** The clock no 64-bit counter has to hold. */
  function ExactClock(rate: nat, sizes: seq<nat>): nat
    requires 0 < rate
  {
    if sizes == [] then 0
    else ExactClock(rate, sizes[..|sizes| - 1]) + Duration(rate, sizes[|sizes| - 1])
  }

  lemma ModAdd(a: nat, b: nat)
    ensures (a % TWO64 + b) % TWO64 == (a + b) % TWO64
  {
    var q := a / TWO64;
    assert a == q * TWO64 + a % TWO64;
    assert (a % TWO64 + b + q * TWO64) % TWO64 == (a % TWO64 + b) % TWO64;
  }

  lemma {:induction false} ClockIsExactModulo(rate: nat, sizes: seq<nat>)
    requires 0 < rate
    ensures Clock(rate, sizes) == ExactClock(rate, sizes) % TWO64
  {
    if sizes != [] {
      var front := sizes[..|sizes| - 1];
      ClockIsExactModulo(rate, front);
      ModAdd(ExactClock(rate, front), Duration(rate, sizes[|sizes| - 1]));
    }
  }

  /** One more block: the exact clock, in ticks, advances by the block less the remainder. */
  lemma OneBlock(rate: nat, e: nat, p: nat)
    requires 0 < rate
    ensures rate * (e + Duration(rate, p)) == rate * e + TIME_S * p - TIME_S * p % rate
  {
    var d := Duration(rate, p);
    assert TIME_S * p == rate * d + TIME_S * p % rate;
    assert rate * (e + d) == rate * e + rate * d;
  }

  lemma OneMore(n: nat, k: nat)
    ensures (n + 1) * k == n * k + k
  {
  }

  /** Every block loses less than one tick of the sampling clock, and none gains: after k
      blocks the drift is at most k * (rate - 1) parts of a nanosecond. */
  lemma {:induction false} DriftBound(rate: nat, sizes: seq<nat>)
    requires 0 < rate
    ensures 0 <= TIME_S * Total(sizes) - rate * ExactClock(rate, sizes) <= |sizes| * (rate - 1)
  {
    if sizes == [] {
      assert rate * 0 == 0;
    } else {
      var front, p := sizes[..|sizes| - 1], sizes[|sizes| - 1];
      DriftBound(rate, front);
      OneBlock(rate, ExactClock(rate, front), p);
      OneMore(|front|, rate - 1);
    }
  }

  /** No drift iff no block is cut: every block lasts a whole number of nanoseconds. */
  lemma {:induction false} NoDriftIff(rate: nat, sizes: seq<nat>)
    requires 0 < rate
    ensures rate * ExactClock(rate, sizes) == TIME_S * Total(sizes)
       <==> forall k :: 0 <= k < |sizes| ==> TIME_S * sizes[k] % rate == 0
  {
    if sizes == [] {
      assert rate * 0 == 0;
    } else {
      var front, p := sizes[..|sizes| - 1], sizes[|sizes| - 1];
      NoDriftIff(rate, front);
      DriftBound(rate, front);
      OneBlock(rate, ExactClock(rate, front), p);
      assert forall k :: 0 <= k < |front| ==> front[k] == sizes[k];
      if forall k :: 0 <= k < |sizes| ==> TIME_S * sizes[k] % rate == 0 {
        assert TIME_S * sizes[|sizes| - 1] % rate == 0;
        forall k | 0 <= k < |front| ensures TIME_S * front[k] % rate == 0 {
          assert TIME_S * sizes[k] % rate == 0;
        }
      }
      if rate * ExactClock(rate, sizes) == TIME_S * Total(sizes) {
        forall k | 0 <= k < |sizes| ensures TIME_S * sizes[k] % rate == 0 {
          if k < |front| {
            assert TIME_S * front[k] % rate == 0;
          }
        }
      }
    }
  }

  lemma {:induction false} ExactClockMonotone(rate: nat, sizes: seq<nat>, k: nat)
    requires 0 < rate && k <= |sizes|
    ensures ExactClock(rate, sizes[..k]) <= ExactClock(rate, sizes)
  {
    if k < |sizes| {
      var front := sizes[..|sizes| - 1];
      ExactClockMonotone(rate, front, k);
      assert front[..k] == sizes[..k];
    } else {
      assert sizes[..k] == sizes;
    }
  }

  lemma ClockFits(rate: nat, sizes: seq<nat>)
    requires 0 < rate && ExactClock(rate, sizes) < TWO64
    ensures Clock(rate, sizes) == ExactClock(rate, sizes)
  {
    ClockIsExactModulo(rate, sizes);
  }

  /** Timestamps never decrease while the sum fits in 64 bits. */
  lemma TimestampsNeverDecrease(rate: nat, sizes: seq<nat>, i: nat, j: nat)
    requires 0 < rate && i <= j <= |sizes| && ExactClock(rate, sizes) < TWO64
    ensures Clock(rate, sizes[..i]) <= Clock(rate, sizes[..j])
    ensures Clock(rate, sizes[..j]) == ExactClock(rate, sizes[..j])
  {
    ExactClockMonotone(rate, sizes, i);
    ExactClockMonotone(rate, sizes, j);
    ExactClockMonotone(rate, sizes[..j], i);
    assert sizes[..j][..i] == sizes[..i];
    ClockFits(rate, sizes[..i]);
    ClockFits(rate, sizes[..j]);
  }
}
