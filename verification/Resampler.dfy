/** client/realtime.py: averages of a sampled signal over consecutive intervals of equal length.
    Between two samples the signal has the value of the later one. */
module Resampler {

  /** One line of input: a time and one value per channel. */
  datatype Sample = Sample(time: real, values: seq<real>)

  datatype Option<T> = None | Some(value: T)

  /** weightvalues */
  function Weighted(values: seq<real>, weight: real): (r: seq<real>)
    ensures |r| == |values|
  {
    seq(|values|, i requires 0 <= i < |values| => values[i] * weight)
  }

  function Shorter(a: int, b: int): int {
    if a < b then a else b
  }

  /** map(sum, zip(a, b)): as long as the shorter of the two. */
  function Sums(a: seq<real>, b: seq<real>): (r: seq<real>)
    ensures |r| == Shorter(|a|, |b|)
  {
    seq(Shorter(|a|, |b|), i requires 0 <= i < Shorter(|a|, |b|) => a[i] + b[i])
  }

  function Zeros(n: nat): (r: seq<real>)
    ensures |r| == n
  {
    seq(n, _ => 0.0)
  }

  function Scaled(a: seq<real>, size: real): (r: seq<real>)
    requires size != 0.0
    ensures |r| == |a|
  {
    seq(|a|, i requires 0 <= i < |a| => a[i] / size)
  }

  /** The sample not used up yet, and the lines not read yet. */
  datatype Input = Input(next: Sample, rest: seq<Sample>)

  /** The area under the signal from `last` to `end`, added to `sums`, and the input left; nothing
      when the input ends before. */
  function Area(sums: seq<real>, last: real, end: real, input: Input): Option<(seq<real>, Input)>
    decreases |input.rest|
  {
    if input.next.time < end then
      if input.rest == [] then None
      else Area(Sums(sums, Weighted(input.next.values, input.next.time - last)), input.next.time, end,
                Input(input.rest[0], input.rest[1..]))
    else Some((Sums(sums, Weighted(input.next.values, end - last)), input))
  }

  /** The globals of the script and its main loop's function. */
  class Averager {
    const numChannels: nat
    var intervalStart: real
    var lastTime: real
    var lastValues: seq<real>
    var next: Sample
    var rest: seq<Sample>

    /** The first two lines, and all that follow. */
    constructor (first: Sample, second: Sample, rest: seq<Sample>)
      ensures numChannels == |first.values| && intervalStart == first.time
      ensures next == second && this.rest == rest
    {
      numChannels := |first.values|;
      intervalStart, lastTime, lastValues := first.time, first.time, first.values;
      next, this.rest := second, rest;
    }

    /** average_interval.  `None` stands for the exception when the input ends, which it does iff no
        line reaches the end of the interval.  There are averages for as many channels as every line
        read has values for: all, when no line is too short. */
    method AverageInterval(size: real) returns (r: Option<seq<real>>)
      requires size != 0.0
      modifies this
      ensures r != None <==> Reaches(old(intervalStart) + size, Input(old(next), old(rest)))
      ensures
        var read := Contributing(old(intervalStart) + size, Input(old(next), old(rest)));
        r != None ==> |r.value| == Width(numChannels, read) && (EachHas(read, numChannels) ==> |r.value| == numChannels)
      ensures
        match Area(Zeros(numChannels), old(intervalStart), old(intervalStart) + size, Input(old(next), old(rest)))
        case None => r == None && intervalStart == old(intervalStart) && rest == []
        case Some((area, input)) =>
          && r == Some(Scaled(area, size))
          && intervalStart == old(intervalStart) + size
          && Input(next, rest) == input
    {
      var channelSums := Zeros(numChannels);
      lastTime := intervalStart;
      ghost var all := Area(channelSums, lastTime, intervalStart + size, Input(next, rest));
      AreaOrNone(numChannels, intervalStart, intervalStart + size, Input(next, rest));
      while next.time < intervalStart + size
        invariant intervalStart == old(intervalStart)
        invariant all == Area(channelSums, lastTime, intervalStart + size, Input(next, rest))
        decreases |rest|
      {
        var intervalWeight := next.time - lastTime;
        channelSums := Sums(channelSums, Weighted(next.values, intervalWeight));
        lastTime, lastValues := next.time, next.values;
        if rest == [] {
          return None;
        }
        next, rest := rest[0], rest[1..];
      }
      intervalStart := intervalStart + size;
      var intervalWeight := intervalStart - lastTime;
      channelSums := Sums(channelSums, Weighted(next.values, intervalWeight));
      r := Some(Scaled(channelSums, size));
    }

    /** Consecutive calls, as the main loop makes them, each result multiplied by the size. */
    method SumOfIntervals(size: real, n: nat) returns (r: Option<seq<real>>)
      requires 0.0 < size && 0 < n
      modifies this
      ensures
        var end := old(intervalStart) + size * n as real;
        match Area(Zeros(numChannels), old(intervalStart), end, Input(old(next), old(rest)))
        case None => r == None
        case Some((area, input)) =>
          && r == Some(area) && Input(next, rest) == input
          && intervalStart == end && |area| == Width(numChannels, Contributing(end, Input(old(next), old(rest))))
    {
      AreaOrNone(numChannels, intervalStart, intervalStart + size * n as real, Input(next, rest));
      EndIs(intervalStart, size, n);
      SplitKeepsArea(numChannels, intervalStart, size, n, Input(next, rest));
      ghost var all := Areas(numChannels, intervalStart, size, n, Input(next, rest));
      var sums := Zeros(numChannels);
      PlusZeros(numChannels, intervalStart, size, n, Input(next, rest));
      for k := 0 to n
        invariant |sums| <= numChannels
        invariant End(intervalStart, size, n - k) == old(intervalStart) + size * n as real
        invariant all == Plus(sums, Areas(numChannels, intervalStart, size, n - k, Input(next, rest)))
      {
        ghost var before := Area(Zeros(numChannels), intervalStart, intervalStart + size, Input(next, rest));
        ghost var start := intervalStart;
        var average := AverageInterval(size);
        if average == None {
          return None;
        }
        ghost var later := Areas(numChannels, start + size, size, n - k - 1, before.value.1);
        PlusPlus(sums, Weighted(average.value, size), later);
        sums := Sums(sums, Weighted(average.value, size));
      }
      AddZeros(sums, numChannels);
      r := Some(sums);
    }
  }

  // ---------------------------------------------------------------- splitting an interval

  lemma SumsAssociative(a: seq<real>, b: seq<real>, c: seq<real>)
    ensures Sums(a, Sums(b, c)) == Sums(Sums(a, b), c)
  {
    var left, right := Sums(a, Sums(b, c)), Sums(Sums(a, b), c);
    assert |left| == |right|;
    forall i | 0 <= i < |left| ensures left[i] == right[i] {
      assert left[i] == a[i] + (b[i] + c[i]);
      assert right[i] == (a[i] + b[i]) + c[i];
    }
  }

  lemma WeightsAdd(sums: seq<real>, values: seq<real>, v: real, w: real)
    ensures Sums(Sums(sums, Weighted(values, v)), Weighted(values, w)) == Sums(sums, Weighted(values, v + w))
  {
    var left, right := Sums(Sums(sums, Weighted(values, v)), Weighted(values, w)), Sums(sums, Weighted(values, v + w));
    assert |left| == |right|;
    forall i | 0 <= i < |left| ensures left[i] == right[i] {
      assert values[i] * v + values[i] * w == values[i] * (v + w);
    }
  }

  lemma AddZeros(a: seq<real>, n: nat)
    requires |a| <= n
    ensures Sums(a, Zeros(n)) == a == Sums(Zeros(n), a)
  {
  }

  /** These sums added to an area, if there is one. */
  function Plus(sums: seq<real>, area: Option<(seq<real>, Input)>): Option<(seq<real>, Input)> {
    match area
    case None => None
    case Some((a, left)) => Some((Sums(sums, a), left))
  }

  lemma PlusPlus(a: seq<real>, b: seq<real>, area: Option<(seq<real>, Input)>)
    ensures Plus(a, Plus(b, area)) == Plus(Sums(a, b), area)
  {
    if area.Some? {
      SumsAssociative(a, b, area.value.0);
    }
  }

  /** Starting from other sums shifts the result. */
  lemma {:induction false} AreaShift(a: seq<real>, b: seq<real>, last: real, end: real, input: Input)
    ensures Area(Sums(a, b), last, end, input) == Plus(a, Area(b, last, end, input))
    decreases |input.rest|
  {
    if input.next.time < end {
      if input.rest != [] {
        var weighted := Weighted(input.next.values, input.next.time - last);
        SumsAssociative(a, b, weighted);
        AreaShift(a, Sums(b, weighted), input.next.time, end, Input(input.rest[0], input.rest[1..]));
      }
    } else {
      SumsAssociative(a, b, Weighted(input.next.values, end - last));
    }
  }

  /** A line with fewer values than channels cuts the sums; none makes them longer. */
  lemma {:induction false} AreaNotLonger(sums: seq<real>, last: real, end: real, input: Input)
    ensures
      var r := Area(sums, last, end, input);
      r.Some? ==> |r.value.0| <= |sums| && |r.value.0| <= |input.next.values| && r.value.1.next.time >= end
    decreases |input.rest|
  {
    if input.next.time < end && input.rest != [] {
      AreaNotLonger(Sums(sums, Weighted(input.next.values, input.next.time - last)), input.next.time, end,
                    Input(input.rest[0], input.rest[1..]));
    }
  }

  /** Some line is at `end` or later. */
  predicate Reaches(end: real, input: Input) {
    input.next.time >= end || exists i :: 0 <= i < |input.rest| && input.rest[i].time >= end
  }

  /** There is an area iff the input reaches its end. */
  lemma {:induction false} AreaReaches(sums: seq<real>, last: real, end: real, input: Input)
    ensures Area(sums, last, end, input) != None <==> Reaches(end, input)
    decreases |input.rest|
  {
    if input.next.time < end && input.rest != [] {
      var tail := Input(input.rest[0], input.rest[1..]);
      AreaReaches(Sums(sums, Weighted(input.next.values, input.next.time - last)), input.next.time, end, tail);
      assert forall i :: 0 <= i < |tail.rest| ==> tail.rest[i] == input.rest[i + 1];
    }
  }

  /** The samples that contribute to the area up to `end`. */
  function Contributing(end: real, input: Input): seq<Sample>
    decreases |input.rest|
  {
    if input.next.time < end && input.rest != []
    then [input.next] + Contributing(end, Input(input.rest[0], input.rest[1..]))
    else [input.next]
  }

  /** Each of these samples has at least n values. */
  predicate EachHas(samples: seq<Sample>, n: nat) {
    forall i :: 0 <= i < |samples| ==> n <= |samples[i].values|
  }

  /** The smallest of n and the numbers of values in these samples. */
  function Width(n: nat, samples: seq<Sample>): nat {
    if samples == [] then n else Width(Shorter(n, |samples[0].values|), samples[1..])
  }

  lemma {:induction false} WidthAtLeast(n: nat, samples: seq<Sample>, m: nat)
    ensures m <= Width(n, samples) <==> m <= n && EachHas(samples, m)
    decreases |samples|
  {
    if samples != [] {
      WidthAtLeast(Shorter(n, |samples[0].values|), samples[1..], m);
      EachHasFirst(samples, m);
    }
  }

  lemma EachHasFirst(samples: seq<Sample>, m: nat)
    requires samples != []
    ensures EachHas(samples, m) <==> m <= |samples[0].values| && EachHas(samples[1..], m)
  {
    assert forall i :: 0 <= i < |samples| - 1 ==> samples[1..][i] == samples[i + 1];
    if m <= |samples[0].values| && EachHas(samples[1..], m) {
      forall i | 0 <= i < |samples| ensures m <= |samples[i].values| {
        if i > 0 {
          assert samples[i] == samples[1..][i - 1];
        }
      }
    }
  }

  /** An area has exactly as many channels as the sums and all contributing samples have. */
  lemma {:induction false} AreaWidth(sums: seq<real>, last: real, end: real, input: Input)
    requires Area(sums, last, end, input).Some?
    ensures |Area(sums, last, end, input).value.0| == Width(|sums|, Contributing(end, input))
    decreases |input.rest|
  {
    if input.next.time < end {
      var tail := Input(input.rest[0], input.rest[1..]);
      AreaWidth(Sums(sums, Weighted(input.next.values, input.next.time - last)), input.next.time, end, tail);
      assert ([input.next] + Contributing(end, tail))[1..] == Contributing(end, tail);
    }
  }

  lemma AreaOrNone(channels: nat, start: real, end: real, input: Input)
    ensures
      match Area(Zeros(channels), start, end, input)
      case None => !Reaches(end, input)
      case Some((area, left)) =>
        && Reaches(end, input) && |area| == Width(channels, Contributing(end, input))
        && (EachHas(Contributing(end, input), channels) ==> |area| == channels)
  {
    AreaReaches(Zeros(channels), start, end, input);
    if Reaches(end, input) {
      AreaNotLonger(Zeros(channels), start, end, input);
      AreaWidth(Zeros(channels), start, end, input);
      WidthAtLeast(channels, Contributing(end, input), channels);
    }
  }

  /** The area up to a later end is the area up to `middle` and, from there with the input left,
      on to the end; and both fail for want of input together.  The times need not be ordered. */
  lemma {:induction false} AreaSplits(sums: seq<real>, last: real, middle: real, end: real, input: Input)
    requires middle <= end
    ensures
      Area(sums, last, end, input) ==
        match Area(sums, last, middle, input)
        case None => None
        case Some((area, left)) => Area(area, middle, end, left)
    decreases |input.rest|
  {
    if input.next.time < middle {
      if input.rest != [] {
        AreaSplits(Sums(sums, Weighted(input.next.values, input.next.time - last)), input.next.time, middle, end,
                   Input(input.rest[0], input.rest[1..]));
      }
    } else {
      WeightsAdd(sums, input.next.values, middle - last, input.next.time - middle);
      WeightsAdd(sums, input.next.values, middle - last, end - middle);
    }
  }

  lemma ScaledBack(a: seq<real>, d: real)
    requires d != 0.0
    ensures Weighted(Scaled(a, d), d) == a
  {
    var back := Weighted(Scaled(a, d), d);
    forall i | 0 <= i < |a| ensures back[i] == a[i] {
      assert back[i] == a[i] / d * d;
    }
  }

  /** The averages of n consecutive intervals of size d, each multiplied by d, added up; and the
      input left. */
  function Areas(channels: nat, start: real, d: real, n: nat, input: Input): Option<(seq<real>, Input)>
    requires d != 0.0
    decreases n
  {
    if n == 0 then Some((Zeros(channels), input))
    else
      match Area(Zeros(channels), start, start + d, input)
      case None => None
      case Some((area, left)) => Plus(Weighted(Scaled(area, d), d), Areas(channels, start + d, d, n - 1, left))
  }

  lemma {:induction false} PlusZeros(channels: nat, start: real, d: real, n: nat, input: Input)
    requires d != 0.0
    ensures
      var areas := Areas(channels, start, d, n, input);
      Plus(Zeros(channels), areas) == areas && (areas.Some? ==> |areas.value.0| <= channels)
    decreases n
  {
    if n > 0 {
      AreaNotLonger(Zeros(channels), start, start + d, input);
      var first := Area(Zeros(channels), start, start + d, input);
      if first.Some? {
        PlusZeros(channels, start + d, d, n - 1, first.value.1);
      }
    }
    var areas := Areas(channels, start, d, n, input);
    if areas.Some? {
      AddZeros(areas.value.0, channels);
    }
  }

  lemma AreaFrom(area: seq<real>, channels: nat, start: real, end: real, input: Input)
    requires |area| <= channels
    ensures Area(area, start, end, input) == Plus(area, Area(Zeros(channels), start, end, input))
  {
    AreaShift(area, Zeros(channels), start, end, input);
    AddZeros(area, channels);
  }

  /** Where n intervals of size d end. */
  function End(start: real, d: real, n: nat): real
    decreases n
  {
    if n == 0 then start else End(start + d, d, n - 1)
  }

  lemma {:induction false} EndIs(start: real, d: real, n: nat)
    ensures End(start, d, n) == start + d * n as real
    decreases n
  {
    if n > 0 {
      EndIs(start + d, d, n - 1);
      assert d * n as real == d * (n - 1) as real + d;
    }
  }

  lemma {:induction false} EndIsLater(start: real, d: real, n: nat)
    requires 0.0 < d
    ensures start <= End(start, d, n)
    decreases n
  {
    if n > 0 {
      EndIsLater(start + d, d, n - 1);
    }
  }

  /** Splitting an interval does not change the area: n intervals of size d cover the same area,
      channel by channel, and leave the same input, as one of size n * d from the same start; and
      if one of them runs out of input, so do the others. */
  lemma SplitKeepsArea(channels: nat, start: real, d: real, n: nat, input: Input)
    requires 0.0 < d && 0 < n
    ensures Areas(channels, start, d, n, input) == Area(Zeros(channels), start, start + d * n as real, input)
  {
    EndIs(start, d, n);
    SplitUpToEnd(channels, start, d, n, input);
  }

  lemma {:induction false} SplitUpToEnd(channels: nat, start: real, d: real, n: nat, input: Input)
    requires 0.0 < d && 0 < n
    ensures Areas(channels, start, d, n, input) == Area(Zeros(channels), start, End(start, d, n), input)
    decreases n
  {
    if n == 1 {
      OneInterval(channels, start, d, input);
      assert End(start + d, d, 0) == start + d;
    } else {
      EndIsLater(start + d, d, n - 1);
      SplitStep(channels, start, start + d, End(start, d, n), input);
      AreasStep(channels, start, d, n, input);
      var first := Area(Zeros(channels), start, start + d, input);
      if first.Some? {
        SplitUpToEnd(channels, start + d, d, n - 1, first.value.1);
      }
    }
  }

  lemma OneInterval(channels: nat, start: real, d: real, input: Input)
    requires 0.0 < d
    ensures Areas(channels, start, d, 1, input) == Area(Zeros(channels), start, start + d, input)
  {
    AreasStep(channels, start, d, 1, input);
    AreaNotLonger(Zeros(channels), start, start + d, input);
    var first := Area(Zeros(channels), start, start + d, input);
    if first.Some? {
      AddZeros(first.value.0, channels);
      assert Areas(channels, start + d, d, 0, first.value.1) == Some((Zeros(channels), first.value.1));
    }
  }

  /** Dividing by the size and multiplying by it again is undone. */
  lemma AreasStep(channels: nat, start: real, d: real, n: nat, input: Input)
    requires d != 0.0 && 0 < n
    ensures
      Areas(channels, start, d, n, input) ==
        match Area(Zeros(channels), start, start + d, input)
        case None => None
        case Some((area, left)) => Plus(area, Areas(channels, start + d, d, n - 1, left))
  {
    var first := Area(Zeros(channels), start, start + d, input);
    if first.Some? {
      ScaledBack(first.value.0, d);
    }
  }

  /** One interval off the front of a long one. */
  lemma {:induction false} SplitStep(channels: nat, start: real, middle: real, end: real, input: Input)
    requires middle <= end
    ensures
      Area(Zeros(channels), start, end, input) ==
        match Area(Zeros(channels), start, middle, input)
        case None => None
        case Some((area, left)) => Plus(area, Area(Zeros(channels), middle, end, left))
  {
    AreaSplits(Zeros(channels), start, middle, end, input);
    AreaNotLonger(Zeros(channels), start, middle, input);
    var first := Area(Zeros(channels), start, middle, input);
    if first.Some? {
      AreaFrom(first.value.0, channels, middle, end, first.value.1);
    }
  }

  // ---------------------------------------------------------------- averages stay in range

  /** The times read for the area up to `end` do not go back, beginning with `last`. */
  predicate Ordered(last: real, end: real, input: Input)
    decreases |input.rest|
  {
    && last <= input.next.time
    && (input.next.time < end && input.rest != [] ==>
          Ordered(input.next.time, end, Input(input.rest[0], input.rest[1..])))
  }

  predicate InRange(samples: seq<Sample>, ch: nat, lo: real, hi: real) {
    forall i :: 0 <= i < |samples| && ch < |samples[i].values| ==> lo <= samples[i].values[ch] <= hi
  }

  lemma Between(value: real, lo: real, hi: real, w: real)
    requires lo <= value <= hi && 0.0 <= w
    ensures lo * w <= value * w <= hi * w
  {
  }

  lemma TailInRange(end: real, input: Input, ch: nat, lo: real, hi: real)
    requires InRange(Contributing(end, input), ch, lo, hi)
    ensures ch < |input.next.values| ==> lo <= input.next.values[ch] <= hi
    ensures
      input.next.time < end && input.rest != [] ==>
        InRange(Contributing(end, Input(input.rest[0], input.rest[1..])), ch, lo, hi)
  {
    var all := Contributing(end, input);
    assert all[0] == input.next;
    if input.next.time < end && input.rest != [] {
      assert all[1..] == Contributing(end, Input(input.rest[0], input.rest[1..]));
    }
  }

  lemma SumAt(sums: seq<real>, values: seq<real>, w: real, ch: nat)
    requires ch < |sums| && ch < |values|
    ensures Sums(sums, Weighted(values, w))[ch] == sums[ch] + values[ch] * w
  {
  }

  /** Channel ch of an area lies within what two constant signals would add. */
  predicate Bounded(sums: seq<real>, area: seq<real>, ch: nat, length: real, lo: real, hi: real) {
    ch < |area| <= |sums| && sums[ch] + lo * length <= area[ch] <= sums[ch] + hi * length
  }

  lemma {:induction false} AreaInRange(
    sums: seq<real>, last: real, end: real, input: Input, ch: nat, lo: real, hi: real)
    requires Ordered(last, end, input) && last <= end && InRange(Contributing(end, input), ch, lo, hi)
    requires Area(sums, last, end, input).Some? && ch < |Area(sums, last, end, input).value.0|
    ensures Bounded(sums, Area(sums, last, end, input).value.0, ch, end - last, lo, hi)
    decreases |input.rest|
  {
    TailInRange(end, input, ch, lo, hi);
    AreaNotLonger(sums, last, end, input);
    if input.next.time < end {
      var more := Sums(sums, Weighted(input.next.values, input.next.time - last));
      var tail := Input(input.rest[0], input.rest[1..]);
      AreaInRange(more, input.next.time, end, tail, ch, lo, hi);
      OneMoreSample(sums, Area(more, input.next.time, end, tail).value.0, input.next.values,
                    input.next.time - last, end - input.next.time, ch, lo, hi);
    } else {
      LastSample(sums, input.next.values, end - last, ch, lo, hi);
    }
  }

  lemma OneMoreSample(
    sums: seq<real>, area: seq<real>, values: seq<real>, w: real, rest: real, ch: nat, lo: real, hi: real)
    requires ch < |sums| && ch < |values| && lo <= values[ch] <= hi && 0.0 <= w
    requires Bounded(Sums(sums, Weighted(values, w)), area, ch, rest, lo, hi)
    ensures Bounded(sums, area, ch, w + rest, lo, hi)
  {
    SumAt(sums, values, w, ch);
    Between(values[ch], lo, hi, w);
    Distribute(lo, w, rest);
    Distribute(hi, w, rest);
  }

  lemma LastSample(sums: seq<real>, values: seq<real>, w: real, ch: nat, lo: real, hi: real)
    requires ch < |sums| && ch < |values| && lo <= values[ch] <= hi && 0.0 <= w
    ensures Bounded(sums, Sums(sums, Weighted(values, w)), ch, w, lo, hi)
  {
    SumAt(sums, values, w, ch);
    Between(values[ch], lo, hi, w);
  }

  lemma Distribute(k: real, v: real, w: real)
    ensures k * (v + w) == k * v + k * w
  {
  }

  lemma Quotient(area: real, lo: real, hi: real, d: real)
    requires 0.0 < d && lo * d <= area <= hi * d
    ensures lo <= area / d <= hi
  {
    var q := area / d;
    assert q * d == area;
    assert q < lo ==> (lo - q) * d > 0.0;
    assert hi < q ==> (q - hi) * d > 0.0;
  }

  /** With times that do not go back, each average lies between the smallest and the largest of
      the values that contribute to it; and there is one for every channel that all lines read
      have a value for. */
  lemma AverageInRange(channels: nat, start: real, d: real, input: Input, ch: nat, lo: real, hi: real)
    requires 0.0 < d && Ordered(start, start + d, input) && Reaches(start + d, input)
    requires ch < channels && EachHas(Contributing(start + d, input), ch + 1)
    requires InRange(Contributing(start + d, input), ch, lo, hi)
    ensures Area(Zeros(channels), start, start + d, input).Some?
    ensures
      var average := Scaled(Area(Zeros(channels), start, start + d, input).value.0, d);
      ch < |average| && lo <= average[ch] <= hi
  {
    AreaReaches(Zeros(channels), start, start + d, input);
    AreaWidth(Zeros(channels), start, start + d, input);
    WidthAtLeast(channels, Contributing(start + d, input), ch + 1);
    AreaInRange(Zeros(channels), start, start + d, input, ch, lo, hi);
    Quotient(Area(Zeros(channels), start, start + d, input).value.0[ch], lo, hi, d);
  }

  /** When no line read is too short, there are as many averages as channels. */
  lemma AverageForEveryChannel(channels: nat, start: real, d: real, input: Input)
    requires d != 0.0 && Reaches(start + d, input) && EachHas(Contributing(start + d, input), channels)
    ensures Area(Zeros(channels), start, start + d, input).Some?
    ensures |Scaled(Area(Zeros(channels), start, start + d, input).value.0, d)| == channels
  {
    AreaOrNone(channels, start, start + d, input);
  }
}
