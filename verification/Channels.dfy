/** Channel selection in the daemon and channel flattening in the client. */
module Channels {
  import opened Wire

  // ---------------------------------------------------------------- daemon

  /** The first half of write_dataset: one run of samples per chosen channel.  The offset is an
      `unsigned int`; it does not wrap, and no run leaves the arrays. */
  method EncodeDataSet(
    ids: seq<nat>, channels: nat, len: nat, timestamp: nat, analog: array<Sample>, digital: array<Digital>)
    returns (d: DataSet)
    requires ChannelsWithin(ids, channels)
    requires analog.Length == digital.Length == channels * len && channels * len < TWO32
    ensures d == Project(Block(timestamp, len, channels, analog[..], digital[..]), ids)
  {
    ghost var b := Block(timestamp, len, channels, analog[..], digital[..]);
    var points: seq<DataPoints> := [];
    for i := 0 to |ids|
      invariant |points| == i
      invariant forall j :: 0 <= j < i ==> points[j] == ChannelRun(b, ids[j])
    {
      RunWithin(ids[i], channels, len);
      var offset := ids[i] * len % TWO32;
      assert offset == ids[i] * len;
      var run := DataPoints(analog[offset..offset + len], digital[offset..offset + len]);
      assert run == ChannelRun(b, ids[i]);
      points := points + [run];
    }
    d := DataSet(timestamp, points);
    assert d.channelData == Project(b, ids).channelData;
  }

  // ---------------------------------------------------------------- client

  function FlatAnalog(ps: seq<DataPoints>): seq<Sample> {
    if ps == [] then [] else FlatAnalog(ps[..|ps| - 1]) + ps[|ps| - 1].analog
  }

  function FlatDigital(ps: seq<DataPoints>): seq<Digital> {
    if ps == [] then [] else FlatDigital(ps[..|ps| - 1]) + ps[|ps| - 1].digital
  }

  /** The data sets whose unpacking the assertions of pm_read let through: both kinds of samples
      in equal number, no two channels with samples of different length one after the other, and
      all of it within the buffer. */
  predicate Flattenable(ps: seq<DataPoints>, bufferSizes: nat) {
    && (forall j :: 0 <= j < |ps| ==> |ps[j].analog| == |ps[j].digital|)
    && (forall j :: 0 < j < |ps| ==> |ps[j - 1].analog| == 0 || |ps[j].analog| == |ps[j - 1].analog|)
    && |FlatAnalog(ps)| <= bufferSizes
  }

  /** The first m channels have no samples, and all others n of each kind. */
  predicate EmptyThenEqual(ps: seq<DataPoints>, m: nat, n: nat) {
    m <= |ps| && forall j :: 0 <= j < |ps| ==> |ps[j].analog| == |ps[j].digital| == if j < m then 0 else n
  }

  /** What the assertions let through: channels of one length, behind any number of empty ones. */
  lemma FlattenableIff(ps: seq<DataPoints>, bufferSizes: nat)
    ensures Flattenable(ps, bufferSizes) <==>
              |FlatAnalog(ps)| <= bufferSizes && exists m: nat, n: nat :: EmptyThenEqual(ps, m, n)
  {
    if Flattenable(ps, bufferSizes) {
      var m, n := EmptyFront(ps, bufferSizes, |ps|);
    }
  }

  lemma {:induction false} EmptyFront(ps: seq<DataPoints>, bufferSizes: nat, k: nat) returns (m: nat, n: nat)
    requires Flattenable(ps, bufferSizes) && k <= |ps|
    ensures EmptyThenEqual(ps[..k], m, n)
    ensures k == |ps| ==> EmptyThenEqual(ps, m, n)
    decreases k
  {
    assert ps[..|ps|] == ps;
    if k == 0 {
      m, n := 0, 0;
    } else {
      m, n := EmptyFront(ps, bufferSizes, k - 1);
      var length := |ps[k - 1].analog|;
      if m == k - 1 {
        // all empty so far
        m, n := if length == 0 then k else k - 1, length;
      } else {
        assert |ps[..k - 1][k - 2].analog| == n;
        if n == 0 {
          m, n := if length == 0 then k else k - 1, length;
        }
      }
      forall j | 0 <= j < k
        ensures |ps[..k][j].analog| == |ps[..k][j].digital| == if j < m then 0 else n
      {
        if j < k - 1 {
          assert ps[..k][j] == ps[..k - 1][j];
        }
      }
    }
  }

  lemma FlatNext(ps: seq<DataPoints>, k: nat)
    requires k < |ps|
    ensures FlatAnalog(ps[..k + 1]) == FlatAnalog(ps[..k]) + ps[k].analog
    ensures FlatDigital(ps[..k + 1]) == FlatDigital(ps[..k]) + ps[k].digital
  {
    assert ps[..k + 1][..k] == ps[..k];
  }

  /** `front` written over the beginning of a buffer. */
  function Over<T>(front: seq<T>, buffer: seq<T>): seq<T>
    requires |front| <= |buffer|
  {
    front + buffer[|front|..]
  }

  /** Unless the caller passed NULL, the buffer starts with `front` and is otherwise as before. */
  ghost predicate Filled<T(!new)>(buffer: array?<T>, front: seq<T>, original: seq<T>)
    reads buffer
  {
    buffer != null ==> |front| <= |original| == buffer.Length && buffer[..] == Over(front, original)
  }

  /** memcpy of one channel into one of the caller's buffers, behind what is there already. */
  method CopyRun<T(!new)>(buffer: array?<T>, ghost front: seq<T>, ghost original: seq<T>, offset: nat, run: seq<T>)
    requires Filled(buffer, front, original) && offset == |front|
    requires buffer != null ==> offset + |run| <= buffer.Length
    modifies buffer
    ensures Filled(buffer, front + run, original)
  {
    if buffer != null {
      forall i | 0 <= i < |run| {
        buffer[offset + i] := run[i];
      }
    }
  }

  /** The unpacking loop of pm_read.  It completes exactly on the data sets described above, and
      then the caller's buffers start with all channels one after the other and are otherwise
      untouched.  When an assertion of the loop fails, `ok` is false. */
  method Flatten(ps: seq<DataPoints>, bufferSizes: nat, analog: array?<Sample>, digital: array?<Digital>)
    returns (ok: bool, samplesRead: nat)
    requires analog != null ==> bufferSizes <= analog.Length
    requires digital != null ==> bufferSizes <= digital.Length
    modifies analog, digital
    ensures ok <==> Flattenable(ps, bufferSizes)
    ensures ok ==> |FlatAnalog(ps)| == |FlatDigital(ps)| <= bufferSizes
    ensures ok && analog != null ==> |FlatAnalog(ps)| <= analog.Length
    ensures ok && analog != null ==>
              forall i :: 0 <= i < analog.Length ==>
                analog[i] == if i < |FlatAnalog(ps)| then FlatAnalog(ps)[i] else old(analog[i])
    ensures ok && digital != null ==> |FlatDigital(ps)| <= digital.Length
    ensures ok && digital != null ==>
              forall i :: 0 <= i < digital.Length ==>
                digital[i] == if i < |FlatDigital(ps)| then FlatDigital(ps)[i] else old(digital[i])
    ensures ok ==> samplesRead == if ps == [] then 0 else |ps[|ps| - 1].analog|
  {
    ghost var analog0 := if analog == null then [] else analog[..];
    ghost var digital0 := if digital == null then [] else digital[..];
    ok, samplesRead := UnpackAll(ps, bufferSizes, analog, digital, analog0, digital0);
    if ok {
      FilledAt(analog, FlatAnalog(ps), analog0);
      FilledAt(digital, FlatDigital(ps), digital0);
    }
  }

  lemma FilledAt<T(!new)>(buffer: array?<T>, front: seq<T>, original: seq<T>)
    requires Filled(buffer, front, original)
    ensures buffer != null ==> |front| <= |original| == buffer.Length
    ensures buffer != null ==>
              forall i :: 0 <= i < buffer.Length ==> buffer[i] == if i < |front| then front[i] else original[i]
  {
    if buffer != null {
      forall i | 0 <= i < buffer.Length ensures buffer[i] == if i < |front| then front[i] else original[i] {
        assert buffer[i] == buffer[..][i];
      }
    }
  }

  /** The loop itself. */
  method UnpackAll(ps: seq<DataPoints>, bufferSizes: nat, analog: array?<Sample>, digital: array?<Digital>,
                   ghost analog0: seq<Sample>, ghost digital0: seq<Digital>)
    returns (ok: bool, samplesRead: nat)
    requires analog != null ==> bufferSizes <= analog.Length
    requires digital != null ==> bufferSizes <= digital.Length
    requires Filled(analog, [], analog0) && Filled(digital, [], digital0)
    modifies analog, digital
    ensures ok <==> Flattenable(ps, bufferSizes)
    ensures ok ==> Unpacked(ps, bufferSizes, |FlatAnalog(ps)|, samplesRead)
    ensures ok ==> Filled(analog, FlatAnalog(ps), analog0) && Filled(digital, FlatDigital(ps), digital0)
  {
    var offset: nat := 0;
    samplesRead := 0;
    for i := 0 to |ps|
      invariant Unpacked(ps[..i], bufferSizes, offset, samplesRead)
      invariant Filled(analog, FlatAnalog(ps[..i]), analog0) && Filled(digital, FlatDigital(ps[..i]), digital0)
    {
      ok, offset, samplesRead :=
        UnpackChannel(ps, i, bufferSizes, offset, samplesRead, analog, digital, analog0, digital0);
      if !ok {
        return false, samplesRead;
      }
    }
    assert ps[..|ps|] == ps;
    ok := true;
  }

  /** One round of that loop. */
  method UnpackChannel(ps: seq<DataPoints>, i: nat, bufferSizes: nat, offset: nat, samplesRead: nat,
                       analog: array?<Sample>, digital: array?<Digital>,
                       ghost analog0: seq<Sample>, ghost digital0: seq<Digital>)
    returns (ok: bool, newOffset: nat, nSamples: nat)
    requires i < |ps| && Unpacked(ps[..i], bufferSizes, offset, samplesRead)
    requires analog != null ==> bufferSizes <= analog.Length
    requires digital != null ==> bufferSizes <= digital.Length
    requires Filled(analog, FlatAnalog(ps[..i]), analog0) && Filled(digital, FlatDigital(ps[..i]), digital0)
    modifies analog, digital
    ensures !ok ==> !Flattenable(ps, bufferSizes)
    ensures ok ==> Unpacked(ps[..i + 1], bufferSizes, newOffset, nSamples)
    ensures ok ==> Filled(analog, FlatAnalog(ps[..i + 1]), analog0)
    ensures ok ==> Filled(digital, FlatDigital(ps[..i + 1]), digital0)
  {
    FlatNext(ps, i);
    UnpackedNext(ps, i, bufferSizes, offset, samplesRead);
    ok := CopyPoints(ps[i], bufferSizes, offset, analog, digital,
                     FlatAnalog(ps[..i]), FlatDigital(ps[..i]), analog0, digital0);
    nSamples := |ps[i].analog|;
    newOffset := offset + nSamples;
    ok := ok && (samplesRead == 0 || nSamples == samplesRead);
  }

  /** What the variables of the loop hold after these channels. */
  ghost predicate Unpacked(ps: seq<DataPoints>, bufferSizes: nat, offset: nat, samplesRead: nat) {
    && Flattenable(ps, bufferSizes)
    && offset == |FlatAnalog(ps)| == |FlatDigital(ps)|
    && samplesRead == if ps == [] then 0 else |ps[|ps| - 1].analog|
  }

  /** The assertions on the next channel fail exactly if the data set cannot be unpacked. */
  lemma UnpackedNext(ps: seq<DataPoints>, i: nat, bufferSizes: nat, offset: nat, samplesRead: nat)
    requires i < |ps| && Unpacked(ps[..i], bufferSizes, offset, samplesRead)
    ensures
      var n := |ps[i].analog|;
      if n == |ps[i].digital| && offset + n <= bufferSizes && (samplesRead == 0 || n == samplesRead)
      then Unpacked(ps[..i + 1], bufferSizes, offset + n, n)
      else !Flattenable(ps, bufferSizes)
  {
    FlatNext(ps, i);
    FlattenableNext(ps, i, bufferSizes);
    FlattenablePrefix(ps, i + 1, bufferSizes);
    assert ps[..i + 1][i] == ps[i] && (i > 0 ==> ps[..i][i - 1] == ps[i - 1]);
  }

  /** Its first half, down to the second memcpy. */
  method CopyPoints(points: DataPoints, bufferSizes: nat, offset: nat, analog: array?<Sample>, digital: array?<Digital>,
                    ghost flatAnalog: seq<Sample>, ghost flatDigital: seq<Digital>,
                    ghost analog0: seq<Sample>, ghost digital0: seq<Digital>)
    returns (fits: bool)
    requires analog != null ==> bufferSizes <= analog.Length
    requires digital != null ==> bufferSizes <= digital.Length
    requires offset == |flatAnalog| == |flatDigital|
    requires Filled(analog, flatAnalog, analog0) && Filled(digital, flatDigital, digital0)
    modifies analog, digital
    ensures fits <==> |points.analog| == |points.digital| && offset + |points.analog| <= bufferSizes
    ensures fits ==> Filled(analog, flatAnalog + points.analog, analog0)
    ensures fits ==> Filled(digital, flatDigital + points.digital, digital0)
  {
    fits := |points.analog| == |points.digital| && offset + |points.analog| <= bufferSizes;
    if fits {
      CopyRun(analog, flatAnalog, analog0, offset, points.analog);
      CopyRun(digital, flatDigital, digital0, offset, points.digital);
    }
  }

  lemma FlattenableNext(ps: seq<DataPoints>, i: nat, bufferSizes: nat)
    requires i < |ps|
    ensures Flattenable(ps[..i + 1], bufferSizes) ==> Flattenable(ps[..i], bufferSizes)
    ensures Flattenable(ps[..i], bufferSizes) ==>
              (Flattenable(ps[..i + 1], bufferSizes) <==>
                && |ps[i].analog| == |ps[i].digital|
                && (i == 0 || |ps[i - 1].analog| == 0 || |ps[i].analog| == |ps[i - 1].analog|)
                && |FlatAnalog(ps[..i])| + |ps[i].analog| <= bufferSizes)
  {
    FlatNext(ps, i);
    var shorter, longer := ps[..i], ps[..i + 1];
    assert forall j :: 0 <= j < i ==> shorter[j] == longer[j];
    assert longer[i] == ps[i] && (i > 0 ==> longer[i - 1] == ps[i - 1]);
  }

  lemma {:induction false} FlattenablePrefix(ps: seq<DataPoints>, k: nat, bufferSizes: nat)
    requires k <= |ps|
    ensures Flattenable(ps, bufferSizes) ==> Flattenable(ps[..k], bufferSizes)
    decreases |ps| - k
  {
    if k < |ps| {
      FlattenablePrefix(ps, k + 1, bufferSizes);
      FlattenableNext(ps, k, bufferSizes);
    } else {
      assert ps[..k] == ps;
    }
  }

  // ---------------------------------------------------------------- from end to end

  lemma OneMoreRun(k: nat, n: nat)
    ensures (k + 1) * n == k * n + n
  {
  }

  lemma {:induction false} FlatProjection(b: Block, ids: seq<nat>)
    requires WellFormed(b) && ChannelsWithin(ids, b.channels)
    ensures
      var ps := Project(b, ids).channelData;
      |FlatAnalog(ps)| == |FlatDigital(ps)| == |ids| * b.points
  {
    if ids != [] {
      var front := ids[..|ids| - 1];
      var ps := Project(b, ids).channelData;
      FlatProjection(b, front);
      assert ps[..|ps| - 1] == Project(b, front).channelData;
      OneMoreRun(|front|, b.points);
    }
  }

  /** At k + j * points of these flattened samples is sample k of the j-th of these channels of a
      block; both positions exist. */
  ghost predicate Carries(analog: seq<Sample>, digital: seq<Digital>, b: Block, ids: seq<nat>, j: nat, k: nat)
    requires j < |ids| && k < b.points
  {
    var there, here := k + j * b.points, ids[j] * b.points + k;
    && 0 <= there < |analog| == |digital| == |ids| * b.points
    && 0 <= here < |b.analog| == |b.digital|
    && analog[there] == b.analog[here] && digital[there] == b.digital[here]
  }

  /** Sample k of the j-th chosen channel is, in the client's buffer, sample k of that channel in
      the daemon's block: for every accepted channel list, with repetitions, and every size. */
  lemma {:induction false} ClientSampleIsDaemonSample(b: Block, ids: seq<nat>, j: nat, k: nat)
    requires WellFormed(b) && ChannelsWithin(ids, b.channels) && j < |ids| && k < b.points
    ensures
      var ps := Project(b, ids).channelData;
      Carries(FlatAnalog(ps), FlatDigital(ps), b, ids, j, k)
    decreases |ids|
  {
    if j < |ids| - 1 {
      ClientSampleIsDaemonSample(b, ids[..|ids| - 1], j, k);
      StaysInPlace(b, ids, j, k);
    } else {
      LastInPlace(b, ids, k);
    }
  }

  /** One more channel behind them leaves the samples of the others where they are. */
  lemma StaysInPlace(b: Block, ids: seq<nat>, j: nat, k: nat)
    requires WellFormed(b) && ChannelsWithin(ids, b.channels) && j < |ids| - 1 && k < b.points
    requires
      var front := Project(b, ids[..|ids| - 1]).channelData;
      Carries(FlatAnalog(front), FlatDigital(front), b, ids[..|ids| - 1], j, k)
    ensures
      var ps := Project(b, ids).channelData;
      Carries(FlatAnalog(ps), FlatDigital(ps), b, ids, j, k)
  {
    FlatAppend(b, ids);
    FlatProjection(b, ids);
  }

  lemma LastInPlace(b: Block, ids: seq<nat>, k: nat)
    requires WellFormed(b) && ChannelsWithin(ids, b.channels) && ids != [] && k < b.points
    ensures
      var ps := Project(b, ids).channelData;
      Carries(FlatAnalog(ps), FlatDigital(ps), b, ids, |ids| - 1, k)
  {
    FlatAppend(b, ids);
    FlatProjection(b, ids);
    FlatProjection(b, ids[..|ids| - 1]);
    RunAt(b, ids[|ids| - 1], k);
  }

  /** The last chosen channel comes behind all others. */
  lemma FlatAppend(b: Block, ids: seq<nat>)
    requires WellFormed(b) && ChannelsWithin(ids, b.channels) && ids != []
    ensures
      var ps, front := Project(b, ids).channelData, Project(b, ids[..|ids| - 1]).channelData;
      var run := ChannelRun(b, ids[|ids| - 1]);
      FlatAnalog(ps) == FlatAnalog(front) + run.analog && FlatDigital(ps) == FlatDigital(front) + run.digital
  {
    var ps := Project(b, ids).channelData;
    assert ps[..|ps| - 1] == Project(b, ids[..|ids| - 1]).channelData;
  }

  lemma RunAt(b: Block, id: nat, k: nat)
    requires WellFormed(b) && id < b.channels && k < b.points
    ensures 0 <= id * b.points + k < |b.analog| == |b.digital|
    ensures ChannelRun(b, id).analog[k] == b.analog[id * b.points + k]
    ensures ChannelRun(b, id).digital[k] == b.digital[id * b.points + k]
  {
    RunWithin(id, b.channels, b.points);
  }

  /** A client whose buffer holds `bufferSizes` samples takes the data set iff all chosen channels
      fit; the documentation calls this "crashes if buffers are not large enough". */
  lemma ProjectionFlattenableIff(b: Block, ids: seq<nat>, bufferSizes: nat)
    requires WellFormed(b) && ChannelsWithin(ids, b.channels)
    ensures Flattenable(Project(b, ids).channelData, bufferSizes) <==> |ids| * b.points <= bufferSizes
  {
    FlatProjection(b, ids);
    var ps := Project(b, ids).channelData;
    assert forall j :: 0 <= j < |ps| ==> |ps[j].analog| == |ps[j].digital| == b.points;
  }

  /** A client unpacks a data set of the daemon into buffers that are large enough: sample k of the
      j-th channel it chose stands at k + j * points, and behind all channels nothing has changed. */
  method UnpackProjection(b: Block, ids: seq<nat>, bufferSizes: nat, analog: array<Sample>, digital: array<Digital>)
    returns (samplesRead: nat)
    requires WellFormed(b) && ChannelsWithin(ids, b.channels) && |ids| * b.points <= bufferSizes
    requires bufferSizes <= analog.Length && bufferSizes <= digital.Length
    modifies analog, digital
    ensures samplesRead == if ids == [] then 0 else b.points
    ensures forall j: nat, k: nat :: j < |ids| && k < b.points ==> InBuffers(b, ids, analog, digital, j, k)
    ensures forall i :: |ids| * b.points <= i < analog.Length ==> analog[i] == old(analog[i])
    ensures forall i :: |ids| * b.points <= i < digital.Length ==> digital[i] == old(digital[i])
  {
    ghost var ps := Project(b, ids).channelData;
    ProjectionFlattenableIff(b, ids, bufferSizes);
    FlatProjection(b, ids);
    var ok;
    ok, samplesRead := Flatten(Project(b, ids).channelData, bufferSizes, analog, digital);
    forall j: nat, k: nat | j < |ids| && k < b.points ensures InBuffers(b, ids, analog, digital, j, k) {
      ClientSampleIsDaemonSample(b, ids, j, k);
    }
  }

  /** Where a client of the library looks for a sample, and where the daemon had it. */
  predicate InBuffers(b: Block, ids: seq<nat>, analog: array<Sample>, digital: array<Digital>, j: nat, k: nat)
    requires j < |ids| && k < b.points
    reads analog, digital
  {
    var there, here := k + j * b.points, ids[j] * b.points + k;
    && 0 <= there < analog.Length && there < digital.Length && 0 <= here < |b.analog| && here < |b.digital|
    && analog[there] == b.analog[here] && digital[there] == b.digital[here]
  }
}
