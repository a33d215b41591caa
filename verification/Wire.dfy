/** What travels between daemon and client: sample blocks, the data set a client is sent, and
    the bytes around it. */
module Wire {

  newtype byte = x: int | 0 <= x < 256

  const TWO31: int := 0x8000_0000
  const TWO32: int := 0x1_0000_0000
  const TWO64: int := 0x1_0000_0000_0000_0000

  /** A C string literal with its terminating NUL, as `sizeof` counts it. */
  function CString(s: string): (bytes: seq<byte>)
    ensures |bytes| == |s| + 1
  {
    seq(|s|, i requires 0 <= i < |s| => (s[i] as int % 256) as byte) + [0]
  }

  const MAGIC_DATA_SET: seq<byte> := CString("THE MATRIX HAS YOU!!")
  const WELCOME_MSG: seq<byte> := CString("WELCOME HOME NEO")

  /** The text as ASCII, and the NUL. */
  lemma MagicBytes()
    ensures MAGIC_DATA_SET == [84, 72, 69, 32, 77, 65, 84, 82, 73, 88, 32, 72, 65, 83, 32, 89, 79, 85, 33, 33, 0]
    ensures WELCOME_MSG == [87, 69, 76, 67, 79, 77, 69, 32, 72, 79, 77, 69, 32, 78, 69, 79, 0]
  {
    assert MAGIC_DATA_SET ==
      [84, 72, 69, 32, 77, 65, 84, 82, 73, 88, 32, 72, 65, 83, 32, 89, 79, 85, 33, 33, 0];
    assert WELCOME_MSG == [87, 69, 76, 67, 79, 77, 69, 32, 72, 79, 77, 69, 32, 78, 69, 79, 0];
  }

  /** Four bytes, most significant first: network byte order. */
  function Htonl(n: nat): (bytes: seq<byte>)
    requires n < TWO32
    ensures |bytes| == 4
  {
    [(n / 0x100_0000) as byte, (n / 0x1_0000 % 256) as byte, (n / 256 % 256) as byte, (n % 256) as byte]
  }

  function Ntohl(bytes: seq<byte>): (n: nat)
    requires |bytes| == 4
    ensures n < TWO32
  {
    bytes[0] as int * 0x100_0000 + bytes[1] as int * 0x1_0000 + bytes[2] as int * 256 + bytes[3] as int
  }

  lemma NetworkOrderRoundTrip(n: nat)
    requires n < TWO32
    ensures Ntohl(Htonl(n)) == n
  {
    assert n == n / 256 * 256 + n % 256;
    assert n / 256 == n / 256 / 256 * 256 + n / 256 % 256;
    assert n / 0x1_0000 == n / 0x1_0000 / 256 * 256 + n / 0x1_0000 % 256;
    assert n / 256 / 256 == n / 0x1_0000;
    assert n / 0x1_0000 / 256 == n / 0x100_0000;
  }

  /** The other way round. */
  lemma BytesRoundTrip(bytes: seq<byte>)
    requires |bytes| == 4
    ensures Htonl(Ntohl(bytes)) == bytes
  {
    var n, a, b, c, d := Ntohl(bytes), bytes[0] as int, bytes[1] as int, bytes[2] as int, bytes[3] as int;
    LastByte((a * 256 + b) * 256 + c, d);
    LastByte(a * 256 + b, c);
    LastByte(a, b);
    assert n == ((a * 256 + b) * 256 + c) * 256 + d;
    ShiftTwice(n);
  }

  lemma LastByte(front: nat, last: nat)
    requires last < 256
    ensures (front * 256 + last) / 256 == front && (front * 256 + last) % 256 == last
  {
  }

  lemma ShiftTwice(n: nat)
    ensures n / 0x1_0000 == n / 256 / 256 && n / 0x100_0000 == n / 256 / 256 / 256
  {
  }

  /** The first byte in which they differ decides. */
  predicate Precedes(a: seq<byte>, b: seq<byte>)
    requires |a| == |b|
  {
    a != [] && (a[0] < b[0] || (a[0] == b[0] && Precedes(a[1..], b[1..])))
  }

  /** Most significant byte first: numbers are ordered as their bytes are. */
  lemma {:induction false} NetworkOrderSorts(a: seq<byte>, b: seq<byte>)
    requires |a| == |b| == 4
    ensures Ntohl(a) < Ntohl(b) <==> Precedes(a, b)
  {
    assert Precedes(a[3..], b[3..]) <==> a[3] < b[3];
    assert a[2..][1..] == a[3..] && b[2..][1..] == b[3..];
    assert Precedes(a[2..], b[2..]) <==> a[2] < b[2] || (a[2] == b[2] && a[3] < b[3]);
    assert a[1..][1..] == a[2..] && b[1..][1..] == b[2..];
    assert Precedes(a[1..], b[1..]) <==> a[1] < b[1] || (a[1] == b[1] && Precedes(a[2..], b[2..]));
  }

  /** Conversion of an integer to a C `int` of 32 bits, two's complement. */
  function Int32(x: int): (r: int)
    ensures -TWO31 <= r < TWO31
    ensures -TWO31 <= x < TWO31 ==> r == x
  {
    (x + TWO31) % TWO32 - TWO31
  }

  // ---------------------------------------------------------------- blocks and data sets

  /** The bit pattern of a `double`, which nothing here looks into. */
  newtype Sample = x: int | 0 <= x < 0x1_0000_0000_0000_0000

  /** The wire format carries digital inputs as booleans; the daemon only ever stores zeros. */
  type Digital = bool

  /** One block of samples: `channels` runs of `points` samples, channel after channel. */
  datatype Block = Block(timestamp: nat, points: nat, channels: nat, analog: seq<Sample>, digital: seq<Digital>)

  datatype DataPoints = DataPoints(analog: seq<Sample>, digital: seq<Digital>)
  datatype DataSet = DataSet(timestamp: nat, channelData: seq<DataPoints>)

  predicate WellFormed(b: Block) {
    |b.analog| == |b.digital| == b.channels * b.points
  }

  /** A channel list the handshake of the daemon accepts for blocks of this many channels. */
  predicate ChannelsWithin(ids: seq<nat>, channels: nat) {
    forall j :: 0 <= j < |ids| ==> ids[j] < channels
  }

  lemma RunWithin(id: nat, channels: nat, points: nat)
    requires id < channels
    ensures 0 <= id * points <= id * points + points <= channels * points
  {
    assert (id + 1) * points == id * points + points;
    MulMonotone(id + 1, channels, points);
  }

  lemma MulMonotone(a: nat, b: nat, k: nat)
    requires a <= b
    ensures a * k <= b * k
  {
    assert (b - a) * k >= 0;
    assert b * k == a * k + (b - a) * k;
  }

  /** The samples of one channel of a block. */
  function ChannelRun(b: Block, id: nat): (d: DataPoints)
    requires WellFormed(b) && id < b.channels
    ensures |d.analog| == |d.digital| == b.points
  {
    RunWithin(id, b.channels, b.points);
    DataPoints(b.analog[id * b.points..id * b.points + b.points], b.digital[id * b.points..id * b.points + b.points])
  }

  /** The data set a client that chose `ids` is sent for a block. */
  function Project(b: Block, ids: seq<nat>): (d: DataSet)
    requires WellFormed(b) && ChannelsWithin(ids, b.channels)
    ensures |d.channelData| == |ids| && d.timestamp == b.timestamp
  {
    DataSet(b.timestamp, seq(|ids|, j requires 0 <= j < |ids| => ChannelRun(b, ids[j])))
  }

  // ---------------------------------------------------------------- frames

  type Payload = p: seq<byte> | |p| < TWO32 witness []

  /** Magic, length, payload. */
  function Frame(p: Payload): (f: seq<byte>)
    ensures |f| == 25 + |p|
  {
    MAGIC_DATA_SET + Htonl(|p|) + p
  }

  /** The length of its frame still fits the `int` in which both sides add it up. */
  predicate CountFits(p: seq<byte>) {
    25 + |p| < TWO31
  }

  function Frames(ps: seq<Payload>): seq<byte> {
    if ps == [] then [] else Frame(ps[0]) + Frames(ps[1..])
  }

  /** What the daemon sends a client before its first frame. */
  function Greeting(rate: nat): (g: seq<byte>)
    requires rate < TWO32
    ensures |g| == 21
  {
    WELCOME_MSG + Htonl(rate)
  }

  /** Where the parts of a frame stand. */
  lemma FrameLayout(p: Payload)
    ensures
      var f := Frame(p);
      && f[..21] == MAGIC_DATA_SET && Ntohl(f[21..25]) == |p|
      && forall i :: 0 <= i < |p| ==> f[25 + i] == p[i]
  {
    NetworkOrderRoundTrip(|p|);
    assert Frame(p)[..21] == MAGIC_DATA_SET && Frame(p)[21..25] == Htonl(|p|);
  }

  lemma GreetingLayout(rate: nat)
    requires rate < TWO32
    ensures Greeting(rate)[..17] == WELCOME_MSG && Ntohl(Greeting(rate)[17..]) == rate
  {
    NetworkOrderRoundTrip(rate);
    assert Greeting(rate)[..17] == WELCOME_MSG && Greeting(rate)[17..] == Htonl(rate);
  }

  lemma {:induction false} FramesAppend(ps: seq<Payload>, p: Payload)
    ensures Frames(ps + [p]) == Frames(ps) + Frame(p)
  {
    if ps == [] {
      assert ps + [p] == [p] && [p][1..] == [];
      assert Frames([p]) == Frame(p) + [];
      assert Frame(p) + [] == Frame(p) == [] + Frame(p);
    } else {
      var all := ps + [p];
      assert all[0] == ps[0] && all[1..] == ps[1..] + [p];
      FramesAppend(ps[1..], p);
      FrontFrame(Frame(ps[0]), Frames(ps[1..]), Frame(p));
    }
  }

  lemma FrontFrame(a: seq<byte>, b: seq<byte>, c: seq<byte>)
    ensures a + (b + c) == a + b + c
  {
  }
}
