/** The stateless profile base class that lists streams, and the driver arithmetic that takes the list apart. */
module Streams {
  import opened Bytes

  datatype FrameSize = Size(bytes: int) | Mix(name: string)

  datatype Row = Row(size: int, pps: nat, isg: real)

  const STREAM_TABLE: map<string, seq<Row>> := map[
    "IMIX_v4" := [Row(60, 28, 0.0), Row(590, 20, 0.1), Row(1514, 4, 0.2)],
    "IMIX_v4_1" := [Row(64, 28, 0.0), Row(570, 16, 0.1), Row(1518, 4, 0.2)]
  ]

  const FCS := 4
  const DEFAULT_PPS := 9000
  const PHASE := 10.0

  /** The packet template and flow program of one direction. */
  datatype Template = Template(base: seq<Byte>, vm: nat)

  datatype Stream = Stream(template: Template, payload: string, isg: real, pps: nat, pgId: Option<nat>)
  {
    function FrameLength(): nat { |template.base| + |payload| }
  }

  predicate IsLetter(c: char) { 'a' <= c <= 'z' || 'A' <= c <= 'Z' }

  /** The 52 ASCII letters. */
  lemma LetterIff(c: char)
    ensures IsLetter(c) <==> 65 <= c as int <= 90 || 97 <= c as int <= 122
  {
  }

  /** `_gen_payload`; `pick` is the random choice made for each position. */
  method GenPayload(length: int, pick: nat -> char) returns (payload: string)
    requires forall i :: IsLetter(pick(i))
    ensures |payload| == Max(0, length)
    ensures forall i :: 0 <= i < |payload| ==> IsLetter(payload[i])
  {
    payload := "";
    var i := 0;
    while i < length
      invariant |payload| == i && i <= Max(0, length)
      invariant forall j :: 0 <= j < |payload| ==> IsLetter(payload[j])
    {
      payload := payload + [pick(i)];
      i := i + 1;
    }
  }

  /** A stream of a direction whose frame, checksum excluded, has the wanted length unless the headers are longer. */
  ghost predicate Sized(s: Stream, t: Template, length: int, isg: real, pps: nat, pgId: Option<nat>)
  {
    && s.template == t && s.isg == isg && s.pps == pps && s.pgId == pgId
    && s.FrameLength() == Max(|t.base|, length - FCS)
  }

  /** The streams of one direction of a mix: one per row, in row order. */
  ghost predicate RowStreams(streams: seq<Stream>, t: Template, rows: seq<Row>)
  {
    && |streams| == |rows|
    && forall i :: 0 <= i < |rows| ==> Sized(streams[i], t, rows[i].size, rows[i].isg, rows[i].pps, None)
  }

  /** A stream of direction 1 at a fixed size: as much payload as direction 0 needs. */
  ghost predicate SizedLikeFirst(s: Stream, a: Template, b: Template, length: int, pgId: Option<nat>)
  {
    && s.template == b && s.isg == PHASE && s.pps == DEFAULT_PPS && s.pgId == pgId
    && s.FrameLength() == |b.base| + Max(0, length - FCS - |a.base|)
  }

  ghost predicate SizedStreams(streams: seq<Stream>, a: Template, b: Template, bytes: int)
  {
    && |streams| == 4
    && Sized(streams[0], a, bytes, 0.0, DEFAULT_PPS, None) && SizedLikeFirst(streams[1], a, b, bytes, None)
    && Sized(streams[2], a, bytes, 0.0, DEFAULT_PPS, Some(0)) && SizedLikeFirst(streams[3], a, b, bytes, Some(1))
  }

  class TrafficStreams {
    const a: Template
    const b: Template
    var framesize: FrameSize
    var rate: string

    constructor (a: Template, b: Template)
      ensures this.a == a && this.b == b && framesize == Size(64)
    {
      this.a, this.b := a, b;
      framesize, rate := Size(64), "";
    }

    /** A fixed frame size: the payload length is computed from direction 0 and used for both. */
    method CreateSized(bytes: int, pick: nat -> char) returns (streams: seq<Stream>)
      requires forall i :: IsLetter(pick(i))
      ensures SizedStreams(streams, a, b, bytes)
    {
      var payloadLen := Max(0, bytes - |a.base| - FCS);
      var p0 := GenPayload(payloadLen, pick);
      var p1 := GenPayload(payloadLen, pick);
      var p2 := GenPayload(payloadLen, pick);
      var p3 := GenPayload(payloadLen, pick);
      streams := [Stream(a, p0, 0.0, DEFAULT_PPS, None), Stream(b, p1, PHASE, DEFAULT_PPS, None),
                  Stream(a, p2, 0.0, DEFAULT_PPS, Some(0)), Stream(b, p3, PHASE, DEFAULT_PPS, Some(1))];
    }

    method CreateMix(rows: seq<Row>, pick: nat -> char) returns (streams: seq<Stream>)
      requires forall i :: IsLetter(pick(i))
      ensures |streams| == 2 * |rows|
      ensures RowStreams(streams[..|rows|], a, rows) && RowStreams(streams[|rows|..], b, rows)
    {
      var stream1, stream2 := [], [];
      for i := 0 to |rows|
        invariant |stream1| == i == |stream2|
        invariant forall j :: 0 <= j < i ==> Sized(stream1[j], a, rows[j].size, rows[j].isg, rows[j].pps, None)
        invariant forall j :: 0 <= j < i ==> Sized(stream2[j], b, rows[j].size, rows[j].isg, rows[j].pps, None)
      {
        var payloadA := GenPayload(Max(0, rows[i].size - |a.base| - FCS), pick);
        var payloadB := GenPayload(Max(0, rows[i].size - |b.base| - FCS), pick);
        stream1 := stream1 + [Stream(a, payloadA, rows[i].isg, rows[i].pps, None)];
        stream2 := stream2 + [Stream(b, payloadB, rows[i].isg, rows[i].pps, None)];
      }
      streams := stream1 + stream2;
      assert streams[..|rows|] == stream1 && streams[|rows|..] == stream2;
    }

    /** `get_streams`: nothing for a mix that is not in the table (a key error). */
    method GetStreams(framesize: FrameSize, rate: string, pick: nat -> char) returns (streams: Option<seq<Stream>>)
      requires forall i :: IsLetter(pick(i))
      modifies this
      ensures this.framesize == framesize && this.rate == rate
      ensures streams.None? <==> framesize.Mix? && framesize.name !in STREAM_TABLE
      ensures streams.Some? ==> Listed(streams.value, framesize, a, b)
    {
      this.framesize, this.rate := framesize, rate;
      match framesize
      case Size(bytes) =>
        var s := CreateSized(bytes, pick);
        assert s == [s[0]] + [s[1]] + [s[2], s[3]];
        streams := Some(s);
      case Mix(name) =>
        if name !in STREAM_TABLE {
          return None;
        }
        var s := CreateMix(STREAM_TABLE[name], pick);
        assert s == s[..|STREAM_TABLE[name]|] + s[|STREAM_TABLE[name]|..];
        streams := Some(s);
    }
  }

  /** The list is direction 0, then direction 1, then for a fixed size the two latency streams. */
  ghost predicate Listed(streams: seq<Stream>, framesize: FrameSize, a: Template, b: Template)
  {
    match framesize
    case Size(bytes) => SizedStreams(streams, a, b, bytes)
    case Mix(name) =>
      && name in STREAM_TABLE
      && var n := |STREAM_TABLE[name]|;
         && |streams| == 2 * n && RowStreams(streams[..n], a, STREAM_TABLE[name])
         && RowStreams(streams[n..], b, STREAM_TABLE[name])
  }

  /**
   * With a fixed size the second direction gets its own right frame length exactly when the two templates are
   * equally long, or both are already as long as the frame.
   */
  lemma SecondDirectionLength(a: Template, b: Template, bytes: int)
    ensures |b.base| + Max(0, bytes - FCS - |a.base|) == Max(|b.base|, bytes - FCS)
            <==> |a.base| == |b.base| || (bytes - FCS <= |a.base| && bytes - FCS <= |b.base|)
  {
  }

  /** A fixed size: four streams of 9000 packets per second, the frames 4 bytes short of the size, checksum excluded. */
  lemma FixedSizeStreams(streams: seq<Stream>, bytes: int, a: Template, b: Template)
    requires Listed(streams, Size(bytes), a, b) && |a.base| == |b.base| <= bytes - 4
    ensures |streams| == 4
    ensures forall i :: 0 <= i < 4 ==>
              && streams[i].FrameLength() == bytes - 4 && streams[i].pps == 9000
              && streams[i].template == (if i % 2 == 0 then a else b)
              && streams[i].isg == (if i % 2 == 0 then 0.0 else 10.0)
              && streams[i].pgId == (if i < 2 then None else Some(i - 2))
  {
  }

  /** What one direction of a mix sends: frame lengths, packets per second and gaps, by the name of the mix. */
  lemma MixStreams(streams: seq<Stream>, name: string, a: Template, b: Template, i: nat)
    requires Listed(streams, Mix(name), a, b) && i < 6 && |a.base| <= 56 && |b.base| <= 56
    ensures name == "IMIX_v4" || name == "IMIX_v4_1"
    ensures |streams| == 6 && streams[i].template == (if i < 3 then a else b)
    ensures var s := streams[i];
            (s.FrameLength(), s.pps, s.isg) ==
            if name == "IMIX_v4" then [(56, 28, 0.0), (586, 20, 0.1), (1510, 4, 0.2)][i % 3]
            else [(60, 28, 0.0), (566, 16, 0.1), (1514, 4, 0.2)][i % 3]
  {
    assert |STREAM_TABLE[name]| == 3;
    assert i >= 3 ==> streams[3..][i - 3] == streams[i];
  }

  // ---------------------------------------------------------------------
  // The driver
  // ---------------------------------------------------------------------

  /** Where a Python slice bound falls. */
  function SliceBound(i: int, n: nat): (k: nat)
    ensures k <= n
  {
    if i < 0 then Max(0, n + i) else if i > n then n else i
  }

  function Slice<T>(s: seq<T>, lo: int, hi: int): seq<T>
  {
    var l, h := SliceBound(lo, |s|), SliceBound(hi, |s|);
    if l < h then s[l..h] else []
  }

  /** `int(x / 2)`: towards zero. */
  function Half(x: int): int { if x < 0 then -(-x / 2) else x / 2 }

  lemma HalfTruncates(x: int)
    ensures x >= 0 ==> 0 <= x - 2 * Half(x) < 2
    ensures x < 0 ==> -2 < x - 2 * Half(x) <= 0
  {
  }

  datatype Installed<T> = Installed(port0: seq<T>, port1: seq<T>) | IndexError

  /** `simple_burst` up to the start of traffic: which streams are added to which port. */
  method Install<T>(streams: seq<T>, isSize: bool, directions: int, latency: bool) returns (r: Installed<T>)
    ensures r == InstalledBy(streams, isSize, directions, latency)
  {
    var port0: seq<T>, port1: seq<T> := [], [];
    if !isSize {
      port0 := Slice(streams, 0, 3);
      if directions > 1 {
        port1 := Slice(streams, 3, 6);
      }
      return Installed(port0, port1);
    }
    var lastA := Half(|streams| - 2);
    var lastB := lastA * 2;
    port0 := Slice(streams, 0, lastA);
    if directions > 1 {
      port1 := Slice(streams, lastA, lastB);
    }
    if latency {
      if lastB < 0 || lastB >= |streams| {
        return IndexError;
      }
      port0 := port0 + [streams[lastB]];
      if directions > 1 {
        if lastB + 1 >= |streams| {
          return IndexError;
        }
        port1 := port1 + [streams[lastB + 1]];
      }
    }
    r := Installed(port0, port1);
  }

  function InstalledBy<T>(streams: seq<T>, isSize: bool, directions: int, latency: bool): Installed<T>
  {
    var both := directions > 1;
    if !isSize then Installed(Slice(streams, 0, 3), if both then Slice(streams, 3, 6) else [])
    else
      var half := Half(|streams| - 2);
      var a, b := Slice(streams, 0, half), if both then Slice(streams, half, 2 * half) else [];
      if !latency then Installed(a, b)
      else if half < 0 || 2 * half >= |streams| || (both && 2 * half + 1 >= |streams|) then IndexError
      else Installed(a + [streams[2 * half]], if both then b + [streams[2 * half + 1]] else [])
  }

  /** What should end up on the ports: each direction on its own, nothing on the second if one-directional. */
  function Intended<T>(a: seq<T>, b: seq<T>, latA: seq<T>, latB: seq<T>, directions: int, latency: bool): Installed<T>
  {
    Installed(a + (if latency then latA else []), if directions > 1 then b + (if latency then latB else []) else [])
  }

  /** The index arithmetic inverts the listing, for lists of any but equal length. */
  lemma SizedLayoutInverted<T>(a: seq<T>, b: seq<T>, latA: T, latB: T, directions: int, latency: bool)
    requires |a| == |b|
    ensures InstalledBy(a + b + [latA, latB], true, directions, latency) ==
            Intended(a, b, [latA], [latB], directions, latency)
  {
    var s, n := a + b + [latA, latB], |a|;
    assert Half(|s| - 2) == n;
    assert s[..n] == a && s[n..2 * n] == b;
    assert Slice(s, 0, n) == a && Slice(s, n, 2 * n) == b;
  }

  /** Too short a list, with latency on: the missing latency streams are an index error. */
  lemma FewStreams<T>(streams: seq<T>, directions: int)
    requires |streams| < 2
    ensures InstalledBy(streams, true, directions, true) ==
            if streams == [] || directions > 1 then IndexError else Installed(streams, [])
  {
    if |streams| == 1 {
      assert Half(-1) == 0;
      assert [] + [streams[0]] == streams;
    }
  }

  /** With both directions, equal length is also necessary, latency streams installed or not. */
  lemma SizedLayoutNeedsEqualLengths<T>(a: seq<T>, b: seq<T>, latA: T, latB: T, directions: int, latency: bool)
    requires directions > 1
    requires InstalledBy(a + b + [latA, latB], true, directions, latency) ==
             Intended(a, b, [latA], [latB], directions, latency)
    ensures |a| == |b|
  {
    var s := a + b + [latA, latB];
    var half := Half(|s| - 2);
    assert |Slice(s, 0, half)| == half && |Slice(s, half, 2 * half)| == half;
    var r := InstalledBy(s, true, directions, latency);
    assert |r.port0| == |r.port1| == half + if latency then 1 else 0;
  }

  /** The fixed slices recover the two halves of a mix exactly when its row count is three (or zero). */
  lemma MixLayoutInvertedIff<T>(a: seq<T>, b: seq<T>, latency: bool)
    requires |a| == |b|
    ensures InstalledBy(a + b, false, 2, latency) == Intended(a, b, [], [], 2, latency) <==> |a| in {0, 3}
  {
    var s := a + b;
    var r := InstalledBy(s, false, 2, latency);
    assert a + [] == a && b + [] == b;
    if |a| == 3 {
      assert s[..3] == a && s[3..6] == b;
    } else if |a| == 0 {
      assert Slice(s, 0, 3) == [] == a && Slice(s, 3, 6) == [] == b;
    } else if |a| <= 2 {
      assert |r.port0| == if 2 * |a| < 3 then 2 * |a| else 3;
    } else {
      assert |r.port0| == 3;
    }
  }

  /** Profile and driver together: every listed stream goes to the port of its direction, for every known size. */
  method LoadProfile(profile: TrafficStreams, framesize: FrameSize, rate: string, pick: nat -> char,
                     directions: int, latency: bool) returns (r: Option<Installed<Stream>>)
    requires forall i :: IsLetter(pick(i))
    modifies profile
    ensures r.None? <==> framesize.Mix? && framesize.name !in STREAM_TABLE
    ensures r.Some? ==>
              && r.value.Installed?
              && |r.value.port0| == (if framesize.Mix? then 3 else if latency then 2 else 1)
              && |r.value.port1| == (if directions > 1 then |r.value.port0| else 0)
              && (forall s :: s in r.value.port0 ==> s.template == profile.a)
              && (forall s :: s in r.value.port1 ==> s.template == profile.b)
  {
    var streams := profile.GetStreams(framesize, rate, pick);
    if streams.None? {
      return None;
    }
    var s := streams.value;
    var i := Install(s, framesize.Size?, directions, latency);
    r := Some(i);
    if framesize.Size? {
      assert s == [s[0]] + [s[1]] + [s[2], s[3]];
      SizedLayoutInverted([s[0]], [s[1]], s[2], s[3], directions, latency);
    } else {
      assert |STREAM_TABLE[framesize.name]| == 3;
      assert s == s[..3] + s[3..];
      assert Slice(s, 0, 3) == s[..3] && Slice(s, 3, 6) == s[3..];
    }
  }
}
