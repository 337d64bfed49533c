/** `extract_one_packet`: a length-directed frame parser over a growing byte buffer. */
module Frames {
  import opened Bytes

  const ETHER_HEADER := 14
  const IPV6_HEADER := 40
  const ARP_FIXED := 8

  const ETH_P_IP := 0x0800
  const ETH_P_ARP := 0x0806
  const ETH_P_RARP := 0x8035
  const ETH_P_IPV6 := 0x86DD

  /** Values of the type/length field up to this one are 802.3 lengths, so there is no EtherType. */
  const MAX_8023_LENGTH := 1500

  datatype FrameError = NoEtherType | UnknownProtocol(etherType: nat)

  datatype Extraction = NeedMore | Frame(bytes: seq<Byte>) | Failed(error: FrameError)

  datatype LengthResult = Declared(length: nat) | Undeclared(error: FrameError)

  /** The frame length announced by the headers, before the 60-byte floor is applied. */
  function DeclaredLength(buf: seq<Byte>): LengthResult
    requires |buf| >= 20
  {
    var etherType := U16(buf, 12);
    if etherType <= MAX_8023_LENGTH then Undeclared(NoEtherType)
    else if etherType == ETH_P_IP then Declared(U16(buf, 16) + ETHER_HEADER)
    else if etherType == ETH_P_IPV6 then Declared(U16(buf, 18) + ETHER_HEADER + IPV6_HEADER)
    else if etherType == ETH_P_ARP || etherType == ETH_P_RARP then
      Declared(ETHER_HEADER + ARP_FIXED + 2 * buf[18] as int + 2 * buf[19] as int)
    else Undeclared(UnknownProtocol(etherType))
  }

  function ExtractOnePacket(buf: seq<Byte>): (r: Extraction)
    ensures r.Frame? ==> MIN_FRAME <= |r.bytes| && r.bytes <= buf
  {
    if |buf| < MIN_FRAME then NeedMore
    else
      match DeclaredLength(buf)
      case Undeclared(e) => Failed(e)
      case Declared(n) =>
        var len := if n < MIN_FRAME then MIN_FRAME else n;
        if |buf| < len then NeedMore else Frame(buf[..len])
  }

  /** 60 bytes decide whether there will be an error, and which: the EtherType alone tells. */
  lemma ErrorIff(buf: seq<Byte>)
    requires |buf| >= 60
    ensures var t := U16(buf, 12);
            && (ExtractOnePacket(buf) == Failed(NoEtherType) <==> t <= 1500)
            && (ExtractOnePacket(buf) == Failed(UnknownProtocol(t)) <==>
                  t > 1500 && t != 0x0800 && t != 0x86DD && t != 0x0806 && t != 0x8035)
            && (ExtractOnePacket(buf).Failed? ==> t <= 1500 || ExtractOnePacket(buf) == Failed(UnknownProtocol(t)))
  {
  }

  /** A decided result (a frame or an error) does not change when more bytes arrive. */
  lemma DecidedIsStable(buf: seq<Byte>, more: seq<Byte>)
    requires !ExtractOnePacket(buf).NeedMore?
    ensures ExtractOnePacket(buf + more) == ExtractOnePacket(buf)
  {
    var all := buf + more;
    assert forall i :: 0 <= i < |buf| ==> all[i] == buf[i];
    if ExtractOnePacket(buf).Frame? {
      var len := |ExtractOnePacket(buf).bytes|;
      assert all[..len] == buf[..len];
    }
  }

  // ---------------------------------------------------------------------
  // A reader that appends each arrival and then extracts as long as it can
  // ---------------------------------------------------------------------

  datatype Reader = Reader(frames: seq<seq<Byte>>, pending: seq<Byte>, error: Option<FrameError>)

  const FreshReader := Reader([], [], None)

  function Drain(r: Reader): (d: Reader)
    decreases |r.pending|
  {
    if r.error.Some? then r
    else
      match ExtractOnePacket(r.pending)
      case NeedMore => r
      case Failed(e) => r.(error := Some(e))
      case Frame(f) => Drain(Reader(r.frames + [f], r.pending[|f|..], None))
  }

  function Feed(r: Reader, chunk: seq<Byte>): Reader
  {
    Drain(r.(pending := r.pending + chunk))
  }

  function FeedAll(r: Reader, chunks: seq<seq<Byte>>): Reader
    decreases |chunks|
  {
    if chunks == [] then r else FeedAll(Feed(r, chunks[0]), chunks[1..])
  }

  lemma {:induction false} DrainStep(r: Reader, f: seq<Byte>)
    requires r.error.None? && ExtractOnePacket(r.pending) == Frame(f)
    ensures |f| <= |r.pending| && Drain(r) == Drain(Reader(r.frames + [f], r.pending[|f|..], None))
  {
  }

  lemma {:induction false} DrainLonger(r: Reader, f: seq<Byte>, more: seq<Byte>)
    requires r.error.None? && ExtractOnePacket(r.pending) == Frame(f) && |f| <= |r.pending|
    ensures Feed(r, more) == Feed(Reader(r.frames + [f], r.pending[|f|..], None), more)
  {
    DecidedIsStable(r.pending, more);
    DrainStep(r.(pending := r.pending + more), f);
    assert (r.pending + more)[|f|..] == r.pending[|f|..] + more;
  }

  /** Draining early and draining again after more bytes is the same as draining once. */
  lemma {:induction false} DrainAppend(r: Reader, more: seq<Byte>)
    ensures Feed(Drain(r), more) == Feed(r, more)
    decreases |r.pending|
  {
    if r.error.None? {
      match ExtractOnePacket(r.pending)
      case NeedMore =>
      case Failed(e) => DecidedIsStable(r.pending, more);
      case Frame(f) =>
        DrainStep(r, f);
        DrainLonger(r, f, more);
        DrainAppend(Reader(r.frames + [f], r.pending[|f|..], None), more);
    }
  }

  lemma FeedTwice(r: Reader, a: seq<Byte>, b: seq<Byte>)
    ensures Feed(Feed(r, a), b) == Feed(r, a + b)
  {
    DrainAppend(r.(pending := r.pending + a), b);
    assert r.pending + a + b == r.pending + (a + b);
  }

  lemma {:induction false} FeedAllIsOneFeed(r: Reader, chunks: seq<seq<Byte>>)
    requires Drain(r) == r
    ensures FeedAll(r, chunks) == Feed(r, Flatten(chunks))
    decreases |chunks|
  {
    if chunks == [] {
      assert r.pending + [] == r.pending;
    } else {
      var next := Feed(r, chunks[0]);
      DrainIdempotent(r.(pending := r.pending + chunks[0]));
      FeedAllIsOneFeed(next, chunks[1..]);
      FeedTwice(r, chunks[0], Flatten(chunks[1..]));
    }
  }

  lemma {:induction false} DrainIdempotent(r: Reader)
    ensures Drain(Drain(r)) == Drain(r)
    decreases |r.pending|
  {
    if r.error.None? && ExtractOnePacket(r.pending).Frame? {
      var f := ExtractOnePacket(r.pending).bytes;
      DrainIdempotent(Reader(r.frames + [f], r.pending[|f|..], None));
    }
  }

  /** Frames, error and unread bytes depend on the stream only, not on how it was cut into arrivals. */
  lemma ChunkingIndependence(chunks: seq<seq<Byte>>, others: seq<seq<Byte>>)
    requires Flatten(chunks) == Flatten(others)
    ensures FeedAll(FreshReader, chunks) == FeedAll(FreshReader, others)
    ensures FeedAll(FreshReader, chunks) == Feed(FreshReader, Flatten(chunks))
  {
    FeedAllIsOneFeed(FreshReader, chunks);
    FeedAllIsOneFeed(FreshReader, others);
  }

  // ---------------------------------------------------------------------
  // The parse relation and its round trip
  // ---------------------------------------------------------------------

  /** The frame fills exactly the length its own headers announce, 60 bytes at least. */
  predicate WellFormed(f: seq<Byte>)
  {
    && |f| >= MIN_FRAME
    && DeclaredLength(f).Declared?
    && |f| == Max(MIN_FRAME, DeclaredLength(f).length)
  }

  lemma DeclaredByPrefix(buf: seq<Byte>, len: nat)
    requires 20 <= len <= |buf|
    ensures DeclaredLength(buf[..len]) == DeclaredLength(buf)
  {
  }

  lemma ExtractsWellFormed(f: seq<Byte>, more: seq<Byte>)
    requires WellFormed(f)
    ensures ExtractOnePacket(f + more) == Frame(f)
  {
    assert (f + more)[..|f|] == f;
    DeclaredByPrefix(f + more, |f|);
  }

  lemma ExtractedIsWellFormed(buf: seq<Byte>)
    requires ExtractOnePacket(buf).Frame?
    ensures WellFormed(ExtractOnePacket(buf).bytes)
  {
    DeclaredByPrefix(buf, |ExtractOnePacket(buf).bytes|);
  }

  /** `stream` is `frames` one after the other, then `rest`, in which no further frame is decided. */
  ghost predicate Parses(stream: seq<Byte>, frames: seq<seq<Byte>>, rest: seq<Byte>, error: Option<FrameError>)
  {
    && stream == Flatten(frames) + rest
    && (forall i :: 0 <= i < |frames| ==> WellFormed(frames[i]))
    && ExtractOnePacket(rest) == (if error.Some? then Failed(error.value) else NeedMore)
  }

  function DrainStream(stream: seq<Byte>): Reader { Drain(Reader([], stream, None)) }

  /** Frames already emitted play no part in what is still to be read. */
  lemma {:induction false} DrainAfter(done: seq<seq<Byte>>, stream: seq<Byte>)
    ensures var d := DrainStream(stream);
            Drain(Reader(done, stream, None)) == Reader(done + d.frames, d.pending, d.error)
    decreases |stream|
  {
    match ExtractOnePacket(stream)
    case Frame(f) =>
      var rest := stream[|f|..];
      DrainAfter(done + [f], rest);
      DrainAfter([f], rest);
      assert done + [f] + DrainStream(rest).frames == done + ([f] + DrainStream(rest).frames);
      assert [] + [f] == [f];
    case NeedMore => assert done + [] == done;
    case Failed(_) => assert done + [] == done;
  }

  lemma ParsesOneMore(f: seq<Byte>, stream: seq<Byte>, frames: seq<seq<Byte>>, rest: seq<Byte>,
                      error: Option<FrameError>)
    requires WellFormed(f) && Parses(stream, frames, rest, error)
    ensures Parses(f + stream, [f] + frames, rest, error)
  {
    assert ([f] + frames)[1..] == frames;
    assert f + (Flatten(frames) + rest) == Flatten([f] + frames) + rest;
  }

  /** What is drained from a stream that starts with a frame. */
  lemma {:induction false} DrainHead(stream: seq<Byte>, f: seq<Byte>, rest: seq<Byte>)
    requires ExtractOnePacket(stream) == Frame(f) && stream == f + rest
    ensures var d := DrainStream(rest); DrainStream(stream) == Reader([f] + d.frames, d.pending, d.error)
  {
    DrainStep(Reader([], stream, None), f);
    assert stream[|f|..] == rest;
    assert [] + [f] == [f];
    DrainAfter([f], rest);
  }

  lemma {:induction false} DrainParses(stream: seq<Byte>)
    ensures var d := DrainStream(stream); Parses(stream, d.frames, d.pending, d.error)
    decreases |stream|
  {
    match ExtractOnePacket(stream)
    case Frame(f) =>
      var rest := stream[|f|..];
      assert stream == f + rest;
      ExtractedIsWellFormed(stream);
      DrainParses(rest);
      DrainHead(stream, f, rest);
      var d := DrainStream(rest);
      ParsesOneMore(f, rest, d.frames, d.pending, d.error);
    case NeedMore =>
    case Failed(_) =>
  }

  lemma {:induction false} ParsesHead(stream: seq<Byte>, frames: seq<seq<Byte>>, rest: seq<Byte>,
                                      error: Option<FrameError>)
    returns (f: seq<Byte>, after: seq<Byte>)
    requires Parses(stream, frames, rest, error) && frames != []
    ensures frames == [f] + frames[1..] && stream == f + after && stream[|f|..] == after
    ensures ExtractOnePacket(stream) == Frame(f) && Parses(after, frames[1..], rest, error)
  {
    f, after := frames[0], Flatten(frames[1..]) + rest;
    assert stream == f + after;
    ExtractsWellFormed(f, after);
  }

  lemma {:induction false} ParsesNothing(done: seq<seq<Byte>>, stream: seq<Byte>, rest: seq<Byte>,
                                         error: Option<FrameError>)
    requires Parses(stream, [], rest, error)
    ensures Drain(Reader(done, stream, None)) == Reader(done, rest, error)
  {
    assert stream == rest;
  }

  lemma Shift<T>(done: seq<T>, f: T, frames: seq<T>)
    requires frames != [] && frames == [f] + frames[1..]
    ensures done + [f] + frames[1..] == done + frames
  {
  }

  lemma {:induction false} ParsesDrain(done: seq<seq<Byte>>, stream: seq<Byte>, frames: seq<seq<Byte>>,
                                       rest: seq<Byte>, error: Option<FrameError>)
    requires Parses(stream, frames, rest, error)
    ensures Drain(Reader(done, stream, None)) == Reader(done + frames, rest, error)
    decreases |frames|
  {
    if frames == [] {
      ParsesNothing(done, stream, rest, error);
      assert done + frames == done;
    } else {
      var f, after := ParsesHead(stream, frames, rest, error);
      DrainStep(Reader(done, stream, None), f);
      ParsesDrain(done + [f], after, frames[1..], rest, error);
      Shift(done, f, frames);
    }
  }

  lemma {:induction false} FeedIsDrain(stream: seq<Byte>)
    ensures Feed(FreshReader, stream) == DrainStream(stream)
  {
    assert [] + stream == stream;
  }

  lemma {:induction false} ParsesIsDrained(stream: seq<Byte>, frames: seq<seq<Byte>>, rest: seq<Byte>,
                                           error: Option<FrameError>)
    requires Parses(stream, frames, rest, error)
    ensures DrainStream(stream) == Reader(frames, rest, error)
  {
    ParsesDrain([], stream, frames, rest, error);
    assert [] + frames == frames;
  }

  /** The reader computes the parse of its stream: there is one, there is only one, and it is this. */
  lemma {:induction false} RoundTrip(stream: seq<Byte>, frames: seq<seq<Byte>>, rest: seq<Byte>,
                                     error: Option<FrameError>)
    ensures Parses(stream, frames, rest, error) <==> Feed(FreshReader, stream) == Reader(frames, rest, error)
  {
    FeedIsDrain(stream);
    if Parses(stream, frames, rest, error) {
      ParsesIsDrained(stream, frames, rest, error);
    } else {
      DrainParses(stream);
    }
  }

  // ---------------------------------------------------------------------
  // Frames as a sender builds them
  // ---------------------------------------------------------------------

  datatype Datagram =
    // RFC 791 section 3.1: version/IHL and type of service, Total Length, everything after it
    | IPv4(versionTos: seq<Byte>, body: seq<Byte>)
    // RFC 8200 section 3: first word, Payload Length, rest of the fixed header, payload
    | IPv6(word: seq<Byte>, header: seq<Byte>, payload: seq<Byte>)
    // RFC 826 and RFC 903: hardware and protocol type, the two lengths, operation, four addresses
    | Arp(reverse: bool, types: seq<Byte>, hwLen: Byte, pLen: Byte, op: seq<Byte>, addresses: seq<Byte>)
  {
    ghost predicate Valid()
    {
      match this
      case IPv4(v, body) => |v| == 2 && 4 + |body| < 0x1_0000
      case IPv6(w, h, p) => |w| == 4 && |h| == 34 && |p| < 0x1_0000
      case Arp(_, t, hw, pl, op, a) => |t| == 4 && |op| == 2 && |a| == 2 * (hw + pl)
    }

    function Wire(): seq<Byte>
    {
      match this
      case IPv4(v, body) => v + ToBigEndian(4 + |body|, 2) + body
      case IPv6(w, h, p) => w + ToBigEndian(|p|, 2) + h + p
      case Arp(_, t, hw, pl, op, a) => t + [hw, pl] + op + a
    }

    function EtherTypeBytes(): seq<Byte>
    {
      match this
      case IPv4(_, _) => [0x08, 0x00]
      case IPv6(_, _, _) => [0x86, 0xDD]
      case Arp(reverse, _, _, _, _, _) => if reverse then [0x80, 0x35] else [0x08, 0x06]
    }
  }

  /** Ethernet encapsulation: addresses, EtherType, datagram, padding up to the minimum frame. */
  function Encapsulate(macs: seq<Byte>, d: Datagram, padding: Byte): seq<Byte>
  {
    var unpadded := macs + d.EtherTypeBytes() + d.Wire();
    unpadded + seq(Max(0, MIN_FRAME - |unpadded|), i => padding)
  }

  lemma EncapsulatedIsWellFormed(macs: seq<Byte>, d: Datagram, padding: Byte)
    requires |macs| == 12 && d.Valid()
    ensures WellFormed(Encapsulate(macs, d, padding))
    ensures U16(Encapsulate(macs, d, padding), 12) ==
            match d
            case IPv4(_, _) => 0x0800
            case IPv6(_, _, _) => 0x86DD
            case Arp(reverse, _, _, _, _, _) => if reverse then 0x8035 else 0x0806
  {
    var f := Encapsulate(macs, d, padding);
    var t := d.EtherTypeBytes();
    assert f[12] == t[0] && f[13] == t[1];
    match d
    case IPv4(v, body) => TwoBytes(4 + |body|); assert U16(f, 16) == 4 + |body|;
    case IPv6(w, h, p) => TwoBytes(|p|); assert U16(f, 18) == |p|;
    case Arp(_, ts, hw, pl, op, a) => assert f[18] == hw && f[19] == pl;
  }

  datatype Sent = Sent(macs: seq<Byte>, datagram: Datagram, padding: Byte)

  ghost predicate ValidSent(s: Sent) { |s.macs| == 12 && s.datagram.Valid() }

  function Burst(sent: seq<Sent>): (frames: seq<seq<Byte>>)
  {
    seq(|sent|, i requires 0 <= i < |sent| => Encapsulate(sent[i].macs, sent[i].datagram, sent[i].padding))
  }

  /** Any burst of frames followed by an incomplete one, cut into any arrivals, is read back as sent. */
  lemma SentIsReceived(sent: seq<Sent>, tail: seq<Byte>, chunks: seq<seq<Byte>>)
    requires forall i :: 0 <= i < |sent| ==> ValidSent(sent[i])
    requires ExtractOnePacket(tail).NeedMore?
    requires Flatten(chunks) == Flatten(Burst(sent)) + tail
    ensures FeedAll(FreshReader, chunks) == Reader(Burst(sent), tail, None)
  {
    var frames := Burst(sent);
    forall i | 0 <= i < |frames| ensures WellFormed(frames[i]) {
      EncapsulatedIsWellFormed(sent[i].macs, sent[i].datagram, sent[i].padding);
    }
    FeedAllIsOneFeed(FreshReader, chunks);
    RoundTrip(Flatten(chunks), frames, tail, None);
  }
}
