/** The NAT script: a two-way exchange that must be explained by one bijective session table. */
module Nat {
  import opened Bytes
  import opened Await

  /** An address argument, after the two format tests. */
  datatype Address = V4(a: nat) | V6(b: nat) | Malformed(text: string)

  datatype Version = IPv4 | IPv6

  const FLAGS_SYN := 0x02
  const FLAGS_SYN_ACK := 0x12

  datatype Transport =
    | Udp(sport: nat, dport: nat)
    | Tcp(sport: nat, dport: nat, flags: nat)
    | Solicitation
    | OtherTransport

  datatype Network = Ip(version: Version, src: Address, dst: Address, payload: Transport) | OtherNetwork

  datatype Frame = Frame(macDst: string, macSrc: string, payload: Network)

  predicate IsSolicitation(f: Frame) { f.payload.Ip? && f.payload.payload.Solicitation? }

  /** `outPort` is absent when the argument is not a number. */
  datatype Config = Config(txSrcMac: string, txDstMac: string, rxDstMac: string, rxSrcMac: string,
                           srcIn: Address, srcOut: Address, dst: Address, protocol: string,
                           inPort: nat, outPort: Option<nat>, dstPort: nat)

  datatype Error = BadAddress | BadProtocol | RxTimeoutError | WrongMac | NotThisIp | WrongSource | WrongDestination
                 | NotThisProtocol | WrongSourcePort | WrongDestinationPort | WrongFlags

  datatype Result = Pass | Raised(error: Error) | Running

  function VersionOf(c: Config): Option<Version>
  {
    if c.srcIn.V4? && c.dst.V4? then Some(IPv4)
    else if c.srcIn.V6? && c.dst.V6? then Some(IPv6)
    else None
  }

  predicate Runnable(c: Config) { VersionOf(c).Some? && c.protocol in {"UDP", "TCP"} }

  function Segment(c: Config, sport: nat, dport: nat, flags: nat): Transport
  {
    if c.protocol == "UDP" then Udp(sport, dport) else Tcp(sport, dport, flags)
  }

  predicate SameProtocol(c: Config, t: Transport) { if c.protocol == "UDP" then t.Udp? else t.Tcp? }

  /** The packet sent towards the outside. */
  function Request(c: Config): Frame
    requires Runnable(c)
  {
    Frame(c.txDstMac, c.txSrcMac, Ip(VersionOf(c).value, c.srcIn, c.dst, Segment(c, c.inPort, c.dstPort, FLAGS_SYN)))
  }

  /** The answer, to the translated endpoint. */
  function Answer(c: Config, outPort: nat): Frame
    requires Runnable(c)
  {
    Frame(c.rxSrcMac, c.rxDstMac,
          Ip(VersionOf(c).value, c.dst, c.srcOut, Segment(c, c.dstPort, outPort, FLAGS_SYN_ACK)))
  }

  predicate Allowed(c: Config, port: nat) { c.outPort.None? || c.outPort == Some(port) }

  /** The request as it should leave the translating node. */
  function ExpectedOutside(c: Config, port: nat): Frame
    requires Runnable(c)
  {
    Frame(c.rxDstMac, c.rxSrcMac, Ip(VersionOf(c).value, c.srcOut, c.dst, Segment(c, port, c.dstPort, FLAGS_SYN)))
  }

  predicate SeenOutside(c: Config, port: nat, f: Frame)
    requires Runnable(c)
  {
    f == ExpectedOutside(c, port)
  }

  /** The answer as it should reach the inside host. */
  function ExpectedInside(c: Config): Frame
    requires Runnable(c)
  {
    Frame(c.txSrcMac, c.txDstMac,
          Ip(VersionOf(c).value, c.dst, c.srcIn, Segment(c, c.dstPort, c.inPort, FLAGS_SYN_ACK)))
  }

  predicate SeenInside(c: Config, f: Frame)
    requires Runnable(c)
  {
    f == ExpectedInside(c)
  }

  /** What an error says about a frame that is not the expected one. */
  ghost predicate Mismatch(e: Error, f: Frame, expected: Frame)
    requires expected.payload.Ip? && (expected.payload.payload.Udp? || expected.payload.payload.Tcp?)
  {
    var want := expected.payload;
    match e
    case WrongMac => f.macDst != expected.macDst || f.macSrc != expected.macSrc
    case NotThisIp => !f.payload.Ip? || f.payload.version != want.version
    case WrongSource => f.payload.Ip? && f.payload.src != want.src
    case WrongDestination => f.payload.Ip? && f.payload.dst != want.dst
    case NotThisProtocol => !HasPorts(f) || f.payload.payload.Udp? != want.payload.Udp?
    case WrongSourcePort => HasPorts(f) && f.payload.payload.sport != want.payload.sport
    case WrongDestinationPort => HasPorts(f) && f.payload.payload.dport != want.payload.dport
    case WrongFlags => f.payload.Ip? && f.payload.payload.Tcp? && want.payload.Tcp?
                       && f.payload.payload.flags != want.payload.flags
    case _ => false
  }

  /** A request is a SYN and an answer a SYN-ACK, when they are TCP at all. */
  lemma FlagsOnTheWire(c: Config, port: nat)
    requires Runnable(c)
    ensures var frames := [Request(c).payload, ExpectedOutside(c, port).payload, Answer(c, port).payload,
                           ExpectedInside(c).payload];
            forall i :: 0 <= i < 4 ==>
              && (c.protocol == "UDP" ==> frames[i].payload.Udp?)
              && (c.protocol == "TCP" ==>
                    frames[i].payload.Tcp? && frames[i].payload.flags == if i < 2 then 0x2 else 0x12)
  {
  }

  /** Checks on the packet seen outside; on success, the source port it shows. */
  method CheckOutside(c: Config, f: Frame) returns (error: Option<Error>, sport: nat)
    requires Runnable(c)
    ensures error.None? ==> Allowed(c, sport) && SeenOutside(c, sport, f)
    ensures error.Some? ==> forall p: nat :: Allowed(c, p) ==> !SeenOutside(c, p, f)
    ensures error.Some? ==> forall p: nat :: Allowed(c, p) ==> Mismatch(error.value, f, ExpectedOutside(c, p))
  {
    sport := 0;
    var ip := f.payload;
    if c.rxDstMac != f.macDst || c.rxSrcMac != f.macSrc {
      error := Some(WrongMac);
    } else if !ip.Ip? || Some(ip.version) != VersionOf(c) {
      error := Some(NotThisIp);
    } else if ip.src != c.srcOut {
      error := Some(WrongSource);
    } else if ip.dst != c.dst {
      error := Some(WrongDestination);
    } else if !SameProtocol(c, ip.payload) {
      error := Some(NotThisProtocol);
    } else {
      sport := ip.payload.sport;
      if c.outPort.Some? && sport != c.outPort.value {
        error := Some(WrongSourcePort);
      } else if ip.payload.dport != c.dstPort {
        error := Some(WrongDestinationPort);
      } else if ip.payload.Tcp? && ip.payload.flags != FLAGS_SYN {
        error := Some(WrongFlags);
      } else {
        error := None;
      }
    }
  }

  method CheckInside(c: Config, f: Frame) returns (error: Option<Error>)
    requires Runnable(c)
    ensures error.None? <==> SeenInside(c, f)
    ensures error.Some? ==> Mismatch(error.value, f, ExpectedInside(c))
  {
    var ip := f.payload;
    if f.macDst != c.txSrcMac || f.macSrc != c.txDstMac {
      error := Some(WrongMac);
    } else if !ip.Ip? || Some(ip.version) != VersionOf(c) {
      error := Some(NotThisIp);
    } else if ip.src != c.dst {
      error := Some(WrongSource);
    } else if ip.dst != c.srcIn {
      error := Some(WrongDestination);
    } else if !SameProtocol(c, ip.payload) {
      error := Some(NotThisProtocol);
    } else if ip.payload.sport != c.dstPort {
      error := Some(WrongSourcePort);
    } else if ip.payload.dport != c.inPort {
      error := Some(WrongDestinationPort);
    } else if ip.payload.Tcp? && ip.payload.flags != FLAGS_SYN_ACK {
      error := Some(WrongFlags);
    } else {
      error := None;
    }
  }

  // ---------------------------------------------------------------------
  // Network address and port translation
  // ---------------------------------------------------------------------

  datatype Endpoint = Endpoint(ip: Address, port: nat)

  /** A session table maps inside endpoints to outside ones, no two to the same. */
  type Table = map<Endpoint, Endpoint>

  ghost predicate Bijective(t: Table)
  {
    forall x, y :: x in t && y in t && t[x] == t[y] ==> x == y
  }

  predicate HasPorts(f: Frame) { f.payload.Ip? && (f.payload.payload.Udp? || f.payload.payload.Tcp?) }

  function Source(f: Frame): Endpoint
    requires HasPorts(f)
  {
    Endpoint(f.payload.src, f.payload.payload.sport)
  }

  function Destination(f: Frame): Endpoint
    requires HasPorts(f)
  {
    Endpoint(f.payload.dst, f.payload.payload.dport)
  }

  /** Outbound (RFC 3022 section 2.2): the source endpoint is replaced, nothing else. */
  ghost function Translate(t: Table, f: Frame, macDst: string, macSrc: string): Frame
    requires HasPorts(f) && Source(f) in t
  {
    var out := t[Source(f)];
    Frame(macDst, macSrc, f.payload.(src := out.ip, payload := f.payload.payload.(sport := out.port)))
  }

  /** Inbound: the destination endpoint is looked up backwards. */
  ghost predicate TranslatesBack(t: Table, f: Frame, macDst: string, macSrc: string, g: Frame)
  {
    && HasPorts(f)
    && exists x :: x in t && t[x] == Destination(f) &&
                   g == Frame(macDst, macSrc, f.payload.(dst := x.ip, payload := f.payload.payload.(dport := x.port)))
  }

  /** The observed packets are what a node with this table, mapping the tested source to `outPort`, forwards. */
  ghost predicate Explains(t: Table, c: Config, outPort: nat, outside: Frame, inside: Frame)
    requires Runnable(c)
  {
    && Bijective(t)
    && Source(Request(c)) in t && t[Source(Request(c))] == Endpoint(c.srcOut, outPort)
    && outside == Translate(t, Request(c), c.rxDstMac, c.rxSrcMac)
    && TranslatesBack(t, Answer(c, outPort), c.txSrcMac, c.txDstMac, inside)
  }

  /** The run as a whole: the first frame seen on each side, solicitations aside, is explained by one table. */
  ghost predicate Explained(c: Config, atRx: seq<Option<Frame>>, atTx: seq<Option<Frame>>, outPort: nat)
    requires Runnable(c)
  {
    exists t, outside, inside ::
      && AwaitOther(atRx, IsSolicitation) == Got(outside)
      && AwaitOther(atTx, IsSolicitation) == Got(inside)
      && Explains(t, c, outPort, outside, inside)
  }

  /** One entry is enough to explain the right packets, and a bijective table explains no others. */
  lemma ExplainsIff(c: Config, outPort: nat, outside: Frame, inside: Frame)
    requires Runnable(c)
    ensures (exists t :: Explains(t, c, outPort, outside, inside)) <==>
            SeenOutside(c, outPort, outside) && SeenInside(c, inside)
  {
    var from := Source(Request(c));
    if t :| Explains(t, c, outPort, outside, inside) {
      var x :| x in t && t[x] == Destination(Answer(c, outPort));
      assert x == from;
    }
    if SeenOutside(c, outPort, outside) && SeenInside(c, inside) {
      var t := map[from := Endpoint(c.srcOut, outPort)];
      assert from in t && t[from] == Destination(Answer(c, outPort));
      assert TranslatesBack(t, Answer(c, outPort), c.txSrcMac, c.txDstMac, inside);
      assert Explains(t, c, outPort, outside, inside);
    }
  }

  lemma ExplainedIff(c: Config, atRx: seq<Option<Frame>>, atTx: seq<Option<Frame>>, outPort: nat)
    requires Runnable(c)
    ensures Explained(c, atRx, atTx, outPort) <==>
            && AwaitOther(atRx, IsSolicitation).Got? && AwaitOther(atTx, IsSolicitation).Got?
            && SeenOutside(c, outPort, AwaitOther(atRx, IsSolicitation).packet)
            && SeenInside(c, AwaitOther(atTx, IsSolicitation).packet)
  {
    if AwaitOther(atRx, IsSolicitation).Got? && AwaitOther(atTx, IsSolicitation).Got? {
      ExplainsIff(c, outPort, AwaitOther(atRx, IsSolicitation).packet, AwaitOther(atTx, IsSolicitation).packet);
    }
  }

  /**
   * `main`. It passes exactly the runs that some bijective session table explains, with the outside port given
   * or, when none was given, with any port at all; the reply is addressed to the port that was seen.
   */
  method Script(c: Config, atRx: seq<Option<Frame>>, atTx: seq<Option<Frame>>)
    returns (r: Result, sent: seq<Frame>)
    ensures !Runnable(c) ==> r == Raised(if VersionOf(c).None? then BadAddress else BadProtocol) && sent == []
    ensures Runnable(c) ==> (r.Pass? <==> exists p: nat :: Allowed(c, p) && Explained(c, atRx, atTx, p))
    ensures r.Pass? ==>
              Runnable(c) && exists p: nat :: Explained(c, atRx, atTx, p) && sent == [Request(c), Answer(c, p)]
    ensures r == Raised(BadAddress) <==> !(c.srcIn.V4? && c.dst.V4?) && !(c.srcIn.V6? && c.dst.V6?)
    ensures r == Raised(BadProtocol) <==>
            ((c.srcIn.V4? && c.dst.V4?) || (c.srcIn.V6? && c.dst.V6?)) && c.protocol != "UDP" && c.protocol != "TCP"
    ensures r == Raised(RxTimeoutError) <==>
            || (|sent| == 1 && AwaitOther(atRx, IsSolicitation).RxTimeout?)
            || (|sent| == 2 && AwaitOther(atTx, IsSolicitation).RxTimeout?)
    ensures |sent| > 0 ==> sent[0].macSrc == c.txSrcMac && sent[0].macDst == c.txDstMac
    ensures |sent| > 1 ==> sent[1].macSrc == c.rxDstMac && sent[1].macDst == c.rxSrcMac
  {
    sent := [];
    if VersionOf(c).None? {
      return Raised(BadAddress), sent;
    }
    if c.protocol !in {"UDP", "TCP"} {
      return Raised(BadProtocol), sent;
    }
    forall p: nat {
      ExplainedIff(c, atRx, atTx, p);
    }
    sent := [Request(c)];
    var outside := AwaitPacket(atRx, IsSolicitation);
    if !outside.Got? {
      return if outside.RxTimeout? then Raised(RxTimeoutError) else Running, sent;
    }
    var error, sport := CheckOutside(c, outside.packet);
    if error.Some? {
      assert Allowed(c, if c.outPort.Some? then c.outPort.value else 0);
      return Raised(error.value), sent;
    }
    sent := sent + [Answer(c, sport)];
    var inside := AwaitPacket(atTx, IsSolicitation);
    if !inside.Got? {
      return if inside.RxTimeout? then Raised(RxTimeoutError) else Running, sent;
    }
    error := CheckInside(c, inside.packet);
    if error.Some? {
      return Raised(error.value), sent;
    }
    return Pass, sent;
  }

  /** Completeness, per table: every bijective table with an entry for the tested source passes, noise or not. */
  lemma EveryTablePasses(t: Table, c: Config, noiseRx: seq<Option<Frame>>, noiseTx: seq<Option<Frame>>, inside: Frame)
    requires Runnable(c) && Bijective(t) && Source(Request(c)) in t && t[Source(Request(c))].ip == c.srcOut
    requires forall i :: 0 <= i < |noiseRx| ==> noiseRx[i].Some? && IsSolicitation(noiseRx[i].value)
    requires forall i :: 0 <= i < |noiseTx| ==> noiseTx[i].Some? && IsSolicitation(noiseTx[i].value)
    requires TranslatesBack(t, Answer(c, t[Source(Request(c))].port), c.txSrcMac, c.txDstMac, inside)
    ensures Explained(c, noiseRx + [Some(Translate(t, Request(c), c.rxDstMac, c.rxSrcMac))],
                      noiseTx + [Some(inside)], t[Source(Request(c))].port)
  {
    var outside := Translate(t, Request(c), c.rxDstMac, c.rxSrcMac);
    SolicitationsIrrelevant(noiseRx, [Some(outside)], IsSolicitation);
    SolicitationsIrrelevant(noiseTx, [Some(inside)], IsSolicitation);
    assert Explains(t, c, t[Source(Request(c))].port, outside, inside);
  }
}
