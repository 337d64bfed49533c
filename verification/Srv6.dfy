/** The SRv6 encapsulation script: its checks, its packet builder, and the segment lists of RFC 8754. */
module Srv6 {
  import opened Bytes
  import opened Await

  type Address = string

  /** How an absent SID argument is spelled. */
  const ABSENT: Address := "None"

  const NH_IPV6 := 41
  const NH_ROUTING := 43
  const NH_NONE := 59

  datatype Layer =
    | Ether(macSrc: string, macDst: string)
    | IPv6(src: Address, dst: Address, nh: nat)
    | SegmentRouting(addresses: seq<Address>, segleft: nat, lastentry: nat, nextHeader: nat)
    | NeighbourSolicitation
    | OtherLayer

  datatype Kind = EtherKind | IPv6Kind | RoutingKind | SolicitationKind | OtherKind

  type Packet = seq<Layer>

  function KindOf(l: Layer): Kind
  {
    match l
    case Ether(_, _) => EtherKind
    case IPv6(_, _, _) => IPv6Kind
    case SegmentRouting(_, _, _, _) => RoutingKind
    case NeighbourSolicitation => SolicitationKind
    case OtherLayer => OtherKind
  }

  /** Layer lookup: the first layer of a kind at or below position `from`. */
  function Find(p: Packet, k: Kind, from: nat): (i: Option<nat>)
    ensures i.Some? ==> from <= i.value < |p| && KindOf(p[i.value]) == k
    ensures i.Some? ==> forall j :: from <= j < i.value ==> KindOf(p[j]) != k
    ensures i.None? ==> forall j :: from <= j < |p| ==> KindOf(p[j]) != k
    decreases |p| - from
  {
    if from >= |p| then None
    else if KindOf(p[from]) == k then Some(from)
    else Find(p, k, from + 1)
  }

  /** Why a packet is refused; `Lookup` is a missing layer or an index outside a list. */
  datatype Reason =
    | SourceMac | DestinationMac | NotIPv6 | OuterSource | OuterDestination
    | UnexpectedRouting | MissingRouting | OuterNextHeader | SegmentList | SegmentsLeft | RoutingNextHeader
    | InnerSource | InnerDestination | InnerNextHeader | Lookup

  datatype Verdict = Accepted | Refused(reason: Reason)

  datatype Endpoints = Endpoints(macSrc: string, macDst: string, ipSrc: Address, ipDst: Address)

  datatype Sids = Sids(source: Address, first: Address, second: Address, third: Address)

  /** Python list indexing: negative positions count from the end. */
  function PyIndex(s: seq<Address>, i: int): Option<Address>
  {
    if 0 <= i < |s| then Some(s[i]) else if -|s| <= i < 0 then Some(s[|s| + i]) else None
  }

  /** Positions from `-|s|` to `|s| - 1`, each element under two of them. */
  lemma PyIndexIs(s: seq<Address>, i: int)
    ensures PyIndex(s, i).Some? <==> -|s| <= i < |s|
    ensures 0 <= i < |s| ==> PyIndex(s, i) == Some(s[i]) == PyIndex(s, i - |s|)
  {
  }

  /** `dir_dstsids`: last segment first, as a segment list is stored. */
  function ExpectedList(sids: Sids, staticProxy: bool): seq<Address>
  {
    if sids.third == ABSENT then [sids.second, sids.first]
    else if !staticProxy then [sids.third, sids.second, sids.first]
    else [sids.third, sids.second]
  }

  function ExpectedSegmentsLeft(sids: Sids, correction: int, staticProxy: bool): int
  {
    |ExpectedList(sids, staticProxy)| - correction + if staticProxy then 1 else 0
  }

  function CheckInner(l: Layer, ends: Endpoints): Verdict
    requires l.IPv6?
  {
    if l.src != ends.ipSrc then Refused(InnerSource)
    else if l.dst != ends.ipDst then Refused(InnerDestination)
    else if l.nh != NH_NONE then Refused(InnerNextHeader)
    else Accepted
  }

  /** The encapsulated packet carries no segment routing header: the next layer is the inner packet. */
  function CheckPlain(p: Packet, outer: nat, ends: Endpoints): Verdict
    requires outer < |p| && p[outer].IPv6?
  {
    if Find(p, RoutingKind, outer).Some? then Refused(UnexpectedRouting)
    else if p[outer].nh != NH_IPV6 then Refused(OuterNextHeader)
    else if outer + 1 < |p| && p[outer + 1].IPv6? then CheckInner(p[outer + 1], ends)
    else Refused(Lookup)
  }

  function CheckRouting(p: Packet, outer: nat, ends: Endpoints, list: seq<Address>, segleft: int): Verdict
    requires outer < |p| && p[outer].IPv6?
  {
    if Find(p, RoutingKind, 0).None? then Refused(MissingRouting)
    else if p[outer].nh != NH_ROUTING then Refused(OuterNextHeader)
    else
      match Find(p, RoutingKind, outer)
      case None => Refused(Lookup)
      case Some(r) =>
        if p[r].addresses != list then Refused(SegmentList)
        else if p[r].segleft != segleft then Refused(SegmentsLeft)
        else if p[r].nextHeader != NH_IPV6 then Refused(RoutingNextHeader)
        else
          match Find(p, IPv6Kind, r)
          case None => Refused(Lookup)
          case Some(inner) => CheckInner(p[inner], ends)
  }

  function CheckSrv6(p: Packet, ends: Endpoints, sids: Sids, correction: int, staticProxy: bool): Verdict
  {
    match Find(p, EtherKind, 0)
    case None => Refused(Lookup)
    case Some(e) =>
      if p[e].macSrc != ends.macSrc then Refused(SourceMac)
      else if p[e].macDst != ends.macDst then Refused(DestinationMac)
      else
        match Find(p, IPv6Kind, 0)
        case None => Refused(NotIPv6)
        case Some(outer) =>
          var list := ExpectedList(sids, staticProxy);
          var segleft := ExpectedSegmentsLeft(sids, correction, staticProxy);
          if p[outer].src != sids.source then Refused(OuterSource)
          else if PyIndex(list, segleft).None? then Refused(Lookup)
          else if Some(p[outer].dst) != PyIndex(list, segleft) then Refused(OuterDestination)
          else if sids.second == ABSENT then CheckPlain(p, outer, ends)
          else CheckRouting(p, outer, ends, list, segleft)
  }

  function CheckIp(p: Packet, ends: Endpoints): Verdict
  {
    match Find(p, EtherKind, 0)
    case None => Refused(Lookup)
    case Some(e) =>
      if p[e].macSrc != ends.macSrc then Refused(SourceMac)
      else if p[e].macDst != ends.macDst then Refused(DestinationMac)
      else
        match Find(p, IPv6Kind, 0)
        case None => Refused(NotIPv6)
        case Some(i) =>
          if p[i].dst != ends.ipDst then Refused(InnerDestination)
          else if p[i].src != ends.ipSrc then Refused(InnerSource)
          else if p[i].nh != NH_NONE then Refused(InnerNextHeader)
          else Accepted
  }

  // ---------------------------------------------------------------------
  // What a segment routing domain does with a policy
  // ---------------------------------------------------------------------

  function Reversed(s: seq<Address>): (r: seq<Address>)
    ensures |r| == |s|
  {
    seq(|s|, i requires 0 <= i < |s| => s[|s| - 1 - i])
  }

  /** A source node's encapsulation (RFC 8754 sections 2 and 4.1); `path` is in order of travel. */
  function Encapsulation(ends: Endpoints, source: Address, path: seq<Address>): Packet
    requires path != []
  {
    [Ether(ends.macSrc, ends.macDst),
     IPv6(source, path[0], NH_ROUTING),
     SegmentRouting(Reversed(path), |path| - 1, |path| - 1, NH_IPV6),
     IPv6(ends.ipSrc, ends.ipDst, NH_NONE)]
  }

  ghost predicate Routed(p: Packet)
  {
    |p| >= 3 && p[1].IPv6? && p[2].SegmentRouting? && p[2].segleft < |p[2].addresses|
  }

  /** The destination is the segment that Segments Left points at. */
  ghost predicate OnPath(p: Packet)
  {
    Routed(p) && p[1].dst == p[2].addresses[p[2].segleft]
  }

  /** An endpoint's processing (RFC 8754 section 4.3.1.1): decrement, then go to that segment. */
  function EndpointStep(p: Packet): Packet
    requires Routed(p) && p[2].segleft > 0
  {
    var left := p[2].segleft - 1;
    p[1 := p[1].(dst := p[2].addresses[left])][2 := p[2].(segleft := left)]
  }

  function Travelled(ends: Endpoints, source: Address, path: seq<Address>, steps: nat): (p: Packet)
    requires steps < |path|
    ensures OnPath(p) && |p| == 4
    ensures p[0] == Ether(ends.macSrc, ends.macDst) && p[3] == IPv6(ends.ipSrc, ends.ipDst, NH_NONE)
    ensures p[1] == IPv6(source, path[steps], NH_ROUTING)
    ensures p[2] == SegmentRouting(Reversed(path), |path| - 1 - steps, |path| - 1, NH_IPV6)
  {
    if steps == 0 then Encapsulation(ends, source, path)
    else EndpointStep(Travelled(ends, source, path, steps - 1))
  }

  /** The fields a check can see. */
  datatype Seen = Seen(ether: Layer, outer: Layer, addresses: seq<Address>, segleft: nat, nextHeader: nat, inner: Layer)

  function Observe(p: Packet): Option<Seen>
  {
    var e, o := Find(p, EtherKind, 0), Find(p, IPv6Kind, 0);
    if e.None? || o.None? then None
    else
      var r := Find(p, RoutingKind, o.value);
      if r.None? then None
      else
        var i := Find(p, IPv6Kind, r.value);
        if i.None? then None
        else
          Some(Seen(p[e.value], p[o.value], p[r.value].addresses, p[r.value].segleft, p[r.value].nextHeader,
                    p[i.value]))
  }

  /** What is to be seen of a packet on its way along a stored segment list. */
  function Expectation(ends: Endpoints, source: Address, list: seq<Address>, left: nat): Seen
    requires left < |list|
  {
    Seen(Ether(ends.macSrc, ends.macDst), IPv6(source, list[left], NH_ROUTING), list, left, NH_IPV6,
         IPv6(ends.ipSrc, ends.ipDst, NH_NONE))
  }

  lemma {:induction false} ReversedTwice(s: seq<Address>)
    ensures Reversed(Reversed(s)) == s
  {
  }

  /** A packet with these four layers. */
  lemma {:induction false} ObserveFour(p: Packet, stored: seq<Address>, left: nat, last: nat)
    requires |p| == 4 && p[0].Ether? && p[1].IPv6? && p[2] == SegmentRouting(stored, left, last, NH_IPV6) && p[3].IPv6?
    ensures Observe(p) == Some(Seen(p[0], p[1], stored, left, NH_IPV6, p[3]))
  {
    assert Find(p, EtherKind, 0) == Some(0);
    assert Find(p, IPv6Kind, 0) == Some(1);
    assert Find(p, RoutingKind, 1) == Some(2);
    assert Find(p, IPv6Kind, 2) == Some(3);
  }

  lemma {:induction false} ObserveTravelled(ends: Endpoints, source: Address, path: seq<Address>, steps: nat)
    requires steps < |path|
    ensures Observe(Travelled(ends, source, path, steps)) ==
            Some(Expectation(ends, source, Reversed(path), |path| - 1 - steps))
  {
    ObserveFour(Travelled(ends, source, path, steps), Reversed(path), |path| - 1 - steps, |path| - 1);
  }

  lemma {:induction false} StoredTravelled(ends: Endpoints, source: Address, list: seq<Address>, path: seq<Address>,
                                           steps: nat)
    requires path == Reversed(list) && steps < |path|
    ensures Observe(Travelled(ends, source, path, steps)) == Some(Expectation(ends, source, list, |list| - 1 - steps))
  {
    ReversedTwice(list);
    var p := Travelled(ends, source, path, steps);
    assert p[2] == SegmentRouting(list, |list| - 1 - steps, |list| - 1, NH_IPV6);
    assert path[steps] == list[|list| - 1 - steps];
    ObserveFour(p, list, |list| - 1 - steps, |list| - 1);
  }

  /** The policy a call expects, in order of travel. */
  function ExpectedPath(sids: Sids, staticProxy: bool): seq<Address> { Reversed(ExpectedList(sids, staticProxy)) }

  /** Acceptance, spelled out over the observable fields. */
  lemma {:induction false} AcceptedMeans(p: Packet, ends: Endpoints, sids: Sids, correction: int, staticProxy: bool)
    requires sids.second != ABSENT
    ensures var list, left := ExpectedList(sids, staticProxy), ExpectedSegmentsLeft(sids, correction, staticProxy);
            CheckSrv6(p, ends, sids, correction, staticProxy).Accepted? <==>
            0 <= left < |list| && Observe(p) == Some(Expectation(ends, sids.source, list, left))
    ensures forall e :: Observe(p) == Some(e) ==>
              var list, left := ExpectedList(sids, staticProxy), ExpectedSegmentsLeft(sids, correction, staticProxy);
              CheckSrv6(p, ends, sids, correction, staticProxy).Accepted? <==>
              && 0 <= left < |list| && e.ether == Ether(ends.macSrc, ends.macDst)
              && e.outer == IPv6(sids.source, list[left], 43) && e.addresses == list && e.segleft == left
              && e.nextHeader == 41 && e.inner == IPv6(ends.ipSrc, ends.ipDst, 59)
  {
  }

  /** The segment list as it is stored: the last SID first, the first one missing for a static proxy of three. */
  lemma {:induction false} ExpectedOnWire(sids: Sids, correction: int, staticProxy: bool)
    ensures var list, left := ExpectedList(sids, staticProxy), ExpectedSegmentsLeft(sids, correction, staticProxy);
            && (sids.third == "None" ==> list == [sids.second, sids.first])
            && (sids.third != "None" && !staticProxy ==> list == [sids.third, sids.second, sids.first])
            && (sids.third != "None" && staticProxy ==> list == [sids.third, sids.second])
            && left == |list| - (if staticProxy then correction - 1 else correction)
  {
  }

  /** A reason names a test that really failed; the last one stands for a layer or list element that is not there. */
  ghost predicate Fails(reason: Reason, p: Packet, ends: Endpoints, sids: Sids, list: seq<Address>, left: int)
  {
    var e, o, r := Find(p, EtherKind, 0), Find(p, IPv6Kind, 0), Find(p, RoutingKind, 0);
    match reason
    case SourceMac => e.Some? && p[e.value].macSrc != ends.macSrc
    case DestinationMac => e.Some? && p[e.value].macDst != ends.macDst
    case NotIPv6 => o.None?
    case OuterSource => o.Some? && p[o.value].src != sids.source
    case OuterDestination => o.Some? && PyIndex(list, left).Some? && p[o.value].dst != PyIndex(list, left).value
    case OuterNextHeader => o.Some? && p[o.value].nh != if sids.second == "None" then 41 else 43
    case UnexpectedRouting => r.Some?
    case MissingRouting => r.None?
    case SegmentList => exists l :: l in p && l.SegmentRouting? && l.addresses != list
    case SegmentsLeft => exists l :: l in p && l.SegmentRouting? && l.segleft != left
    case RoutingNextHeader => exists l :: l in p && l.SegmentRouting? && l.nextHeader != 41
    case InnerSource => exists l :: l in p && l.IPv6? && l.src != ends.ipSrc
    case InnerDestination => exists l :: l in p && l.IPv6? && l.dst != ends.ipDst
    case InnerNextHeader => exists l :: l in p && l.IPv6? && l.nh != 59
    case Lookup =>
      || e.None? || PyIndex(list, left).None?
      || (o.Some? && sids.second == "None" && (o.value + 1 == |p| || !p[o.value + 1].IPv6?))
      || (o.Some? && sids.second != "None" && r.Some?
          && (Find(p, RoutingKind, o.value).None? || Find(p, IPv6Kind, Find(p, RoutingKind, o.value).value).None?))
  }

  lemma {:induction false} ReasonsHold(p: Packet, ends: Endpoints, sids: Sids, correction: int, staticProxy: bool)
    ensures var v := CheckSrv6(p, ends, sids, correction, staticProxy);
            var list, left := ExpectedList(sids, staticProxy), ExpectedSegmentsLeft(sids, correction, staticProxy);
            v.Refused? ==> Fails(v.reason, p, ends, sids, list, left)
  {
    var list, left := ExpectedList(sids, staticProxy), ExpectedSegmentsLeft(sids, correction, staticProxy);
    var o := Find(p, IPv6Kind, 0);
    if o.Some? {
      if sids.second == "None" {
        PlainReasonsHold(p, o.value, ends, sids, list, left);
      } else {
        RoutingReasonsHold(p, o.value, ends, sids, list, left);
      }
    }
  }

  lemma {:induction false} PlainReasonsHold(p: Packet, outer: nat, ends: Endpoints, sids: Sids, list: seq<Address>,
                                            left: int)
    requires Find(p, IPv6Kind, 0) == Some(outer) && sids.second == "None"
    ensures var v := CheckPlain(p, outer, ends); v.Refused? ==> Fails(v.reason, p, ends, sids, list, left)
  {
    if outer + 1 < |p| {
      assert p[outer + 1] in p;
    }
  }

  lemma {:induction false} RoutingReasonsHold(p: Packet, outer: nat, ends: Endpoints, sids: Sids, list: seq<Address>,
                                              left: int)
    requires Find(p, IPv6Kind, 0) == Some(outer) && sids.second != "None"
    ensures var v := CheckRouting(p, outer, ends, list, left); v.Refused? ==> Fails(v.reason, p, ends, sids, list, left)
  {
    var r := Find(p, RoutingKind, outer);
    if r.Some? {
      assert p[r.value] in p;
      var i := Find(p, IPv6Kind, r.value);
      if i.Some? {
        assert p[i.value] in p;
      }
    }
  }

  lemma {:induction false} IpReasonsHold(p: Packet, ends: Endpoints, sids: Sids)
    ensures var v := CheckIp(p, ends); v.Refused? ==> Fails(v.reason, p, ends, sids, [], 0)
  {
    var o := Find(p, IPv6Kind, 0);
    if o.Some? {
      assert p[o.value] in p;
    }
  }

  /**
   * With a routing header, a check accepts exactly the packets that look like the fresh encapsulation of the
   * expected policy after `correction - 1` endpoint steps (one fewer in the static proxy call).
   */
  lemma {:induction false} AcceptsExactlyTravelled(p: Packet, ends: Endpoints, sids: Sids, correction: int,
                                                   staticProxy: bool)
    requires sids.second != ABSENT
    ensures var path := ExpectedPath(sids, staticProxy);
            var steps := correction - if staticProxy then 2 else 1;
            CheckSrv6(p, ends, sids, correction, staticProxy).Accepted? <==>
            0 <= steps < |path| && Observe(p) == Observe(Travelled(ends, sids.source, path, steps))
  {
    var list := ExpectedList(sids, staticProxy);
    var steps := correction - if staticProxy then 2 else 1;
    AcceptedMeans(p, ends, sids, correction, staticProxy);
    assert ExpectedSegmentsLeft(sids, correction, staticProxy) == |list| - 1 - steps;
    if 0 <= steps < |list| {
      StoredTravelled(ends, sids.source, list, ExpectedPath(sids, staticProxy), steps);
    }
  }

  /** The number of endpoint steps already made is determined: no other correction accepts. */
  lemma {:induction false} CorrectionCountsSteps(ends: Endpoints, sids: Sids, steps: nat, correction: int)
    requires sids.second != ABSENT && steps < |ExpectedPath(sids, false)|
    ensures var p := Travelled(ends, sids.source, ExpectedPath(sids, false), steps);
            CheckSrv6(p, ends, sids, correction, false).Accepted? <==> correction == steps + 1
  {
    var path := ExpectedPath(sids, false);
    var p := Travelled(ends, sids.source, path, steps);
    AcceptsExactlyTravelled(p, ends, sids, correction, false);
    ObserveTravelled(ends, sids.source, path, steps);
    if 0 <= correction - 1 < |path| {
      ObserveTravelled(ends, sids.source, path, correction - 1);
    }
  }

  function Policy(sids: Sids): seq<Address>
  {
    if sids.third == ABSENT then [sids.first, sids.second] else [sids.first, sids.second, sids.third]
  }

  lemma {:induction false} PolicyIsExpected(sids: Sids)
    ensures ExpectedPath(sids, false) == Policy(sids)
    ensures ExpectedPath(sids, true) == if sids.third == ABSENT then Policy(sids) else Policy(sids)[1..]
  {
  }

  /**
   * The static proxy call (correction 2) is meant to see the policy without its first SID, freshly encapsulated.
   * It does exactly when a third SID is configured; with two SIDs it asks for the unshortened policy instead.
   */
  lemma {:induction false} StaticProxyNeedsThirdSid(ends: Endpoints, sids: Sids)
    requires sids.second != ABSENT
    ensures CheckSrv6(Travelled(ends, sids.source, Policy(sids)[1..], 0), ends, sids, 2, true).Accepted?
            <==> sids.third != ABSENT
    ensures sids.third == ABSENT ==>
              CheckSrv6(Travelled(ends, sids.source, Policy(sids), 0), ends, sids, 2, true).Accepted?
  {
    PolicyIsExpected(sids);
    ObserveTravelled(ends, sids.source, Policy(sids)[1..], 0);
    ObserveTravelled(ends, sids.source, Policy(sids), 0);
    AcceptsExactlyTravelled(Travelled(ends, sids.source, Policy(sids)[1..], 0), ends, sids, 2, true);
    AcceptsExactlyTravelled(Travelled(ends, sids.source, Policy(sids), 0), ends, sids, 2, true);
  }

  // ---------------------------------------------------------------------
  // The script
  // ---------------------------------------------------------------------

  /** The packet the script itself sends in the second direction. */
  function BuildReply(ends: Endpoints, sids: Sids): Packet
  {
    var outer := [Ether(ends.macSrc, ends.macDst)];
    var inner := [IPv6(ends.ipSrc, ends.ipDst, NH_NONE), OtherLayer];
    if sids.second != ABSENT then
      var last := if sids.third == ABSENT then 1 else 2;
      outer + [IPv6(sids.source, sids.first, NH_ROUTING),
               SegmentRouting(if sids.third == ABSENT then [sids.second, sids.first]
                              else [sids.third, sids.second, sids.first], last, last, NH_IPV6)] + inner
    else
      outer + [IPv6(sids.source, sids.first, NH_IPV6)] + inner
  }

  /** The builder's packet is the fresh encapsulation of its policy. */
  lemma {:induction false} BuilderIsFresh(ends: Endpoints, sids: Sids)
    requires sids.second != ABSENT
    ensures BuildReply(ends, sids)[..4] == Travelled(ends, sids.source, Policy(sids), 0)
    ensures OnPath(BuildReply(ends, sids))
  {
    assert Reversed(Policy(sids)) == BuildReply(ends, sids)[2].addresses;
  }

  /** Without a second SID it is a plain encapsulation for the first one. */
  lemma {:induction false} BuilderIsPlain(ends: Endpoints, sids: Sids)
    requires sids.second == ABSENT
    ensures var p := BuildReply(ends, sids);
            && p == [Ether(ends.macSrc, ends.macDst), IPv6(sids.source, sids.first, NH_IPV6),
                     IPv6(ends.ipSrc, ends.ipDst, NH_NONE), OtherLayer]
            && Find(p, RoutingKind, 0).None?
  {
    var p := BuildReply(ends, sids);
    assert Find(p, RoutingKind, 3).None?;
  }

  /** It is what the first check would accept (correction 1). */
  lemma {:induction false} BuilderIsAccepted(ends: Endpoints, sids: Sids)
    requires sids.second != ABSENT
    ensures CheckSrv6(BuildReply(ends, sids), ends, sids, 1, false).Accepted?
  {
    var p := BuildReply(ends, sids);
    assert Find(p, EtherKind, 0) == Some(0);
    assert Find(p, IPv6Kind, 0) == Some(1);
    assert Find(p, RoutingKind, 1) == Some(2) == Find(p, RoutingKind, 0);
    assert Find(p, IPv6Kind, 2) == Some(3);
  }

  lemma {:induction false} StepStaysOnPath(p: Packet)
    requires OnPath(p) && p[2].segleft > 0
    ensures OnPath(EndpointStep(p)) && EndpointStep(p)[2].segleft == p[2].segleft - 1
    ensures EndpointStep(p)[2].addresses == p[2].addresses
  {
  }

  predicate IsSolicitation(p: Packet) { Find(p, SolicitationKind, 0).Some? }

  lemma {:induction false} SolicitationIff(p: Packet)
    ensures IsSolicitation(p) <==> NeighbourSolicitation in p
  {
    forall l | l in p ensures KindOf(l) == SolicitationKind <==> l == NeighbourSolicitation {
    }
  }

  datatype Config = Config(txSrcMac: string, txDstMac: string, rxSrcMac: string, rxDstMac: string,
                           srcIp: Address, dstIp: Address, forward: Sids, back: Sids, decap: bool, staticProxy: bool)

  datatype Result = Pass | TimeoutError | CheckFailed(reason: Reason) | Running

  function BackEnds(c: Config): Endpoints { Endpoints(c.txDstMac, c.txSrcMac, c.dstIp, c.srcIp) }

  function CheckBack(c: Config, p: Packet): Verdict
  {
    if c.decap then CheckIp(p, BackEnds(c)) else CheckSrv6(p, BackEnds(c), c.back, 2, c.staticProxy)
  }

  /** The packet that comes back has its addresses the other way round and the MACs of the transmitting side. */
  lemma {:induction false} CheckBackIs(c: Config, p: Packet)
    ensures var ends := Endpoints(c.txDstMac, c.txSrcMac, c.dstIp, c.srcIp);
            && (c.decap ==> CheckBack(c, p) == CheckIp(p, ends))
            && (!c.decap ==> CheckBack(c, p) == CheckSrv6(p, ends, c.back, 2, c.staticProxy))
  {
  }

  /** `main`: a plain packet one way, which is to arrive encapsulated, and an encapsulated one the other way. */
  method Script(c: Config, atRx: seq<Option<Packet>>, atTx: seq<Option<Packet>>)
    returns (r: Result, sent: seq<Packet>)
    ensures r.Pass? <==>
            && (exists p :: AwaitOther(atRx, IsSolicitation) == Got(p)
                            && CheckSrv6(p, Endpoints(c.rxSrcMac, c.rxDstMac, c.srcIp, c.dstIp), c.forward, 1, false)
                                 .Accepted?)
            && (exists p :: AwaitOther(atTx, IsSolicitation) == Got(p) && CheckBack(c, p).Accepted?)
    ensures |sent| >= 1 && sent[0] == [Ether(c.txSrcMac, c.txDstMac), IPv6(c.srcIp, c.dstIp, 59), OtherLayer]
    ensures r.Pass? ==>
              |sent| == 2 && sent[1] == BuildReply(Endpoints(c.rxDstMac, c.rxSrcMac, c.dstIp, c.srcIp), c.back)
    ensures r == TimeoutError <==>
            || AwaitOther(atRx, IsSolicitation).RxTimeout?
            || (|sent| == 2 && AwaitOther(atTx, IsSolicitation).RxTimeout?)
  {
    sent := [[Ether(c.txSrcMac, c.txDstMac), IPv6(c.srcIp, c.dstIp, NH_NONE), OtherLayer]];
    var first := AwaitPacket(atRx, IsSolicitation);
    if !first.Got? {
      return if first.RxTimeout? then TimeoutError else Running, sent;
    }
    var v := CheckSrv6(first.packet, Endpoints(c.rxSrcMac, c.rxDstMac, c.srcIp, c.dstIp), c.forward, 1, false);
    if v.Refused? {
      return CheckFailed(v.reason), sent;
    }
    sent := sent + [BuildReply(Endpoints(c.rxDstMac, c.rxSrcMac, c.dstIp, c.srcIp), c.back)];
    var second := AwaitPacket(atTx, IsSolicitation);
    if !second.Got? {
      return if second.RxTimeout? then TimeoutError else Running, sent;
    }
    v := CheckBack(c, second.packet);
    r := if v.Refused? then CheckFailed(v.reason) else Pass;
  }

  function WithMacs(p: Packet, src: string, dst: string): Packet
    requires p != []
  {
    p[0 := Ether(src, dst)]
  }

  /**
   * End to end: a node that steers into the forward policy, and that is the first segment of the backward one,
   * passes the script whatever solicitations arrive in between, when there is no decapsulation and no proxy.
   */
  lemma {:induction false} ConformingNodePasses(c: Config, noiseRx: seq<Option<Packet>>, noiseTx: seq<Option<Packet>>)
    requires !c.decap && !c.staticProxy && c.forward.second != ABSENT && c.back.second != ABSENT
    requires forall i :: 0 <= i < |noiseRx| ==> noiseRx[i].Some? && IsSolicitation(noiseRx[i].value)
    requires forall i :: 0 <= i < |noiseTx| ==> noiseTx[i].Some? && IsSolicitation(noiseTx[i].value)
    ensures var ends := Endpoints(c.rxSrcMac, c.rxDstMac, c.srcIp, c.dstIp);
            var steered := Encapsulation(ends, c.forward.source, Policy(c.forward));
            var atRx := noiseRx + [Some(steered)];
            var sent := BuildReply(Endpoints(c.rxDstMac, c.rxSrcMac, c.dstIp, c.srcIp), c.back);
            && OnPath(sent)
            && var forwarded := WithMacs(EndpointStep(sent), c.txDstMac, c.txSrcMac);
               var atTx := noiseTx + [Some(forwarded)];
               && AwaitOther(atRx, IsSolicitation) == Got(steered)
               && CheckSrv6(steered, ends, c.forward, 1, false).Accepted?
               && AwaitOther(atTx, IsSolicitation) == Got(forwarded)
               && CheckBack(c, forwarded).Accepted?
  {
    var out := Encapsulation(Endpoints(c.rxSrcMac, c.rxDstMac, c.srcIp, c.dstIp), c.forward.source, Policy(c.forward));
    PolicyIsExpected(c.forward);
    CorrectionCountsSteps(Endpoints(c.rxSrcMac, c.rxDstMac, c.srcIp, c.dstIp), c.forward, 0, 1);
    SolicitationsIrrelevant(noiseRx, [Some(out)], IsSolicitation);
    BuilderIsFresh(Endpoints(c.rxDstMac, c.rxSrcMac, c.dstIp, c.srcIp), c.back);
    var sent := BuildReply(Endpoints(c.rxDstMac, c.rxSrcMac, c.dstIp, c.srcIp), c.back);
    var f := WithMacs(EndpointStep(sent), c.txDstMac, c.txSrcMac);
    ForwardedLooks(c);
    SolicitationsIrrelevant(noiseTx, [Some(f)], IsSolicitation);
  }

  lemma {:induction false} ForwardedLooks(c: Config)
    requires !c.decap && !c.staticProxy && c.back.second != ABSENT
    ensures var sent := BuildReply(Endpoints(c.rxDstMac, c.rxSrcMac, c.dstIp, c.srcIp), c.back);
            && OnPath(sent)
            && var f := WithMacs(EndpointStep(sent), c.txDstMac, c.txSrcMac);
               !IsSolicitation(f) && CheckBack(c, f).Accepted?
  {
    BuilderIsFresh(Endpoints(c.rxDstMac, c.rxSrcMac, c.dstIp, c.srcIp), c.back);
    var sent := BuildReply(Endpoints(c.rxDstMac, c.rxSrcMac, c.dstIp, c.srcIp), c.back);
    var f := WithMacs(EndpointStep(sent), c.txDstMac, c.txSrcMac);
    assert Find(f, EtherKind, 0) == Some(0);
    assert Find(f, IPv6Kind, 0) == Some(1);
    assert Find(f, RoutingKind, 1) == Some(2) == Find(f, RoutingKind, 0);
    assert Find(f, IPv6Kind, 2) == Some(3);
  }

  /** The plain check: the right two MAC addresses, and the right two IPv6 addresses with nothing behind them. */
  lemma {:induction false} PlainAcceptedIff(p: Packet, ends: Endpoints)
    ensures CheckIp(p, ends).Accepted? <==>
            && Find(p, EtherKind, 0).Some? && Find(p, IPv6Kind, 0).Some?
            && p[Find(p, EtherKind, 0).value] == Ether(ends.macSrc, ends.macDst)
            && p[Find(p, IPv6Kind, 0).value] == IPv6(ends.ipSrc, ends.ipDst, 59)
  {
  }

  /** With decapsulation the inner packet alone is accepted, and nothing that still carries a routing header. */
  lemma {:induction false} DecapsulatedPasses(c: Config, p: Packet)
    requires c.decap
    ensures var sent := BuildReply(Endpoints(c.rxDstMac, c.rxSrcMac, c.dstIp, c.srcIp), c.back);
            var inner := sent[if c.back.second == ABSENT then 2 else 3..];
            CheckBack(c, [Ether(c.txDstMac, c.txSrcMac)] + inner).Accepted?
    ensures Find(p, IPv6Kind, 0).Some? && p[Find(p, IPv6Kind, 0).value].nh in {NH_IPV6, NH_ROUTING} ==>
              CheckBack(c, p).Refused?
  {
    var sent := BuildReply(Endpoints(c.rxDstMac, c.rxSrcMac, c.dstIp, c.srcIp), c.back);
    var q := [Ether(c.txDstMac, c.txSrcMac)] + sent[if c.back.second == ABSENT then 2 else 3..];
    assert q[1] == IPv6(c.dstIp, c.srcIp, NH_NONE);
    assert Find(q, EtherKind, 0) == Some(0);
    assert Find(q, IPv6Kind, 0) == Some(1);
  }

  /** What is expected without a routing header: a plain encapsulation for one destination. */
  ghost predicate PlainTo(p: Packet, outer: nat, ends: Endpoints, source: Address, dst: Address)
    requires outer < |p|
  {
    && Find(p, EtherKind, 0).Some?
    && p[Find(p, EtherKind, 0).value] == Ether(ends.macSrc, ends.macDst)
    && p[outer] == IPv6(source, dst, 41)
    && Find(p, RoutingKind, outer).None?
    && outer + 1 < |p| && p[outer + 1] == IPv6(ends.ipSrc, ends.ipDst, 59)
  }

  /**
   * Without a second SID there is no routing header. The forward call accepts exactly the plain encapsulations for the
   * first SID, while the backward call without proxy accepts exactly those for the destination "None".
   */
  lemma {:induction false} SingleSid(p: Packet, ends: Endpoints, sids: Sids, outer: nat)
    requires sids.second == ABSENT && Find(p, IPv6Kind, 0) == Some(outer)
    ensures CheckSrv6(p, ends, sids, 1, false).Accepted? <==> PlainTo(p, outer, ends, sids.source, sids.first)
    ensures CheckSrv6(p, ends, sids, 2, false).Accepted? <==> PlainTo(p, outer, ends, sids.source, ABSENT)
  {
  }

  /** So with a single SID, and neither decapsulation nor proxy, no packet to a real destination passes the script. */
  lemma {:induction false} SingleSidNeverPasses(c: Config, p: Packet)
    requires !c.decap && !c.staticProxy && c.back.second == ABSENT
    requires Find(p, IPv6Kind, 0).Some? ==> p[Find(p, IPv6Kind, 0).value].dst != ABSENT
    ensures CheckBack(c, p).Refused?
  {
    if Find(p, IPv6Kind, 0).Some? {
      SingleSid(p, BackEnds(c), c.back, Find(p, IPv6Kind, 0).value);
    }
  }
}
