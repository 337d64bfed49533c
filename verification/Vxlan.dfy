/** The VXLAN profile: raw-offset writes into a packet, and what a receiver decodes from it. */
module Vxlan {
  import opened Bytes
  import opened FlowVars

  const LENGTH := 88
  const VXLAN_PORT := 4789
  const FLAG_I := 0x08

  type Packet = p: seq<Byte> | |p| >= LENGTH witness Zeros(LENGTH)

  /** The fields of an outer VLAN/IPv4/UDP/VXLAN encapsulation of Ethernet/IPv4. */
  datatype Fields = Fields(vlan: nat, outerSrc: seq<Byte>, outerDst: seq<Byte>, sport: nat, dport: nat, vni: nat,
                           innerMacDst: seq<Byte>, innerMacSrc: seq<Byte>, innerSrc: seq<Byte>, innerDst: seq<Byte>)

  /** Follows the headers from the outside in: 802.1Q tag, IPv4 without options, UDP, VXLAN (section 5 of RFC 7348). */
  function Decode(p: Packet): Option<Fields>
  {
    if U16(p, 12) != 0x8100 || U16(p, 16) != 0x0800 then None
    else
      var ip := 18;
      if p[ip] != 0x45 || p[ip + 9] != 17 then None
      else
        var udp := ip + 20;
        if U16(p, udp + 2) != VXLAN_PORT then None
        else
          var vxlan := udp + 8;
          if p[vxlan] != FLAG_I then None
          else
            var eth := vxlan + 8;
            if U16(p, eth + 12) != 0x0800 then None
            else
              var inner := eth + 14;
              if p[inner] != 0x45 then None
              else
                Some(Fields(U16(p, 14) % 0x1000, p[ip + 12..ip + 16], p[ip + 16..ip + 20], U16(p, udp), VXLAN_PORT,
                            p[vxlan + 4] as int * 0x1_0000 + U16(p, vxlan + 5),
                            p[eth..eth + 6], p[eth + 6..eth + 12],
                            p[inner + 12..inner + 16], p[inner + 16..inner + 20]))
  }

  /** Which packets are decoded, and from which bytes, counted from the first one. */
  lemma DecodeReads(p: Packet)
    ensures Decode(p).Some? <==>
            && U16(p, 12) == 0x8100 && U16(p, 16) == 0x0800 && p[18] == 0x45 && p[27] == 17
            && U16(p, 40) == 4789 && p[46] == 0x08 && U16(p, 66) == 0x0800 && p[68] == 0x45
    ensures Decode(p).Some? ==>
              var f := Decode(p).value;
              && f.vlan == U16(p, 14) % 4096 && f.outerSrc == p[30..34] && f.outerDst == p[34..38]
              && f.sport == U16(p, 38) && f.dport == U16(p, 40) && f.vni == p[50] as int * 65536 + U16(p, 51)
              && f.innerMacDst == p[54..60] && f.innerMacSrc == p[60..66]
              && f.innerSrc == p[80..84] && f.innerDst == p[84..88]
  {
  }

  /** The base packets of the two directions. */
  const FORWARD := Fields(100, [172, 17, 0, 2], [172, 16, 0, 1], 1024, VXLAN_PORT, 0,
                          [0, 0xbb, 0xbb, 0, 0, 0], [0, 0xaa, 0xaa, 0, 0, 0], [10, 0, 0, 2], [10, 0, 0, 1])
  const BACKWARD := Fields(200, [172, 27, 0, 2], [172, 26, 0, 1], 1024, VXLAN_PORT, 0,
                           [0, 0xaa, 0xaa, 0, 0, 0], [0, 0xbb, 0xbb, 0, 0, 0], [10, 0, 0, 1], [10, 0, 0, 2])

  /** Header bytes that no field of `Fields` determines: MACs, lengths, identification, checksums. */
  datatype Rest = Rest(macs: seq<Byte>, ip: seq<Byte>, ipChecksum: seq<Byte>, udp: seq<Byte>, inner: seq<Byte>)

  ghost predicate ValidRest(r: Rest)
  {
    |r.macs| == 12 && |r.ip| == 8 && |r.ipChecksum| == 2 && |r.udp| == 4 && |r.inner| == 11
  }

  ghost predicate ValidFields(f: Fields)
  {
    && f.vlan < 0x1000 && f.sport < 0x1_0000 && f.dport == VXLAN_PORT && f.vni < 0x100_0000
    && |f.outerSrc| == |f.outerDst| == |f.innerSrc| == |f.innerDst| == 4
    && |f.innerMacDst| == |f.innerMacSrc| == 6
  }

  function Outer(f: Fields, r: Rest): seq<Byte>
    requires ValidFields(f)
  {
    r.macs + [0x81, 0x00, f.vlan / 256, f.vlan % 256, 0x08, 0x00, 0x45] + r.ip + [17] + r.ipChecksum
    + f.outerSrc + f.outerDst
  }

  function Middle(f: Fields, r: Rest): seq<Byte>
    requires ValidFields(f)
  {
    [f.sport / 256, f.sport % 256, VXLAN_PORT / 256, VXLAN_PORT % 256] + r.udp
    + [FLAG_I, 0, 0, 0, f.vni / 0x1_0000, f.vni / 0x100 % 0x100, f.vni % 0x100, 0]
  }

  function Inner(f: Fields, r: Rest): seq<Byte>
  {
    f.innerMacDst + f.innerMacSrc + [0x08, 0x00, 0x45] + r.inner + f.innerSrc + f.innerDst
  }

  /** The packet as its layers are stacked: Ethernet, 802.1Q, IPv4, UDP, VXLAN, Ethernet, IPv4, payload. */
  function BasePacket(f: Fields, r: Rest, payload: seq<Byte>): seq<Byte>
    requires ValidFields(f)
  {
    Outer(f, r) + Middle(f, r) + Inner(f, r) + payload
  }

  lemma BasePacketDecodes(f: Fields, r: Rest, payload: seq<Byte>)
    requires ValidFields(f) && ValidRest(r)
    ensures |BasePacket(f, r, payload)| >= LENGTH && Decode(BasePacket(f, r, payload)) == Some(f)
    ensures var p := BasePacket(f, r, payload); p[47..50] == [0, 0, 0] && p[53] == 0
  {
    var p := BasePacket(f, r, payload);
    var o, m, i := Outer(f, r), Middle(f, r), Inner(f, r);
    assert |o| == 38 && |m| == 16 && |i| == 34;
    assert p[..38] == o && p[38..54] == m && p[54..88] == i;
    OuterFields(f, r);
    MiddleFields(f, r);
    InnerFields(f, r);
    PartsDecode(p, f);
  }

  lemma OuterFields(f: Fields, r: Rest)
    requires ValidFields(f) && ValidRest(r)
    ensures var o := Outer(f, r);
            && |o| == 38 && U16(o, 12) == 0x8100 && U16(o, 14) == f.vlan && U16(o, 16) == 0x0800
            && o[18] == 0x45 && o[27] == 17 && o[30..34] == f.outerSrc && o[34..38] == f.outerDst
  {
  }

  lemma MiddleFields(f: Fields, r: Rest)
    requires ValidFields(f) && ValidRest(r)
    ensures var m := Middle(f, r);
            && |m| == 16 && U16(m, 0) == f.sport && U16(m, 2) == VXLAN_PORT && m[8] == FLAG_I
            && m[12] as int * 0x1_0000 + U16(m, 13) == f.vni
  {
  }

  lemma InnerFields(f: Fields, r: Rest)
    requires ValidFields(f) && ValidRest(r)
    ensures var i := Inner(f, r);
            && |i| == 34 && i[0..6] == f.innerMacDst && i[6..12] == f.innerMacSrc && U16(i, 12) == 0x0800
            && i[14] == 0x45 && i[26..30] == f.innerSrc && i[30..34] == f.innerDst
  {
  }

  lemma PartsDecode(p: Packet, f: Fields)
    requires ValidFields(f)
    requires var o := p[..38]; U16(o, 12) == 0x8100 && U16(o, 14) == f.vlan && U16(o, 16) == 0x0800 && o[18] == 0x45
                               && o[27] == 17 && o[30..34] == f.outerSrc && o[34..38] == f.outerDst
    requires var m := p[38..54]; U16(m, 0) == f.sport && U16(m, 2) == VXLAN_PORT && m[8] == FLAG_I
                                 && m[12] as int * 0x1_0000 + U16(m, 13) == f.vni
    requires var i := p[54..88]; i[0..6] == f.innerMacDst && i[6..12] == f.innerMacSrc && U16(i, 12) == 0x0800
                                 && i[14] == 0x45 && i[26..30] == f.innerSrc && i[30..34] == f.innerDst
    ensures Decode(p) == Some(f)
  {
    SliceOfSlice(p, 0, 38, 30, 34);
    SliceOfSlice(p, 0, 38, 34, 38);
    SliceOfSlice(p, 54, 88, 0, 6);
    SliceOfSlice(p, 54, 88, 6, 12);
    SliceOfSlice(p, 54, 88, 26, 30);
    SliceOfSlice(p, 54, 88, 30, 34);
  }

  lemma SliceOfSlice<T>(s: seq<T>, a: nat, b: nat, c: nat, d: nat)
    requires c <= d && a + d <= b <= |s|
    ensures s[a..b][c..d] == s[a + c..a + d]
  {
    forall i | 0 <= i < d - c ensures s[a..b][c..d][i] == s[a + c..a + d][i] {
      assert s[a..b][c..d][i] == s[a..b][c + i] == s[a + c + i];
    }
  }

  // ---------------------------------------------------------------------
  // The flow program
  // ---------------------------------------------------------------------

  datatype Write = Write(at: nat, size: nat, value: nat)

  const UDP_SPORT := 38

  /** The seven writes of packet `k`, in program order; `chains` is the number of chains, `sport` a random choice. */
  function Writes(chains: nat, k: nat, sport: nat): seq<Write>
    requires chains >= 1
  {
    var nfId := FlowVars.Packet([Wheel(0, chains - 1, 1)], k)[0];
    var inMac := FlowVars.Packet([Wheel(0, 255, 1)], k)[0];
    var inIp := FlowVars.Packet([Wheel(0, 255, 1)], k)[0];
    [Write(32, 1, nfId), Write(UDP_SPORT, 2, sport), Write(52, 1, nfId), Write(58, 2, inMac), Write(64, 2, inMac),
     Write(82, 1, inIp), Write(86, 1, inIp)]
  }

  function Apply(p: Packet, w: Write): (q: Packet)
    requires w.at + w.size <= LENGTH
    ensures |q| == |p|
  {
    p[..w.at] + ToBigEndian(w.value, w.size) + p[w.at + w.size..]
  }

  function ApplyAll(p: Packet, ws: seq<Write>): (q: Packet)
    requires forall i :: 0 <= i < |ws| ==> ws[i].at + ws[i].size <= LENGTH
    ensures |q| == |p|
    decreases |ws|
  {
    if ws == [] then p else ApplyAll(Apply(p, ws[0]), ws[1..])
  }

  /** What leaves the generator: the writes, then the two outer checksums as the hardware fills them in. */
  function Sent(base: Packet, chains: nat, k: nat, sport: nat, ipChecksum: nat, udpChecksum: nat): Packet
    requires chains >= 1
  {
    ApplyAll(base, Writes(chains, k, sport) + [Write(28, 2, ipChecksum), Write(44, 2, udpChecksum)])
  }

  lemma WriteValues(chains: nat, k: nat, sport: nat)
    requires chains >= 1
    ensures Writes(chains, k, sport) ==
            [Write(32, 1, k % chains), Write(UDP_SPORT, 2, sport), Write(52, 1, k % chains), Write(58, 2, k % 256),
             Write(64, 2, k % 256), Write(82, 1, k % 256), Write(86, 1, k % 256)]
  {
    UnitWheel(Wheel(0, chains - 1, 1), chains, k);
    UnitWheel(Wheel(0, 255, 1), 256, k);
  }

  ghost predicate Covers(w: Write, j: nat) { w.at <= j < w.at + w.size }

  /** No two writes, checksums included, touch the same byte. */
  lemma WritesDisjoint(chains: nat, k: nat, sport: nat, c: nat, d: nat, i: nat, j: nat, at: nat)
    requires chains >= 1
    requires var ws := Writes(chains, k, sport) + [Write(28, 2, c), Write(44, 2, d)];
             i < j < |ws| && Covers(ws[i], at)
    ensures !Covers((Writes(chains, k, sport) + [Write(28, 2, c), Write(44, 2, d)])[j], at)
  {
  }

  lemma ApplyAt(p: Packet, w: Write, j: nat)
    requires w.at + w.size <= LENGTH && j < |p|
    ensures Apply(p, w)[j] == if Covers(w, j) then ToBigEndian(w.value, w.size)[j - w.at] else p[j]
  {
  }

  /** A byte outside all writes is the base packet's. */
  lemma {:induction false} Untouched(p: Packet, ws: seq<Write>, j: nat)
    requires forall i :: 0 <= i < |ws| ==> ws[i].at + ws[i].size <= LENGTH
    requires j < |p| && forall i :: 0 <= i < |ws| ==> !Covers(ws[i], j)
    ensures ApplyAll(p, ws)[j] == p[j]
    decreases |ws|
  {
    if ws != [] {
      ApplyAt(p, ws[0], j);
      Untouched(Apply(p, ws[0]), ws[1..], j);
    }
  }

  /** With disjoint writes every one of them is there at the end. */
  lemma {:induction false} Written(p: Packet, ws: seq<Write>, i: nat, j: nat)
    requires forall m :: 0 <= m < |ws| ==> ws[m].at + ws[m].size <= LENGTH
    requires i < |ws| && Covers(ws[i], j) && forall m :: i < m < |ws| ==> !Covers(ws[m], j)
    ensures ApplyAll(p, ws)[j] == ToBigEndian(ws[i].value, ws[i].size)[j - ws[i].at]
    decreases |ws|
  {
    if i == 0 {
      ApplyAt(p, ws[0], j);
      Untouched(Apply(p, ws[0]), ws[1..], j);
    } else {
      Written(Apply(p, ws[0]), ws[1..], i - 1, j);
    }
  }

  /** Every byte of a sent packet: chain number, source port, low MAC and IP octets, two checksums, else the base. */
  ghost function Expected(base: Packet, chain: Byte, low: Byte, sport: nat, c: nat, d: nat, j: nat): Byte
    requires j < |base|
  {
    if j == 32 || j == 52 then chain
    else if j == 38 then sport / 256 % 256
    else if j == 39 then sport % 256
    else if j == 58 || j == 64 then 0
    else if j == 59 || j == 65 || j == 82 || j == 86 then low
    else if j == 28 then c / 256 % 256
    else if j == 29 then c % 256
    else if j == 44 then d / 256 % 256
    else if j == 45 then d % 256
    else base[j]
  }

  lemma SentByte(base: Packet, chains: nat, k: nat, sport: nat, c: nat, d: nat, j: nat)
    requires 1 <= chains <= 256 && sport < 0x1_0000 && c < 0x1_0000 && d < 0x1_0000 && j < |base|
    ensures Sent(base, chains, k, sport, c, d)[j] == Expected(base, k % chains, k % 256, sport, c, d, j)
  {
    WriteValues(chains, k, sport);
    var ws := Writes(chains, k, sport) + [Write(28, 2, c), Write(44, 2, d)];
    OneByte(k % chains);
    OneByte(k % 256);
    TwoBytes(k % 256);
    TwoBytes(sport);
    TwoBytes(c);
    TwoBytes(d);
    var i :=
      if j == 32 then 0 else if 38 <= j < 40 then 1 else if j == 52 then 2 else if 58 <= j < 60 then 3
      else if 64 <= j < 66 then 4 else if j == 82 then 5 else if j == 86 then 6
      else if 28 <= j < 30 then 7 else if 44 <= j < 46 then 8 else 9;
    if i < 9 {
      Written(base, ws, i, j);
    } else {
      Untouched(base, ws, j);
    }
  }

  ghost predicate SameHeaders(p: Packet, q: Packet)
  {
    forall j :: j in {12, 13, 14, 15, 16, 17, 18, 27, 40, 41, 46, 50, 51, 66, 67, 68} ==> q[j] == p[j]
  }

  lemma SentSlices(base: Packet, chains: nat, k: nat, sport: nat, c: nat, d: nat)
    requires 1 <= chains <= 256 && sport < 0x1_0000 && c < 0x1_0000 && d < 0x1_0000
    requires base[58] == 0 == base[64]
    ensures var q := Sent(base, chains, k, sport, c, d);
            && SameHeaders(base, q)
            && q[30..34] == base[30..34][2 := k % chains] && q[34..38] == base[34..38]
            && q[38] == sport / 256 && q[39] == sport % 256 && q[52] == k % chains
            && q[54..60] == base[54..60][5 := k % 256] && q[60..66] == base[60..66][5 := k % 256]
            && q[80..84] == base[80..84][2 := k % 256] && q[84..88] == base[84..88][2 := k % 256]
  {
    var q := Sent(base, chains, k, sport, c, d);
    forall j: nat | j < |base| ensures q[j] == Expected(base, k % chains, k % 256, sport, c, d, j) {
      SentByte(base, chains, k, sport, c, d, j);
    }
  }

  /**
   * Packet `k` of either direction decodes to its base with VNI and third source octet `k mod chains`, the
   * chosen source port, and inner MAC and IP octets `k mod 256` that agree on the two ends.
   */
  lemma DecodedFields(base: Packet, f: Fields, chains: nat, k: nat, sport: nat, c: nat, d: nat)
    requires 1 <= chains <= 256 && sport < 0x1_0000 && c < 0x1_0000 && d < 0x1_0000
    requires Decode(base) == Some(f) && f in {FORWARD, BACKWARD}
    ensures Decode(Sent(base, chains, k, sport, c, d)) ==
            Some(f.(outerSrc := f.outerSrc[2 := k % chains], sport := sport, vni := k % chains,
                    innerMacDst := f.innerMacDst[5 := k % 256], innerMacSrc := f.innerMacSrc[5 := k % 256],
                    innerSrc := f.innerSrc[2 := k % 256], innerDst := f.innerDst[2 := k % 256]))
  {
    assert base[58] == base[54..60][4] && base[64] == base[60..66][4];
    SentSlices(base, chains, k, sport, c, d);
    SlicesDecode(base, Sent(base, chains, k, sport, c, d), f, k % chains, k % 256, sport);
  }

  /** The two directions written out. */
  lemma ForwardPackets(base: Packet, chains: nat, k: nat, sport: nat, c: nat, d: nat)
    requires 1 <= chains <= 256 && sport < 0x1_0000 && c < 0x1_0000 && d < 0x1_0000 && Decode(base) == Some(FORWARD)
    ensures Decode(Sent(base, chains, k, sport, c, d)) ==
            Some(Fields(100, [172, 17, k % chains, 2], [172, 16, 0, 1], sport, 4789, k % chains,
                        [0, 0xbb, 0xbb, 0, 0, k % 256], [0, 0xaa, 0xaa, 0, 0, k % 256],
                        [10, 0, k % 256, 2], [10, 0, k % 256, 1]))
    ensures FORWARD.sport == 1024 && FORWARD.outerSrc[2] == 0 && FORWARD.vni == 0
  {
    var chain: Byte, low: Byte := k % chains, k % 256;
    DecodedFields(base, FORWARD, chains, k, sport, c, d);
    assert [172, 17, 0, 2][2 := chain] == [172, 17, chain, 2];
    assert [0, 0xbb, 0xbb, 0, 0, 0][5 := low] == [0, 0xbb, 0xbb, 0, 0, low];
    assert [0, 0xaa, 0xaa, 0, 0, 0][5 := low] == [0, 0xaa, 0xaa, 0, 0, low];
    assert [10, 0, 0, 2][2 := low] == [10, 0, low, 2];
    assert [10, 0, 0, 1][2 := low] == [10, 0, low, 1];
  }

  lemma BackwardPackets(base: Packet, chains: nat, k: nat, sport: nat, c: nat, d: nat)
    requires 1 <= chains <= 256 && sport < 0x1_0000 && c < 0x1_0000 && d < 0x1_0000 && Decode(base) == Some(BACKWARD)
    ensures Decode(Sent(base, chains, k, sport, c, d)) ==
            Some(Fields(200, [172, 27, k % chains, 2], [172, 26, 0, 1], sport, 4789, k % chains,
                        [0, 0xaa, 0xaa, 0, 0, k % 256], [0, 0xbb, 0xbb, 0, 0, k % 256],
                        [10, 0, k % 256, 1], [10, 0, k % 256, 2]))
    ensures BACKWARD.sport == 1024 && BACKWARD.outerSrc[2] == 0 && BACKWARD.vni == 0
  {
    var chain: Byte, low: Byte := k % chains, k % 256;
    DecodedFields(base, BACKWARD, chains, k, sport, c, d);
    assert [172, 27, 0, 2][2 := chain] == [172, 27, chain, 2];
    assert [0, 0xaa, 0xaa, 0, 0, 0][5 := low] == [0, 0xaa, 0xaa, 0, 0, low];
    assert [0, 0xbb, 0xbb, 0, 0, 0][5 := low] == [0, 0xbb, 0xbb, 0, 0, low];
    assert [10, 0, 0, 1][2 := low] == [10, 0, low, 1];
    assert [10, 0, 0, 2][2 := low] == [10, 0, low, 2];
  }

  lemma SlicesDecode(base: Packet, q: Packet, f: Fields, chain: Byte, low: Byte, sport: nat)
    requires sport < 0x1_0000 && Decode(base) == Some(f) && f.vni == 0 && SameHeaders(base, q)
    requires q[30..34] == base[30..34][2 := chain] && q[34..38] == base[34..38]
    requires q[38] == sport / 256 && q[39] == sport % 256 && q[52] == chain
    requires q[54..60] == base[54..60][5 := low] && q[60..66] == base[60..66][5 := low]
    requires q[80..84] == base[80..84][2 := low] && q[84..88] == base[84..88][2 := low]
    ensures Decode(q) == Some(f.(outerSrc := f.outerSrc[2 := chain], sport := sport, vni := chain,
                                 innerMacDst := f.innerMacDst[5 := low], innerMacSrc := f.innerMacSrc[5 := low],
                                 innerSrc := f.innerSrc[2 := low], innerDst := f.innerDst[2 := low]))
  {
    assert forall j :: j in {12, 13, 14, 15, 16, 17, 18, 27, 40, 41, 46, 50, 51, 66, 67, 68} ==> q[j] == base[j];
  }
}
