/** Traffic profiles that sweep header fields: address and port pairs for NAT, and chain and node numbers. */
module SweepProfiles {
  import opened Bytes
  import opened FlowVars

  function Ipv4(a: Byte, b: Byte, c: Byte, d: Byte): nat
  {
    a as int * 0x100_0000 + b as int * 0x1_0000 + c as int * 0x100 + d as int
  }

  lemma DottedIsBigEndian(a: Byte, b: Byte, c: Byte, d: Byte)
    ensures Ipv4(a, b, c, d) == BigEndian([a, b, c, d])
  {
    assert [a, b, c, d][..3] == [a, b, c] && [a, b, c][..2] == [a, b] && [a, b][..1] == [a] && [a][..0] == [];
    assert BigEndian([a]) == a;
    assert BigEndian([a, b]) == BigEndian([a]) * 256 + b;
    assert BigEndian([a, b, c]) == BigEndian([a, b]) * 256 + c;
  }

  datatype Var = Var(name: string, wheel: Wheel, next: Option<string>)

  /** A flow program under construction: each call appends, as on the generator's own object. */
  class FlowProgram {
    var vars: seq<Var>
    var writes: map<string, string>

    constructor ()
      ensures vars == [] && writes == map[]
    {
      vars, writes := [], map[];
    }

    method Declare(name: string, min: nat, max: nat, next: Option<string>)
      modifies this`vars
      ensures vars == old(vars) + [Var(name, Wheel(min, max, 1), next)]
    {
      vars := vars + [Var(name, Wheel(min, max, 1), next)];
    }

    method Write(name: string, field: string)
      modifies this`writes
      ensures writes == old(writes)[field := name]
    {
      writes := writes[field := name];
    }
  }

  function Lookup(vars: seq<Var>, name: string): Option<Var>
  {
    if vars == [] then None else if vars[0].name == name then Some(vars[0]) else Lookup(vars[1..], name)
  }

  /** A variable followed by those it advances; no chain is longer than the declarations. */
  function Chain(vars: seq<Var>, name: string, atMost: nat): seq<Wheel>
    decreases atMost
  {
    if atMost == 0 then []
    else
      match Lookup(vars, name)
      case None => []
      case Some(v) => [v.wheel] + if v.next.Some? then Chain(vars, v.next.value, atMost - 1) else []
  }

  const INSIDE_IP := Wheel(Ipv4(172, 16, 0, 0), Ipv4(172, 31, 255, 255), 1)
  const INSIDE_PORT := Wheel(1024, 1086, 1)
  const OUTSIDE_IP := Wheel(Ipv4(68, 142, 68, 0), Ipv4(68, 142, 71, 255), 1)
  const OUTSIDE_PORT := Wheel(1024, 65535, 1)
  const PEER_IP := Wheel(Ipv4(20, 0, 0, 0), Ipv4(20, 0, 0, 0), 1)
  const PEER_PORT := Wheel(1024, 1024, 1)

  /** 172.16/12 with ports 1024-1086 inside, 68.142.68/22 with ports 1024-65535 outside, 20.0.0.0 port 1024 beyond. */
  lemma Ranges()
    ensures INSIDE_IP == Wheel(0xAC10_0000, 0xAC1F_FFFF, 1) && INSIDE_PORT == Wheel(1024, 1086, 1)
    ensures OUTSIDE_IP == Wheel(0x448E_4400, 0x448E_47FF, 1) && OUTSIDE_PORT == Wheel(1024, 65535, 1)
    ensures PEER_IP == Wheel(0x1400_0000, 0x1400_0000, 1) && PEER_PORT == Wheel(1024, 1024, 1)
  {
  }

  /** One direction's program of the NAT profile: which of the two address/port pairs is a chain differs. */
  method BuildProgram(sIP: Wheel, sport: Wheel, dIP: Wheel, dport: Wheel, chainDestination: bool)
    returns (vm: FlowProgram)
    requires sIP.step == sport.step == dIP.step == dport.step == 1
    ensures fresh(vm)
    ensures vm.writes == map["IP.src" := "sIP", "UDP.sport" := "sport", "IP.dst" := "dIP", "UDP.dport" := "dport"]
    ensures Chain(vm.vars, "sIP", |vm.vars|) == [sIP, sport]
    ensures Chain(vm.vars, "dIP", |vm.vars|) == if chainDestination then [dIP, dport] else [dIP]
    ensures !chainDestination ==> Chain(vm.vars, "dport", |vm.vars|) == [dport]
  {
    vm := new FlowProgram();
    vm.Declare("sIP", sIP.min, sIP.max, Some("sport"));
    vm.Declare("sport", sport.min, sport.max, None);
    vm.Declare("dIP", dIP.min, dIP.max, if chainDestination then Some("dport") else None);
    vm.Declare("dport", dport.min, dport.max, None);
    vm.Write("sIP", "IP.src");
    vm.Write("sport", "UDP.sport");
    vm.Write("dIP", "IP.dst");
    vm.Write("dport", "UDP.dport");
    var vs := vm.vars;
    assert vs == [Var("sIP", sIP, Some("sport")), Var("sport", sport, None),
                  Var("dIP", dIP, if chainDestination then Some("dport") else None), Var("dport", dport, None)];
    assert vs[1..][1..] == vs[2..] && vs[2..][1..] == vs[3..];
    assert Lookup(vs, "sport") == Lookup(vs[1..], "sport") == Some(vs[1]);
    assert Lookup(vs, "dIP") == Lookup(vs[1..], "dIP") == Lookup(vs[2..], "dIP") == Some(vs[2]);
    assert Lookup(vs, "dport") == Lookup(vs[1..], "dport") == Lookup(vs[2..], "dport")
        == Lookup(vs[3..], "dport") == Some(vs[3]);
    assert Chain(vs, "sport", 3) == [sport] && Chain(vs, "dport", 3) == [dport];
  }

  /** `define_packets` of the 1048576u63p profile. */
  method DefinePackets() returns (vm1: FlowProgram, vm2: FlowProgram)
    ensures fresh(vm1) && fresh(vm2) && vm1.writes == vm2.writes
    ensures vm1.writes == map["IP.src" := "sIP", "UDP.sport" := "sport", "IP.dst" := "dIP", "UDP.dport" := "dport"]
    ensures Chain(vm1.vars, "sIP", |vm1.vars|) == [INSIDE_IP, INSIDE_PORT]
    ensures Chain(vm1.vars, "dIP", |vm1.vars|) == [PEER_IP] && Chain(vm1.vars, "dport", |vm1.vars|) == [PEER_PORT]
    ensures Chain(vm2.vars, "dIP", |vm2.vars|) == [OUTSIDE_IP, OUTSIDE_PORT]
    ensures Chain(vm2.vars, "sIP", |vm2.vars|) == [PEER_IP, PEER_PORT]
  {
    vm1 := BuildProgram(INSIDE_IP, INSIDE_PORT, PEER_IP, PEER_PORT, false);
    vm2 := BuildProgram(PEER_IP, PEER_PORT, OUTSIDE_IP, OUTSIDE_PORT, true);
  }

  ghost predicate PairAt(ip: Wheel, port: Wheel, x: nat, y: nat, start: nat, period: nat, k: nat)
  {
    start <= k < start + period && Packet([ip, port], k) == [x, y]
  }

  /** With unit steps, every window of one period carries every pair of the two ranges once and only once. */
  lemma EachPairOnce(ip: Wheel, port: Wheel, x: nat, y: nat, start: nat)
    requires ip.Valid() && port.Valid() && ip.step == port.step == 1
    requires ip.min <= x <= ip.max && port.min <= y <= port.max
    ensures exists k: nat :: PairAt(ip, port, x, y, start, ip.Count() * port.Count(), k)
    ensures forall k: nat, m: nat | PairAt(ip, port, x, y, start, ip.Count() * port.Count(), k)
                                    && PairAt(ip, port, x, y, start, ip.Count() * port.Count(), m) :: k == m
  {
    var cs, ds := [ip.Count(), port.Count()], [x - ip.min, y - port.min];
    PairPeriod(ip.Count(), port.Count());
    forall k: nat ensures PairAt(ip, port, x, y, start, ip.Count() * port.Count(), k) <==> HitAt(cs, ds, start, k) {
      PairIsDigits(ip, port, x, y, k);
    }
    assert InRange(cs, ds);
    var hit := WindowHits(cs, ds, start);
    assert PairAt(ip, port, x, y, start, ip.Count() * port.Count(), hit);
    forall k: nat, m: nat | PairAt(ip, port, x, y, start, ip.Count() * port.Count(), k)
                            && PairAt(ip, port, x, y, start, ip.Count() * port.Count(), m) ensures k == m {
      WindowHitsAtMostOnce(cs, ds, start, k, m);
    }
  }

  lemma PairPeriod(a: nat, b: nat)
    ensures Product([a, b]) == a * b
  {
    assert [a, b][1..] == [b] && [b][1..] == [];
    assert Product([b]) == b * 1;
  }

  lemma PairIsDigits(ip: Wheel, port: Wheel, x: nat, y: nat, k: nat)
    requires ip.Valid() && port.Valid() && ip.step == port.step == 1 && ip.min <= x && port.min <= y
    ensures Packet([ip, port], k) == [x, y] <==> Digits([ip.Count(), port.Count()], k) == [x - ip.min, y - port.min]
  {
    TwoWheels(ip, port, k);
    var cs := [ip.Count(), port.Count()];
    assert cs[1..] == [port.Count()];
    assert Digits(cs, k) == [k % ip.Count(), k / ip.Count() % port.Count()];
  }

  /** The two directions of the NAT profile cover 1048576 x 63 and 1024 x 64512 pairs: the same number. */
  lemma SamePeriod()
    ensures INSIDE_IP.Count() == 1048576 && INSIDE_PORT.Count() == 63
    ensures OUTSIDE_IP.Count() == 1024 && OUTSIDE_PORT.Count() == 64512
    ensures INSIDE_IP.Count() * INSIDE_PORT.Count() == OUTSIDE_IP.Count() * OUTSIDE_PORT.Count() == 66060288
  {
  }

  /** Inside, every 66060288 consecutive packets carry every source address with every source port, once. */
  lemma InsidePairsOnce(x: nat, y: nat, start: nat)
    requires INSIDE_IP.min <= x <= INSIDE_IP.max && INSIDE_PORT.min <= y <= INSIDE_PORT.max
    ensures exists k: nat :: PairAt(INSIDE_IP, INSIDE_PORT, x, y, start, 66060288, k)
    ensures forall k: nat, m: nat | PairAt(INSIDE_IP, INSIDE_PORT, x, y, start, 66060288, k)
                                    && PairAt(INSIDE_IP, INSIDE_PORT, x, y, start, 66060288, m) :: k == m
  {
    SamePeriod();
    EachPairOnce(INSIDE_IP, INSIDE_PORT, x, y, start);
  }

  /** Outside, the same many carry every destination address with every destination port, once. */
  lemma OutsidePairsOnce(x: nat, y: nat, start: nat)
    requires OUTSIDE_IP.min <= x <= OUTSIDE_IP.max && OUTSIDE_PORT.min <= y <= OUTSIDE_PORT.max
    ensures exists k: nat :: PairAt(OUTSIDE_IP, OUTSIDE_PORT, x, y, start, 66060288, k)
    ensures forall k: nat, m: nat | PairAt(OUTSIDE_IP, OUTSIDE_PORT, x, y, start, 66060288, k)
                                    && PairAt(OUTSIDE_IP, OUTSIDE_PORT, x, y, start, 66060288, m) :: k == m
  {
    SamePeriod();
    EachPairOnce(OUTSIDE_IP, OUTSIDE_PORT, x, y, start);
  }

  /** Packet `k` carries the address `k mod U` and the port `k div U mod P` places into their ranges. */
  lemma UnitPair(ip: Wheel, port: Wheel, k: nat)
    requires ip.Valid() && port.Valid() && ip.step == port.step == 1
    ensures Packet([ip, port], k) == [ip.min + k % ip.Count(), port.min + k / ip.Count() % port.Count()]
  {
    TwoWheels(ip, port, k);
  }

  /** A pair of one address and one port, as the peer has, never changes. */
  lemma FixedPair(ip: Wheel, port: Wheel, k: nat)
    requires ip.min == ip.max && port.min == port.max && ip.step == port.step == 1
    ensures Packet([ip, port], k) == [ip.min, port.min]
    ensures Packet([ip], k) == [ip.min] && Packet([port], k) == [port.min]
  {
    assert ip.Count() == 1 && port.Count() == 1;
    UnitPair(ip, port, k);
    SingleWheel(ip, k);
    SingleWheel(port, k);
  }

  // ---------------------------------------------------------------------
  // Chains of nodes
  // ---------------------------------------------------------------------

  /** The destination MAC byte of the two directions, for `c` chains of `n` nodes. */
  function FirstNode(c: nat, n: nat): Wheel { Wheel(1, c * n, n) }

  function LastNode(c: nat, n: nat): Wheel { Wheel(n, c * n, n) }

  lemma ChainCounts(c: nat, n: nat)
    requires c >= 1 && n >= 1
    ensures FirstNode(c, n).Valid() && LastNode(c, n).Valid()
    ensures FirstNode(c, n).Count() == c == LastNode(c, n).Count()
  {
    Monotone(n, 1, c);
    assert c * n == n * c;
    assert c * n - 1 == (c - 1) * n + (n - 1);
    DivModUnique(c * n - 1, n, c - 1, n - 1);
    assert c * n - n == (c - 1) * n + 0;
    DivModUnique(c * n - n, n, c - 1, 0);
  }

  /**
   * Packet `k` enters chain `k mod c`, at its first node in one direction and at its last in the other; the
   * number always fits the byte it is written to.
   */
  lemma ChainAddressing(c: nat, n: nat, k: nat)
    requires c >= 1 && n >= 1 && c * n <= 255
    ensures Packet([FirstNode(c, n)], k) == [1 + k % c * n]
    ensures Packet([LastNode(c, n)], k) == [(k % c + 1) * n]
    ensures 1 + k % c * n <= (k % c + 1) * n <= 255
  {
    ChainCounts(c, n);
    SingleWheel(FirstNode(c, n), k);
    SingleWheel(LastNode(c, n), k);
    assert (k % c + 1) * n == n + n * (k % c) && n * (k % c) == k % c * n;
  }

  /** Every round of `c` packets enters every chain, at both ends, and none twice. */
  lemma ChainsVisited(c: nat, n: nat, i: nat, start: nat) returns (k: nat)
    requires c >= 1 && n >= 1 && c * n <= 255 && i < c
    ensures start <= k < start + c && k % c == i
    ensures Packet([FirstNode(c, n)], k) == [1 + i * n] && Packet([LastNode(c, n)], k) == [(i + 1) * n]
    ensures forall m: nat :: start <= m < start + c && m % c == i ==> m == k
  {
    k := InWindow(i, start, c);
    DivModUnique(i, c, 0, i);
    ChainAddressing(c, n, k);
    forall m: nat | start <= m < start + c && m % c == i ensures m == k {
      SameInWindow(k, m, start, c);
    }
  }
}
