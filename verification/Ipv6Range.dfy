/** `_get_start_end_ipv6` and the destination sweep that a profile builds from its result. */
module Ipv6Range {
  import opened Bytes
  import opened FlowVars

  const TWO_64 := 0x1_0000_0000_0000_0000

  /** Sixteen bytes in network order. */
  type Address = s: seq<Byte> | |s| == 16 witness Zeros(16)

  function High(a: Address): nat { BigEndian(a[..8]) }

  function Low(a: Address): nat { BigEndian(a[8..]) }

  datatype Range = Range(base: nat, count: nat) | StartAfterEnd | NotAnAddress

  /** The arguments are what `inet_pton` made of the two strings. */
  function GetStartEnd(start: Option<Address>, end: Option<Address>): Range
  {
    if start.None? || end.None? then NotAnAddress
    else
      var lo1, lo2 := Low(start.value), Low(end.value);
      if High(start.value) * TWO_64 + lo1 > High(end.value) * TWO_64 + lo2 then StartAfterEnd
      else Range(lo1, if lo1 < lo2 then lo2 - lo1 else lo1 - lo2)
  }

  lemma NotAnAddressIff(start: Option<Address>, end: Option<Address>)
    ensures GetStartEnd(start, end).NotAnAddress? <==> start.None? || end.None?
  {
  }

  // ---------------------------------------------------------------------
  // Byte order and number order
  // ---------------------------------------------------------------------

  /** Dictionary order of equally long byte strings. */
  ghost predicate Before(a: seq<Byte>, b: seq<Byte>)
  {
    |a| == |b| && exists i :: 0 <= i < |a| && a[..i] == b[..i] && a[i] < b[i]
  }

  lemma {:induction false} BeforeIffLess(a: seq<Byte>, b: seq<Byte>)
    requires |a| == |b|
    ensures Before(a, b) <==> BigEndian(a) < BigEndian(b)
    decreases |a|
  {
    if a != [] {
      var n := |a| - 1;
      var a', b' := a[..n], b[..n];
      BeforeIffLess(a', b');
      SameNumber(a', b');
      BeforeByLast(a, b);
      DigitOrder(BigEndian(a'), a[n], BigEndian(b'), b[n]);
    }
  }

  lemma SameNumber(a: seq<Byte>, b: seq<Byte>)
    requires |a| == |b|
    ensures BigEndian(a) == BigEndian(b) <==> a == b
  {
    ReadWrite(a);
    ReadWrite(b);
  }

  lemma DigitOrder(x: nat, p: Byte, y: nat, q: Byte)
    ensures x * 256 + p < y * 256 + q <==> x < y || (x == y && p < q)
  {
  }

  lemma BeforeByLast(a: seq<Byte>, b: seq<Byte>)
    requires |a| == |b| > 0
    ensures var n := |a| - 1;
            Before(a, b) <==> Before(a[..n], b[..n]) || (a[..n] == b[..n] && a[n] < b[n])
  {
    var n := |a| - 1;
    if i :| 0 <= i < |a| && a[..i] == b[..i] && a[i] < b[i] {
      if i < n {
        assert a[..n][..i] == a[..i] && b[..n][..i] == b[..i];
        assert a[..n][i] < b[..n][i];
      }
    }
    if Before(a[..n], b[..n]) {
      var i :| 0 <= i < n && a[..n][..i] == b[..n][..i] && a[..n][i] < b[..n][i];
      assert a[..n][..i] == a[..i] && b[..n][..i] == b[..i];
    }
    if a[..n] == b[..n] && a[n] < b[n] {
      assert a[..n] == b[..n] && 0 <= n < |a|;
    }
  }

  lemma {:induction false} Split(s: seq<Byte>, i: nat)
    requires i <= |s|
    ensures BigEndian(s) == BigEndian(s[..i]) * Pow256(|s| - i) + BigEndian(s[i..])
    decreases |s|
  {
    if i == |s| {
      assert s[..i] == s;
    } else {
      var n := |s| - 1;
      Split(s[..n], i);
      assert s[..n][..i] == s[..i] && s[..n][i..] == s[i..n] == s[i..][..n - i];
      ShiftByte(BigEndian(s[..i]), Pow256(n - i), BigEndian(s[i..n]), s[n]);
    }
  }

  lemma ShiftByte(x: int, p: int, y: int, d: int)
    ensures (x * p + y) * 256 + d == x * (256 * p) + (y * 256 + d)
  {
  }

  lemma EightBytes()
    ensures Pow256(8) == TWO_64
  {
    assert Pow256(4) == 0x1_0000_0000;
    assert Pow256(8) == 256 * (256 * (256 * (256 * Pow256(4))));
  }

  lemma Halves(a: Address)
    ensures BigEndian(a) == High(a) * TWO_64 + Low(a)
    ensures High(a) < TWO_64 && Low(a) < TWO_64
  {
    Split(a, 8);
    EightBytes();
    ReadWrite(a[..8]);
    ReadWrite(a[8..]);
  }

  /** The comparison of two halves is the dictionary order of the addresses. */
  lemma RefusedIffAfter(start: Address, end: Address)
    ensures GetStartEnd(Some(start), Some(end)).StartAfterEnd? <==> Before(end, start)
  {
    Halves(start);
    Halves(end);
    BeforeIffLess(end, start);
  }

  // ---------------------------------------------------------------------
  // The sweep
  // ---------------------------------------------------------------------

  /** The flow variable is written as eight bytes at offset 8 of the destination, over the start address. */
  function WriteLow(start: Address, v: nat): Address { start[..8] + ToBigEndian(v, 8) }

  function SweepWheel(r: Range): Wheel
    requires r.Range?
  {
    Wheel(r.base, r.base + r.count, 1)
  }

  function SweptAddress(start: Address, r: Range, k: nat): Address
    requires r.Range?
  {
    WriteLow(start, Packet([SweepWheel(r)], k)[0])
  }

  lemma WriteLowValue(start: Address, v: nat)
    requires v < TWO_64
    ensures BigEndian(WriteLow(start, v)) == High(start) * TWO_64 + v
  {
    var a := WriteLow(start, v);
    Halves(a);
    assert a[..8] == start[..8] && a[8..] == ToBigEndian(v, 8);
    EightBytes();
    WriteRead(v, 8);
  }

  lemma RangeOf(start: Address, end: Address)
    requires High(start) == High(end) && GetStartEnd(Some(start), Some(end)).Range?
    ensures var r := GetStartEnd(Some(start), Some(end));
            && r.base == Low(start) && r.base + r.count == Low(end) < TWO_64
            && r.count == BigEndian(end) - BigEndian(start)
  {
    Halves(start);
    Halves(end);
  }

  /** Packet `k` goes to the address `k mod (count + 1)` places after the start, within 64 bits. */
  lemma SweepAt(start: Address, end: Address, k: nat)
    requires High(start) == High(end) && GetStartEnd(Some(start), Some(end)).Range?
    ensures var r := GetStartEnd(Some(start), Some(end));
            && r.base + r.count == Low(end) < TWO_64
            && r.count == BigEndian(end) - BigEndian(start)
            && BigEndian(SweptAddress(start, r, k)) == BigEndian(start) + k % (r.count + 1)
  {
    RangeOf(start, end);
    Halves(start);
    SweepValue(start, GetStartEnd(Some(start), Some(end)), k);
  }

  lemma SweepValue(start: Address, r: Range, k: nat)
    requires r.Range? && r.base + r.count < TWO_64
    ensures BigEndian(SweptAddress(start, r, k)) == High(start) * TWO_64 + r.base + k % (r.count + 1)
  {
    var v := Packet([SweepWheel(r)], k)[0];
    UnitWheel(SweepWheel(r), r.count + 1, k);
    assert v <= r.base + r.count;
    WriteLowValue(start, v);
  }

  ghost predicate Between(start: Address, a: Address, end: Address)
  {
    BigEndian(start) <= BigEndian(a) <= BigEndian(end)
  }

  /** With equal upper halves, any `count + 1` packets in a row visit every address of the range exactly once. */
  lemma SweepVisitsOnce(start: Address, end: Address, a: Address, from: nat) returns (k: nat)
    requires High(start) == High(end) && GetStartEnd(Some(start), Some(end)).Range? && Between(start, a, end)
    ensures var r := GetStartEnd(Some(start), Some(end));
            && from <= k < from + r.count + 1 && SweptAddress(start, r, k) == a
            && forall m: nat :: from <= m < from + r.count + 1 && SweptAddress(start, r, m) == a ==> m == k
  {
    var r := GetStartEnd(Some(start), Some(end));
    var n := BigEndian(a) - BigEndian(start);
    SweepAt(start, end, 0);
    k := InWindow(n, from, r.count + 1);
    DivModUnique(n, r.count + 1, 0, n);
    SweepAt(start, end, k);
    SameNumber(SweptAddress(start, r, k), a);
    forall m: nat | from <= m < from + r.count + 1 && SweptAddress(start, r, m) == a ensures m == k {
      SweepAt(start, end, m);
      SameInWindow(k, m, from, r.count + 1);
    }
  }

  /** No packet leaves the range either. */
  lemma SweepStaysBetween(start: Address, end: Address, k: nat)
    requires High(start) == High(end) && GetStartEnd(Some(start), Some(end)).Range?
    ensures Between(start, SweptAddress(start, GetStartEnd(Some(start), Some(end)), k), end)
  {
    SweepAt(start, end, k);
    var n := GetStartEnd(Some(start), Some(end)).count + 1;
    assert k % n < n;
  }

  /** Equal upper halves are needed: otherwise the end address is never visited. */
  lemma EndVisitedIff(start: Address, end: Address)
    requires GetStartEnd(Some(start), Some(end)).Range?
    ensures (exists k: nat :: SweptAddress(start, GetStartEnd(Some(start), Some(end)), k) == end)
            <==> High(start) == High(end)
  {
    var r := GetStartEnd(Some(start), Some(end));
    if High(start) == High(end) {
      Halves(start);
      Halves(end);
      var k := SweepVisitsOnce(start, end, end, 0);
    } else {
      forall k: nat ensures SweptAddress(start, r, k) != end {
        assert SweptAddress(start, r, k)[..8] == start[..8];
      }
    }
  }

  /** Nor does the largest value then have to fit: for ...:ffff:ffff:ffff:ffff to the next address it does not. */
  lemma DifferentHalvesMayOverflow()
    ensures exists start: Address, end: Address ::
              var r := GetStartEnd(Some(start), Some(end)); r.Range? && r.base + r.count >= TWO_64
  {
    var start: Address := Zeros(8) + seq(8, i => 255);
    var end: Address := Zeros(7) + [1] + Zeros(8);
    assert start[..8] == Zeros(8) && start[8..] == seq(8, i => 255);
    assert end[..8] == Zeros(7) + [1] && end[8..] == Zeros(8);
    ZeroIsZero(8);
    ZeroIsZero(7);
    assert (Zeros(7) + [1])[..7] == Zeros(7);
    AllOnes(8);
    EightBytes();
    assert GetStartEnd(Some(start), Some(end)) == Range(TWO_64 - 1, TWO_64 - 1);
  }

  lemma {:induction false} ZeroIsZero(n: nat)
    ensures BigEndian(Zeros(n)) == 0
  {
    if n > 0 {
      assert Zeros(n)[..n - 1] == Zeros(n - 1);
      ZeroIsZero(n - 1);
    }
  }

  lemma {:induction false} AllOnes(n: nat)
    ensures BigEndian(seq(n, i => 255)) == Pow256(n) - 1
  {
    if n > 0 {
      assert seq<Byte>(n, i => 255)[..n - 1] == seq<Byte>(n - 1, i => 255);
      AllOnes(n - 1);
    }
  }
}
