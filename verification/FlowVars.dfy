/**
 * Flow variables of the traffic generator. The generator itself is not part of the repository; the one thing
 * assumed of it is `Advance`: a variable starts at its minimum, every packet adds the step, a value past the
 * maximum is reset to the minimum, and a reset advances the variable named as the next one.
 */
module FlowVars {

  datatype Wheel = Wheel(min: nat, max: nat, step: nat)
  {
    ghost predicate Valid() { min <= max && step >= 1 }

    /** How many values it runs through. */
    function Count(): (n: nat)
      requires step >= 1 && min <= max
      ensures n >= 1
    {
      (max - min) / step + 1
    }

    function Value(digit: nat): nat { min + step * digit }
  }

  ghost predicate AllValid(ws: seq<Wheel>) { forall i :: 0 <= i < |ws| ==> ws[i].Valid() }

  /** One packet: the first variable of a chain moves, the others only when their predecessor is reset. */
  function Advance(ws: seq<Wheel>, vs: seq<nat>): (r: seq<nat>)
    requires |vs| == |ws|
    ensures |r| == |ws|
  {
    if ws == [] then []
    else
      var v := vs[0] + ws[0].step;
      if v <= ws[0].max then [v] + vs[1..] else [ws[0].min] + Advance(ws[1..], vs[1..])
  }

  function Minima(ws: seq<Wheel>): (vs: seq<nat>)
    ensures |vs| == |ws|
  {
    if ws == [] then [] else [ws[0].min] + Minima(ws[1..])
  }

  /** The values written into packet number `k`. */
  function Packet(ws: seq<Wheel>, k: nat): (vs: seq<nat>)
    ensures |vs| == |ws|
  {
    if k == 0 then Minima(ws) else Advance(ws, Packet(ws, k - 1))
  }

  // ---------------------------------------------------------------------
  // Mixed-radix numbers
  // ---------------------------------------------------------------------

  ghost predicate Positive(cs: seq<nat>) { forall i :: 0 <= i < |cs| ==> cs[i] >= 1 }

  function Product(cs: seq<nat>): nat { if cs == [] then 1 else cs[0] * Product(cs[1..]) }

  function Digits(cs: seq<nat>, k: nat): (ds: seq<nat>)
    requires Positive(cs)
    ensures |ds| == |cs|
    decreases |cs|
  {
    if cs == [] then [] else [k % cs[0]] + Digits(cs[1..], k / cs[0])
  }

  function Number(cs: seq<nat>, ds: seq<nat>): nat
    requires |ds| == |cs|
  {
    if cs == [] then 0 else ds[0] + cs[0] * Number(cs[1..], ds[1..])
  }

  ghost predicate InRange(cs: seq<nat>, ds: seq<nat>)
  {
    |ds| == |cs| && forall i :: 0 <= i < |cs| ==> ds[i] < cs[i]
  }

  lemma DivModUnique(n: int, d: int, q: int, r: int)
    requires d >= 1 && n == q * d + r && 0 <= r < d
    ensures n / d == q && n % d == r
  {
    var q', r' := n / d, n % d;
    assert n == q' * d + r';
    assert (q - q') * d == r' - r;
    SmallMultiple(q - q', d, r' - r);
  }

  lemma SmallMultiple(k: int, d: int, x: int)
    requires d >= 1 && k * d == x && -d < x < d
    ensures k == 0
  {
    if k >= 1 {
      Monotone(d, 1, k);
    } else if k <= -1 {
      Monotone(d, 1, -k);
    }
  }

  lemma {:induction false} ProductPositive(cs: seq<nat>)
    requires Positive(cs)
    ensures Product(cs) >= 1
  {
    if cs != [] {
      ProductPositive(cs[1..]);
      assert cs[0] * Product(cs[1..]) >= 1 * Product(cs[1..]);
    }
  }

  /** Taking a number apart digit by digit loses only what the last carry drops. */
  lemma {:induction false} NumberOfDigits(cs: seq<nat>, k: nat)
    requires Positive(cs)
    ensures InRange(cs, Digits(cs, k))
    ensures Product(cs) >= 1 && Number(cs, Digits(cs, k)) == k % Product(cs)
    decreases |cs|
  {
    ProductPositive(cs);
    if cs != [] {
      var c, rest := cs[0], cs[1..];
      var P := Product(rest);
      ProductPositive(rest);
      NumberOfDigits(rest, k / c);
      var low, high := k % c, (k / c) % P;
      assert Digits(cs, k)[1..] == Digits(rest, k / c);
      assert Number(cs, Digits(cs, k)) == low + c * high;
      SplitModulo(k, c, P);
    }
  }

  lemma SplitModulo(k: nat, c: nat, P: nat)
    requires c >= 1 && P >= 1
    ensures c * P >= 1 && k % (c * P) == k % c + c * ((k / c) % P)
  {
    var low, q := k % c, k / c;
    var high, q' := q % P, q / P;
    assert k == c * q + low && q == P * q' + high;
    assert c * q == c * (P * q') + c * high;
    assert c * (P * q') == q' * (c * P);
    DigitBound(c, high, low, P);
    assert c * P >= 1;
    DivModUnique(k, c * P, q', c * high + low);
  }

  lemma {:induction false} DigitsOfNumber(cs: seq<nat>, ds: seq<nat>)
    requires Positive(cs) && InRange(cs, ds)
    ensures Digits(cs, Number(cs, ds)) == ds && Number(cs, ds) < Product(cs)
    decreases |cs|
  {
    if cs != [] {
      var n := Number(cs[1..], ds[1..]);
      DigitsOfNumber(cs[1..], ds[1..]);
      assert Number(cs, ds) == n * cs[0] + ds[0];
      DivModUnique(Number(cs, ds), cs[0], n, ds[0]);
      DigitBound(cs[0], n, ds[0], Product(cs[1..]));
    }
  }

  lemma DigitBound(c: nat, n: nat, d: nat, P: nat)
    requires n < P && d < c
    ensures c * n + d < c * P
  {
    Monotone(c, n + 1, P);
    assert c * (n + 1) == c * n + c;
  }

  /** Two packet numbers show the same digits exactly when they agree modulo the product. */
  lemma SameDigitsIff(cs: seq<nat>, k: nat, m: nat)
    requires Positive(cs)
    ensures Product(cs) >= 1
    ensures Digits(cs, k) == Digits(cs, m) <==> k % Product(cs) == m % Product(cs)
  {
    NumberOfDigits(cs, k);
    NumberOfDigits(cs, m);
    DigitsOfNumber(cs, Digits(cs, k));
    DigitsOfNumber(cs, Digits(cs, m));
  }

  ghost predicate HitAt(cs: seq<nat>, ds: seq<nat>, start: nat, k: nat)
    requires Positive(cs)
  {
    start <= k < start + Product(cs) && Digits(cs, k) == ds
  }

  lemma WindowHits(cs: seq<nat>, ds: seq<nat>, start: nat) returns (k: nat)
    requires Positive(cs) && InRange(cs, ds)
    ensures HitAt(cs, ds, start, k)
  {
    DigitsOfNumber(cs, ds);
    k := InWindow(Number(cs, ds), start, Product(cs));
    SameDigitsIff(cs, k, Number(cs, ds));
  }

  lemma WindowHitsAtMostOnce(cs: seq<nat>, ds: seq<nat>, start: nat, k: nat, m: nat)
    requires Positive(cs) && HitAt(cs, ds, start, k) && HitAt(cs, ds, start, m)
    ensures k == m
  {
    SameDigitsIff(cs, k, m);
    SameInWindow(k, m, start, Product(cs));
  }

  /** Every window of one period shows every combination once and only once. */
  lemma WindowHitsOnce(cs: seq<nat>, ds: seq<nat>, start: nat)
    requires Positive(cs) && InRange(cs, ds)
    ensures exists k: nat :: HitAt(cs, ds, start, k)
    ensures forall k: nat, m: nat :: HitAt(cs, ds, start, k) && HitAt(cs, ds, start, m) ==> k == m
  {
    var hit := WindowHits(cs, ds, start);
    forall k: nat, m: nat | HitAt(cs, ds, start, k) && HitAt(cs, ds, start, m) ensures k == m {
      WindowHitsAtMostOnce(cs, ds, start, k, m);
    }
  }

  lemma InWindow(n: nat, start: nat, P: nat) returns (k: nat)
    requires n < P
    ensures start <= k < start + P && k % P == n % P
  {
    var d := (n - start) % P;
    k := start + d;
    assert n - start == (n - start) / P * P + d;
    DivModUnique(k, P, -((n - start) / P), n);
    DivModUnique(n, P, 0, n);
  }

  lemma SameInWindow(k: nat, m: nat, start: nat, P: nat)
    requires P >= 1 && start <= k < start + P && start <= m < start + P && k % P == m % P
    ensures k == m
  {
    assert k == k / P * P + k % P && m == m / P * P + m % P;
    assert (k / P - m / P) * P == k - m;
    SmallMultiple(k / P - m / P, P, k - m);
  }

  // ---------------------------------------------------------------------
  // Flow variables count in mixed radix
  // ---------------------------------------------------------------------

  function Counts(ws: seq<Wheel>): (cs: seq<nat>)
    requires AllValid(ws)
    ensures |cs| == |ws| && Positive(cs)
    ensures forall i :: 0 <= i < |ws| ==> cs[i] == ws[i].Count()
  {
    if ws == [] then [] else [ws[0].Count()] + Counts(ws[1..])
  }

  ghost predicate Shows(ws: seq<Wheel>, vs: seq<nat>, ds: seq<nat>)
  {
    |vs| == |ws| == |ds| && forall i :: 0 <= i < |ws| ==> vs[i] == ws[i].Value(ds[i])
  }

  lemma WheelStep(w: Wheel, d: nat)
    requires w.Valid() && d < w.Count()
    ensures w.Value(d) + w.step == w.Value(d + 1)
    ensures w.Value(d) <= w.max
    ensures w.Value(d + 1) <= w.max <==> d + 1 < w.Count()
  {
    var q := (w.max - w.min) / w.step;
    var r := (w.max - w.min) % w.step;
    assert w.max - w.min == w.step * q + r;
    assert w.step * (d + 1) == w.step * d + w.step;
    Monotone(w.step, d, q);
    if d + 1 <= q { Monotone(w.step, d + 1, q); } else { Monotone(w.step, q + 1, d + 1); }
    assert w.step * (q + 1) == w.step * q + w.step;
  }

  lemma Monotone(s: nat, a: nat, b: nat)
    requires a <= b
    ensures s * a <= s * b
  {
    assert s * b == s * a + s * (b - a);
  }

  lemma NextDigit(k: nat, c: nat)
    requires c >= 1
    ensures k % c + 1 < c ==> (k + 1) % c == k % c + 1 && (k + 1) / c == k / c
    ensures k % c + 1 == c ==> (k + 1) % c == 0 && (k + 1) / c == k / c + 1
  {
    assert k == k / c * c + k % c;
    if k % c + 1 < c {
      DivModUnique(k + 1, c, k / c, k % c + 1);
    } else {
      assert (k / c + 1) * c == k / c * c + c;
      DivModUnique(k + 1, c, k / c + 1, 0);
    }
  }

  lemma {:induction false} AdvanceShowsNext(ws: seq<Wheel>, vs: seq<nat>, k: nat)
    requires AllValid(ws) && Shows(ws, vs, Digits(Counts(ws), k))
    ensures Shows(ws, Advance(ws, vs), Digits(Counts(ws), k + 1))
    decreases |ws|
  {
    if ws != [] {
      var w, c, rest := ws[0], ws[0].Count(), ws[1..];
      assert Counts(ws)[1..] == Counts(rest);
      var ds := Digits(Counts(ws), k);
      assert ds[0] == k % c && ds[1..] == Digits(Counts(rest), k / c);
      WheelStep(w, k % c);
      NextDigit(k, c);
      assert Shows(rest, vs[1..], Digits(Counts(rest), k / c));
      if k % c + 1 == c {
        AdvanceShowsNext(rest, vs[1..], k / c);
        assert w.Value(0) == w.min;
      }
    }
  }

  lemma {:induction false} MinimaShowZero(ws: seq<Wheel>)
    requires AllValid(ws)
    ensures Shows(ws, Minima(ws), Digits(Counts(ws), 0))
    decreases |ws|
  {
    if ws != [] {
      MinimaShowZero(ws[1..]);
      assert Counts(ws)[1..] == Counts(ws[1..]);
      assert 0 % ws[0].Count() == 0 && 0 / ws[0].Count() == 0;
    }
  }

  /** Packet `k` of a chain of variables carries the mixed-radix digits of `k`. */
  lemma {:induction false} PacketShowsDigits(ws: seq<Wheel>, k: nat)
    requires AllValid(ws)
    ensures Shows(ws, Packet(ws, k), Digits(Counts(ws), k))
    decreases k
  {
    if k == 0 {
      MinimaShowZero(ws);
    } else {
      PacketShowsDigits(ws, k - 1);
      AdvanceShowsNext(ws, Packet(ws, k - 1), k - 1);
    }
  }

  /** A variable on its own. */
  lemma SingleWheel(w: Wheel, k: nat)
    requires w.Valid()
    ensures Packet([w], k)[0] == w.Value(k % w.Count()) <= w.max
  {
    PacketShowsDigits([w], k);
    assert Counts([w]) == [w.Count()];
    WheelStep(w, k % w.Count());
  }

  /** With unit steps: `n` values in a row. */
  lemma UnitWheel(w: Wheel, n: nat, k: nat)
    requires n >= 1 && w == Wheel(w.min, w.min + n - 1, 1)
    ensures Packet([w], k)[0] == w.min + k % n
  {
    SingleWheel(w, k);
    assert w.Count() == n;
  }

  /** A variable and the one it advances. */
  lemma TwoWheels(inner: Wheel, outer: Wheel, k: nat)
    requires inner.Valid() && outer.Valid()
    ensures Packet([inner, outer], k) ==
            [inner.Value(k % inner.Count()), outer.Value(k / inner.Count() % outer.Count())]
  {
    var ws := [inner, outer];
    PacketShowsDigits(ws, k);
    var cs := Counts(ws);
    assert cs == [inner.Count(), outer.Count()] && cs[1..] == [outer.Count()];
    assert Digits(cs, k)[1..] == Digits(cs[1..], k / inner.Count());
  }
}
