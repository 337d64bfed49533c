/** The search for no-drop and partial-drop rates: how a trial narrows two intervals, and which rate is tried next. */
module MlrSearch {
  import opened Bytes

  /** One measurement: for how long and at what target rate, the fraction lost, and the rate received. */
  datatype Trial = Trial(duration: real, rate: real, loss: real, received: real)

  datatype Interval = Interval(lo: Trial, hi: Trial)

  function Sorted(a: Trial, b: Trial): (i: Interval)
    ensures i.lo.rate <= i.hi.rate
  {
    if a.rate > b.rate then Interval(b, a) else Interval(a, b)
  }

  /** Relative width. */
  function Width(i: Interval): real
    requires i.hi.rate > 0.0
  {
    (i.hi.rate - i.lo.rate) / i.hi.rate
  }

  function Larger(x: real, y: real): real { if x < y then y else x }

  function Smaller(x: real, y: real): real { if y < x then y else x }

  // ---------------------------------------------------------------------
  // One trial updates an interval
  // ---------------------------------------------------------------------

  function NewInterval(i: Interval, m: Trial, ratio: real): Interval
  {
    if m.rate == i.lo.rate then Sorted(m, i.hi)
    else if m.rate == i.hi.rate then Sorted(i.lo, m)
    else if i.lo.loss > ratio then
      if m.rate < i.lo.rate then Sorted(m, i.lo) else i
    else if m.rate < i.lo.rate then
      if m.loss > ratio then Sorted(m, i.hi) else i
    else if m.rate > i.hi.rate then
      if i.hi.loss <= ratio then Sorted(i.hi, m) else i
    else if m.loss > ratio then Sorted(i.lo, m)
    else Sorted(m, i.hi)
  }

  /**
   * What a trial does to an interval, case by case: at a rate that is already a bound it replaces that bound. Elsewhere
   * an invalid lower bound gives way to a lower trial only, and becomes the upper bound; a valid one gives way to a
   * lower trial that loses too much, with the upper bound kept; above a good upper bound the interval moves up; and
   * between the bounds the trial takes the side its loss says. In all other cases nothing changes.
   */
  ghost predicate Updated(i: Interval, m: Trial, ratio: real, n: Interval)
  {
    var lo, hi := i.lo, i.hi;
    && (m.rate == lo.rate ==> n == Interval(m, hi))
    && (m.rate == hi.rate > lo.rate ==> n == Interval(lo, m))
    && (m.rate < lo.rate && lo.loss > ratio ==> n == Interval(m, lo))
    && (m.rate < lo.rate && lo.loss <= ratio && m.loss > ratio ==> n == Interval(m, hi))
    && (m.rate > hi.rate && lo.loss <= ratio && hi.loss <= ratio ==> n == Interval(hi, m))
    && (lo.rate < m.rate < hi.rate && lo.loss <= ratio && m.loss > ratio ==> n == Interval(lo, m))
    && (lo.rate < m.rate < hi.rate && lo.loss <= ratio && m.loss <= ratio ==> n == Interval(m, hi))
    && (m.rate < lo.rate && lo.loss <= ratio && m.loss <= ratio ==> n == i)
    && (m.rate > hi.rate && (lo.loss > ratio || hi.loss > ratio) ==> n == i)
    && (lo.rate < m.rate < hi.rate && lo.loss > ratio ==> n == i)
  }

  lemma TrialUpdates(i: Interval, m: Trial, ratio: real)
    requires i.lo.rate <= i.hi.rate
    ensures Updated(i, m, ratio, NewInterval(i, m, ratio))
    ensures forall n :: Updated(i, m, ratio, n) ==> n == NewInterval(i, m, ratio)
  {
  }

  /**
   * In any system: a lossy upper bound is lost only by a trial at its own rate, and a valid lower bound only by a trial
   * at its own rate or by a lower one that loses too much.
   */
  lemma ValidBoundsStay(i: Interval, m: Trial, ratio: real)
    requires i.lo.rate < i.hi.rate
    ensures var n := NewInterval(i, m, ratio);
            && (i.hi.loss > ratio && m.rate != i.hi.rate ==> n.hi.loss > ratio)
            && (i.lo.loss <= ratio && m.rate != i.lo.rate && !(m.rate < i.lo.rate && m.loss > ratio) ==>
                  n.lo.loss <= ratio)
  {
  }

  /** A trial of the history after which that rate was not tried again. */
  ghost predicate Latest(trials: seq<Trial>, t: Trial)
  {
    exists k: nat :: k < |trials| && trials[k] == t && forall j: nat :: k < j < |trials| ==> trials[j].rate != t.rate
  }

  lemma LatestNew(trials: seq<Trial>, m: Trial)
    ensures Latest(trials + [m], m)
  {
    assert (trials + [m])[|trials|] == m;
  }

  lemma LatestKept(trials: seq<Trial>, t: Trial, m: Trial)
    requires Latest(trials, t) && m.rate != t.rate
    ensures Latest(trials + [m], t)
  {
    var k: nat :| k < |trials| && trials[k] == t && forall j: nat :: k < j < |trials| ==> trials[j].rate != t.rate;
    assert (trials + [m])[k] == t;
  }

  /** Both bounds are the latest word on two different rates. */
  ghost predicate UpToDate(trials: seq<Trial>, i: Interval)
  {
    i.lo.rate < i.hi.rate && Latest(trials, i.lo) && Latest(trials, i.hi)
  }

  /** After any trial, whatever it showed, both bounds are still the latest word on their rates. */
  lemma StaysUpToDate(trials: seq<Trial>, i: Interval, m: Trial, ratio: real)
    requires UpToDate(trials, i)
    ensures UpToDate(trials + [m], NewInterval(i, m, ratio))
  {
    LatestNew(trials, m);
    if m.rate != i.lo.rate {
      LatestKept(trials, i.lo, m);
    }
    if m.rate != i.hi.rate {
      LatestKept(trials, i.hi, m);
    }
  }

  /** The bounds separate rates with a loss up to `ratio` from rates with more. */
  ghost predicate Brackets(i: Interval, ratio: real) { i.lo.loss <= ratio < i.hi.loss }

  ghost predicate Monotone(loss: real -> real) { forall x, y :: x <= y ==> loss(x) <= loss(y) }

  /** In a system whose loss is a monotone function of the rate, a bracket is never lost and never widens. */
  lemma BracketStays(loss: real -> real, i: Interval, m: Trial, ratio: real)
    requires Monotone(loss) && i.lo.rate < i.hi.rate && Brackets(i, ratio)
    requires i.lo.loss == loss(i.lo.rate) && i.hi.loss == loss(i.hi.rate) && m.loss == loss(m.rate)
    ensures var n := NewInterval(i, m, ratio);
            && Brackets(n, ratio) && i.lo.rate <= n.lo.rate < n.hi.rate <= i.hi.rate
            && (i.lo.rate < m.rate < i.hi.rate ==> m == if m.loss > ratio then n.hi else n.lo)
  {
  }

  // ---------------------------------------------------------------------
  // Steps on the logarithmic scale
  // ---------------------------------------------------------------------

  function DoubleWidth(w: real): real { 1.999 * w - w * w }

  function DoubledWidth(w: real, times: nat): real
  {
    if times == 0 then w else DoubleWidth(DoubledWidth(w, times - 1))
  }

  lemma PositiveProduct(x: real, y: real)
    requires x > 0.0 && y > 0.0
    ensures x * y > 0.0
  {
  }

  lemma PositiveQuotient(x: real, f: real)
    requires x > 0.0 && f > 0.0
    ensures x / f > 0.0
  {
  }

  lemma DoubleStaysWidth(w: real)
    requires 0.0 <= w < 1.0
    ensures 0.0 <= DoubleWidth(w) < 1.0
    ensures w > 0.0 ==> DoubleWidth(w) > 0.0
  {
    assert DoubleWidth(w) == w * (1.999 - w);
    if w > 0.0 {
      PositiveProduct(w, 1.999 - w);
    }
    PositiveProduct(1.0 - w, 1.0 - w);
    assert 1.0 - DoubleWidth(w) == (1.0 - w) * (1.0 - w) + 0.001 * w;
  }

  /** Doubling squares what is left of the rate, up to a thousandth of the width. */
  lemma DoublingSquares(w: real, times: nat)
    ensures DoubledWidth(w, 0) == w
    ensures var d := DoubledWidth(w, times);
            1.0 - DoubledWidth(w, times + 1) == (1.0 - d) * (1.0 - d) + 0.001 * d
  {
  }

  lemma {:induction false} DoubledStaysWidth(w: real, times: nat)
    requires 0.0 <= w < 1.0
    ensures 0.0 <= DoubledWidth(w, times) < 1.0
    ensures w > 0.0 ==> DoubledWidth(w, times) > 0.0
  {
    if times > 0 {
      DoubledStaysWidth(w, times - 1);
      DoubleStaysWidth(DoubledWidth(w, times - 1));
    }
  }

  ghost predicate IsSqrt(sqrt: real -> real)
  {
    forall x {:trigger Root(sqrt, x)} :: x >= 0.0 ==> sqrt(x) >= 0.0 && sqrt(x) * sqrt(x) == x
  }

  function Root(sqrt: real -> real, x: real): real { sqrt(x) }

  function HalfWidth(sqrt: real -> real, w: real): real { 1.0 - Root(sqrt, 1.0 - w) }

  lemma SquaresOrdered(x: real, y: real)
    requires y >= 0.0 && x * x <= y * y
    ensures x <= y && (x * x < y * y ==> x < y)
  {
    assert x * x - y * y == (x - y) * (x + y);
    if x > y {
      PositiveProduct(x - y, x + y);
    }
  }

  /** Half of double is not larger than the original width. */
  lemma HalfOfDouble(sqrt: real -> real, w: real)
    requires IsSqrt(sqrt) && 0.0 <= w < 1.0
    ensures HalfWidth(sqrt, DoubleWidth(w)) <= w
  {
    DoubleStaysWidth(w);
    var x := 1.0 - DoubleWidth(w);
    assert x == (1.0 - w) * (1.0 - w) + 0.001 * w;
    assert Root(sqrt, x) * Root(sqrt, x) == x;
    SquaresOrdered(1.0 - w, Root(sqrt, x));
  }

  /** The rates tried, what the phase is to reach, and how fast external search widens. */
  datatype Goal = Goal(min: real, max: real, ratio: real, duration: real, width: real, doublings: nat)
  {
    ghost predicate Valid() { 0.0 < min <= max && 0.0 < width < 1.0 }
  }

  ghost predicate Within(i: Interval, g: Goal) { 0.0 < g.min <= i.lo.rate <= i.hi.rate <= g.max }

  lemma WidthBelowOne(i: Interval, g: Goal)
    requires Within(i, g)
    ensures 0.0 <= Width(i) < 1.0
    ensures 1.0 - Width(i) == i.lo.rate / i.hi.rate
  {
    QuotientBelow(i.hi.rate - i.lo.rate, i.hi.rate);
    QuotientSplit(i.lo.rate, i.hi.rate);
  }

  lemma QuotientBelow(x: real, y: real)
    requires 0.0 <= x < y
    ensures 0.0 <= x / y < 1.0
  {
  }

  lemma QuotientSplit(x: real, y: real)
    requires y > 0.0
    ensures 1.0 - (y - x) / y == x / y
  {
    var q := x / y;
    assert q * y == x;
    assert (1.0 - q) * y == y - x;
    QuotientIs(y - x, y, 1.0 - q);
  }

  lemma QuotientIs(x: real, y: real, q: real)
    requires y > 0.0 && q * y == x
    ensures x / y == q
  {
    assert (x / y - q) * y == 0.0;
  }

  function ExpandedDown(w: real, times: nat, rate: real): real { rate * (1.0 - DoubledWidth(w, times)) }

  function ExpandedUp(w: real, times: nat, rate: real): real
    requires DoubledWidth(w, times) < 1.0
  {
    rate / (1.0 - DoubledWidth(w, times))
  }

  lemma DownIsBelow(w: real, times: nat, rate: real)
    requires 0.0 < w < 1.0 && rate > 0.0
    ensures ExpandedDown(w, times, rate) < rate
  {
    DoubledStaysWidth(w, times);
    ProductBelow(rate, 1.0 - DoubledWidth(w, times), ExpandedDown(w, times, rate));
  }

  lemma ProductBelow(x: real, f: real, p: real)
    requires x > 0.0 && f < 1.0 && p == x * f
    ensures p < x
  {
    PositiveProduct(x, 1.0 - f);
  }

  lemma UpIsAbove(w: real, times: nat, rate: real)
    requires 0.0 < w < 1.0 && rate > 0.0
    ensures DoubledWidth(w, times) < 1.0 && ExpandedUp(w, times, rate) > rate
  {
    DoubledStaysWidth(w, times);
    QuotientAbove(rate, 1.0 - DoubledWidth(w, times));
  }

  lemma PositiveFactor(x: real, y: real)
    requires x * y > 0.0 && y > 0.0
    ensures x > 0.0
  {
  }

  lemma QuotientAbove(x: real, f: real)
    requires x > 0.0 && 0.0 < f < 1.0
    ensures x / f > x
  {
    var q := x / f;
    assert q * f == x;
    PositiveFactor(q, f);
    ProductBelow(q, f, x);
  }

  function HalfStepUp(sqrt: real -> real, w: real, rate: real): real
    requires HalfWidth(sqrt, w) != 1.0
  {
    rate / (1.0 - HalfWidth(sqrt, w))
  }

  lemma RootPositive(sqrt: real -> real, x: real)
    requires IsSqrt(sqrt) && x > 0.0
    ensures Root(sqrt, x) > 0.0 && Root(sqrt, x) * Root(sqrt, x) == x
  {
  }

  lemma SquareOfQuotient(x: real, y: real, s: real)
    requires x > 0.0 && y > 0.0 && s > 0.0 && s * s == x / y
    ensures (x / s) * (x / s) == x * y
  {
    var q := x / s;
    assert q * s == x;
    assert s * s * y == x;
    assert q * q * (s * s) == x * x by {
      assert q * q * (s * s) == (q * s) * (q * s);
    }
    CancelSquare(q * q, s * s, x, y);
  }

  lemma CancelSquare(a: real, b: real, x: real, y: real)
    requires b > 0.0 && a * b == x * x && b * y == x
    ensures a == x * y
  {
    assert a * b == x * (b * y);
    assert x * (b * y) == (x * y) * b;
    assert (a - x * y) * b == 0.0;
  }

  lemma MeanIsBetween(lo: real, hi: real, r: real)
    requires 0.0 < lo < hi && r > 0.0 && r * r == lo * hi
    ensures lo < r < hi
  {
    assert lo * lo < lo * hi < hi * hi;
    assert lo * lo < r * r;
    SquaresOrdered(lo, r);
    assert lo < r;
    SquaresOrdered(r, hi);
  }

  /** Half a step up from the lower bound is the geometric mean of both bounds. */
  lemma BisectsGeometrically(sqrt: real -> real, i: Interval, g: Goal)
    requires IsSqrt(sqrt) && Within(i, g)
    ensures Width(i) < 1.0 && HalfWidth(sqrt, Width(i)) < 1.0
    ensures var r := HalfStepUp(sqrt, Width(i), i.lo.rate); r > 0.0 && r * r == i.lo.rate * i.hi.rate
  {
    WidthBelowOne(i, g);
    var x := i.lo.rate / i.hi.rate;
    RootPositive(sqrt, x);
    SquareOfQuotient(i.lo.rate, i.hi.rate, Root(sqrt, x));
    assert HalfStepUp(sqrt, Width(i), i.lo.rate) == i.lo.rate / Root(sqrt, x);
  }

  // ---------------------------------------------------------------------
  // The next rate to try
  // ---------------------------------------------------------------------

  function SearchWidth(i: Interval, g: Goal): real
    requires i.hi.rate > 0.0
  {
    Larger(g.width, Width(i))
  }

  lemma SearchWidthIsWidth(i: Interval, g: Goal)
    requires g.Valid() && Within(i, g)
    ensures 0.0 < SearchWidth(i, g) < 1.0
  {
    WidthBelowOne(i, g);
  }

  /** What an interval with an invalid lower bound asks for. */
  function LowerRequest(i: Interval, ratio: real, w: real, g: Goal): Option<real>
  {
    if i.lo.loss <= ratio then None
    else if i.lo.rate > g.min then Some(Larger(g.min, ExpandedDown(w, g.doublings, i.lo.rate)))
    else if i.lo.duration < g.duration then Some(g.min)
    else None
  }

  /** What an interval with an invalid upper bound asks for. */
  function UpperRequest(i: Interval, ratio: real, w: real, g: Goal): Option<real>
    requires DoubledWidth(w, g.doublings) < 1.0
  {
    if i.hi.loss > ratio then None
    else if i.hi.rate < g.max then Some(Smaller(g.max, ExpandedUp(w, g.doublings, i.hi.rate)))
    else if i.hi.duration < g.duration then Some(g.max)
    else None
  }

  function OrElse(a: Option<real>, b: Option<real>): Option<real> { if a.Some? then a else b }

  ghost predicate CanExpand(i: Interval, g: Goal)
  {
    i.hi.rate > 0.0 && DoubledWidth(SearchWidth(i, g), g.doublings) < 1.0
  }

  lemma Expands(i: Interval, g: Goal)
    requires g.Valid() && Within(i, g)
    ensures CanExpand(i, g)
  {
    SearchWidthIsWidth(i, g);
    DoubledStaysWidth(SearchWidth(i, g), g.doublings);
  }

  ghost function ExternalRate(ndr: Interval, pdr: Interval, g: Goal): Option<real>
    requires CanExpand(ndr, g) && CanExpand(pdr, g)
  {
    var nw, pw := SearchWidth(ndr, g), SearchWidth(pdr, g);
    OrElse(LowerRequest(ndr, 0.0, nw, g),
    OrElse(LowerRequest(pdr, g.ratio, pw, g),
    OrElse(UpperRequest(ndr, 0.0, nw, g), UpperRequest(pdr, g.ratio, pw, g))))
  }

  /** No trial can help an interval whose lower bound is invalid at the minimal rate. */
  predicate Hopeless(i: Interval, ratio: real, g: Goal) { i.lo.rate <= g.min && i.lo.loss > ratio }

  function RemainingWidth(i: Interval, ratio: real, g: Goal): real
    requires i.hi.rate > 0.0
  {
    if Hopeless(i, ratio, g) then 0.0 else SearchWidth(i, g)
  }

  function InternalRate(sqrt: real -> real, ndr: Interval, pdr: Interval, nw: real, pw: real, g: Goal): Option<real>
    requires HalfWidth(sqrt, nw) != 1.0 && HalfWidth(sqrt, pw) != 1.0
  {
    if nw > g.width then Some(HalfStepUp(sqrt, nw, ndr.lo.rate))
    else if pw > g.width then Some(HalfStepUp(sqrt, pw, pdr.lo.rate))
    else None
  }

  function RemeasuredRate(ndr: Interval, pdr: Interval, nw: real, pw: real, g: Goal): Option<real>
  {
    if ndr.lo.duration < g.duration then Some(ndr.lo.rate)
    else if pdr.lo.duration < g.duration then Some(pdr.lo.rate)
    else if ndr.hi.duration < g.duration && nw > 0.0 then Some(ndr.hi.rate)
    else if pdr.hi.duration < g.duration && pw > 0.0 then Some(pdr.hi.rate)
    else None
  }

  lemma Halves(sqrt: real -> real, i: Interval, ratio: real, g: Goal)
    requires IsSqrt(sqrt) && g.Valid() && Within(i, g)
    ensures HalfWidth(sqrt, RemainingWidth(i, ratio, g)) < 1.0
  {
    SearchWidthIsWidth(i, g);
    RootPositive(sqrt, 1.0 - RemainingWidth(i, ratio, g));
  }

  ghost predicate CanHalve(sqrt: real -> real, i: Interval, ratio: real, g: Goal)
  {
    i.hi.rate > 0.0 && HalfWidth(sqrt, RemainingWidth(i, ratio, g)) < 1.0
  }

  /** All quotients and roots below are defined. */
  ghost predicate Defines(sqrt: real -> real, ndr: Interval, pdr: Interval, g: Goal)
  {
    CanExpand(ndr, g) && CanExpand(pdr, g) && CanHalve(sqrt, ndr, 0.0, g) && CanHalve(sqrt, pdr, g.ratio, g)
  }

  ghost function NextRate(sqrt: real -> real, ndr: Interval, pdr: Interval, g: Goal): Option<real>
    requires Defines(sqrt, ndr, pdr, g)
  {
    var nw, pw := RemainingWidth(ndr, 0.0, g), RemainingWidth(pdr, g.ratio, g);
    OrElse(ExternalRate(ndr, pdr, g),
    OrElse(InternalRate(sqrt, ndr, pdr, nw, pw, g), RemeasuredRate(ndr, pdr, nw, pw, g)))
  }

  // What is asked for, in order of priority.

  /** An invalid lower bound that can still move down or be tried for longer. */
  ghost predicate AsksBelow(i: Interval, ratio: real, g: Goal)
  {
    i.lo.loss > ratio && (i.lo.rate > g.min || i.lo.duration < g.duration)
  }

  /** An invalid upper bound that can still move up or be tried for longer. */
  ghost predicate AsksAbove(i: Interval, ratio: real, g: Goal)
  {
    i.hi.loss <= ratio && (i.hi.rate < g.max || i.hi.duration < g.duration)
  }

  ghost predicate AsksBetween(i: Interval, ratio: real, g: Goal)
    requires i.hi.rate > 0.0
  {
    Width(i) > g.width && !(i.lo.loss > ratio && i.lo.rate <= g.min)
  }

  /** `r` is the lower bound after a step down of the width left, doubled so many times, but not below the minimum. */
  ghost predicate IsStepDown(r: real, i: Interval, g: Goal)
    requires i.hi.rate > 0.0
  {
    var x := i.lo.rate * (1.0 - DoubledWidth(if Width(i) < g.width then g.width else Width(i), g.doublings));
    if i.lo.rate <= g.min || x < g.min then r == g.min else r == x
  }

  ghost predicate IsStepUp(r: real, i: Interval, g: Goal)
    requires i.hi.rate > 0.0
  {
    var left := 1.0 - DoubledWidth(if Width(i) < g.width then g.width else Width(i), g.doublings);
    if i.hi.rate >= g.max || i.hi.rate > g.max * left then r == g.max else r * left == i.hi.rate
  }

  ghost predicate Ready(sqrt: real -> real, ndr: Interval, pdr: Interval, g: Goal)
  {
    IsSqrt(sqrt) && g.Valid() && Within(ndr, g) && Within(pdr, g)
  }

  lemma Defined(sqrt: real -> real, ndr: Interval, pdr: Interval, g: Goal)
    requires Ready(sqrt, ndr, pdr, g)
    ensures Defines(sqrt, ndr, pdr, g)
  {
    Expands(ndr, g);
    Expands(pdr, g);
    Halves(sqrt, ndr, 0.0, g);
    Halves(sqrt, pdr, g.ratio, g);
  }

  lemma LowerRequestIs(i: Interval, ratio: real, g: Goal)
    requires g.Valid() && Within(i, g)
    ensures var r := LowerRequest(i, ratio, SearchWidth(i, g), g);
            (r.Some? <==> AsksBelow(i, ratio, g)) && (r.Some? ==> IsStepDown(r.value, i, g))
  {
  }

  lemma UpperRequestIs(i: Interval, ratio: real, g: Goal)
    requires g.Valid() && Within(i, g) && CanExpand(i, g)
    ensures var r := UpperRequest(i, ratio, SearchWidth(i, g), g);
            (r.Some? <==> AsksAbove(i, ratio, g)) && (r.Some? ==> IsStepUp(r.value, i, g))
  {
    var left := 1.0 - DoubledWidth(SearchWidth(i, g), g.doublings);
    QuotientAgainst(i.hi.rate, left, g.max);
  }

  lemma QuotientAgainst(x: real, f: real, m: real)
    requires f > 0.0
    ensures x / f * f == x
    ensures m < x / f <==> x > m * f
  {
    var q := x / f;
    assert q * f == x;
    if m < q {
      PositiveProduct(q - m, f);
    } else if q < m {
      PositiveProduct(m - q, f);
    }
  }

  /**
   * The order of priorities: lower bounds that lose too much, upper bounds that do not lose enough, widths, durations
   * of lower bounds and then of upper ones, each time the no-drop interval first. A bisecting rate is the geometric
   * mean.
   */
  ghost predicate AskedFor(r: Option<real>, ndr: Interval, pdr: Interval, g: Goal)
    requires ndr.hi.rate > 0.0 && pdr.hi.rate > 0.0
  {
    if AsksBelow(ndr, 0.0, g) then r.Some? && IsStepDown(r.value, ndr, g)
    else if AsksBelow(pdr, g.ratio, g) then r.Some? && IsStepDown(r.value, pdr, g)
    else if AsksAbove(ndr, 0.0, g) then r.Some? && IsStepUp(r.value, ndr, g)
    else if AsksAbove(pdr, g.ratio, g) then r.Some? && IsStepUp(r.value, pdr, g)
    else if AsksBetween(ndr, 0.0, g) then r.Some? && Mean(r.value, ndr)
    else if AsksBetween(pdr, g.ratio, g) then r.Some? && Mean(r.value, pdr)
    else if ndr.lo.duration < g.duration then r == Some(ndr.lo.rate)
    else if pdr.lo.duration < g.duration then r == Some(pdr.lo.rate)
    else if ndr.hi.duration < g.duration && !Hopeless(ndr, 0.0, g) then r == Some(ndr.hi.rate)
    else if pdr.hi.duration < g.duration && !Hopeless(pdr, g.ratio, g) then r == Some(pdr.hi.rate)
    else r.None?
  }

  /** The part of it that is about invalid bounds. */
  lemma ExternalIsAskedFor(ndr: Interval, pdr: Interval, g: Goal)
    requires g.Valid() && Within(ndr, g) && Within(pdr, g) && CanExpand(ndr, g) && CanExpand(pdr, g)
    ensures var r := ExternalRate(ndr, pdr, g);
            if AsksBelow(ndr, 0.0, g) then r.Some? && IsStepDown(r.value, ndr, g)
            else if AsksBelow(pdr, g.ratio, g) then r.Some? && IsStepDown(r.value, pdr, g)
            else if AsksAbove(ndr, 0.0, g) then r.Some? && IsStepUp(r.value, ndr, g)
            else if AsksAbove(pdr, g.ratio, g) then r.Some? && IsStepUp(r.value, pdr, g)
            else r.None?
  {
    LowerRequestIs(ndr, 0.0, g);
    LowerRequestIs(pdr, g.ratio, g);
    UpperRequestIs(ndr, 0.0, g);
    UpperRequestIs(pdr, g.ratio, g);
  }

  lemma AsksBetweenIff(i: Interval, ratio: real, g: Goal)
    requires g.Valid() && Within(i, g)
    ensures RemainingWidth(i, ratio, g) > g.width <==> AsksBetween(i, ratio, g)
    ensures RemainingWidth(i, ratio, g) > 0.0 <==> !Hopeless(i, ratio, g)
  {
  }

  ghost predicate Mean(r: real, i: Interval) { r > 0.0 && r * r == i.lo.rate * i.hi.rate }

  lemma BisectedIsMean(sqrt: real -> real, i: Interval, ratio: real, g: Goal)
    requires IsSqrt(sqrt) && g.Valid() && Within(i, g) && CanHalve(sqrt, i, ratio, g) && AsksBetween(i, ratio, g)
    ensures Mean(HalfStepUp(sqrt, RemainingWidth(i, ratio, g), i.lo.rate), i)
  {
    AsksBetweenIff(i, ratio, g);
    BisectedWithin(sqrt, i, ratio, g);
  }

  lemma InternalIsAskedFor(sqrt: real -> real, ndr: Interval, pdr: Interval, g: Goal)
    requires Ready(sqrt, ndr, pdr, g) && CanHalve(sqrt, ndr, 0.0, g) && CanHalve(sqrt, pdr, g.ratio, g)
    ensures var r := InternalRate(sqrt, ndr, pdr, RemainingWidth(ndr, 0.0, g), RemainingWidth(pdr, g.ratio, g), g);
            if AsksBetween(ndr, 0.0, g) then r.Some? && Mean(r.value, ndr)
            else if AsksBetween(pdr, g.ratio, g) then r.Some? && Mean(r.value, pdr)
            else r.None?
  {
    AsksBetweenIff(ndr, 0.0, g);
    AsksBetweenIff(pdr, g.ratio, g);
    if AsksBetween(ndr, 0.0, g) {
      BisectedIsMean(sqrt, ndr, 0.0, g);
    } else if AsksBetween(pdr, g.ratio, g) {
      BisectedIsMean(sqrt, pdr, g.ratio, g);
    }
  }

  lemma NextRateIsAskedFor(sqrt: real -> real, ndr: Interval, pdr: Interval, g: Goal)
    requires Ready(sqrt, ndr, pdr, g) && Defines(sqrt, ndr, pdr, g)
    ensures AskedFor(NextRate(sqrt, ndr, pdr, g), ndr, pdr, g)
  {
    ExternalIsAskedFor(ndr, pdr, g);
    InternalIsAskedFor(sqrt, ndr, pdr, g);
    AsksBetweenIff(ndr, 0.0, g);
    AsksBetweenIff(pdr, g.ratio, g);
  }

  /**
   * What a phase reaches for one loss ratio: the lower bound was tried for long enough, the upper bound is lossy or
   * the maximal rate, and either the minimal rate is already lossy or the lower bound is good, the interval narrow
   * enough and the upper bound also tried for long enough.
   */
  ghost predicate Settled(i: Interval, ratio: real, g: Goal)
    requires i.hi.rate > 0.0
  {
    && i.lo.duration >= g.duration
    && (i.hi.loss > ratio || (i.hi.rate >= g.max && i.hi.duration >= g.duration))
    && (Hopeless(i, ratio, g) || (i.lo.loss <= ratio && Width(i) <= g.width && i.hi.duration >= g.duration))
  }

  lemma NoRequestIff(i: Interval, ratio: real, g: Goal)
    requires g.Valid() && Within(i, g) && CanExpand(i, g)
    ensures var w := SearchWidth(i, g);
            (LowerRequest(i, ratio, w, g).None? && UpperRequest(i, ratio, w, g).None? && i.lo.duration >= g.duration
              && RemainingWidth(i, ratio, g) <= g.width
              && (i.hi.duration >= g.duration || RemainingWidth(i, ratio, g) <= 0.0))
            <==> Settled(i, ratio, g)
  {
  }

  /** A phase stops exactly when it has reached its goal for both loss ratios. */
  lemma StopsIffSettled(sqrt: real -> real, ndr: Interval, pdr: Interval, g: Goal)
    requires Ready(sqrt, ndr, pdr, g)
    requires Defines(sqrt, ndr, pdr, g)
    ensures NextRate(sqrt, ndr, pdr, g).None? <==> Settled(ndr, 0.0, g) && Settled(pdr, g.ratio, g)
  {
    NoRequestIff(ndr, 0.0, g);
    NoRequestIff(pdr, g.ratio, g);
  }

  lemma LowerRequestWithin(i: Interval, ratio: real, g: Goal)
    requires g.Valid() && Within(i, g)
    ensures var r := LowerRequest(i, ratio, SearchWidth(i, g), g);
            r.Some? ==> g.min <= r.value <= i.lo.rate && (i.lo.rate > g.min ==> r.value < i.lo.rate)
  {
    SearchWidthIsWidth(i, g);
    DownIsBelow(SearchWidth(i, g), g.doublings, i.lo.rate);
  }

  lemma UpperRequestWithin(i: Interval, ratio: real, g: Goal)
    requires g.Valid() && Within(i, g) && CanExpand(i, g)
    ensures var r := UpperRequest(i, ratio, SearchWidth(i, g), g);
            r.Some? ==> i.hi.rate <= r.value <= g.max && (i.hi.rate < g.max ==> i.hi.rate < r.value)
  {
    SearchWidthIsWidth(i, g);
    UpIsAbove(SearchWidth(i, g), g.doublings, i.hi.rate);
  }

  /** When an interval is bisected its lower bound is valid, and the rate is the geometric mean of its bounds. */
  lemma BisectedWithin(sqrt: real -> real, i: Interval, ratio: real, g: Goal)
    requires IsSqrt(sqrt) && g.Valid() && Within(i, g) && CanHalve(sqrt, i, ratio, g)
    requires RemainingWidth(i, ratio, g) > g.width
    ensures var r := HalfStepUp(sqrt, RemainingWidth(i, ratio, g), i.lo.rate);
            i.lo.rate < r < i.hi.rate && r * r == i.lo.rate * i.hi.rate
  {
    assert RemainingWidth(i, ratio, g) == Width(i);
    BisectsGeometrically(sqrt, i, g);
    assert i.lo.rate != i.hi.rate;
    MeanIsBetween(i.lo.rate, i.hi.rate, HalfStepUp(sqrt, Width(i), i.lo.rate));
  }

  /** No rate outside the given bounds is ever tried. */
  lemma NextRateWithin(sqrt: real -> real, ndr: Interval, pdr: Interval, g: Goal)
    requires Ready(sqrt, ndr, pdr, g)
    requires Defines(sqrt, ndr, pdr, g)
    ensures var r := NextRate(sqrt, ndr, pdr, g); r.Some? ==> g.min <= r.value <= g.max
  {
    LowerRequestWithin(ndr, 0.0, g);
    LowerRequestWithin(pdr, g.ratio, g);
    UpperRequestWithin(ndr, 0.0, g);
    UpperRequestWithin(pdr, g.ratio, g);
    if RemainingWidth(ndr, 0.0, g) > g.width {
      BisectedWithin(sqrt, ndr, 0.0, g);
    } else if RemainingWidth(pdr, g.ratio, g) > g.width {
      BisectedWithin(sqrt, pdr, g.ratio, g);
    }
  }

  // ---------------------------------------------------------------------
  // What the trials asked for achieve
  // ---------------------------------------------------------------------

  /** An interval that asks for a lower rate gets its new lower bound, and with the old one a valid upper bound. */
  lemma LowerTrialIsUsed(i: Interval, ratio: real, g: Goal, m: Trial)
    requires g.Valid() && Within(i, g) && LowerRequest(i, ratio, SearchWidth(i, g), g) == Some(m.rate)
    ensures var n := NewInterval(i, m, ratio);
            n.lo == m && n.hi == if i.lo.rate > g.min then i.lo else i.hi
  {
    LowerRequestWithin(i, ratio, g);
  }

  /**
   * An interval that asks for a higher rate gets its new upper bound, except when its lower bound is invalid:
   * then it asks for a rate above its upper bound and ignores the answer.
   */
  lemma UpperTrialIsUsedIff(i: Interval, ratio: real, g: Goal, m: Trial)
    requires g.Valid() && Within(i, g) && CanExpand(i, g) && i.lo.rate < i.hi.rate
    requires UpperRequest(i, ratio, SearchWidth(i, g), g) == Some(m.rate)
    ensures NewInterval(i, m, ratio).hi.rate == m.rate <==> i.lo.loss <= ratio || i.hi.rate >= g.max
    ensures i.lo.loss > ratio && i.hi.rate < g.max ==> NewInterval(i, m, ratio) == i
    ensures i.lo.loss <= ratio && i.hi.rate < g.max ==> NewInterval(i, m, ratio) == Interval(i.hi, m)
    ensures i.hi.rate >= g.max ==> NewInterval(i, m, ratio) == Interval(i.lo, m)
  {
    UpperRequestWithin(i, ratio, g);
  }

  /** The no-drop interval is hopeless at the bottom, yet its upper bound showed no loss below the maximal rate. */
  ghost predicate Stuck(i: Interval, g: Goal)
  {
    && Hopeless(i, 0.0, g) && i.lo.duration >= g.duration && i.lo.rate < i.hi.rate
    && i.hi.loss <= 0.0 && i.hi.rate < g.max
  }

  /** From there each turn asks for the same rate, and whatever it shows changes nothing for the no-drop interval. */
  lemma StuckStaysStuck(sqrt: real -> real, ndr: Interval, pdr: Interval, g: Goal, m: Trial)
    requires Ready(sqrt, ndr, pdr, g) && Stuck(ndr, g)
    requires Defines(sqrt, ndr, pdr, g)
    requires LowerRequest(pdr, g.ratio, SearchWidth(pdr, g), g).None?
    ensures var r := Smaller(g.max, ExpandedUp(SearchWidth(ndr, g), g.doublings, ndr.hi.rate));
            && NextRate(sqrt, ndr, pdr, g) == Some(r)
            && (m.rate == r ==> NewInterval(ndr, m, 0.0) == ndr)
  {
    UpperRequestWithin(ndr, 0.0, g);
  }

  /** A bisecting trial halves the logarithmic width, whatever it shows. */
  lemma BisectionHalves(sqrt: real -> real, i: Interval, ratio: real, g: Goal, m: Trial)
    requires IsSqrt(sqrt) && g.Valid() && Within(i, g) && CanHalve(sqrt, i, ratio, g)
    requires RemainingWidth(i, ratio, g) > g.width && LowerRequest(i, ratio, SearchWidth(i, g), g).None?
    requires m.rate == HalfStepUp(sqrt, RemainingWidth(i, ratio, g), i.lo.rate)
    ensures var n := NewInterval(i, m, ratio);
            && n == (if m.loss > ratio then Interval(i.lo, m) else Interval(m, i.hi))
            && Within(n, g) && (1.0 - Width(n)) * (1.0 - Width(n)) == 1.0 - Width(i)
  {
    BisectedWithin(sqrt, i, ratio, g);
    var n := NewInterval(i, m, ratio);
    WidthBelowOne(i, g);
    WidthBelowOne(n, g);
    if m.loss > ratio {
      SquareOfRatio(i.lo.rate, i.hi.rate, m.rate, i.lo.rate, m.rate);
    } else {
      SquareOfRatio(i.lo.rate, i.hi.rate, m.rate, m.rate, i.hi.rate);
    }
  }

  lemma SquareOfRatio(lo: real, hi: real, r: real, x: real, y: real)
    requires 0.0 < lo < r < hi && r * r == lo * hi
    requires (x == lo && y == r) || (x == r && y == hi)
    ensures (x / y) * (x / y) == lo / hi
  {
    var q := x / y;
    assert q * y == x;
    SquareTimes(q, y, x);
    if x == lo {
      CrossMultiply(q * q, lo, hi, lo);
    } else {
      CrossMultiply(q * q, hi, hi, lo);
    }
  }

  lemma SquareTimes(q: real, y: real, x: real)
    requires q * y == x
    ensures (q * q) * (y * y) == x * x
  {
    assert (q * q) * (y * y) == (q * y) * (q * y);
  }

  /** For p * (f * h) == f * l. */
  lemma CrossMultiply(p: real, f: real, h: real, l: real)
    requires f > 0.0 && h > 0.0 && p * (f * h) == f * l
    ensures p == l / h
  {
    assert (p * h - l) * f == 0.0;
    assert p * h == l;
    QuotientIs(l, h, p);
  }
}
