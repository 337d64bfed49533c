/** Why a phase of the rate search ends when the loss is a monotone function of the rate. */
module MlrProgress {
  import opened Bytes
  import opened MlrSearch

  // ---------------------------------------------------------------------
  // Counting steps by a factor, and halvings on the logarithmic scale
  // ---------------------------------------------------------------------

  ghost function Pow(p: real, k: nat): real { if k == 0 then 1.0 else Pow(p, k - 1) * p }

  /** `k` steps by the factor `p` bring `x` below `y`. */
  ghost predicate Brings(p: real, x: real, y: real, k: nat) { x * Pow(p, k) < y }

  lemma {:induction false} PowPositive(p: real, k: nat)
    requires 0.0 < p < 1.0
    ensures 0.0 < Pow(p, k) <= 1.0
  {
    if k > 0 {
      PowPositive(p, k - 1);
      PositiveProduct(Pow(p, k - 1), p);
      ProductBelow(Pow(p, k - 1), p, Pow(p, k));
    }
  }

  /** Bernoulli's inequality for the inverse. */
  lemma {:induction false} PowShrinks(p: real, k: nat)
    requires 0.0 < p < 1.0
    ensures Pow(p, k) * (1.0 + k as real * (1.0 - p)) <= 1.0
  {
    if k > 0 {
      PowShrinks(p, k - 1);
      PowPositive(p, k - 1);
      var P, d, n := Pow(p, k - 1), 1.0 - p, (k - 1) as real;
      assert k as real == n + 1.0;
      BernoulliStep(P, d, n);
    }
  }

  lemma BernoulliStep(P: real, d: real, n: real)
    requires P > 0.0 && 0.0 < d < 1.0 && n >= 0.0 && P * (1.0 + n * d) <= 1.0
    ensures P * (1.0 - d) * (1.0 + (n + 1.0) * d) <= 1.0
  {
    assert (1.0 - d) * (1.0 + (n + 1.0) * d) == 1.0 + n * d - (n + 1.0) * d * d;
    var e := (n + 1.0) * d * d;
    PositiveProduct((n + 1.0) * d, d) by {
      PositiveProduct(n + 1.0, d);
    }
    PositiveProduct(P, e);
    assert P * (1.0 - d) * (1.0 + (n + 1.0) * d) == P * (1.0 + n * d - e);
    assert P * (1.0 + n * d - e) == P * (1.0 + n * d) - P * e;
  }

  lemma EnoughSteps(p: real, x: real, y: real) returns (k: nat)
    requires 0.0 < p < 1.0 && x > 0.0 && y > 0.0
    ensures Brings(p, x, y, k)
  {
    var d := 1.0 - p;
    PositiveProduct(d, y);
    var n := x / (d * y);
    PositiveQuotient(x, d * y);
    k := n.Floor + 1;
    PowShrinks(p, k);
    PowPositive(p, k);
    assert k as real > n;
    EnoughByBernoulli(Pow(p, k), x, y, d, k as real, n);
  }

  lemma EnoughByBernoulli(P: real, x: real, y: real, d: real, k: real, n: real)
    requires P > 0.0 && x > 0.0 && y > 0.0 && d > 0.0 && P * (1.0 + k * d) <= 1.0
    requires k > n && n * (d * y) == x
    ensures x * P < y
  {
    PositiveProduct(d, y);
    PositiveProduct(k - n, d * y);
    assert (k - n) * (d * y) == k * (d * y) - x;
    assert k * (d * y) > x;
    var b := 1.0 + k * d;
    assert y * b == y + k * (d * y);
    assert x < y * b;
    PositiveProduct(y * b - x, P);
    assert (y * b - x) * P == y * (P * b) - x * P;
    ScaledOrder(y, P * b, 1.0);
  }

  lemma ScaledOrder(y: real, a: real, b: real)
    requires y > 0.0 && a <= b
    ensures y * a <= y * b
  {
    if a < b {
      PositiveProduct(y, b - a);
    }
  }

  /** The least such number of steps. */
  ghost predicate IsLevel(p: real, x: real, y: real, k: nat)
  {
    Brings(p, x, y, k) && forall j: nat :: Brings(p, x, y, j) ==> k <= j
  }

  lemma {:induction false} LeastSteps(p: real, x: real, y: real, k: nat) returns (least: nat)
    requires Brings(p, x, y, k)
    ensures IsLevel(p, x, y, least)
  {
    if j: nat :| j < k && Brings(p, x, y, j) {
      least := LeastSteps(p, x, y, j);
    } else {
      least := k;
    }
  }

  lemma LevelExists(p: real, x: real, y: real)
    requires 0.0 < p < 1.0 && x > 0.0 && y > 0.0
    ensures exists k: nat :: IsLevel(p, x, y, k)
  {
    var k := EnoughSteps(p, x, y);
    var least := LeastSteps(p, x, y, k);
  }

  ghost function Level(p: real, x: real, y: real): (k: nat)
    requires 0.0 < p < 1.0 && x > 0.0 && y > 0.0
    ensures IsLevel(p, x, y, k)
  {
    LevelExists(p, x, y);
    var k: nat :| IsLevel(p, x, y, k);
    k
  }

  lemma LevelMonotone(p: real, x: real, y: real, x': real, y': real)
    requires 0.0 < p < 1.0 && 0.0 < x' <= x && 0.0 < y <= y'
    ensures Level(p, x', y') <= Level(p, x, y)
  {
    var k := Level(p, x, y);
    PowPositive(p, k);
    ScaledOrder(Pow(p, k), x', x);
    assert Brings(p, x', y', k);
  }

  /** One step by at least the factor takes at least one off the level. */
  lemma LevelStep(p: real, x: real, y: real, x': real)
    requires 0.0 < p < 1.0 && 0.0 < y <= x && 0.0 < x' && x' <= x * p
    ensures Level(p, x', y) < Level(p, x, y)
  {
    var k := Level(p, x, y);
    assert !Brings(p, x, y, 0);
    PowPositive(p, k - 1);
    ScaledOrder(Pow(p, k - 1), x', x * p);
    assert x * p * Pow(p, k - 1) == x * Pow(p, k);
    assert Brings(p, x', y, k - 1);
  }

  lemma LevelStepUp(p: real, x: real, y: real, y': real)
    requires 0.0 < p < 1.0 && 0.0 < y <= x && y <= y' * p
    ensures y' > 0.0 && Level(p, x, y') < Level(p, x, y)
  {
    PositiveFactor(y', p);
    var k := Level(p, x, y);
    assert !Brings(p, x, y, 0);
    PowPositive(p, k - 1);
    assert x * Pow(p, k) == x * Pow(p, k - 1) * p;
    CancelFactor(x * Pow(p, k - 1), y', p);
    assert Brings(p, x, y', k - 1);
  }

  lemma CancelFactor(a: real, b: real, p: real)
    requires p > 0.0 && a * p < b * p
    ensures a < b
  {
    assert (b - a) * p > 0.0;
    PositiveFactor(b - a, p);
  }

  /** `p` squared `n` times. */
  ghost function Squared(p: real, n: nat): real { if n == 0 then p else Squared(p, n - 1) * Squared(p, n - 1) }

  lemma {:induction false} SquaredBelowPow(p: real, n: nat)
    requires 0.0 < p < 1.0
    ensures 0.0 < Squared(p, n) <= p && Squared(p, n) <= Pow(p, n)
  {
    if n > 0 {
      SquaredBelowPow(p, n - 1);
      PowPositive(p, n - 1);
      SquareBelow(Squared(p, n - 1), p, Squared(p, n));
      ScaledOrder(p, Squared(p, n - 1), Pow(p, n - 1));
    }
  }

  lemma SquareBelow(s: real, p: real, q: real)
    requires 0.0 < s <= p < 1.0 && q == s * s
    ensures 0.0 < q <= p && q <= s * p
  {
    PositiveProductIs(s, s, q);
    ScaledOrder(s, s, p);
    ProductBelow(s, s, q);
  }

  lemma PositiveProductIs(x: real, y: real, q: real)
    requires x > 0.0 && y > 0.0 && q == x * y
    ensures q > 0.0
  {
    PositiveProduct(x, y);
  }

  /** `n` halvings of the logarithm bring the ratio `y` of the bounds up to `p`. */
  ghost predicate Halved(p: real, y: real, n: nat) { Squared(p, n) <= y }

  ghost predicate IsDepth(p: real, y: real, n: nat)
  {
    Halved(p, y, n) && forall j: nat :: Halved(p, y, j) ==> n <= j
  }

  lemma {:induction false} LeastHalvings(p: real, y: real, n: nat) returns (least: nat)
    requires Halved(p, y, n)
    ensures IsDepth(p, y, least)
  {
    if j: nat :| j < n && Halved(p, y, j) {
      least := LeastHalvings(p, y, j);
    } else {
      least := n;
    }
  }

  lemma DepthExists(p: real, y: real)
    requires 0.0 < p < 1.0 && y > 0.0
    ensures exists n: nat :: IsDepth(p, y, n)
  {
    var k := EnoughSteps(p, 1.0, y);
    SquaredBelowPow(p, k);
    var least := LeastHalvings(p, y, k);
  }

  ghost function Depth(p: real, y: real): (n: nat)
    requires 0.0 < p < 1.0 && y > 0.0
    ensures IsDepth(p, y, n)
  {
    DepthExists(p, y);
    var n: nat :| IsDepth(p, y, n);
    n
  }

  lemma DepthMonotone(p: real, y: real, y': real)
    requires 0.0 < p < 1.0 && 0.0 < y <= y'
    ensures Depth(p, y') <= Depth(p, y)
  {
    assert Halved(p, y', Depth(p, y));
  }

  /** A square root takes one off the depth, unless it is already zero. */
  lemma DepthStep(p: real, y: real, y': real)
    requires 0.0 < p < 1.0 && 0.0 < y < p && y' > 0.0 && y' * y' == y
    ensures Depth(p, y') < Depth(p, y)
  {
    var n := Depth(p, y);
    assert !Halved(p, y, 0);
    SquaresOrdered(Squared(p, n - 1), y');
    assert Halved(p, y', n - 1);
  }

  // ---------------------------------------------------------------------
  // How far an interval is from its goal
  // ---------------------------------------------------------------------

  /** Two different rates, and their true losses. */
  ghost predicate Truthful(i: Interval, loss: real -> real)
  {
    i.lo.rate < i.hi.rate && i.lo.loss == loss(i.lo.rate) && i.hi.loss == loss(i.hi.rate)
  }

  /** A step of external search changes a rate by this factor at least. */
  ghost function Factor(g: Goal): real { if g.width < 0.999 then 1.0 - g.width else 0.001 }

  lemma DoubleAtLeast(x: real, e: real)
    requires 0.0 < e <= 0.999 && e <= x < 1.0
    ensures e <= DoubleWidth(x)
  {
    if x <= 0.999 {
      assert DoubleWidth(x) - x == x * (0.999 - x);
      if x < 0.999 {
        PositiveProductIs(x, 0.999 - x, DoubleWidth(x) - x);
      }
    } else {
      assert DoubleWidth(x) - 0.999 == (1.0 - x) * (x - 0.999);
      PositiveProductIs(1.0 - x, x - 0.999, DoubleWidth(x) - 0.999);
    }
  }

  lemma {:induction false} DoubledAtLeast(x: real, times: nat, e: real)
    requires 0.0 < e <= 0.999 && e <= x < 1.0
    ensures e <= DoubledWidth(x, times) < 1.0
  {
    if times > 0 {
      DoubledAtLeast(x, times - 1, e);
      DoubleAtLeast(DoubledWidth(x, times - 1), e);
      DoubleStaysWidth(DoubledWidth(x, times - 1));
    }
  }

  lemma ExpandsByFactor(i: Interval, g: Goal)
    requires g.Valid() && Within(i, g)
    ensures 0.0 < Factor(g) < 1.0
    ensures 0.0 < 1.0 - DoubledWidth(SearchWidth(i, g), g.doublings) <= Factor(g)
  {
    SearchWidthIsWidth(i, g);
    DoubledAtLeast(SearchWidth(i, g), g.doublings, 1.0 - Factor(g));
  }

  /** Bounds that were not yet tried for the duration of the phase. */
  ghost function Shorts(i: Interval, g: Goal): nat
  {
    (if i.lo.duration < g.duration then 1 else 0) + (if i.hi.duration < g.duration then 1 else 0)
  }

  lemma RatioPositive(i: Interval, g: Goal)
    requires Within(i, g)
    ensures 0.0 < 1.0 - Width(i) <= 1.0
  {
    WidthBelowOne(i, g);
  }

  ghost function Bisections(i: Interval, g: Goal): nat
    requires g.Valid() && Within(i, g)
  {
    RatioPositive(i, g);
    Depth(1.0 - g.width, 1.0 - Width(i))
  }

  ghost function MostBisections(g: Goal): nat
    requires g.Valid()
  {
    PositiveQuotient(g.min, g.max);
    Depth(1.0 - g.width, g.min / g.max)
  }

  lemma QuotientOrder(a: real, b: real, c: real, d: real)
    requires 0.0 < a <= c && 0.0 < d <= b
    ensures 0.0 < a / b <= c / d
  {
    PositiveQuotient(a, b);
    QuotientLarger(a, c, b);
    QuotientSmaller(c, b, d);
  }

  lemma QuotientLarger(a: real, c: real, b: real)
    requires 0.0 < a <= c && b > 0.0
    ensures a / b <= c / b
  {
    assert c / b - a / b == (c - a) / b;
  }

  lemma QuotientSmaller(c: real, b: real, d: real)
    requires c > 0.0 && 0.0 < d <= b
    ensures c / b <= c / d
  {
    var x, y := c / b, c / d;
    assert x * b == c && y * d == c;
    PositiveQuotient(c, b);
    ScaledOrder(x, d, b);
    if x > y {
      ScaledLess(d, y, x);
    }
  }

  lemma ScaledLess(y: real, a: real, b: real)
    requires y > 0.0 && a < b
    ensures y * a < y * b
  {
    PositiveProduct(y, b - a);
  }

  lemma BisectionsBounded(i: Interval, g: Goal)
    requires g.Valid() && Within(i, g)
    ensures Bisections(i, g) <= MostBisections(g)
  {
    WidthBelowOne(i, g);
    QuotientOrder(g.min, g.max, i.lo.rate, i.hi.rate);
    DepthMonotone(1.0 - g.width, g.min / g.max, 1.0 - Width(i));
  }

  lemma BisectionsShrink(i: Interval, n: Interval, g: Goal)
    requires g.Valid() && Within(i, g) && Within(n, g) && i.lo.rate <= n.lo.rate && n.hi.rate <= i.hi.rate
    ensures Bisections(n, g) <= Bisections(i, g)
  {
    WidthBelowOne(i, g);
    WidthBelowOne(n, g);
    QuotientOrder(i.lo.rate, i.hi.rate, n.lo.rate, n.hi.rate);
    DepthMonotone(1.0 - g.width, 1.0 - Width(i), 1.0 - Width(n));
  }

  /** Steps down to the minimal rate, and steps up to the maximal one. */
  ghost function StepsDown(rate: real, g: Goal): nat
    requires g.Valid() && rate > 0.0
  {
    2 * Level(Factor(g), rate, g.min) + if rate > g.min then 1 else 0
  }

  ghost function StepsUp(rate: real, g: Goal): nat
    requires g.Valid() && rate > 0.0
  {
    2 * Level(Factor(g), g.max, rate) + if rate < g.max then 1 else 0
  }

  ghost function Cap(g: Goal): nat
    requires g.Valid()
  {
    MostBisections(g) + 3
  }

  ghost function Rest(i: Interval, ratio: real, g: Goal): nat
    requires g.Valid() && Within(i, g)
  {
    if i.lo.loss > ratio || (i.hi.loss <= ratio && i.hi.rate < g.max) then 0 else Bisections(i, g)
  }

  ghost function External(i: Interval, ratio: real, g: Goal): nat
    requires g.Valid() && Within(i, g)
  {
    if i.lo.loss > ratio then 1 + StepsDown(i.lo.rate, g)
    else if i.hi.loss <= ratio then 1 + StepsUp(i.hi.rate, g)
    else 0
  }

  /** External steps first, then bisections, then trials of the full duration. */
  ghost function Distance(i: Interval, ratio: real, g: Goal): nat
    requires g.Valid() && Within(i, g)
  {
    Cap(g) * External(i, ratio, g) + Rest(i, ratio, g) + Shorts(i, g)
  }

  lemma RestBounded(i: Interval, ratio: real, g: Goal)
    requires g.Valid() && Within(i, g)
    ensures Rest(i, ratio, g) + Shorts(i, g) < Cap(g)
  {
    BisectionsBounded(i, g);
  }

  lemma Lexicographic(c: nat, a: nat, b: nat, x: nat, y: nat)
    requires x < c && (a < b || (a == b && x <= y))
    ensures c * a + x <= c * b + y
    ensures a < b || x < y ==> c * a + x < c * b + y
  {
    if a < b {
      NextMultiple(c, a, b);
    }
  }

  lemma {:induction false} NextMultiple(c: nat, a: nat, b: nat)
    requires a < b
    ensures c * a + c <= c * b
    decreases b
  {
    assert c * b == c * (b - 1) + c;
    if a < b - 1 {
      NextMultiple(c, a, b - 1);
    }
  }

  /** Comparing distances by their parts. */
  lemma Compare(i: Interval, n: Interval, ratio: real, g: Goal)
    requires g.Valid() && Within(i, g) && Within(n, g)
    ensures External(n, ratio, g) < External(i, ratio, g) ==> Distance(n, ratio, g) < Distance(i, ratio, g)
    ensures External(n, ratio, g) == External(i, ratio, g) ==>
              var x, y := Rest(n, ratio, g) + Shorts(n, g), Rest(i, ratio, g) + Shorts(i, g);
              && (x <= y ==> Distance(n, ratio, g) <= Distance(i, ratio, g))
              && (x < y ==> Distance(n, ratio, g) < Distance(i, ratio, g))
  {
    RestBounded(n, ratio, g);
    var x, y := Rest(n, ratio, g) + Shorts(n, g), Rest(i, ratio, g) + Shorts(i, g);
    var a, b := External(n, ratio, g), External(i, ratio, g);
    if a < b || (a == b && x <= y) {
      Lexicographic(Cap(g), a, b, x, y);
    }
  }

  lemma StepsDownMonotone(r: real, s: real, g: Goal)
    requires g.Valid() && 0.0 < r <= s
    ensures StepsDown(r, g) <= StepsDown(s, g)
  {
    LevelMonotone(Factor(g), s, g.min, r, g.min);
  }

  lemma StepsUpMonotone(r: real, s: real, g: Goal)
    requires g.Valid() && 0.0 < s <= r
    ensures StepsUp(r, g) <= StepsUp(s, g)
  {
    LevelMonotone(Factor(g), g.max, s, g.max, r);
  }

  // ---------------------------------------------------------------------
  // No trial takes an interval further from its goal
  // ---------------------------------------------------------------------

  /** A trial of the phase, with its true loss. */
  ghost predicate Fair(m: Trial, loss: real -> real, g: Goal)
  {
    g.min <= m.rate <= g.max && m.duration == g.duration && m.loss == loss(m.rate)
  }

  lemma StaysTruthful(loss: real -> real, i: Interval, m: Trial, ratio: real, g: Goal)
    requires Truthful(i, loss) && Within(i, g) && Fair(m, loss, g)
    ensures var n := NewInterval(i, m, ratio); Truthful(n, loss) && Within(n, g)
  {
  }

  lemma FromInvalidLower(loss: real -> real, i: Interval, m: Trial, ratio: real, g: Goal)
    requires g.Valid() && Monotone(loss) && Truthful(i, loss) && Within(i, g) && Fair(m, loss, g) && i.lo.loss > ratio
    ensures var n := NewInterval(i, m, ratio); Within(n, g) && Distance(n, ratio, g) <= Distance(i, ratio, g)
  {
    StaysTruthful(loss, i, m, ratio, g);
    var n := NewInterval(i, m, ratio);
    Compare(i, n, ratio, g);
    StepsDownMonotone(n.lo.rate, i.lo.rate, g);
  }

  lemma FromInvalidUpper(loss: real -> real, i: Interval, m: Trial, ratio: real, g: Goal)
    requires g.Valid() && Monotone(loss) && Truthful(i, loss) && Within(i, g) && Fair(m, loss, g)
    requires i.hi.loss <= ratio
    ensures var n := NewInterval(i, m, ratio); Within(n, g) && Distance(n, ratio, g) <= Distance(i, ratio, g)
  {
    StaysTruthful(loss, i, m, ratio, g);
    var n := NewInterval(i, m, ratio);
    Compare(i, n, ratio, g);
    StepsUpMonotone(n.hi.rate, i.hi.rate, g);
    if n.hi.rate <= i.hi.rate {
      BisectionsShrink(i, n, g);
    } else {
      LevelMonotone(Factor(g), g.max, i.hi.rate, g.max, n.hi.rate);
    }
  }

  lemma FromBracket(loss: real -> real, i: Interval, m: Trial, ratio: real, g: Goal)
    requires g.Valid() && Monotone(loss) && Truthful(i, loss) && Within(i, g) && Fair(m, loss, g) && Brackets(i, ratio)
    ensures var n := NewInterval(i, m, ratio); Within(n, g) && Distance(n, ratio, g) <= Distance(i, ratio, g)
  {
    BracketStays(loss, i, m, ratio);
    var n := NewInterval(i, m, ratio);
    Compare(i, n, ratio, g);
    BisectionsShrink(i, n, g);
  }

  lemma NeverFurther(loss: real -> real, i: Interval, m: Trial, ratio: real, g: Goal)
    requires g.Valid() && Monotone(loss) && Truthful(i, loss) && Within(i, g) && Fair(m, loss, g)
    ensures var n := NewInterval(i, m, ratio);
            Truthful(n, loss) && Within(n, g) && Distance(n, ratio, g) <= Distance(i, ratio, g)
  {
    StaysTruthful(loss, i, m, ratio, g);
    if i.lo.loss > ratio {
      FromInvalidLower(loss, i, m, ratio, g);
    } else if i.hi.loss <= ratio {
      FromInvalidUpper(loss, i, m, ratio, g);
    } else {
      FromBracket(loss, i, m, ratio, g);
    }
  }

  // ---------------------------------------------------------------------
  // The trial an interval asks for brings it closer
  // ---------------------------------------------------------------------

  ghost predicate Closer(i: Interval, m: Trial, ratio: real, g: Goal)
    requires g.Valid() && Within(i, g)
  {
    var n := NewInterval(i, m, ratio);
    Within(n, g) && Distance(n, ratio, g) < Distance(i, ratio, g)
  }

  lemma DownByFactor(rate: real, d: real, factor: real, x: real)
    requires rate > 0.0 && 1.0 - d <= factor < 1.0 && x == rate * (1.0 - d)
    ensures x < rate && x <= rate * factor
  {
    ScaledOrder(rate, 1.0 - d, factor);
    ProductBelow(rate, 1.0 - d, x);
  }

  lemma DroppedSteps(rate: real, r: real, g: Goal)
    requires g.Valid() && 0.0 < g.min <= r < rate && 0.0 < Factor(g) < 1.0 && (r == g.min || r <= rate * Factor(g))
    ensures StepsDown(r, g) < StepsDown(rate, g)
  {
    if r > g.min {
      LevelStep(Factor(g), rate, g.min, r);
    } else {
      LevelMonotone(Factor(g), rate, g.min, r, g.min);
    }
  }

  lemma DownFacts(i: Interval, g: Goal, x: real)
    requires g.Valid() && Within(i, g) && x == ExpandedDown(SearchWidth(i, g), g.doublings, i.lo.rate)
    ensures x < i.lo.rate && x <= i.lo.rate * Factor(g)
  {
    ExpandsByFactor(i, g);
    DownByFactor(i.lo.rate, DoubledWidth(SearchWidth(i, g), g.doublings), Factor(g), x);
  }

  lemma StepsDownDrop(i: Interval, x: real, r: real, g: Goal)
    requires g.Valid() && Within(i, g) && i.lo.rate > g.min && x < i.lo.rate && x <= i.lo.rate * Factor(g)
    requires r == Larger(g.min, x)
    ensures 0.0 < r < i.lo.rate && StepsDown(r, g) < StepsDown(i.lo.rate, g)
  {
    DroppedSteps(i.lo.rate, r, g);
  }

  lemma UpByFactor(rate: real, f: real, factor: real, r: real)
    requires rate > 0.0 && 0.0 < f <= factor && r == rate / f
    ensures rate <= r * factor
  {
    assert r * f == rate;
    PositiveFactor(r, f);
    ScaledOrder(r, f, factor);
  }

  lemma RaisedSteps(rate: real, r: real, g: Goal)
    requires g.Valid() && 0.0 < rate < r <= g.max && 0.0 < Factor(g) < 1.0 && (r == g.max || rate <= r * Factor(g))
    ensures StepsUp(r, g) < StepsUp(rate, g)
  {
    if r < g.max {
      LevelStepUp(Factor(g), g.max, rate, r);
    } else {
      LevelMonotone(Factor(g), g.max, rate, g.max, r);
    }
  }

  lemma StepsUpDrop(i: Interval, r: real, g: Goal)
    requires g.Valid() && Within(i, g) && i.hi.rate < g.max && CanExpand(i, g)
    requires r == Smaller(g.max, ExpandedUp(SearchWidth(i, g), g.doublings, i.hi.rate))
    ensures i.hi.rate < r && StepsUp(r, g) < StepsUp(i.hi.rate, g)
  {
    ExpandsByFactor(i, g);
    SearchWidthIsWidth(i, g);
    UpIsAbove(SearchWidth(i, g), g.doublings, i.hi.rate);
    if r != g.max {
      UpByFactor(i.hi.rate, 1.0 - DoubledWidth(SearchWidth(i, g), g.doublings), Factor(g), r);
    }
    RaisedSteps(i.hi.rate, r, g);
  }

  lemma LowerTrialBrings(loss: real -> real, i: Interval, m: Trial, ratio: real, g: Goal)
    requires g.Valid() && Monotone(loss) && Truthful(i, loss) && Within(i, g) && Fair(m, loss, g)
    requires LowerRequest(i, ratio, SearchWidth(i, g), g) == Some(m.rate)
    ensures Closer(i, m, ratio, g)
  {
    StaysTruthful(loss, i, m, ratio, g);
    LowerTrialIsUsed(i, ratio, g, m);
    Compare(i, NewInterval(i, m, ratio), ratio, g);
    if i.lo.rate > g.min {
      var x := ExpandedDown(SearchWidth(i, g), g.doublings, i.lo.rate);
      DownFacts(i, g, x);
      StepsDownDrop(i, x, m.rate, g);
    }
  }

  lemma UpperTrialBrings(loss: real -> real, i: Interval, m: Trial, ratio: real, g: Goal)
    requires g.Valid() && Monotone(loss) && Truthful(i, loss) && Within(i, g) && Fair(m, loss, g) && CanExpand(i, g)
    requires UpperRequest(i, ratio, SearchWidth(i, g), g) == Some(m.rate)
    ensures Closer(i, m, ratio, g)
  {
    StaysTruthful(loss, i, m, ratio, g);
    UpperTrialIsUsedIff(i, ratio, g, m);
    Compare(i, NewInterval(i, m, ratio), ratio, g);
    if i.hi.rate < g.max {
      StepsUpDrop(i, m.rate, g);
    } else {
      BisectionsShrink(i, NewInterval(i, m, ratio), g);
    }
  }

  lemma BisectionBrings(loss: real -> real, sqrt: real -> real, i: Interval, m: Trial, ratio: real, g: Goal)
    requires IsSqrt(sqrt) && g.Valid() && Monotone(loss) && Truthful(i, loss) && Within(i, g) && Fair(m, loss, g)
    requires CanExpand(i, g) && CanHalve(sqrt, i, ratio, g) && RemainingWidth(i, ratio, g) > g.width
    requires LowerRequest(i, ratio, SearchWidth(i, g), g).None? && UpperRequest(i, ratio, SearchWidth(i, g), g).None?
    requires m.rate == HalfStepUp(sqrt, RemainingWidth(i, ratio, g), i.lo.rate)
    ensures Closer(i, m, ratio, g)
  {
    BisectionHalves(sqrt, i, ratio, g, m);
    BisectedWithin(sqrt, i, ratio, g);
    var n := NewInterval(i, m, ratio);
    WidthBelowOne(i, g);
    WidthBelowOne(n, g);
    RatioPositive(i, g);
    RatioPositive(n, g);
    DepthStep(1.0 - g.width, 1.0 - Width(i), 1.0 - Width(n));
    Compare(i, n, ratio, g);
  }

  lemma RemeasuringBrings(loss: real -> real, i: Interval, m: Trial, ratio: real, g: Goal)
    requires g.Valid() && Monotone(loss) && Truthful(i, loss) && Within(i, g) && Fair(m, loss, g)
    requires (m.rate == i.lo.rate && i.lo.duration < g.duration) || (m.rate == i.hi.rate && i.hi.duration < g.duration)
    ensures Closer(i, m, ratio, g)
  {
    var n := NewInterval(i, m, ratio);
    BisectionsShrink(i, n, g);
    BisectionsShrink(n, i, g);
    Compare(i, n, ratio, g);
  }

  /** Some interval asked for the trial, so one of them gets closer. */
  lemma AskedForBrings(loss: real -> real, sqrt: real -> real, ndr: Interval, pdr: Interval, g: Goal, m: Trial)
    requires Ready(sqrt, ndr, pdr, g) && Defines(sqrt, ndr, pdr, g) && Monotone(loss)
    requires Truthful(ndr, loss) && Truthful(pdr, loss) && Fair(m, loss, g)
    requires NextRate(sqrt, ndr, pdr, g) == Some(m.rate)
    ensures Closer(ndr, m, 0.0, g) || Closer(pdr, m, g.ratio, g)
  {
    var nw, pw := SearchWidth(ndr, g), SearchWidth(pdr, g);
    if LowerRequest(ndr, 0.0, nw, g).Some? {
      LowerTrialBrings(loss, ndr, m, 0.0, g);
    } else if LowerRequest(pdr, g.ratio, pw, g).Some? {
      LowerTrialBrings(loss, pdr, m, g.ratio, g);
    } else if UpperRequest(ndr, 0.0, nw, g).Some? {
      UpperTrialBrings(loss, ndr, m, 0.0, g);
    } else if UpperRequest(pdr, g.ratio, pw, g).Some? {
      UpperTrialBrings(loss, pdr, m, g.ratio, g);
    } else if RemainingWidth(ndr, 0.0, g) > g.width {
      BisectionBrings(loss, sqrt, ndr, m, 0.0, g);
    } else if RemainingWidth(pdr, g.ratio, g) > g.width {
      BisectionBrings(loss, sqrt, pdr, m, g.ratio, g);
    } else if (m.rate == ndr.lo.rate && ndr.lo.duration < g.duration)
              || (m.rate == ndr.hi.rate && ndr.hi.duration < g.duration) {
      RemeasuringBrings(loss, ndr, m, 0.0, g);
    } else {
      RemeasuringBrings(loss, pdr, m, g.ratio, g);
    }
  }

  ghost function Total(ndr: Interval, pdr: Interval, g: Goal): nat
    requires g.Valid() && Within(ndr, g) && Within(pdr, g)
  {
    Distance(ndr, 0.0, g) + Distance(pdr, g.ratio, g)
  }

  lemma TurnBrings(loss: real -> real, sqrt: real -> real, ndr: Interval, pdr: Interval, g: Goal, m: Trial)
    requires Ready(sqrt, ndr, pdr, g) && Defines(sqrt, ndr, pdr, g) && Monotone(loss)
    requires Truthful(ndr, loss) && Truthful(pdr, loss) && Fair(m, loss, g)
    requires NextRate(sqrt, ndr, pdr, g) == Some(m.rate)
    ensures var ndr', pdr' := NewInterval(ndr, m, 0.0), NewInterval(pdr, m, g.ratio);
            && Truthful(ndr', loss) && Truthful(pdr', loss) && Within(ndr', g) && Within(pdr', g)
            && Total(ndr', pdr', g) < Total(ndr, pdr, g)
  {
    NeverFurther(loss, ndr, m, 0.0, g);
    NeverFurther(loss, pdr, m, g.ratio, g);
    AskedForBrings(loss, sqrt, ndr, pdr, g, m);
  }

  /** The same bound for all intervals. */
  ghost function MostTurns(g: Goal): nat
    requires g.Valid()
  {
    2 * (Cap(g) * (2 + 2 * Level(Factor(g), g.max, g.min)) + Cap(g))
  }

  lemma DistanceBounded(i: Interval, ratio: real, g: Goal)
    requires g.Valid() && Within(i, g)
    ensures Distance(i, ratio, g) <= Cap(g) * (2 + 2 * Level(Factor(g), g.max, g.min)) + Cap(g)
  {
    RestBounded(i, ratio, g);
    var most := 2 + 2 * Level(Factor(g), g.max, g.min);
    LevelMonotone(Factor(g), g.max, g.min, i.lo.rate, g.min);
    LevelMonotone(Factor(g), g.max, g.min, g.max, i.hi.rate);
    assert External(i, ratio, g) <= most;
    Lexicographic(Cap(g), External(i, ratio, g), most + 1, Rest(i, ratio, g) + Shorts(i, g), 0);
    assert Cap(g) * (most + 1) == Cap(g) * most + Cap(g);
  }

  lemma TotalBounded(ndr: Interval, pdr: Interval, g: Goal)
    requires g.Valid() && Within(ndr, g) && Within(pdr, g)
    ensures Total(ndr, pdr, g) <= MostTurns(g)
  {
    DistanceBounded(ndr, 0.0, g);
    DistanceBounded(pdr, g.ratio, g);
  }
}
