/** The bit count of `BitCountingStats`, and what it means for the groupings that `classify` finds. */
module BitCounting {
  import opened Bytes
  import opened RunStats
  import opened JumpAvg
  import opened SmallSeries

  /** The two facts about the binary logarithm that comparisons of bit counts rest on. */
  ghost predicate IsLogarithm(lg: real -> real)
  {
    && (forall x, y {:trigger Times(x, y)} :: x > 0.0 && y > 0.0 ==> lg(Times(x, y)) == lg(x) + lg(y))
    && (forall x, y :: 0.0 < x < y ==> lg(x) < lg(y))
  }

  function Distance(a: real, b: real): real { if a < b then b - a else a - b }

  /** The argument of the logarithm in the term for the average: large jumps are cheap. */
  function AverageRatio(max: real, avg: real, prev: real): real
  {
    max * (max + 1.0) / (Distance(avg, prev) + 1.0)
  }

  /** `sphere` is the last term, for two and more values: the logarithm of the area of a sphere. */
  function BitCount(lg: real -> real, sphere: (nat, real) -> real, max: real, s: Stats, prev: Option<real>): real
  {
    if s.size < 1 then 0.0
    else
      lg((s.size * (s.size + 1)) as real)
      + (if prev.None? then lg(max + 1.0) else lg(AverageRatio(max, s.avg, prev.value)))
      + (if s.size < 2 then 0.0 else lg(max + 1.0) + sphere(s.size, s.variance))
  }

  /** An empty group takes no bits, so adding one changes nothing. */
  lemma EmptyGroupIsFree(lg: real -> real, sphere: (nat, real) -> real, max: real, s: Stats, prev: Option<real>)
    requires s.size == 0
    ensures BitCount(lg, sphere, max, s, prev) == 0.0
  {
  }

  ghost function BitsFor(lg: real -> real, sphere: (nat, real) -> real, max: real): Bits
  {
    (s: Stats, prev: Option<real>) => BitCount(lg, sphere, max, s, prev)
  }

  // ---------------------------------------------------------------------
  // What a change of predecessor is worth
  // ---------------------------------------------------------------------

  lemma LogOfOne(lg: real -> real)
    requires IsLogarithm(lg)
    ensures lg(1.0) == 0.0
  {
    assert lg(Times(1.0, 1.0)) == lg(1.0) + lg(1.0);
  }

  lemma LogOfQuotient(lg: real -> real, x: real, y: real)
    requires IsLogarithm(lg) && x > 0.0 && y > 0.0
    ensures x / y > 0.0 && lg(x / y) == lg(x) - lg(y)
  {
    var q := x / y;
    assert q * y == x;
    assert q > 0.0;
    assert lg(Times(q, y)) == lg(q) + lg(y);
  }

  lemma LogMonotone(lg: real -> real, x: real, y: real)
    requires IsLogarithm(lg) && 0.0 < x <= y
    ensures lg(x) <= lg(y) && (x < y ==> lg(x) < lg(y))
  {
  }

  lemma DistanceTerm(lg: real -> real, lo: real, hi: real, avg: real, p: real)
    requires IsLogarithm(lg) && lo <= avg <= hi && lo <= p <= hi
    ensures 0.0 <= lg(Distance(avg, p) + 1.0) <= lg(hi - lo + 1.0)
  {
    LogOfOne(lg);
    LogMonotone(lg, 1.0, Distance(avg, p) + 1.0);
    LogMonotone(lg, Distance(avg, p) + 1.0, hi - lo + 1.0);
  }

  lemma RatioLog(lg: real -> real, max: real, avg: real, p: real, top: real)
    requires IsLogarithm(lg) && max > 0.0 && top == max * (max + 1.0)
    ensures lg(AverageRatio(max, avg, p)) == lg(top) - lg(Distance(avg, p) + 1.0)
  {
    assert top > 0.0;
    LogOfQuotient(lg, top, Distance(avg, p) + 1.0);
  }

  /** For averages between `lo` and `hi`, which may be negative. */
  lemma AverageTermSwing(lg: real -> real, max: real, lo: real, hi: real, avg: real, p: real, q: real)
    requires IsLogarithm(lg) && max > 0.0 && lo <= avg <= hi && lo <= p <= hi && lo <= q <= hi
    ensures lg(AverageRatio(max, avg, p)) <= lg(AverageRatio(max, avg, q)) + lg(hi - lo + 1.0)
  {
    var top := max * (max + 1.0);
    RatioLog(lg, max, avg, p, top);
    RatioLog(lg, max, avg, q, top);
    DistanceTerm(lg, lo, hi, avg, p);
    DistanceTerm(lg, lo, hi, avg, q);
  }

  /** Every run has an average between `lo` and `hi`. */
  ghost predicate InRange(runs: seq<Run>, lo: real, hi: real)
  {
    forall i :: 0 <= i < |runs| ==> runs[i].Size() > 0 && lo <= runs[i].Avg() <= hi
  }

  ghost predicate SumBetween(m: Moments, lo: real, hi: real)
  {
    m.n as real * lo <= m.s1 <= m.n as real * hi
  }

  lemma {:induction false} TotalInRange(runs: seq<Run>, lo: real, hi: real)
    requires InRange(runs, lo, hi)
    ensures Total(runs).n >= |runs| && SumBetween(Total(runs), lo, hi)
  {
    if runs != [] {
      var n := |runs| - 1;
      TotalInRange(runs[..n], lo, hi);
      TotalStep(runs, n);
      assert runs[..n + 1] == runs;
      TotalInRangeStep(Total(runs[..n]), runs[n], lo, hi);
    }
  }

  lemma TotalInRangeStep(m: Moments, r: Run, lo: real, hi: real)
    requires SumBetween(m, lo, hi) && lo <= r.Avg() <= hi
    ensures SumBetween(m.Plus(MomentsOf(r)), lo, hi)
  {
    var t := m.Plus(MomentsOf(r));
    PlusRun(m, r, t, r.Size() as real);
    SumInRange(m.n as real, m.s1, r.Size() as real, r.Avg(), lo, hi, t.n as real, t.s1);
  }

  lemma SumInRange(n: real, s: real, k: real, avg: real, lo: real, hi: real, n': real, s': real)
    requires n * lo <= s <= n * hi && lo <= avg <= hi && k >= 0.0 && n' == n + k && s' == s + k * avg
    ensures n' * lo <= s' <= n' * hi
  {
    assert n' * lo == n * lo + k * lo && n' * hi == n * hi + k * hi;
    NonNegativeProduct(k, avg - lo);
    NonNegativeProduct(k, hi - avg);
    assert k * (avg - lo) == k * avg - k * lo;
    assert k * (hi - avg) == k * hi - k * avg;
  }

  lemma NonNegativeProduct(x: real, y: real)
    requires x >= 0.0 && y >= 0.0
    ensures x * y >= 0.0
  {
  }

  lemma AverageInRange(runs: seq<Run>, lo: real, hi: real)
    requires InRange(runs, lo, hi) && runs != []
    ensures StatsOf(runs).size > 0 && lo <= StatsOf(runs).avg <= hi
  {
    TotalInRange(runs, lo, hi);
    QuotientInRange(Total(runs).s1, Total(runs).n as real, lo, hi);
  }

  lemma QuotientInRange(s: real, n: real, lo: real, hi: real)
    requires n > 0.0 && n * lo <= s <= n * hi
    ensures lo <= s / n <= hi
  {
    var q := s / n;
    assert q * n == s;
    SignOfFactor(q - lo, n);
    SignOfFactor(hi - q, n);
  }

  lemma SignOfFactor(x: real, n: real)
    requires n > 0.0 && x * n >= 0.0
    ensures x >= 0.0
  {
  }

  lemma BlockInRange(values: seq<Run>, lo: real, hi: real, a: nat, b: nat)
    requires InRange(values, lo, hi) && a < b <= |values|
    ensures StatsOf(values[a..b]).size > 0 && lo <= StatsOf(values[a..b]).avg <= hi
  {
    AverageInRange(values[a..b], lo, hi);
  }

  lemma BitCountSwing(lg: real -> real, sphere: (nat, real) -> real, max: real, lo: real, hi: real, s: Stats, p: real,
                      q: real)
    requires IsLogarithm(lg) && max > 0.0 && lo <= s.avg <= hi && lo <= p <= hi && lo <= q <= hi && s.size > 0
    ensures BitCount(lg, sphere, max, s, Some(p)) <= BitCount(lg, sphere, max, s, Some(q)) + lg(hi - lo + 1.0)
  {
    AverageTermSwing(lg, max, lo, hi, s.avg, p, q);
  }

  lemma SwingOfBits(lg: real -> real, sphere: (nat, real) -> real, max: real, lo: real, hi: real, values: seq<Run>)
    requires IsLogarithm(lg) && max > 0.0 && InRange(values, lo, hi)
    ensures Swing(BitsFor(lg, sphere, max), values, lg(hi - lo + 1.0))
  {
    forall a: nat, b: nat, j: nat, m: nat | a < j < m <= |values| && b < j
      ensures BitCount(lg, sphere, max, StatsOf(values[j..m]), Some(StatsOf(values[a..j]).avg))
           <= BitCount(lg, sphere, max, StatsOf(values[j..m]), Some(StatsOf(values[b..j]).avg)) + lg(hi - lo + 1.0)
    {
      BlockInRange(values, lo, hi, j, m);
      BlockInRange(values, lo, hi, a, j);
      BlockInRange(values, lo, hi, b, j);
      BitCountSwing(lg, sphere, max, lo, hi, StatsOf(values[j..m]), StatsOf(values[a..j]).avg,
                    StatsOf(values[b..j]).avg);
    }
  }

  /** The grouping found takes at most log2(hi - lo + 1) bits per boundary more than any other grouping. */
  lemma ClassifyNearOptimal(lg: real -> real, sphere: (nat, real) -> real, max: real, lo: real, hi: real,
                            values: seq<Run>, closed: seq<Partition>, gs: Partition)
    requires IsLogarithm(lg) && max > 0.0 && InRange(values, lo, hi)
    requires Table(BitsFor(lg, sphere, max), values, closed) && |closed| == |values| + 1 && Partitions(gs, values)
    ensures Cost(BitsFor(lg, sphere, max), closed[|values|])
         <= Cost(BitsFor(lg, sphere, max), gs) + Slack(lg(hi - lo + 1.0), |gs|)
  {
    SwingOfBits(lg, sphere, max, lo, hi, values);
    assert values[..|values|] == values;
    NearOptimal(BitsFor(lg, sphere, max), values, closed, lg(hi - lo + 1.0), |values|, gs);
  }

  // ---------------------------------------------------------------------
  // The bound is needed: the grouping found need not be optimal
  // ---------------------------------------------------------------------

  lemma TotalOfValue(x: real)
    ensures Total([Value(x)]) == Moments(1, x, x * x)
  {
    TotalOne(Value(x));
    assert MomentsOf(Value(x)) == Moments(1, x, x * x);
  }

  lemma StatsOfOne(x: real)
    ensures StatsOf([Value(x)]).size == 1 && StatsOf([Value(x)]).avg == x
  {
    TotalOfValue(x);
  }

  lemma TotalOfTwo(x: real, y: real)
    ensures Total([Value(x), Value(y)]) == Moments(2, x + y, x * x + y * y)
  {
    TotalOfValue(x);
    TotalOfValue(y);
    TotalConcat([Value(x)], [Value(y)]);
    assert [Value(x)] + [Value(y)] == [Value(x), Value(y)];
  }

  lemma StatsOfTwo(x: real, y: real)
    ensures StatsOf([Value(x), Value(y)]).size == 2 && StatsOf([Value(x), Value(y)]).avg == (x + y) / 2.0
  {
    TotalOfTwo(x, y);
  }

  lemma TotalOfThree(v: seq<Run>)
    requires IsSeries(v)
    ensures Total(v) == Moments(3, 40.0, 1000.0)
  {
    TotalOfTwo(v[0].x, v[1].x);
    TotalOfValue(v[2].x);
    TotalConcat([v[0], v[1]], [v[2]]);
    assert [v[0], v[1]] + [v[2]] == v;
  }

  lemma StatsOfThree(v: seq<Run>)
    requires IsSeries(v)
    ensures StatsOf(v) == Stats(3, 40.0 / 3.0, 1400.0 / 9.0)
  {
    TotalOfThree(v);
  }

  /** What is used of the sphere term: its value for two values, and that for 0, 10, 30 it is above log2(72). */
  ghost predicate SphereFacts(lg: real -> real, sphere: (nat, real) -> real)
  {
    (forall v :: sphere(2, v) == lg(2.0)) && sphere(3, 1400.0 / 9.0) > lg(72.0)
  }

  /** Bits of one value: the first group, or after a group with average `p`. */
  lemma BitsOfOne(lg: real -> real, sphere: (nat, real) -> real, x: real, p: real)
    ensures var s := StatsOf([Value(x)]);
            && BitCount(lg, sphere, 30.0, s, None) == lg(2.0) + lg(31.0)
            && BitCount(lg, sphere, 30.0, s, Some(p)) == lg(2.0) + lg(930.0 / (Distance(x, p) + 1.0))
  {
    StatsOfOne(x);
  }

  lemma BitsOfTwo(lg: real -> real, sphere: (nat, real) -> real, x: real, y: real, p: real)
    requires SphereFacts(lg, sphere)
    ensures var s := StatsOf([Value(x), Value(y)]);
            && BitCount(lg, sphere, 30.0, s, None) == lg(6.0) + lg(31.0) + (lg(31.0) + lg(2.0))
            && BitCount(lg, sphere, 30.0, s, Some(p)) ==
               lg(6.0) + lg(930.0 / (Distance((x + y) / 2.0, p) + 1.0)) + (lg(31.0) + lg(2.0))
  {
    StatsOfTwo(x, y);
  }

  lemma BitsOfThree(lg: real -> real, sphere: (nat, real) -> real, v: seq<Run>)
    requires SphereFacts(lg, sphere) && IsSeries(v)
    ensures BitCount(lg, sphere, 30.0, StatsOf(v), None) > lg(12.0) + lg(31.0) + (lg(31.0) + lg(72.0))
  {
    StatsOfThree(v);
  }

  lemma CostOfOneGroup(bits: Bits, g: seq<Run>)
    ensures Cost(bits, [g]) == bits(StatsOf(g), None)
  {
    CostOneMore(bits, [], g);
    assert [] + [g] == [g];
  }

  lemma CostOfTwoGroups(bits: Bits, g: seq<Run>, h: seq<Run>)
    ensures Cost(bits, [g, h]) == bits(StatsOf(g), None) + bits(StatsOf(h), Some(StatsOf(g).avg))
  {
    CostOfOneGroup(bits, g);
    CostOneMore(bits, [g], h);
    assert [g] + [h] == [g, h];
  }

  lemma CostOfThreeGroups(bits: Bits, g: seq<Run>, h: seq<Run>, i: seq<Run>)
    ensures Cost(bits, [g, h, i]) ==
            bits(StatsOf(g), None) + bits(StatsOf(h), Some(StatsOf(g).avg)) + bits(StatsOf(i), Some(StatsOf(h).avg))
  {
    CostOfTwoGroups(bits, g, h);
    CostOneMore(bits, [g, h], i);
    assert [g, h] + [i] == [g, h, i];
  }

  lemma LogLess(lg: real -> real, a: real, b: real, c: real, d: real)
    requires IsLogarithm(lg) && a > 0.0 && b > 0.0 && c > 0.0 && d > 0.0 && a * b < c * d
    ensures lg(a) + lg(b) < lg(c) + lg(d)
  {
    assert a * b > 0.0;
    assert lg(Times(a, b)) < lg(Times(c, d));
  }

  lemma LogTimes(lg: real -> real, a: real, b: real)
    requires IsLogarithm(lg) && a > 0.0 && b > 0.0
    ensures a * b > 0.0 && lg(a * b) == lg(a) + lg(b)
  {
    assert Times(a, b) == a * b;
  }

  // The comparisons behind the example, as comparisons of fractions.

  lemma LogsForSplit(lg: real -> real)
    requires IsLogarithm(lg)
    ensures lg(2.0) + lg(930.0 / 11.0) < lg(6.0) + lg(31.0)
  {
    LogLess(lg, 2.0, 930.0 / 11.0, 6.0, 31.0);
  }

  lemma LogsForAllSplit(lg: real -> real)
    requires IsLogarithm(lg)
    ensures lg(6.0) + lg(31.0) + lg(930.0 / 26.0) < lg(2.0) + lg(930.0 / 11.0) + lg(930.0 / 21.0)
  {
    LogTimes(lg, 6.0, 31.0);
    LogTimes(lg, 2.0, 930.0 / 11.0);
    LogLess(lg, 186.0, 930.0 / 26.0, 1860.0 / 11.0, 930.0 / 21.0);
  }

  lemma LogsForOneGroup(lg: real -> real)
    requires IsLogarithm(lg)
    ensures lg(6.0) + lg(2.0) + lg(2.0) + lg(930.0 / 26.0) < lg(12.0) + lg(72.0)
  {
    LogTimes(lg, 6.0, 2.0);
    LogLess(lg, 12.0 * 2.0, 930.0 / 26.0, 12.0, 72.0);
    LogTimes(lg, 12.0, 2.0);
  }

  lemma CostSplit(lg: real -> real, sphere: (nat, real) -> real, x: real, y: real)
    ensures Cost(BitsFor(lg, sphere, 30.0), [[Value(x)], [Value(y)]]) ==
            lg(2.0) + lg(31.0) + (lg(2.0) + lg(930.0 / (Distance(y, x) + 1.0)))
  {
    CostOfTwoGroups(BitsFor(lg, sphere, 30.0), [Value(x)], [Value(y)]);
    StatsOfOne(x);
    BitsOfOne(lg, sphere, x, x);
    BitsOfOne(lg, sphere, y, x);
  }

  lemma CostPair(lg: real -> real, sphere: (nat, real) -> real, x: real, y: real)
    requires SphereFacts(lg, sphere)
    ensures Cost(BitsFor(lg, sphere, 30.0), [[Value(x), Value(y)]]) == lg(6.0) + lg(31.0) + (lg(31.0) + lg(2.0))
  {
    CostOfOneGroup(BitsFor(lg, sphere, 30.0), [Value(x), Value(y)]);
    BitsOfTwo(lg, sphere, x, y, x);
  }

  lemma CostAllSplit(lg: real -> real, sphere: (nat, real) -> real, x: real, y: real, z: real)
    ensures Cost(BitsFor(lg, sphere, 30.0), [[Value(x)], [Value(y)], [Value(z)]]) ==
            lg(2.0) + lg(31.0) + (lg(2.0) + lg(930.0 / (Distance(y, x) + 1.0)))
            + (lg(2.0) + lg(930.0 / (Distance(z, y) + 1.0)))
  {
    CostOfThreeGroups(BitsFor(lg, sphere, 30.0), [Value(x)], [Value(y)], [Value(z)]);
    StatsOfOne(x);
    StatsOfOne(y);
    BitsOfOne(lg, sphere, x, x);
    BitsOfOne(lg, sphere, y, x);
    BitsOfOne(lg, sphere, z, y);
  }

  lemma CostEarlyPair(lg: real -> real, sphere: (nat, real) -> real, x: real, y: real, z: real)
    requires SphereFacts(lg, sphere)
    ensures Cost(BitsFor(lg, sphere, 30.0), [[Value(x), Value(y)], [Value(z)]]) ==
            lg(6.0) + lg(31.0) + (lg(31.0) + lg(2.0))
            + (lg(2.0) + lg(930.0 / (Distance(z, (x + y) / 2.0) + 1.0)))
  {
    CostOfTwoGroups(BitsFor(lg, sphere, 30.0), [Value(x), Value(y)], [Value(z)]);
    StatsOfTwo(x, y);
    BitsOfTwo(lg, sphere, x, y, x);
    BitsOfOne(lg, sphere, z, (x + y) / 2.0);
  }

  lemma CostLatePair(lg: real -> real, sphere: (nat, real) -> real, x: real, y: real, z: real)
    requires SphereFacts(lg, sphere)
    ensures Cost(BitsFor(lg, sphere, 30.0), [[Value(x)], [Value(y), Value(z)]]) ==
            lg(2.0) + lg(31.0)
            + (lg(6.0) + lg(930.0 / (Distance((y + z) / 2.0, x) + 1.0)) + (lg(31.0) + lg(2.0)))
  {
    CostOfTwoGroups(BitsFor(lg, sphere, 30.0), [Value(x)], [Value(y), Value(z)]);
    StatsOfOne(x);
    BitsOfOne(lg, sphere, x, x);
    BitsOfTwo(lg, sphere, y, z, x);
  }

  // 0, 10, 30

  ghost predicate IsSeries(v: seq<Run>) { |v| == 3 && v[0] == Value(0.0) && v[1] == Value(10.0) && v[2] == Value(30.0) }

  lemma SplitIsCheaper(lg: real -> real, sphere: (nat, real) -> real, v: seq<Run>)
    requires IsLogarithm(lg) && SphereFacts(lg, sphere) && IsSeries(v)
    ensures var bits := BitsFor(lg, sphere, 30.0); Cost(bits, [[v[0]], [v[1]]]) < Cost(bits, [[v[0], v[1]]])
  {
    LogsForSplit(lg);
    CostSplit(lg, sphere, v[0].x, v[1].x);
    CostPair(lg, sphere, v[0].x, v[1].x);
  }

  lemma CheaperThanAllSplit(lg: real -> real, sphere: (nat, real) -> real, v: seq<Run>)
    requires IsLogarithm(lg) && SphereFacts(lg, sphere) && IsSeries(v)
    ensures var bits := BitsFor(lg, sphere, 30.0);
            Cost(bits, [[v[0], v[1]], [v[2]]]) < Cost(bits, [[v[0]], [v[1]], [v[2]]])
  {
    LogsForAllSplit(lg);
    EarlyPairOfSeries(lg, sphere, v);
    CostAllSplit(lg, sphere, v[0].x, v[1].x, v[2].x);
  }

  lemma LatePairOfSeries(lg: real -> real, sphere: (nat, real) -> real, v: seq<Run>)
    requires SphereFacts(lg, sphere) && IsSeries(v)
    ensures Cost(BitsFor(lg, sphere, 30.0), [[v[0]], [v[1], v[2]]]) ==
            lg(2.0) + lg(31.0) + (lg(6.0) + lg(930.0 / 21.0) + (lg(31.0) + lg(2.0)))
  {
    CostLatePair(lg, sphere, v[0].x, v[1].x, v[2].x);
    assert Distance((10.0 + 30.0) / 2.0, 0.0) + 1.0 == 21.0;
  }

  lemma EarlyPairOfSeries(lg: real -> real, sphere: (nat, real) -> real, v: seq<Run>)
    requires SphereFacts(lg, sphere) && IsSeries(v)
    ensures Cost(BitsFor(lg, sphere, 30.0), [[v[0], v[1]], [v[2]]]) ==
            lg(6.0) + lg(31.0) + (lg(31.0) + lg(2.0)) + (lg(2.0) + lg(930.0 / 26.0))
  {
    CostEarlyPair(lg, sphere, v[0].x, v[1].x, v[2].x);
    assert Distance(30.0, (0.0 + 10.0) / 2.0) + 1.0 == 26.0;
  }

  lemma CheaperThanLatePair(lg: real -> real, sphere: (nat, real) -> real, v: seq<Run>)
    requires IsLogarithm(lg) && SphereFacts(lg, sphere) && IsSeries(v)
    ensures var bits := BitsFor(lg, sphere, 30.0);
            Cost(bits, [[v[0], v[1]], [v[2]]]) < Cost(bits, [[v[0]], [v[1], v[2]]])
  {
    LogMonotone(lg, 930.0 / 26.0, 930.0 / 21.0);
    EarlyPairOfSeries(lg, sphere, v);
    LatePairOfSeries(lg, sphere, v);
  }

  lemma CheaperThanOneGroup(lg: real -> real, sphere: (nat, real) -> real, v: seq<Run>)
    requires IsLogarithm(lg) && SphereFacts(lg, sphere) && IsSeries(v)
    ensures var bits := BitsFor(lg, sphere, 30.0); Cost(bits, [[v[0], v[1]], [v[2]]]) < Cost(bits, [v])
  {
    LogsForOneGroup(lg);
    EarlyPairOfSeries(lg, sphere, v);
    CostOfOneGroup(BitsFor(lg, sphere, 30.0), v);
    BitsOfThree(lg, sphere, v);
  }

  /**
   * "Groups of optimal bit count" is not so: for 0, 10, 30 the pair of the first two is dropped, and is the
   * cheapest.
   */
  lemma {:induction false} ClassifyNotOptimal(lg: real -> real, sphere: (nat, real) -> real, v: seq<Run>,
                                              closed: seq<Partition>)
    requires IsLogarithm(lg) && SphereFacts(lg, sphere) && IsSeries(v)
    requires Table(BitsFor(lg, sphere, 30.0), v, closed) && |closed| == 4
    ensures Dropped(BitsFor(lg, sphere, 30.0), v) == EarlyPair(v) && !Optimal(BitsFor(lg, sphere, 30.0), v, closed[3])
    ensures Cost(BitsFor(lg, sphere, 30.0), EarlyPair(v)) < Cost(BitsFor(lg, sphere, 30.0), closed[3])
  {
    var bits := BitsFor(lg, sphere, 30.0);
    SplitIsCheaper(lg, sphere, v);
    CheaperThanOneGroup(lg, sphere, v);
    CheaperThanLatePair(lg, sphere, v);
    CheaperThanAllSplit(lg, sphere, v);
    DroppedIsCheapest(bits, v, closed);
  }

  lemma {:induction false} DroppedIsCheapest(bits: Bits, v: seq<Run>, closed: seq<Partition>)
    requires |v| == 3 && Table(bits, v, closed) && |closed| == 4 && KeepsApart(bits, v)
    requires Cost(bits, EarlyPair(v)) < Cost(bits, Whole(v)) && Cost(bits, EarlyPair(v)) < Cost(bits, LatePair(v))
    requires Cost(bits, EarlyPair(v)) < Cost(bits, AllSplit(v))
    ensures !Optimal(bits, v, closed[3]) && Cost(bits, EarlyPair(v)) < Cost(bits, closed[3])
  {
    ThreeAreOptimalIff(bits, v, closed);
    ThirdEntry(bits, v, closed);
  }
}
