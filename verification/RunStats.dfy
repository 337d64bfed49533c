/** `AvgStdevStats.for_runs`: size, average and spread of runs, merged one by one. */
module RunStats {
  import opened Bytes

  /** The spread is held as the variance, the square of the `stdev` attribute. */
  datatype Stats = Stats(size: nat, avg: real, variance: real)

  /** A run is one value, or the statistics of several. */
  datatype Run = Value(x: real) | Summary(stats: Stats)
  {
    function Size(): nat { if Value? then 1 else stats.size }

    function Avg(): real { if Value? then x else stats.avg }

    function Variance(): real { if Value? then 0.0 else stats.variance }
  }

  /** Number, sum and sum of squares: what merging has to add up. */
  datatype Moments = Moments(n: nat, s1: real, s2: real)
  {
    function Plus(m: Moments): Moments { Moments(n + m.n, s1 + m.s1, s2 + m.s2) }
  }

  function MomentsOf(r: Run): Moments
  {
    var n := r.Size() as real;
    Moments(r.Size(), n * r.Avg(), n * (r.Variance() + r.Avg() * r.Avg()))
  }

  function SumOf(f: Run -> Moments, runs: seq<Run>): Moments
  {
    if runs == [] then Moments(0, 0.0, 0.0) else SumOf(f, runs[..|runs| - 1]).Plus(f(runs[|runs| - 1]))
  }

  function Total(runs: seq<Run>): Moments { SumOf(MomentsOf, runs) }

  /** The statistics with these moments. */
  function Summarize(m: Moments): Stats
  {
    if m.n == 0 then Stats(0, 0.0, 0.0)
    else
      var n := m.n as real;
      Stats(m.n, m.s1 / n, m.s2 / n - m.s1 / n * (m.s1 / n))
  }

  function StatsOf(runs: seq<Run>): Stats { Summarize(Total(runs)) }

  // ---------------------------------------------------------------------
  // One merging step
  // ---------------------------------------------------------------------

  /** The average of `n` values with average `a` and `k` more with average `b`. */
  function NextAvg(n: real, a: real, k: real, b: real): real
    requires n + k != 0.0
  {
    a + (b - a) * k / (n + k)
  }

  /** Their total squared deviation, when the first had `m2` and the others the variance `v`. */
  function NextMoment(n: real, a: real, m2: real, k: real, b: real, v: real): real
    requires n + k != 0.0
  {
    m2 + v * k + (b - a) * (b - a) * n * k / (n + k)
  }

  /** Average and deviation go with the sums: if they did before the merge, they do after it. */
  lemma Absorb(n: real, a: real, m2: real, s2: real, k: real, b: real, v: real)
    requires n >= 0.0 && k >= 0.0 && n + k > 0.0 && m2 == s2 - n * a * a
    ensures (n + k) * NextAvg(n, a, k, b) == n * a + k * b
    ensures NextMoment(n, a, m2, k, b, v) ==
            s2 + k * (v + b * b) - (n + k) * NextAvg(n, a, k, b) * NextAvg(n, a, k, b)
  {
    var N, d := n + k, b - a;
    var t := k / N;
    var a' := a + d * t;
    assert N * t == k;
    Cancel(d, k, N, t);
    assert NextAvg(n, a, k, b) == a';
    assert N * a' == N * a + d * (N * t);
    AbsorbSquares(n, a, k, b, t);
    Cancel(d * d * n, k, N, t);
    assert NextMoment(n, a, m2, k, b, v) == m2 + v * k + d * d * n * t;
    assert k * (v + b * b) == v * k + k * b * b;
  }

  lemma Cancel(x: real, k: real, N: real, t: real)
    requires N != 0.0 && N * t == k
    ensures x * k / N == x * t
  {
    assert x * k == x * t * N;
  }

  lemma AbsorbSquares(n: real, a: real, k: real, b: real, t: real)
    requires (n + k) * t == k
    ensures var d := b - a;
            d * d * n * t == k * b * b + n * a * a - (n + k) * (a + d * t) * (a + d * t)
  {
    var N, d := n + k, b - a;
    calc {
      N * (a + d * t) * (a + d * t);
      N * a * a + 2.0 * a * d * (N * t) + d * d * t * (N * t);
      N * a * a + 2.0 * a * d * k + d * d * t * k;
    }
    calc {
      k * b * b + n * a * a - (N * a * a + 2.0 * a * d * k + d * d * t * k);
      k * (b * b - a * a - 2.0 * a * d) - d * d * t * k;
      { assert b * b - a * a - 2.0 * a * d == d * d; }
      k * (d * d) - d * d * t * k;
      d * d * (k - t * k);
      { assert k - t * k == n * t; }
      d * d * (n * t);
    }
  }

  /** The moments of a summary are those of what it summarizes. */
  lemma SummaryKeepsMoments(m: Moments)
    requires m.n > 0
    ensures MomentsOf(Summary(Summarize(m))) == m
  {
    var n := m.n as real;
    var a := m.s1 / n;
    assert n * a == m.s1;
    assert n * (m.s2 / n) == m.s2;
  }

  lemma UniqueStats(m: Moments, avg: real, m2: real)
    requires m.n > 0
    requires m.n as real * avg == m.s1 && m2 == m.s2 - m.n as real * avg * avg
    ensures Stats(m.n, avg, m2 / m.n as real) == Summarize(m)
  {
    var n := m.n as real;
    assert avg == m.s1 / n;
    assert n * avg * avg / n == avg * avg;
    assert m2 / n == m.s2 / n - n * avg * avg / n;
  }

  ghost predicate TracksSums(n: real, avg: real, moment2: real, s1: real, s2: real)
  {
    n * avg == s1 && moment2 == s2 - n * avg * avg
  }

  lemma AbsorbTracks(n: real, a: real, m2: real, s1: real, s2: real, k: real, b: real, v: real)
    requires n >= 0.0 && k >= 0.0 && n + k > 0.0 && TracksSums(n, a, m2, s1, s2)
    ensures TracksSums(n + k, NextAvg(n, a, k, b), NextMoment(n, a, m2, k, b, v), s1 + k * b, s2 + k * (v + b * b))
  {
    Absorb(n, a, m2, s2, k, b, v);
  }

  /** The loop's three variables determine, and are determined by, the moments so far. */
  ghost predicate Tracks(size: nat, avg: real, moment2: real, m: Moments)
  {
    size == m.n && TracksSums(size as real, avg, moment2, m.s1, m.s2)
  }

  lemma Lift(size: nat, k: nat, n: real, avg: real, moment2: real, s1: real, s2: real, m: Moments)
    requires n == size as real + k as real && TracksSums(n, avg, moment2, s1, s2)
    requires m == Moments(size + k, s1, s2)
    ensures Tracks(size + k, avg, moment2, m)
  {
    assert (size + k) as real == n;
  }

  /** The new average and squared deviation of the loop body. */
  method MergeSums(n: real, avg: real, moment2: real, k: real, b: real, v: real,
                   ghost s1: real, ghost s2: real, ghost s1': real, ghost s2': real)
    returns (avg': real, moment2': real)
    requires n >= 0.0 && k >= 0.0 && n + k > 0.0 && TracksSums(n, avg, moment2, s1, s2)
    requires s1' == s1 + k * b && s2' == s2 + k * (v + b * b)
    ensures TracksSums(n + k, avg', moment2', s1', s2')
  {
    avg', moment2' := NextAvg(n, avg, k, b), NextMoment(n, avg, moment2, k, b, v);
    AbsorbTracks(n, avg, moment2, s1, s2, k, b, v);
  }

  lemma PlusRun(m: Moments, run: Run, m': Moments, k: real)
    requires m' == m.Plus(MomentsOf(run)) && k == run.Size() as real
    ensures m'.s1 == m.s1 + k * run.Avg() && m'.s2 == m.s2 + k * (run.Variance() + run.Avg() * run.Avg())
    ensures m'.n == m.n + run.Size()
  {
  }

  /** The body of the loop: absorb one run. */
  method Merge(size: nat, avg: real, moment2: real, run: Run, ghost m: Moments)
    returns (size': nat, avg': real, moment2': real)
    requires Tracks(size, avg, moment2, m) && size + run.Size() > 0
    ensures Tracks(size', avg', moment2', m.Plus(MomentsOf(run)))
  {
    var n, k := size as real, run.Size() as real;
    size' := size + run.Size();
    ghost var m' := m.Plus(MomentsOf(run));
    PlusRun(m, run, m', k);
    avg', moment2' := MergeSums(n, avg, moment2, k, run.Avg(), run.Variance(), m.s1, m.s2, m'.s1, m'.s2);
    Lift(size, run.Size(), n + k, avg', moment2', m'.s1, m'.s2, m');
  }

  /** The end of the loop: the statistics that go with the moments. */
  method Finish(size: nat, avg: real, moment2: real, ghost m: Moments) returns (s: Stats)
    requires Tracks(size, avg, moment2, m)
    ensures s == Summarize(m)
  {
    if size < 1 {
      return Stats(0, 0.0, 0.0);
    }
    UniqueStats(m, avg, moment2);
    s := Stats(size, avg, moment2 / size as real);
  }

  /** `for_runs`; nothing is returned where the source divides by zero, for a first run of size zero. */
  method ForRuns(runs: seq<Run>) returns (r: Option<Stats>)
    ensures r.None? <==> runs != [] && runs[0].Size() == 0
    ensures r.Some? ==> r.value == StatsOf(runs)
  {
    var totalSize: nat, totalAvg, moment2 := 0, 0.0, 0.0;
    for i := 0 to |runs|
      invariant Tracks(totalSize, totalAvg, moment2, Total(runs[..i]))
      invariant i > 0 ==> totalSize > 0 && runs[0].Size() > 0
    {
      if totalSize + runs[i].Size() == 0 {
        return None;
      }
      TotalStep(runs, i);
      totalSize, totalAvg, moment2 := Merge(totalSize, totalAvg, moment2, runs[i], Total(runs[..i]));
    }
    assert runs[..|runs|] == runs;
    var s := Finish(totalSize, totalAvg, moment2, Total(runs));
    return Some(s);
  }

  lemma TotalStep(runs: seq<Run>, i: nat)
    requires i < |runs|
    ensures Total(runs[..i + 1]) == Total(runs[..i]).Plus(MomentsOf(runs[i]))
  {
    assert runs[..i + 1][..i] == runs[..i];
  }

  // ---------------------------------------------------------------------
  // What the statistics mean
  // ---------------------------------------------------------------------

  function Sum(xs: seq<real>): real { if xs == [] then 0.0 else Sum(xs[..|xs| - 1]) + xs[|xs| - 1] }

  function SquaredDeviations(xs: seq<real>, a: real): real
  {
    if xs == [] then 0.0
    else SquaredDeviations(xs[..|xs| - 1], a) + (xs[|xs| - 1] - a) * (xs[|xs| - 1] - a)
  }

  /** Population size, mean and variance of a non-empty list of values. */
  ghost predicate Describes(s: Stats, xs: seq<real>)
  {
    && s.size == |xs| > 0
    && s.size as real * s.avg == Sum(xs)
    && s.size as real * s.variance == SquaredDeviations(xs, s.avg)
  }

  function Values(xs: seq<real>): (runs: seq<Run>)
    ensures |runs| == |xs| && forall i :: 0 <= i < |xs| ==> runs[i] == Value(xs[i])
  {
    if xs == [] then [] else Values(xs[..|xs| - 1]) + [Value(xs[|xs| - 1])]
  }

  function Expanded(n: real, s1: real, s2: real, a: real): real { s2 - 2.0 * a * s1 + n * a * a }

  lemma ExpandStep(n: real, s1: real, s2: real, a: real, x: real)
    ensures Expanded(n, s1, s2, a) + (x - a) * (x - a) == Expanded(n + 1.0, s1 + x, s2 + x * x, a)
  {
  }

  lemma ValuesStep(xs: seq<real>, x: real)
    ensures Total(Values(xs + [x])) == Total(Values(xs)).Plus(Moments(1, x, x * x))
  {
    assert (xs + [x])[..|xs|] == xs;
    assert Values(xs + [x]) == Values(xs) + [Value(x)];
    assert (Values(xs) + [Value(x)])[..|xs|] == Values(xs);
    assert MomentsOf(Value(x)) == Moments(1, x, x * x);
  }

  lemma {:induction false} ValuesTotals(xs: seq<real>)
    ensures Total(Values(xs)).n == |xs| && Total(Values(xs)).s1 == Sum(xs)
  {
    if xs != [] {
      var front, x := xs[..|xs| - 1], xs[|xs| - 1];
      ValuesTotals(front);
      assert xs == front + [x];
      ValuesStep(front, x);
    }
  }

  lemma {:induction false} OneMoreValue(front: seq<real>, x: real, xs: seq<real>, a: real)
    requires xs == front + [x]
    ensures |xs| as real == |front| as real + 1.0 && Sum(xs) == Sum(front) + x
    ensures SquaredDeviations(xs, a) == SquaredDeviations(front, a) + (x - a) * (x - a)
    ensures Total(Values(xs)).s2 == Total(Values(front)).s2 + x * x
  {
    assert xs[..|xs| - 1] == front;
    ValuesStep(front, x);
  }

  lemma {:induction false} DeviationsExpand(xs: seq<real>, a: real)
    ensures Total(Values(xs)).n == |xs| && Total(Values(xs)).s1 == Sum(xs)
    ensures SquaredDeviations(xs, a) == Expanded(|xs| as real, Sum(xs), Total(Values(xs)).s2, a)
  {
    ValuesTotals(xs);
    if xs != [] {
      var front, x := xs[..|xs| - 1], xs[|xs| - 1];
      DeviationsExpand(front, a);
      OneMoreValue(front, x, xs, a);
      ExpandOneMore(|front| as real, |xs| as real, Sum(front), Sum(xs), Total(Values(front)).s2,
                    Total(Values(xs)).s2, a, x, SquaredDeviations(front, a), SquaredDeviations(xs, a));
    }
  }

  lemma ExpandOneMore(n: real, n': real, s1: real, s1': real, s2: real, s2': real, a: real, x: real, d: real, d': real)
    requires d == Expanded(n, s1, s2, a) && d' == d + (x - a) * (x - a)
    requires n' == n + 1.0 && s1' == s1 + x && s2' == s2 + x * x
    ensures d' == Expanded(n', s1', s2', a)
  {
    ExpandStep(n, s1, s2, a, x);
  }

  lemma DeviationIsMoment(n: real, avg: real, v: real, s1: real, s2: real, deviation: real)
    requires deviation == Expanded(n, s1, s2, avg)
    ensures n * avg == s1 && n * v == deviation <==> n * avg == s1 && n * (v + avg * avg) == s2
  {
    assert n * (v + avg * avg) == n * v + n * avg * avg;
    if n * avg == s1 {
      assert n * avg * avg == s1 * avg;
    }
  }

  ghost predicate HasMoments(s: Stats, m: Moments)
  {
    s.size == m.n && s.size as real * s.avg == m.s1 && s.size as real * (s.variance + s.avg * s.avg) == m.s2
  }

  lemma HasMomentsIff(s: Stats, m: Moments)
    ensures HasMoments(s, m) <==> MomentsOf(Summary(s)) == m
  {
  }

  lemma DescribesIffHasMoments(s: Stats, xs: seq<real>, m: Moments)
    requires xs != [] && m.n == |xs| && m.s1 == Sum(xs)
    requires SquaredDeviations(xs, s.avg) == Expanded(|xs| as real, Sum(xs), m.s2, s.avg)
    ensures Describes(s, xs) <==> HasMoments(s, m)
  {
    if s.size == m.n {
      DeviationIsMoment(s.size as real, s.avg, s.variance, m.s1, m.s2, SquaredDeviations(xs, s.avg));
    }
  }

  /** Describing values and having their moments are the same thing. */
  lemma DescribesIffMoments(s: Stats, xs: seq<real>)
    requires xs != []
    ensures Describes(s, xs) <==> MomentsOf(Summary(s)) == Total(Values(xs))
  {
    DeviationsExpand(xs, s.avg);
    DescribesIffHasMoments(s, xs, Total(Values(xs)));
    HasMomentsIff(s, Total(Values(xs)));
  }

  lemma {:induction false} SumOfConcat(f: Run -> Moments, a: seq<Run>, b: seq<Run>)
    ensures SumOf(f, a + b) == SumOf(f, a).Plus(SumOf(f, b))
  {
    if b == [] {
      assert a + b == a;
    } else {
      var n := |b| - 1;
      SumOfConcat(f, a, b[..n]);
      assert (a + b)[..|a + b| - 1] == a + b[..n];
    }
  }

  lemma TotalConcat(a: seq<Run>, b: seq<Run>)
    ensures Total(a + b) == Total(a).Plus(Total(b))
  {
    SumOfConcat(MomentsOf, a, b);
  }

  lemma {:induction false} ValuesConcat(a: seq<real>, b: seq<real>)
    ensures Values(a + b) == Values(a) + Values(b)
  {
    if b == [] {
      assert a + b == a && Values(a) + [] == Values(a);
    } else {
      var n := |b| - 1;
      ValuesConcat(a, b[..n]);
      assert (a + b)[..|a + b| - 1] == a + b[..n];
    }
  }

  /** A run stands for these values: itself, or the values its statistics describe. */
  ghost predicate StandsFor(r: Run, xs: seq<real>)
  {
    match r
    case Value(x) => xs == [x]
    case Summary(s) => Describes(s, xs)
  }

  lemma StandsForMoments(r: Run, xs: seq<real>)
    requires StandsFor(r, xs)
    ensures MomentsOf(r) == Total(Values(xs)) && xs != []
  {
    match r
    case Value(x) =>
      assert Values([x]) == Values([]) + [Value(x)] && [x][..0] == [];
      assert Total([Value(x)][..0]) == Moments(0, 0.0, 0.0);
    case Summary(s) => DescribesIffMoments(s, xs);
  }

  lemma {:induction false} TotalStandsFor(runs: seq<Run>, data: seq<seq<real>>)
    requires |runs| == |data| && forall i :: 0 <= i < |runs| ==> StandsFor(runs[i], data[i])
    ensures Total(runs) == Total(Values(Flatten(data)))
    ensures runs != [] ==> Flatten(data) != []
  {
    if runs != [] {
      StandsForMoments(runs[0], data[0]);
      TotalStandsFor(runs[1..], data[1..]);
      TotalConcat([runs[0]], runs[1..]);
      assert [runs[0]] + runs[1..] == runs;
      TotalOne(runs[0]);
      TotalValues(data[0], Flatten(data[1..]));
    }
  }

  lemma TotalValues(a: seq<real>, b: seq<real>)
    ensures Total(Values(a + b)) == Total(Values(a)).Plus(Total(Values(b)))
  {
    ValuesConcat(a, b);
    TotalConcat(Values(a), Values(b));
  }

  /** Merging summaries of any parts of the data gives the mean and variance of all of the data. */
  lemma MergedDescribesAll(runs: seq<Run>, data: seq<seq<real>>)
    requires |runs| == |data| > 0 && forall i :: 0 <= i < |runs| ==> StandsFor(runs[i], data[i])
    ensures Describes(StatsOf(runs), Flatten(data))
  {
    TotalStandsFor(runs, data);
    var xs := Flatten(data);
    DeviationsExpand(xs, 0.0);
    SummaryKeepsMoments(Total(runs));
    DescribesIffMoments(StatsOf(runs), xs);
  }

  lemma TotalOne(r: Run)
    ensures Total([r]) == MomentsOf(r)
  {
    TotalStep([r], 0);
    assert [r][..1] == [r] && [r][..0] == [];
  }

  /** Statistics updated with one more run are the statistics of the longer list. */
  lemma AppendedStats(runs: seq<Run>, run: Run)
    requires Total(runs).n > 0
    ensures StatsOf([Summary(StatsOf(runs)), run]) == StatsOf(runs + [run])
    ensures StatsOf([Summary(StatsOf(runs))]) == StatsOf(runs)
  {
    var s := Summary(StatsOf(runs));
    SummaryKeepsMoments(Total(runs));
    TotalOne(s);
    TotalConcat([s], [run]);
    TotalConcat(runs, [run]);
    assert [s] + [run] == [s, run];
  }
}
