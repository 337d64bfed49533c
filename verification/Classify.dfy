/** `classify` as a whole, with the bit count of `BitCountingStats`, and how far from optimal its answer can be. */
module Classify {
  import opened RunStats
  import opened JumpAvg
  import BitCounting

  /** One element of the series: a value or an indivisible sequence of values. */
  datatype Input = One(x: real) | Many(xs: seq<real>)
  {
    function Samples(): seq<real> { if One? then [x] else xs }

    function AsRun(): Run { if One? then Value(x) else Summary(StatsOf(Values(xs))) }
  }

  ghost predicate IsMaxValue(max: real, inputs: seq<Input>)
  {
    && max >= 0.0
    && (forall i, j :: 0 <= i < |inputs| && 0 <= j < |inputs[i].Samples()| ==> inputs[i].Samples()[j] <= max)
    && (max > 0.0 ==>
          exists i, j :: 0 <= i < |inputs| && 0 <= j < |inputs[i].Samples()| && inputs[i].Samples()[j] == max)
  }

  method MaxOf(xs: seq<real>, atLeast: real) returns (max: real)
    ensures max >= atLeast && forall j :: 0 <= j < |xs| ==> xs[j] <= max
    ensures max == atLeast || exists j :: 0 <= j < |xs| && xs[j] == max
  {
    max := atLeast;
    for i := 0 to |xs|
      invariant max >= atLeast && forall j :: 0 <= j < i ==> xs[j] <= max
      invariant max == atLeast || exists j :: 0 <= j < i && xs[j] == max
    {
      if xs[i] > max {
        max := xs[i];
      }
    }
  }

  /** A sequence of values is replaced by its statistics. */
  method ToRun(input: Input) returns (run: Run)
    ensures run == input.AsRun()
  {
    match input
    case One(x) => run := Value(x);
    case Many(xs) =>
      var s := ForRuns(Values(xs));
      run := Summary(s.value);
  }

  /** The first loop: the maximum of all samples (0 at least), and the runs. */
  method Preprocess(inputs: seq<Input>) returns (max: real, runs: seq<Run>)
    ensures IsMaxValue(max, inputs)
    ensures |runs| == |inputs| && forall i :: 0 <= i < |inputs| ==> runs[i] == inputs[i].AsRun()
  {
    max, runs := 0.0, [];
    for i := 0 to |inputs|
      invariant |runs| == i && AreRuns(inputs, runs)
      invariant IsMaxValue(max, inputs[..i])
    {
      ghost var before := max;
      max := MaxOf(inputs[i].Samples(), max);
      MaxOneMore(before, max, inputs, i);
      var run := ToRun(inputs[i]);
      OneMoreRun(inputs, runs, run);
      runs := runs + [run];
    }
    assert inputs[..|inputs|] == inputs;
  }

  ghost predicate AreRuns(inputs: seq<Input>, runs: seq<Run>)
  {
    |runs| <= |inputs| && forall k :: 0 <= k < |runs| ==> runs[k] == inputs[k].AsRun()
  }

  lemma OneMoreRun(inputs: seq<Input>, runs: seq<Run>, run: Run)
    requires AreRuns(inputs, runs) && |runs| < |inputs| && run == inputs[|runs|].AsRun()
    ensures AreRuns(inputs, runs + [run])
  {
  }

  lemma MaxOneMore(before: real, max: real, inputs: seq<Input>, i: nat)
    requires i < |inputs| && IsMaxValue(before, inputs[..i]) && max >= before
    requires forall j :: 0 <= j < |inputs[i].Samples()| ==> inputs[i].Samples()[j] <= max
    requires max == before || exists j :: 0 <= j < |inputs[i].Samples()| && inputs[i].Samples()[j] == max
    ensures IsMaxValue(max, inputs[..i + 1])
  {
    var longer := inputs[..i + 1];
    assert forall k :: 0 <= k < i ==> longer[k] == inputs[..i][k];
    assert longer[i] == inputs[i];
    if max > 0.0 {
      if max == before {
        var k, j :| 0 <= k < i && 0 <= j < |inputs[..i][k].Samples()| && inputs[..i][k].Samples()[j] == max;
        assert longer[k].Samples()[j] == max;
      } else {
        var j :| 0 <= j < |inputs[i].Samples()| && inputs[i].Samples()[j] == max;
        assert longer[i].Samples()[j] == max;
      }
    }
  }

  ghost function Averages(gs: Partition): (avgs: seq<real>)
    ensures |avgs| == |gs|
  {
    seq(|gs|, i requires 0 <= i < |gs| => StatsOf(gs[i]).avg)
  }

  lemma AveragesOf(bits: Bits, groups: seq<Group>, bitsExceptLast: real)
    requires Consistent(bits, groups, bitsExceptLast)
    ensures Averages(RunsOf(groups)) == seq(|groups|, i requires 0 <= i < |groups| => groups[i].stats.avg)
  {
    forall i: nat | i < |groups| ensures StatsOf(groups[i].runs).avg == groups[i].stats.avg {
      assert UpToDate(bits, groups, i);
    }
  }

  /** Fewer than before is a regression, more a progression; the first group and equal averages are normal. */
  ghost predicate IsLabel(avgs: seq<real>, i: nat, comment: string)
    requires i < |avgs|
  {
    && (comment == "regression" <==> i > 0 && avgs[i] < avgs[i - 1])
    && (comment == "progression" <==> i > 0 && avgs[i] > avgs[i - 1])
    && (comment == "normal" <==> i == 0 || avgs[i] == avgs[i - 1])
  }

  ghost predicate Labelled(avgs: seq<real>, comments: seq<string>)
  {
    |comments| == |avgs| && forall i: nat :: i < |avgs| ==> IsLabel(avgs, i, comments[i])
  }

  /** The last loop. */
  method Label(avgs: seq<real>) returns (comments: seq<string>)
    requires avgs != []
    ensures Labelled(avgs, comments)
  {
    var previous := avgs[0];
    comments := [];
    for i := 0 to |avgs|
      invariant |comments| == i && previous == avgs[if i == 0 then 0 else i - 1]
      invariant forall j: nat :: j < i ==> IsLabel(avgs, j, comments[j])
    {
      comments := comments +
        [if avgs[i] == previous then "normal" else if avgs[i] < previous then "regression" else "progression"];
      previous := avgs[i];
    }
  }

  datatype Result =
    | Classified(groups: Partition, comments: seq<string>)
    | IndexError         // nothing to classify
    | ZeroDivisionError  // an empty sequence among the inputs
    | ValueError         // no positive value to base the coding on

  /** `bitsFor` gives the coding of groups for a maximal value. */
  method Classify(inputs: seq<Input>, bitsFor: real -> Bits)
    returns (r: Result, ghost max: real, ghost runs: seq<Run>, ghost closed: seq<Partition>)
    ensures IsMaxValue(max, inputs)
    ensures |runs| == |inputs| && forall i :: 0 <= i < |inputs| ==> runs[i] == inputs[i].AsRun()
    ensures r.IndexError? <==> inputs == []
    ensures r.ValueError? <==>
            |inputs| > 1 && max == 0.0 && inputs[0].Samples() != [] && inputs[1].Samples() != []
    ensures r.ZeroDivisionError? <==> !r.ValueError? && exists i :: 0 <= i < |inputs| && inputs[i].Samples() == []
    ensures r.Classified? ==>
              && Table(bitsFor(max), runs, closed) && |closed| == |runs| + 1
              && r.groups == closed[|runs|] && Labelled(Averages(r.groups), r.comments)
  {
    closed := [];
    var m, rs := Preprocess(inputs);
    max, runs := m, rs;
    SizesOf(inputs, rs);
    if inputs == [] {
      return IndexError, max, runs, closed;
    }
    // The second value is the first for which bits are counted, after its own group has been made.
    if m <= 0.0 && |inputs| > 1 && rs[0].Size() > 0 && rs[1].Size() > 0 {
      return ValueError, max, runs, closed;
    }
    if exists i :: 0 <= i < |rs| && rs[i].Size() == 0 {
      return ZeroDivisionError, max, runs, closed;
    }
    var partition;
    partition, closed := ClassifyRuns(bitsFor(m), rs);
    assert rs[..|rs|] == rs;
    TablePartitions(bitsFor(m), rs, closed, |rs|);
    NonEmptyPartition(closed[|rs|], rs);
    var groups := partition.groups;
    AveragesOf(partition.bits, groups, partition.bitsExceptLast);
    var comments := Label(seq(|groups|, i requires 0 <= i < |groups| => groups[i].stats.avg));
    r := Classified(RunsOf(groups), comments);
  }

  lemma {:induction false} ValuesTotal(xs: seq<real>)
    ensures Total(Values(xs)).n == |xs|
  {
    DeviationsExpand(xs, 0.0);
  }

  lemma SizesOf(inputs: seq<Input>, runs: seq<Run>)
    requires |runs| == |inputs| && forall i :: 0 <= i < |inputs| ==> runs[i] == inputs[i].AsRun()
    ensures forall i :: 0 <= i < |inputs| ==> (runs[i].Size() == 0 <==> inputs[i].Samples() == [])
  {
    forall i | 0 <= i < |inputs| ensures runs[i].Size() == 0 <==> inputs[i].Samples() == [] {
      if inputs[i].Many? {
        ValuesTotal(inputs[i].xs);
      }
    }
  }

  // ---------------------------------------------------------------------
  // How good the answer is, in terms of the samples
  // ---------------------------------------------------------------------

  /** The run that takes the place of an input has the mean and the variance of its samples. */
  lemma RunStandsForSamples(input: Input)
    requires input.Samples() != []
    ensures StandsFor(input.AsRun(), input.Samples())
  {
    if input.Many? {
      ValuesStandForThemselves(input.xs);
    }
  }

  lemma {:induction false} ValuesStandForThemselves(xs: seq<real>)
    requires xs != []
    ensures Describes(StatsOf(Values(xs)), xs)
  {
    ValuesTotal(xs);
    SummaryKeepsMoments(Total(Values(xs)));
    DescribesIffMoments(StatsOf(Values(xs)), xs);
  }

  ghost predicate SamplesBetween(input: Input, lo: real, hi: real)
  {
    input.Samples() != [] && forall j :: 0 <= j < |input.Samples()| ==> lo <= input.Samples()[j] <= hi
  }

  lemma RunInRange(input: Input, lo: real, hi: real)
    requires SamplesBetween(input, lo, hi)
    ensures input.AsRun().Size() > 0 && lo <= input.AsRun().Avg() <= hi
  {
    if input.One? {
      assert input.Samples()[0] == input.x;
    } else {
      var runs := Values(input.xs);
      assert BitCounting.InRange(runs, lo, hi);
      BitCounting.AverageInRange(runs, lo, hi);
    }
  }

  /**
   * For samples between `lo` and `hi`, with a positive one among them, what `classify` finds takes at most
   * log2(hi - lo + 1) bits per group boundary more than any other grouping.
   */
  lemma AnswerNearOptimal(inputs: seq<Input>, max: real, lo: real, hi: real, runs: seq<Run>, closed: seq<Partition>,
                          gs: Partition, lg: real -> real, sphere: (nat, real) -> real)
    requires forall i :: 0 <= i < |inputs| ==> SamplesBetween(inputs[i], lo, hi)
    requires IsMaxValue(max, inputs) && max > 0.0 && BitCounting.IsLogarithm(lg)
    requires |runs| == |inputs| && forall i :: 0 <= i < |inputs| ==> runs[i] == inputs[i].AsRun()
    requires Table(BitCounting.BitsFor(lg, sphere, max), runs, closed) && |closed| == |runs| + 1
    requires Partitions(gs, runs)
    ensures Cost(BitCounting.BitsFor(lg, sphere, max), closed[|runs|])
         <= Cost(BitCounting.BitsFor(lg, sphere, max), gs) + Slack(lg(hi - lo + 1.0), |gs|)
  {
    forall i | 0 <= i < |runs| ensures runs[i].Size() > 0 && lo <= runs[i].Avg() <= hi {
      RunInRange(inputs[i], lo, hi);
    }
    assert BitCounting.InRange(runs, lo, hi);
    BitCounting.ClassifyNearOptimal(lg, sphere, max, lo, hi, runs, closed, gs);
  }
}
