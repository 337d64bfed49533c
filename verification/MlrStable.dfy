/** The rate search in a system whose loss is a monotone function of the rate: it ends, and it is right. */
module MlrStable {
  import opened Bytes
  import opened MlrSearch
  import opened MlrTraces
  import opened MlrPhases
  import opened MlrProgress
  import opened MlrTruth
  import opened MlrSingleRate

  lemma {:induction false} LatestAreTrue(loss: real -> real, trials: seq<Trial>, i: Interval)
    requires TrueTrials(trials, loss) && UpToDate(trials, i)
    ensures Truthful(i, loss)
  {
  }

  // ---------------------------------------------------------------------
  // A phase ends
  // ---------------------------------------------------------------------

  ghost predicate AllFair(trials: seq<Trial>, loss: real -> real, g: Goal)
  {
    forall k :: 0 <= k < |trials| ==> Fair(trials[k], loss, g)
  }

  lemma ChosenBrings(choose: Chooser, loss: real -> real, sqrt: real -> real, ndr: Interval, pdr: Interval, g: Goal,
                     m: Trial)
    requires Ready(sqrt, ndr, pdr, g) && Monotone(loss) && Truthful(ndr, loss) && Truthful(pdr, loss)
    requires Fair(m, loss, g)
    requires IsChooser(choose, sqrt, g) && choose(ndr, pdr) == Some(m.rate)
    ensures var ndr', pdr' := NewInterval(ndr, m, 0.0), NewInterval(pdr, m, g.ratio);
            && Truthful(ndr', loss) && Truthful(pdr', loss) && Within(ndr', g) && Within(pdr', g)
            && Total(ndr', pdr', g) < Total(ndr, pdr, g)
  {
    Defined(sqrt, ndr, pdr, g);
    TurnBrings(loss, sqrt, ndr, pdr, g, m);
  }

  /** Every trial of a phase brings its intervals closer to the goal. */
  lemma {:induction false} TrialsBring(choose: Chooser, loss: real -> real, sqrt: real -> real, ndr: Interval,
                                       pdr: Interval, g: Goal, trials: seq<Trial>)
    requires Ready(sqrt, ndr, pdr, g) && Monotone(loss) && Truthful(ndr, loss) && Truthful(pdr, loss)
    requires IsChooser(choose, sqrt, g) && Follows(choose, ndr, pdr, g.ratio, trials) && AllFair(trials, loss, g)
    ensures var ndr', pdr' := AfterTrials(ndr, trials, 0.0), AfterTrials(pdr, trials, g.ratio);
            && Truthful(ndr', loss) && Truthful(pdr', loss) && Within(ndr', g) && Within(pdr', g)
            && Total(ndr', pdr', g) + |trials| <= Total(ndr, pdr, g)
  {
    if trials != [] {
      var n := |trials| - 1;
      LastFollows(choose, ndr, pdr, g.ratio, trials);
      TrialsBring(choose, loss, sqrt, ndr, pdr, g, trials[..n]);
      ChosenBrings(choose, loss, sqrt, AfterTrials(ndr, trials[..n], 0.0), AfterTrials(pdr, trials[..n], g.ratio), g,
                   trials[n]);
    }
  }

  /** A phase takes no more trials than a number that depends on its goal alone. */
  lemma {:induction false} PhaseEnds(loss: real -> real, sqrt: real -> real, run: PhaseRun)
    requires RunOf(sqrt, run) && Ready(sqrt, run.ndr, run.pdr, run.goal) && Monotone(loss)
    requires Truthful(run.ndr, loss) && Truthful(run.pdr, loss) && TrueTrials(run.made, loss)
    ensures |run.made| <= MostTurns(run.goal)
    ensures Ready(sqrt, run.ndr', run.pdr', run.goal) && Truthful(run.ndr', loss) && Truthful(run.pdr', loss)
  {
    TrialsBring(run.choose, loss, sqrt, run.ndr, run.pdr, run.goal, run.made);
    TotalBounded(run.ndr, run.pdr, run.goal);
  }

  // ---------------------------------------------------------------------
  // The search ends
  // ---------------------------------------------------------------------

  /** What a phase starts from. */
  ghost predicate FairStart(loss: real -> real, run: PhaseRun, min: real, max: real)
  {
    && Truthful(run.ndr, loss) && Truthful(run.pdr, loss)
    && 0.0 < min <= run.ndr.lo.rate && run.ndr.hi.rate <= max && min <= run.pdr.lo.rate && run.pdr.hi.rate <= max
  }

  /** What it leaves to the next one. */
  ghost predicate FairEnd(loss: real -> real, run: PhaseRun, min: real, max: real)
  {
    && Truthful(run.ndr', loss) && Truthful(run.pdr', loss)
    && 0.0 < min <= run.ndr'.lo.rate && run.ndr'.hi.rate <= max && min <= run.pdr'.lo.rate && run.pdr'.hi.rate <= max
  }

  lemma {:induction false} OnePhaseEnds(loss: real -> real, sqrt: real -> real, s: Schedule, runs: seq<PhaseRun>,
                                        start: Interval, k: nat)
    requires IsSqrt(sqrt) && Monotone(loss) && s.initial > 0.0 && s.goal.Valid()
    requires PhaseRuns(sqrt, s, runs, start, start) && TrueTrials(Made(runs), loss) && k < |runs|
    requires FairStart(loss, runs[k], s.goal.min, s.goal.max)
    ensures runs[k].goal == s.GoalOf(k) && runs[k].goal.Valid() && |runs[k].made| <= MostTurns(runs[k].goal)
    ensures FairEnd(loss, runs[k], s.goal.min, s.goal.max)
  {
    PhaseGoalValid(s, k);
    PartsAreTrue(loss, runs, k);
    assert RunOf(sqrt, runs[k]) && runs[k].goal == s.GoalOf(k);
    PhaseEnds(loss, sqrt, runs[k]);
  }

  lemma {:induction false} NextStartIsFair(loss: real -> real, sqrt: real -> real, s: Schedule, runs: seq<PhaseRun>,
                                           start: Interval, k: nat)
    requires IsSqrt(sqrt) && Monotone(loss) && s.initial > 0.0 && s.goal.Valid()
    requires PhaseRuns(sqrt, s, runs, start, start) && TrueTrials(Made(runs), loss) && k + 1 < |runs|
    requires FairStart(loss, runs[k], s.goal.min, s.goal.max)
    ensures FairStart(loss, runs[k + 1], s.goal.min, s.goal.max)
  {
    OnePhaseEnds(loss, sqrt, s, runs, start, k);
    HandsOn(sqrt, s, runs, start, k);
  }

  ghost predicate FairAt(loss: real -> real, runs: seq<PhaseRun>, min: real, max: real, k: nat)
  {
    k < |runs| && FairStart(loss, runs[k], min, max)
  }

  lemma {:induction false} FairAtLast(loss: real -> real, runs: seq<PhaseRun>, min: real, max: real, k: nat)
    requires FairAt(loss, runs, min, max, 0) && k < |runs|
    requires forall j: nat :: j + 1 < |runs| && FairAt(loss, runs, min, max, j) ==> FairAt(loss, runs, min, max, j + 1)
    ensures FairAt(loss, runs, min, max, k)
    decreases k
  {
    if k > 0 {
      FairAtLast(loss, runs, min, max, k - 1);
    }
  }

  lemma {:induction false} LastStartIsFair(loss: real -> real, sqrt: real -> real, s: Schedule, runs: seq<PhaseRun>,
                                           start: Interval)
    requires IsSqrt(sqrt) && Monotone(loss) && s.initial > 0.0 && s.goal.Valid()
    requires PhaseRuns(sqrt, s, runs, start, start) && TrueTrials(Made(runs), loss)
    requires FairStart(loss, runs[0], s.goal.min, s.goal.max)
    ensures FairStart(loss, runs[|runs| - 1], s.goal.min, s.goal.max)
  {
    var min, max := s.goal.min, s.goal.max;
    forall j: nat | j + 1 < |runs| && FairAt(loss, runs, min, max, j) ensures FairAt(loss, runs, min, max, j + 1) {
      NextStartIsFair(loss, sqrt, s, runs, start, j);
    }
    FairAtLast(loss, runs, min, max, |runs| - 1);
  }

  /** Every phase is given more turns than it can need. */
  ghost predicate EnoughTurns(turns: nat -> nat, s: Schedule)
    requires s.initial > 0.0 && s.goal.Valid()
  {
    forall k: nat :: k <= s.phases ==> s.GoalOf(k).Valid() && turns(k) > MostTurns(s.GoalOf(k))
  }

  lemma EnoughAt(turns: nat -> nat, s: Schedule, k: nat)
    requires s.initial > 0.0 && s.goal.Valid() && EnoughTurns(turns, s) && k <= s.phases
    ensures s.GoalOf(k).Valid() && turns(k) > MostTurns(s.GoalOf(k)) && turns(k) >= 2
  {
    assert MostTurns(s.GoalOf(k)) >= 1;
  }

  lemma {:induction false} LastPhaseEnds(loss: real -> real, sqrt: real -> real, s: Schedule, runs: seq<PhaseRun>,
                                         start: Interval)
    requires IsSqrt(sqrt) && Monotone(loss) && s.initial > 0.0 && s.goal.Valid()
    requires PhaseRuns(sqrt, s, runs, start, start) && TrueTrials(Made(runs), loss)
    requires FairStart(loss, runs[0], s.goal.min, s.goal.max)
    ensures var k := |runs| - 1; s.GoalOf(k).Valid() && |runs[k].made| <= MostTurns(s.GoalOf(k))
  {
    LastStartIsFair(loss, sqrt, s, runs, start);
    OnePhaseEnds(loss, sqrt, s, runs, start, |runs| - 1);
  }

  lemma {:induction false} SearchStartsFair(loss: real -> real, sqrt: real -> real, turns: nat -> nat, s: Schedule,
                                            before: seq<Trial>, after: seq<Trial>, made: seq<Trial>, start: Interval,
                                            runs: seq<PhaseRun>, result: Option<(Interval, Interval)>)
    requires s.initial > 0.0 && s.goal.Valid() && s.goal.min < s.goal.max && TrueTrials(after, loss)
    requires Searched(sqrt, turns, s, before, after, made, start, runs, result)
    ensures FairStart(loss, runs[0], s.goal.min, s.goal.max) && TrueTrials(Made(runs), loss)
  {
    TrueParts(loss, before + made, Made(runs));
    LatestAreTrue(loss, before + made, start);
  }

  lemma {:induction false} SearchEnds(loss: real -> real, sqrt: real -> real, turns: nat -> nat, s: Schedule,
                                      before: seq<Trial>, after: seq<Trial>, made: seq<Trial>, start: Interval,
                                      runs: seq<PhaseRun>, result: Option<(Interval, Interval)>)
    requires IsSqrt(sqrt) && Monotone(loss) && s.initial > 0.0 && s.goal.Valid() && s.goal.min < s.goal.max
    requires Searched(sqrt, turns, s, before, after, made, start, runs, result) && TrueTrials(after, loss)
    requires EnoughTurns(turns, s)
    ensures result.Some?
  {
    SearchStartsFair(loss, sqrt, turns, s, before, after, made, start, runs, result);
    LastPhaseEnds(loss, sqrt, s, runs, start);
    EnoughAt(turns, s, |runs| - 1);
  }

  lemma {:induction false} SearchIsRight(loss: real -> real, sqrt: real -> real, turns: nat -> nat, s: Schedule,
                                         before: seq<Trial>, after: seq<Trial>, made: seq<Trial>, start: Interval,
                                         runs: seq<PhaseRun>, result: Option<(Interval, Interval)>, rate: real)
    requires Monotone(loss) && s.goal.Valid() && s.goal.min < s.goal.max && TrueTrials(after, loss)
    requires Searched(sqrt, turns, s, before, after, made, start, runs, result) && result.Some?
    ensures var (ndr, pdr) := result.value;
            && ndr.hi.rate > 0.0 && Right(ndr, 0.0, s.goal, loss, rate)
            && pdr.hi.rate > 0.0 && Right(pdr, s.goal.ratio, s.goal, loss, rate)
  {
    var (ndr, pdr) := result.value;
    LatestAreTrue(loss, after, ndr);
    LatestAreTrue(loss, after, pdr);
    assert runs[s.phases].goal == s.GoalOf(s.phases) == s.goal;
    SettledIsRight(loss, ndr, 0.0, s.goal, rate);
    SettledIsRight(loss, pdr, s.goal.ratio, s.goal, rate);
  }

  lemma {:induction false} AnySearchIsRight(loss: real -> real, sqrt: real -> real, turns: nat -> nat, s: Schedule,
                                            before: seq<Trial>, after: seq<Trial>, made: seq<Trial>, start: Interval,
                                            runs: seq<PhaseRun>, result: Option<(Interval, Interval)>, rate: real)
    requires IsSqrt(sqrt) && Monotone(loss) && s.goal.Valid() && TrueTrials(after, loss)
    requires Searched(sqrt, turns, s, before, after, made, start, runs, result) && result.Some?
    ensures var (ndr, pdr) := result.value;
            && ndr.hi.rate > 0.0 && Right(ndr, 0.0, s.goal, loss, rate)
            && pdr.hi.rate > 0.0 && Right(pdr, s.goal.ratio, s.goal, loss, rate)
  {
    if s.goal.min < s.goal.max {
      SearchIsRight(loss, sqrt, turns, s, before, after, made, start, runs, result, rate);
    } else {
      SingleRateIsRight(loss, sqrt, turns, s, before, after, made, start, runs, result, rate);
    }
  }

  lemma {:induction false} AnySearchEndsIff(loss: real -> real, sqrt: real -> real, turns: nat -> nat, s: Schedule,
                                            before: seq<Trial>, after: seq<Trial>, made: seq<Trial>, start: Interval,
                                            runs: seq<PhaseRun>, result: Option<(Interval, Interval)>)
    requires IsSqrt(sqrt) && Monotone(loss) && s.initial > 0.0 && s.goal.Valid()
    requires Searched(sqrt, turns, s, before, after, made, start, runs, result) && TrueTrials(after, loss)
    requires EnoughTurns(turns, s)
    ensures result.Some? <==> s.goal.min < s.goal.max || AllEndable(s, loss(s.goal.min))
  {
    if s.goal.min < s.goal.max {
      SearchEnds(loss, sqrt, turns, s, before, after, made, start, runs, result);
    } else {
      forall k: nat | k <= s.phases ensures turns(k) >= 2 {
        EnoughAt(turns, s, k);
      }
      SingleRateEndsIff(loss, sqrt, turns, s, before, after, made, start, runs, result);
    }
  }

  /**
   * In a stable system the search ends if and only if there are two rates to tell apart, or the single rate loses too
   * much for both ratios or need not be tried for longer than at first. Then both intervals are right about every rate.
   */
  method StableSearch(search: Search, min: real, max: real, ratio: real, ghost loss: real -> real)
    returns (result: Option<(Interval, Interval)>)
    requires search.Valid() && 0.0 < min <= max && Stable(search.respond, loss)
    requires EnoughTurns(search.turns, search.TheSchedule(min, max, ratio))
    modifies search
    ensures search.Valid()
    ensures result.Some? <==> min < max || AllEndable(search.TheSchedule(min, max, ratio), loss(min))
    ensures result.Some? ==>
              var (ndr, pdr) := result.value;
              var g := search.TheSchedule(min, max, ratio).goal;
              && ndr.hi.rate > 0.0 && pdr.hi.rate > 0.0
              && forall rate :: Right(ndr, 0.0, g, loss, rate) && Right(pdr, ratio, g, loss, rate)
  {
    ghost var s := search.TheSchedule(min, max, ratio);
    ghost var before := search.trials;
    ghost var made, start, runs;
    result, made, start, runs := search.NarrowDown(min, max, ratio);
    AnswersAreTrue(search.respond, loss, search.trials);
    AnySearchEndsIff(loss, search.sqrt, search.turns, s, before, search.trials, made, start, runs, result);
    if result.Some? {
      ghost var (ndr, pdr) := result.value;
      forall rate
        ensures ndr.hi.rate > 0.0 && pdr.hi.rate > 0.0
        ensures Right(ndr, 0.0, s.goal, loss, rate) && Right(pdr, ratio, s.goal, loss, rate)
      {
        AnySearchIsRight(loss, search.sqrt, search.turns, s, before, search.trials, made, start, runs, result, rate);
      }
      AnySearchIsRight(loss, search.sqrt, search.turns, s, before, search.trials, made, start, runs, result, 0.0);
    }
  }
}
