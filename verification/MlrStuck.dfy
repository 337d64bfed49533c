/** Phases of the rate search that never reach their goal, and a search that gets there. */
module MlrStuck {
  import opened Bytes
  import opened MlrSearch
  import opened MlrTraces
  import opened MlrPhases

  /** What a stuck no-drop interval asks for, again and again. */
  ghost function StuckRate(ndr: Interval, g: Goal): real
    requires CanExpand(ndr, g)
  {
    Smaller(g.max, ExpandedUp(SearchWidth(ndr, g), g.doublings, ndr.hi.rate))
  }

  /** A partial-drop interval that does not ask for lower rates, and does not reach above `rate`. */
  ghost predicate Quiet(pdr: Interval, g: Goal, rate: real)
  {
    g.min <= pdr.lo.rate < pdr.hi.rate <= rate && pdr.lo.loss <= g.ratio
  }

  lemma StuckRateWithin(ndr: Interval, g: Goal)
    requires g.Valid() && Within(ndr, g) && Stuck(ndr, g)
    ensures CanExpand(ndr, g) && ndr.hi.rate < StuckRate(ndr, g) <= g.max
  {
    Expands(ndr, g);
    UpperRequestWithin(ndr, 0.0, g);
  }

  lemma QuietStaysQuiet(pdr: Interval, g: Goal, m: Trial)
    requires Quiet(pdr, g, m.rate)
    ensures Quiet(NewInterval(pdr, m, g.ratio), g, m.rate)
  {
  }

  lemma StuckTurn(choose: Chooser, sqrt: real -> real, ndr: Interval, pdr: Interval, g: Goal, m: Trial)
    requires Ready(sqrt, ndr, pdr, g) && Stuck(ndr, g) && IsChooser(choose, sqrt, g) && CanExpand(ndr, g)
    requires pdr.lo.loss <= g.ratio
    ensures choose(ndr, pdr) == Some(StuckRate(ndr, g))
    ensures m.rate == StuckRate(ndr, g) ==> NewInterval(ndr, m, 0.0) == ndr
  {
    Defined(sqrt, ndr, pdr, g);
    StuckStaysStuck(sqrt, ndr, pdr, g, m);
  }

  /**
   * For any loss ratio: a stuck no-drop interval over a quiet partial-drop interval stays as it is and asks for the
   * same rate at every turn, whatever the trials show. Such a phase ends by its timeout only.
   */
  lemma {:induction false} StuckForever(choose: Chooser, sqrt: real -> real, ndr: Interval, pdr: Interval, g: Goal,
                                        trials: seq<Trial>)
    requires Ready(sqrt, ndr, pdr, g) && Stuck(ndr, g) && CanExpand(ndr, g) && Quiet(pdr, g, StuckRate(ndr, g))
    requires IsChooser(choose, sqrt, g) && Follows(choose, ndr, pdr, g.ratio, trials)
    ensures AfterTrials(ndr, trials, 0.0) == ndr && Quiet(AfterTrials(pdr, trials, g.ratio), g, StuckRate(ndr, g))
    ensures choose(ndr, AfterTrials(pdr, trials, g.ratio)) == Some(StuckRate(ndr, g))
  {
    StuckRateWithin(ndr, g);
    if trials == [] {
      StuckTurn(choose, sqrt, ndr, pdr, g, ndr.lo);
    } else {
      var n := |trials| - 1;
      LastFollows(choose, ndr, pdr, g.ratio, trials);
      StuckForever(choose, sqrt, ndr, pdr, g, trials[..n]);
      var pdr' := AfterTrials(pdr, trials[..n], g.ratio);
      StuckTurn(choose, sqrt, ndr, pdr', g, trials[n]);
      QuietStaysQuiet(pdr', g, trials[n]);
      StuckTurn(choose, sqrt, ndr, NewInterval(pdr', trials[n], g.ratio), g, ndr.lo);
    }
  }

  lemma StuckIsNotSettled(sqrt: real -> real, ndr: Interval, pdr: Interval, g: Goal)
    requires Ready(sqrt, ndr, pdr, g) && Defines(sqrt, ndr, pdr, g) && Stuck(ndr, g)
    ensures NextRate(sqrt, ndr, pdr, g).Some?
  {
    StopsIffSettled(sqrt, ndr, pdr, g);
  }

  lemma StuckAsks(choose: Chooser, sqrt: real -> real, ndr: Interval, pdr: Interval, g: Goal)
    requires Ready(sqrt, ndr, pdr, g) && Stuck(ndr, g) && IsChooser(choose, sqrt, g)
    ensures choose(ndr, pdr).Some? && g.min <= choose(ndr, pdr).value <= g.max
  {
    Defined(sqrt, ndr, pdr, g);
    StuckIsNotSettled(sqrt, ndr, pdr, g);
    NextRateWithin(sqrt, ndr, pdr, g);
  }

  lemma StuckKept(ndr: Interval, g: Goal, m: Trial)
    requires Stuck(ndr, g) && g.min <= m.rate && m.rate != ndr.lo.rate && m.rate != ndr.hi.rate
    ensures NewInterval(ndr, m, 0.0) == ndr
  {
  }

  lemma StaysWithin(i: Interval, g: Goal, m: Trial, ratio: real)
    requires Within(i, g) && g.min <= m.rate <= g.max
    ensures Within(NewInterval(i, m, ratio), g)
  {
  }

  /**
   * Over any partial-drop interval: a stuck no-drop interval changes only by a trial at one of its own two rates, and
   * until then the phase goes on asking.
   */
  lemma {:induction false} StuckUntilTriedAgain(choose: Chooser, sqrt: real -> real, ndr: Interval, pdr: Interval,
                                                g: Goal,
                                                trials: seq<Trial>)
    requires Ready(sqrt, ndr, pdr, g) && Stuck(ndr, g)
    requires IsChooser(choose, sqrt, g) && Follows(choose, ndr, pdr, g.ratio, trials)
    requires forall k :: 0 <= k < |trials| ==> trials[k].rate != ndr.lo.rate && trials[k].rate != ndr.hi.rate
    ensures AfterTrials(ndr, trials, 0.0) == ndr && Within(AfterTrials(pdr, trials, g.ratio), g)
    ensures choose(ndr, AfterTrials(pdr, trials, g.ratio)).Some?
  {
    if trials == [] {
      StuckAsks(choose, sqrt, ndr, pdr, g);
    } else {
      var n := |trials| - 1;
      LastFollows(choose, ndr, pdr, g.ratio, trials);
      StuckUntilTriedAgain(choose, sqrt, ndr, pdr, g, trials[..n]);
      var pdr' := AfterTrials(pdr, trials[..n], g.ratio);
      StuckAsks(choose, sqrt, ndr, pdr', g);
      StuckKept(ndr, g, trials[n]);
      StaysWithin(pdr', g, trials[n], g.ratio);
      StuckAsks(choose, sqrt, ndr, NewInterval(pdr', trials[n], g.ratio), g);
    }
  }

  // ---------------------------------------------------------------------
  // How a search gets stuck
  // ---------------------------------------------------------------------

  /**
   * Valid and narrow bounds for both ratios, the lower one the minimal rate, both tried for too short a time so
   * far.
   */
  ghost predicate Shared(i: Interval, g: Goal)
  {
    && 0.0 < g.min == i.lo.rate < i.hi.rate < g.max && Width(i) <= g.width
    && i.lo.loss <= 0.0 < i.hi.loss && i.lo.loss <= g.ratio < i.hi.loss
    && i.lo.duration < g.duration && i.hi.duration < g.duration
  }

  lemma FirstTurn(choose: Chooser, sqrt: real -> real, i: Interval, g: Goal)
    requires Ready(sqrt, i, i, g) && IsChooser(choose, sqrt, g) && Shared(i, g)
    ensures choose(i, i) == Some(i.lo.rate)
  {
    Defined(sqrt, i, i, g);
  }

  /** The minimal rate now shows some loss, but not too much of it for the partial-drop rate. */
  lemma SecondTurn(choose: Chooser, sqrt: real -> real, i: Interval, g: Goal)
    requires Ready(sqrt, i, i, g) && IsChooser(choose, sqrt, g)
    requires g.min == i.lo.rate < i.hi.rate < g.max && Width(i) <= g.width
    requires 0.0 < i.lo.loss <= g.ratio < i.hi.loss && i.hi.duration < g.duration <= i.lo.duration
    ensures choose(i, i) == Some(i.hi.rate)
  {
    Defined(sqrt, i, i, g);
  }

  ghost predicate Unlucky(i: Interval, g: Goal, t: Trial, u: Trial)
  {
    && t.rate == i.lo.rate && t.duration == g.duration && 0.0 < t.loss <= g.ratio
    && u.rate == i.hi.rate && u.duration == g.duration && u.loss <= 0.0
  }

  /**
   * Any search gets stuck that tries the minimal rate again with a little loss and then the shared upper bound again
   * without loss: both trials are those the phase asks for.
   */
  lemma GetsStuck(choose: Chooser, sqrt: real -> real, i: Interval, g: Goal, t: Trial, u: Trial)
    requires Ready(sqrt, i, i, g) && IsChooser(choose, sqrt, g) && Shared(i, g) && Unlucky(i, g, t, u)
    ensures choose(i, i) == Some(t.rate)
    ensures var j := NewInterval(i, t, 0.0);
            && j == NewInterval(i, t, g.ratio) && choose(j, j) == Some(u.rate)
            && var n := NewInterval(j, u, 0.0);
               && n == NewInterval(j, u, g.ratio) == Interval(t, u) && Ready(sqrt, n, n, g) && Stuck(n, g)
               && CanExpand(n, g) && Quiet(n, g, StuckRate(n, g))
  {
    FirstTurn(choose, sqrt, i, g);
    SecondTurn(choose, sqrt, Interval(t, i.hi), g);
    StuckRateWithin(Interval(t, u), g);
  }

  /** So a phase that starts like this never stops asking. */
  lemma {:induction false} NeverStops(choose: Chooser, sqrt: real -> real, i: Interval, g: Goal, trials: seq<Trial>)
    requires Ready(sqrt, i, i, g) && IsChooser(choose, sqrt, g) && Shared(i, g)
    requires Follows(choose, i, i, g.ratio, trials)
    requires |trials| > 0 ==> 0.0 < trials[0].loss <= g.ratio && trials[0].duration == g.duration
    requires |trials| > 1 ==> trials[1].loss <= 0.0 && trials[1].duration == g.duration
    ensures choose(AfterTrials(i, trials, 0.0), AfterTrials(i, trials, g.ratio)).Some?
  {
    FirstTurn(choose, sqrt, i, g);
    if |trials| > 0 {
      assert trials[..0] == [];
      var t := trials[0];
      OneTrial(i, t, 0.0);
      OneTrial(i, t, g.ratio);
      if |trials| == 1 {
        assert trials == [t];
        SecondTurn(choose, sqrt, Interval(t, i.hi), g);
      } else {
        NeverStopsLater(choose, sqrt, i, g, trials, t, trials[1]);
      }
    }
  }

  lemma {:induction false} NeverStopsLater(choose: Chooser, sqrt: real -> real, i: Interval, g: Goal,
                                           trials: seq<Trial>, t: Trial, u: Trial)
    requires Ready(sqrt, i, i, g) && IsChooser(choose, sqrt, g) && Shared(i, g)
    requires Follows(choose, i, i, g.ratio, trials) && |trials| > 1 && t == trials[0] && u == trials[1]
    requires 0.0 < t.loss <= g.ratio && t.duration == g.duration == u.duration && u.loss <= 0.0 && t.rate == i.lo.rate
    ensures choose(AfterTrials(i, trials, 0.0), AfterTrials(i, trials, g.ratio)).Some?
  {
    SecondTurn(choose, sqrt, Interval(t, i.hi), g);
    assert trials[..1] == [t];
    OneTrial(i, t, 0.0);
    OneTrial(i, t, g.ratio);
    assert u.rate == i.hi.rate;
    GetsStuck(choose, sqrt, i, g, t, u);
    var rest, n := trials[2..], Interval(t, u);
    AfterTwo(i, t, u, 0.0);
    AfterTwo(i, t, u, g.ratio);
    assert trials == [t, u] + rest;
    FollowsParts(choose, i, i, g.ratio, [t, u], rest);
    AfterBoth(i, [t, u], rest, 0.0);
    AfterBoth(i, [t, u], rest, g.ratio);
    StuckForever(choose, sqrt, n, n, g, rest);
  }

  lemma AfterTwo(i: Interval, t: Trial, u: Trial, ratio: real)
    ensures AfterTrials(i, [t, u], ratio) == NewInterval(NewInterval(i, t, ratio), u, ratio)
  {
    AfterBoth(i, [t], [u], ratio);
    OneTrial(i, t, ratio);
    OneTrial(NewInterval(i, t, ratio), u, ratio);
    assert [t] + [u] == [t, u];
  }

  /** A run of a phase that starts like this did not reach the goal, however long it was. */
  lemma {:induction false} RunNotReached(sqrt: real -> real, run: PhaseRun)
    requires IsSqrt(sqrt) && RunOf(sqrt, run) && run.ndr == run.pdr && Shared(run.ndr, run.goal) && run.goal.Valid()
    requires Within(run.ndr', run.goal) && Within(run.pdr', run.goal)
    requires |run.made| > 0 ==> 0.0 < run.made[0].loss <= run.goal.ratio
    requires |run.made| > 1 ==> run.made[1].loss <= 0.0
    ensures !Reached(run)
  {
    NeverStops(run.choose, sqrt, run.ndr, run.goal, run.made);
    Defined(sqrt, run.ndr', run.pdr', run.goal);
    StopsIffSettled(sqrt, run.ndr', run.pdr', run.goal);
    assert Ready(sqrt, run.ndr', run.pdr', run.goal);
  }

  /**
   * A system in which rate 100 loses one packet in a hundred only at the second try, and rate 200 only at the
   * first.
   */
  function Flaky(history: seq<Trial>, duration: real, rate: real): (real, real)
  {
    match |history|
    case 0 => (2.0 / 3.0, 100.0)
    case 1 => (0.0, 100.0)
    case 2 => (0.1, 180.0)
    case 3 => (0.01, 99.0)
    case _ => (0.0, 200.0)
  }

  lemma {:induction false} FlakyStart(trials: seq<Trial>, made: seq<Trial>, start: Interval)
    requires Answered(Flaky, trials) && made <= trials && Scheduled(made, 0, 100.0, 300.0, {1.0})
    requires Started(made, start, 100.0, 300.0, 0.5)
    ensures |made| == 3 && start == Interval(Trial(1.0, 100.0, 0.0, 100.0), Trial(1.0, 200.0, 0.1, 180.0))
  {
    assert |trials[..0]| == 0 && |trials[..1]| == 1;
    assert made[0].received == 100.0 && made[1].loss == 0.0 && made[1].rate == 100.0;
    assert RefinedRate(made[1], 0.5) == 200.0;
    assert |trials[..2]| == 2;
    assert made[2].loss == 0.1;
  }

  lemma {:induction false} FlakyLosses(trials: seq<Trial>, made: seq<Trial>, more: seq<Trial>)
    requires Answered(Flaky, trials) && trials == made + more && |made| == 3
    ensures |more| > 0 ==> more[0].loss == 0.01
    ensures |more| > 1 ==> more[1].loss == 0.0
  {
    if |more| > 0 {
      assert trials[3] == more[0] && |trials[..3]| == 3;
    }
    if |more| > 1 {
      assert trials[4] == more[1] && |trials[..4]| == 4;
    }
  }

  lemma FlakyShared(i: Interval, doublings: nat)
    requires i == Interval(Trial(1.0, 100.0, 0.0, 100.0), Trial(1.0, 200.0, 0.1, 180.0))
    ensures var g := Goal(100.0, 300.0, 0.05, 2.0, 0.5, doublings); Shared(i, g) && g.Valid()
  {
  }

  ghost function FlakySchedule(pow: (real, real) -> real, doublings: nat): Schedule
  {
    Schedule(Goal(100.0, 300.0, 0.05, 2.0, 0.5, doublings), pow, 1.0, 0)
  }

  /** A successful search of one phase from an empty history. */
  lemma {:induction false} SinglePhase(sqrt: real -> real, turns: nat -> nat, s: Schedule, trials: seq<Trial>,
                                       made: seq<Trial>, start: Interval, runs: seq<PhaseRun>,
                                       result: Option<(Interval, Interval)>) returns (run: PhaseRun)
    requires Searched(sqrt, turns, s, [], trials, made, start, runs, result) && s.phases == 0 && result.Some?
    ensures trials == made + run.made && RunOf(sqrt, run) && run.goal == s.goal && run.ndr == run.pdr == start
    ensures Reached(run) && Within(run.ndr', s.goal) && Within(run.pdr', s.goal)
  {
    run := runs[0];
    MadeByOne(runs);
    EmptyBefore(made, run.made, trials);
  }

  lemma {:induction false} MadeByOne(runs: seq<PhaseRun>)
    requires |runs| == 1
    ensures Made(runs) == runs[0].made
  {
    assert runs[..0] == [];
  }

  lemma EmptyBefore<T>(s: seq<T>, t: seq<T>, all: seq<T>)
    requires all == [] + s + t
    ensures all == s + t
  {
  }

  lemma {:induction false} FlakyFails(sqrt: real -> real, g: Goal, trials: seq<Trial>, made: seq<Trial>,
                                      start: Interval,
                                      run: PhaseRun)
    requires IsSqrt(sqrt) && Answered(Flaky, trials) && trials == made + run.made
    requires g == Goal(100.0, 300.0, 0.05, 2.0, 0.5, g.doublings) && Started(made, start, 100.0, 300.0, 0.5)
    requires Scheduled(made, 0, 100.0, 300.0, {1.0})
    requires RunOf(sqrt, run) && run.goal == g && run.ndr == run.pdr == start
    requires Within(run.ndr', g) && Within(run.pdr', g)
    ensures !Reached(run)
  {
    FlakyStart(trials, made, start);
    FlakyLosses(trials, made, run.made);
    FlakyShared(start, g.doublings);
    FlakyRun(sqrt, g.doublings, run);
  }

  lemma {:induction false} FlakyNeverSucceeds(sqrt: real -> real, turns: nat -> nat, s: Schedule, trials: seq<Trial>,
                                              made: seq<Trial>, start: Interval, runs: seq<PhaseRun>,
                                              result: Option<(Interval, Interval)>)
    requires IsSqrt(sqrt) && Answered(Flaky, trials)
    requires Searched(sqrt, turns, s, [], trials, made, start, runs, result)
    requires s.goal == Goal(100.0, 300.0, 0.05, 2.0, 0.5, s.goal.doublings) && s.initial == 1.0 && s.phases == 0
    ensures result.None?
  {
    if result.Some? {
      var run := SinglePhase(sqrt, turns, s, trials, made, start, runs, result);
      FlakyFails(sqrt, s.goal, trials, made, start, run);
    }
  }

  lemma {:induction false} FlakyRun(sqrt: real -> real, doublings: nat, run: PhaseRun)
    requires IsSqrt(sqrt) && RunOf(sqrt, run) && run.ndr == run.pdr && Shared(run.ndr, run.goal) && run.goal.Valid()
    requires run.goal == Goal(100.0, 300.0, 0.05, 2.0, 0.5, doublings)
    requires Within(run.ndr', run.goal) && Within(run.pdr', run.goal)
    requires |run.made| > 0 ==> run.made[0].loss == 0.01
    requires |run.made| > 1 ==> run.made[1].loss == 0.0
    ensures !Reached(run)
  {
    RunNotReached(sqrt, run);
  }

  /** With that system the search never succeeds, however much time it is given. */
  method StuckSearch(sqrt: real -> real, pow: (real, real) -> real, turns: nat -> nat, doublings: nat)
    returns (result: Option<(Interval, Interval)>)
    requires IsSqrt(sqrt)
    ensures result.None?
  {
    var search := new Search(Flaky, sqrt, pow, turns, 0.5, 2.0, 1.0, 0, doublings);
    ghost var made, start, runs;
    result, made, start, runs := search.NarrowDown(100.0, 300.0, 0.05);
    FlakyNeverSucceeds(sqrt, turns, FlakySchedule(pow, doublings), search.trials, made, start, runs, result);
  }
}
