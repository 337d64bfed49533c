/** The rate search when the minimal rate is the maximal one. */
module MlrSingleRate {
  import opened Bytes
  import opened MlrSearch
  import opened MlrTraces
  import opened MlrPhases
  import opened MlrTruth

  /** Both bounds are at the one rate; the upper one is still the first trial. */
  ghost predicate OneRate(i: Interval, rate: real, initial: real)
  {
    i.lo.rate == i.hi.rate == rate && i.hi.duration == initial
  }

  /** In any system: a trial replaces the lower bound, so the upper one is never tried again. */
  lemma OneRateStays(i: Interval, m: Trial, ratio: real, initial: real)
    requires OneRate(i, m.rate, initial)
    ensures NewInterval(i, m, ratio) == Interval(m, i.hi) && OneRate(NewInterval(i, m, ratio), m.rate, initial)
  {
  }

  /** In any system: settled if and only if both trials lost too much, or the first trial was long enough anyway. */
  lemma OneRateSettledIff(i: Interval, ratio: real, g: Goal, initial: real)
    requires g.Valid() && g.min == g.max && OneRate(i, g.min, initial)
    ensures Settled(i, ratio, g) <==>
            i.lo.duration >= g.duration && (initial >= g.duration || (i.lo.loss > ratio && i.hi.loss > ratio))
  {
    assert Width(i) == 0.0 / i.hi.rate == 0.0;
  }

  // ---------------------------------------------------------------------
  // A system with one loss at the one rate
  // ---------------------------------------------------------------------

  ghost predicate OneLoss(i: Interval, level: real) { i.lo.loss == level == i.hi.loss }

  ghost predicate Same(i: Interval, rate: real, initial: real, level: real)
  {
    OneRate(i, rate, initial) && OneLoss(i, level)
  }

  ghost predicate AllSame(trials: seq<Trial>, rate: real, duration: real, level: real)
  {
    forall t :: t in trials ==> t.rate == rate && t.duration == duration && t.loss == level
  }

  lemma {:induction false} SameAfter(i: Interval, trials: seq<Trial>, ratio: real, rate: real, initial: real,
                                     duration: real, level: real)
    requires Same(i, rate, initial, level) && AllSame(trials, rate, duration, level)
    ensures Same(AfterTrials(i, trials, ratio), rate, initial, level)
    ensures trials != [] ==> AfterTrials(i, trials, ratio).lo.duration == duration
  {
    if trials != [] {
      var n := |trials| - 1;
      assert AllSame(trials[..n], rate, duration, level);
      SameAfter(i, trials[..n], ratio, rate, initial, duration, level);
      assert trials[n] in trials;
      OneRateStays(AfterTrials(i, trials[..n], ratio), trials[n], ratio, initial);
    }
  }

  /** The first trial is long enough for this phase, or the rate loses too much for both ratios. */
  ghost predicate Endable(g: Goal, initial: real, level: real)
  {
    initial >= g.duration || (level > 0.0 && level > g.ratio)
  }

  /** Nothing more is asked for if and only if the phase can end and both lower bounds were tried for long enough. */
  lemma NothingAskedIff(choose: Chooser, sqrt: real -> real, ndr: Interval, pdr: Interval, g: Goal, initial: real,
                        level: real)
    requires IsSqrt(sqrt) && IsChooser(choose, sqrt, g) && g.Valid() && g.min == g.max
    requires Same(ndr, g.min, initial, level) && Same(pdr, g.min, initial, level)
    ensures choose(ndr, pdr).None? <==> Settled(ndr, 0.0, g) && Settled(pdr, g.ratio, g)
    ensures choose(ndr, pdr).None? <==>
            Endable(g, initial, level) && ndr.lo.duration >= g.duration && pdr.lo.duration >= g.duration
  {
    assert Ready(sqrt, ndr, pdr, g);
    Defined(sqrt, ndr, pdr, g);
    StopsIffSettled(sqrt, ndr, pdr, g);
    OneRateSettledIff(ndr, 0.0, g, initial);
    OneRateSettledIff(pdr, g.ratio, g, initial);
  }

  lemma {:induction false} RunIsSame(run: PhaseRun, initial: real, level: real)
    requires run.goal.min == run.goal.max && Scheduled(run.made, 0, run.goal.min, run.goal.max, {run.goal.duration})
    requires forall t :: t in run.made ==> t.loss == level
    ensures AllSame(run.made, run.goal.min, run.goal.duration, level)
  {
  }

  lemma {:induction false} SecondTrialIsChosen(run: PhaseRun)
    requires LeadTo(run.choose, run.ndr, run.pdr, run.goal.ratio, run.made, run.ndr', run.pdr') && |run.made| > 1
    ensures var one := run.made[..1];
            run.choose(AfterTrials(run.ndr, one, 0.0), AfterTrials(run.pdr, one, run.goal.ratio)).Some?
  {
  }

  /** At most one trial is made if the phase can end; then it has, as soon as one was made. */
  lemma {:induction false} OneTrialIsEnough(sqrt: real -> real, run: PhaseRun, initial: real, level: real)
    requires IsSqrt(sqrt) && RunOf(sqrt, run) && run.goal.Valid() && run.goal.min == run.goal.max
    requires Same(run.ndr, run.goal.min, initial, level) && Same(run.pdr, run.goal.min, initial, level)
    requires AllSame(run.made, run.goal.min, run.goal.duration, level) && Endable(run.goal, initial, level)
    ensures |run.made| <= 1
  {
    if |run.made| > 1 {
      var g, one := run.goal, run.made[..1];
      SecondTrialIsChosen(run);
      assert AllSame(one, g.min, g.duration, level);
      SameAfter(run.ndr, one, 0.0, g.min, initial, g.duration, level);
      SameAfter(run.pdr, one, g.ratio, g.min, initial, g.duration, level);
      NothingAskedIff(run.choose, sqrt, AfterTrials(run.ndr, one, 0.0), AfterTrials(run.pdr, one, g.ratio), g,
                      initial, level);
    }
  }

  /**
   * A phase with a single rate, in a system with one loss there: it goes on for ever exactly when it cannot end, and
   * otherwise needs one trial at most.
   */
  lemma {:induction false} SingleRatePhaseIff(sqrt: real -> real, run: PhaseRun, initial: real, level: real)
    requires IsSqrt(sqrt) && RunOf(sqrt, run) && run.goal.Valid() && run.goal.min == run.goal.max
    requires Same(run.ndr, run.goal.min, initial, level) && Same(run.pdr, run.goal.min, initial, level)
    requires forall t :: t in run.made ==> t.loss == level
    ensures Same(run.ndr', run.goal.min, initial, level) && Same(run.pdr', run.goal.min, initial, level)
    ensures run.choose(run.ndr', run.pdr').None? <==> Reached(run)
    ensures Reached(run) ==> Endable(run.goal, initial, level)
    ensures Endable(run.goal, initial, level) ==> |run.made| <= 1 && (run.made != [] ==> Reached(run))
  {
    var g := run.goal;
    RunIsSame(run, initial, level);
    SameAfter(run.ndr, run.made, 0.0, g.min, initial, g.duration, level);
    SameAfter(run.pdr, run.made, g.ratio, g.min, initial, g.duration, level);
    NothingAskedIff(run.choose, sqrt, run.ndr', run.pdr', g, initial, level);
    if Endable(g, initial, level) {
      OneTrialIsEnough(sqrt, run, initial, level);
    }
  }

  // ---------------------------------------------------------------------
  // The search
  // ---------------------------------------------------------------------

  ghost predicate AllEndable(s: Schedule, level: real)
    requires s.initial > 0.0
  {
    forall k: nat :: k <= s.phases ==> Endable(s.GoalOf(k), s.initial, level)
  }

  ghost predicate SameStart(run: PhaseRun, s: Schedule, level: real)
  {
    Same(run.ndr, s.goal.min, s.initial, level) && Same(run.pdr, s.goal.min, s.initial, level)
  }

  lemma {:induction false} LossesAreLevel(loss: real -> real, run: PhaseRun, level: real)
    requires TrueTrials(run.made, loss) && run.goal.min == run.goal.max && level == loss(run.goal.min)
    requires Scheduled(run.made, 0, run.goal.min, run.goal.max, {run.goal.duration})
    ensures forall t :: t in run.made ==> t.loss == level
  {
    forall t | t in run.made ensures t.loss == level {
      var k :| 0 <= k < |run.made| && run.made[k] == t;
    }
  }

  /** One of the phases of a search with a single rate. */
  lemma {:induction false} OnePhaseOfSearch(loss: real -> real, sqrt: real -> real, s: Schedule, runs: seq<PhaseRun>,
                                            start: Interval, k: nat)
    requires IsSqrt(sqrt) && s.initial > 0.0 && s.goal.Valid() && s.goal.min == s.goal.max
    requires PhaseRuns(sqrt, s, runs, start, start) && TrueTrials(Made(runs), loss) && k < |runs|
    requires SameStart(runs[k], s, loss(s.goal.min))
    ensures var e := Endable(s.GoalOf(k), s.initial, loss(s.goal.min));
            (Reached(runs[k]) ==> e) && (e ==> |runs[k].made| <= 1)
    ensures Same(runs[k].ndr', s.goal.min, s.initial, loss(s.goal.min))
    ensures Same(runs[k].pdr', s.goal.min, s.initial, loss(s.goal.min))
  {
    PhaseGoalValid(s, k);
    PartsAreTrue(loss, runs, k);
    assert RunOf(sqrt, runs[k]) && runs[k].goal == s.GoalOf(k);
    LossesAreLevel(loss, runs[k], loss(s.goal.min));
    SingleRatePhaseIff(sqrt, runs[k], s.initial, loss(s.goal.min));
  }

  lemma {:induction false} NextStartIsSame(loss: real -> real, sqrt: real -> real, s: Schedule, runs: seq<PhaseRun>,
                                           start: Interval, k: nat)
    requires IsSqrt(sqrt) && s.initial > 0.0 && s.goal.Valid() && s.goal.min == s.goal.max
    requires PhaseRuns(sqrt, s, runs, start, start) && TrueTrials(Made(runs), loss) && k + 1 < |runs|
    requires SameStart(runs[k], s, loss(s.goal.min))
    ensures SameStart(runs[k + 1], s, loss(s.goal.min))
  {
    OnePhaseOfSearch(loss, sqrt, s, runs, start, k);
    HandsOn(sqrt, s, runs, start, k);
  }

  ghost predicate SameAt(runs: seq<PhaseRun>, s: Schedule, level: real, k: nat)
  {
    k < |runs| && SameStart(runs[k], s, level)
  }

  lemma {:induction false} SameAtAll(runs: seq<PhaseRun>, s: Schedule, level: real, k: nat)
    requires SameAt(runs, s, level, 0) && k < |runs|
    requires forall j: nat :: j + 1 < |runs| && SameAt(runs, s, level, j) ==> SameAt(runs, s, level, j + 1)
    ensures SameAt(runs, s, level, k)
    decreases k
  {
    if k > 0 {
      SameAtAll(runs, s, level, k - 1);
    }
  }

  lemma {:induction false} EveryStartIsSame(loss: real -> real, sqrt: real -> real, s: Schedule, runs: seq<PhaseRun>,
                                            start: Interval, k: nat)
    requires IsSqrt(sqrt) && s.initial > 0.0 && s.goal.Valid() && s.goal.min == s.goal.max
    requires PhaseRuns(sqrt, s, runs, start, start) && TrueTrials(Made(runs), loss) && k < |runs|
    requires SameStart(runs[0], s, loss(s.goal.min))
    ensures SameStart(runs[k], s, loss(s.goal.min))
  {
    var level := loss(s.goal.min);
    forall j: nat | j + 1 < |runs| && SameAt(runs, s, level, j) ensures SameAt(runs, s, level, j + 1) {
      NextStartIsSame(loss, sqrt, s, runs, start, j);
    }
    SameAtAll(runs, s, level, k);
  }

  lemma {:induction false} StartIsSame(loss: real -> real, before: seq<Trial>, made: seq<Trial>, start: Interval,
                                       rate: real, initial: real, w: real)
    requires w < 1.0 && Started(made, start, rate, rate, w) && Sound(before + made, start, rate, rate, initial)
    requires TrueTrials(made, loss)
    ensures Same(start, rate, initial, loss(rate))
  {
    assert start == Interval(made[1], made[0]);
  }

  lemma {:induction false} FirstStartIsSame(loss: real -> real, sqrt: real -> real, turns: nat -> nat, s: Schedule,
                                            before: seq<Trial>, after: seq<Trial>, made: seq<Trial>, start: Interval,
                                            runs: seq<PhaseRun>, result: Option<(Interval, Interval)>)
    requires s.initial > 0.0 && s.goal.Valid() && s.goal.min == s.goal.max && TrueTrials(after, loss)
    requires Searched(sqrt, turns, s, before, after, made, start, runs, result)
    ensures SameStart(runs[0], s, loss(s.goal.min)) && TrueTrials(Made(runs), loss)
  {
    TrueParts(loss, before + made, Made(runs));
    TrueParts(loss, before, made);
    StartIsSame(loss, before, made, start, s.goal.min, s.initial, DoubledWidth(s.goal.width, s.phases));
  }

  lemma {:induction false} AllReached(sqrt: real -> real, turns: nat -> nat, s: Schedule, before: seq<Trial>,
                                      after: seq<Trial>, made: seq<Trial>, start: Interval, runs: seq<PhaseRun>,
                                      result: Option<(Interval, Interval)>, k: nat)
    requires Searched(sqrt, turns, s, before, after, made, start, runs, result) && result.Some? && k <= s.phases
    ensures |runs| == s.phases + 1 && Reached(runs[k])
  {
    if k < s.phases {
      assert Handed(runs, k);
    }
  }

  /** With a single rate the search ends if and only if every phase can end. */
  lemma {:induction false} SingleRateEndsIff(loss: real -> real, sqrt: real -> real, turns: nat -> nat, s: Schedule,
                                             before: seq<Trial>, after: seq<Trial>, made: seq<Trial>, start: Interval,
                                             runs: seq<PhaseRun>, result: Option<(Interval, Interval)>)
    requires IsSqrt(sqrt) && s.initial > 0.0 && s.goal.Valid() && s.goal.min == s.goal.max && TrueTrials(after, loss)
    requires Searched(sqrt, turns, s, before, after, made, start, runs, result)
    requires forall k: nat :: k <= s.phases ==> turns(k) >= 2
    ensures result.Some? <==> AllEndable(s, loss(s.goal.min))
  {
    FirstStartIsSame(loss, sqrt, turns, s, before, after, made, start, runs, result);
    if result.Some? {
      forall k: nat | k <= s.phases ensures Endable(s.GoalOf(k), s.initial, loss(s.goal.min)) {
        AllReached(sqrt, turns, s, before, after, made, start, runs, result, k);
        EveryStartIsSame(loss, sqrt, s, runs, start, k);
        OnePhaseOfSearch(loss, sqrt, s, runs, start, k);
      }
    } else {
      var k := |runs| - 1;
      EveryStartIsSame(loss, sqrt, s, runs, start, k);
      OnePhaseOfSearch(loss, sqrt, s, runs, start, k);
      assert !Endable(s.GoalOf(k), s.initial, loss(s.goal.min));
    }
  }

  lemma {:induction false} SingleRateIsRight(loss: real -> real, sqrt: real -> real, turns: nat -> nat, s: Schedule,
                                             before: seq<Trial>, after: seq<Trial>, made: seq<Trial>, start: Interval,
                                             runs: seq<PhaseRun>, result: Option<(Interval, Interval)>, rate: real)
    requires IsSqrt(sqrt) && Monotone(loss) && s.goal.Valid() && s.goal.min == s.goal.max && TrueTrials(after, loss)
    requires Searched(sqrt, turns, s, before, after, made, start, runs, result) && result.Some?
    ensures var (ndr, pdr) := result.value;
            && ndr.hi.rate > 0.0 && Right(ndr, 0.0, s.goal, loss, rate)
            && pdr.hi.rate > 0.0 && Right(pdr, s.goal.ratio, s.goal, loss, rate)
  {
    var (ndr, pdr) := result.value;
    FirstStartIsSame(loss, sqrt, turns, s, before, after, made, start, runs, result);
    EveryStartIsSame(loss, sqrt, s, runs, start, s.phases);
    OnePhaseOfSearch(loss, sqrt, s, runs, start, s.phases);
    assert runs[s.phases].goal == s.GoalOf(s.phases) == s.goal;
    SettledIsRight(loss, ndr, 0.0, s.goal, rate);
    SettledIsRight(loss, pdr, s.goal.ratio, s.goal, rate);
  }
}
