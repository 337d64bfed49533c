/** A system whose loss is a monotone function of the rate, and what trials and intervals say about it. */
module MlrTruth {
  import opened MlrSearch
  import opened MlrPhases

  /** A system whose loss depends on the rate alone, and grows with it. */
  ghost predicate Stable(respond: Respond, loss: real -> real)
  {
    Monotone(loss) && forall h, d, r :: respond(h, d, r).0 == loss(r)
  }

  /**
   * What an interval says about a rate: either all rates from the minimal one lose too much, or all rates up to the
   * lower bound are good and those from the upper bound lose too much, unless even the maximal rate is good.
   */
  ghost predicate Right(i: Interval, ratio: real, g: Goal, loss: real -> real, rate: real)
    requires i.hi.rate > 0.0
  {
    if Hopeless(i, ratio, g) then rate >= g.min ==> loss(rate) > ratio
    else
      && Width(i) <= g.width
      && (rate <= i.lo.rate ==> loss(rate) <= ratio)
      && (i.hi.loss > ratio ==> (rate >= i.hi.rate ==> loss(rate) > ratio))
      && (i.hi.loss <= ratio ==> (rate <= g.max ==> loss(rate) <= ratio))
  }

  ghost predicate TrueBounds(i: Interval, loss: real -> real)
  {
    i.lo.loss == loss(i.lo.rate) && i.hi.loss == loss(i.hi.rate)
  }

  /** In a stable system a settled interval is right about every rate. */
  lemma SettledIsRight(loss: real -> real, i: Interval, ratio: real, g: Goal, rate: real)
    requires Monotone(loss) && TrueBounds(i, loss) && Within(i, g) && Settled(i, ratio, g)
    ensures Right(i, ratio, g, loss, rate)
  {
  }

  ghost predicate TrueTrials(trials: seq<Trial>, loss: real -> real)
  {
    forall k :: 0 <= k < |trials| ==> trials[k].loss == loss(trials[k].rate)
  }

  lemma {:induction false} AnswersAreTrue(respond: Respond, loss: real -> real, trials: seq<Trial>)
    requires Stable(respond, loss) && Answered(respond, trials)
    ensures TrueTrials(trials, loss)
  {
    forall k | 0 <= k < |trials| ensures trials[k].loss == loss(trials[k].rate) {
      assert (trials[k].loss, trials[k].received) == respond(trials[..k], trials[k].duration, trials[k].rate);
    }
  }

  lemma {:induction false} TrueParts(loss: real -> real, a: seq<Trial>, b: seq<Trial>)
    requires TrueTrials(a + b, loss)
    ensures TrueTrials(a, loss) && TrueTrials(b, loss)
  {
    forall k | 0 <= k < |a| ensures a[k].loss == loss(a[k].rate) {
      assert (a + b)[k] == a[k];
    }
    forall k | 0 <= k < |b| ensures b[k].loss == loss(b[k].rate) {
      assert (a + b)[|a| + k] == b[k];
    }
  }

  lemma PhaseGoalValid(s: Schedule, k: nat)
    requires s.initial > 0.0 && s.goal.Valid() && k <= s.phases
    ensures s.GoalOf(k).Valid() && s.GoalOf(k).min == s.goal.min && s.GoalOf(k).max == s.goal.max
  {
    PhaseGoals(s, k);
    DoubledStaysWidth(s.goal.width, s.phases - k);
  }

  lemma {:induction false} PartsAreTrue(loss: real -> real, runs: seq<PhaseRun>, k: nat)
    requires TrueTrials(Made(runs), loss) && k < |runs|
    ensures TrueTrials(runs[k].made, loss)
    decreases |runs|
  {
    var n := |runs| - 1;
    var front, last := Made(runs[..n]), runs[n].made;
    assert forall j :: 0 <= j < |front| ==> Made(runs)[j] == front[j];
    if k < n {
      PartsAreTrue(loss, runs[..n], k);
    } else {
      forall j | 0 <= j < |last| ensures last[j].loss == loss(last[j].rate) {
        assert Made(runs)[|front| + j] == last[j];
      }
    }
  }

  lemma {:induction false} HandsOn(sqrt: real -> real, s: Schedule, runs: seq<PhaseRun>, start: Interval, k: nat)
    requires s.initial > 0.0 && PhaseRuns(sqrt, s, runs, start, start) && k + 1 < |runs|
    ensures runs[k + 1].ndr == runs[k].ndr' && runs[k + 1].pdr == runs[k].pdr'
  {
    assert Handed(runs, k);
  }
}
