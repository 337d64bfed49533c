/** What the trials of a phase lead to: each is at the rate that the intervals before it ask for. */
module MlrTraces {
  import opened Bytes
  import opened MlrSearch

  /** The next rate for two intervals, if any. */
  type Chooser = (Interval, Interval) -> Option<real>

  ghost predicate IsChooser(choose: Chooser, sqrt: real -> real, g: Goal)
  {
    forall ndr, pdr {:trigger Ready(sqrt, ndr, pdr, g)} ::
      Ready(sqrt, ndr, pdr, g) && Defines(sqrt, ndr, pdr, g) ==> choose(ndr, pdr) == NextRate(sqrt, ndr, pdr, g)
  }

  lemma ChooserFor(sqrt: real -> real, g: Goal) returns (choose: Chooser)
    ensures IsChooser(choose, sqrt, g)
  {
    choose := (ndr, pdr) => if Defines(sqrt, ndr, pdr, g) then NextRate(sqrt, ndr, pdr, g) else None;
  }

  /** An interval after some trials. */
  ghost function AfterTrials(i: Interval, trials: seq<Trial>, ratio: real): Interval
  {
    if trials == [] then i
    else NewInterval(AfterTrials(i, trials[..|trials| - 1], ratio), trials[|trials| - 1], ratio)
  }

  /** Each of the trials is at the rate chosen for the intervals that the trials before it led to. */
  ghost predicate Follows(choose: Chooser, ndr: Interval, pdr: Interval, ratio: real, trials: seq<Trial>)
  {
    forall k :: 0 <= k < |trials| ==>
      choose(AfterTrials(ndr, trials[..k], 0.0), AfterTrials(pdr, trials[..k], ratio)) == Some(trials[k].rate)
  }

  ghost predicate LeadTo(choose: Chooser, ndr: Interval, pdr: Interval, ratio: real, trials: seq<Trial>, ndr': Interval,
                         pdr': Interval)
  {
    && Follows(choose, ndr, pdr, ratio, trials)
    && ndr' == AfterTrials(ndr, trials, 0.0) && pdr' == AfterTrials(pdr, trials, ratio)
  }

  lemma {:induction false} LeadToOneMore(choose: Chooser, ndr: Interval, pdr: Interval, ratio: real,
                                         trials: seq<Trial>, ndr': Interval, pdr': Interval, t: Trial)
    requires LeadTo(choose, ndr, pdr, ratio, trials, ndr', pdr') && choose(ndr', pdr') == Some(t.rate)
    ensures LeadTo(choose, ndr, pdr, ratio, trials + [t], NewInterval(ndr', t, 0.0), NewInterval(pdr', t, ratio))
  {
    var longer := trials + [t];
    assert longer[..|trials|] == trials;
    forall k | 0 <= k < |longer|
      ensures choose(AfterTrials(ndr, longer[..k], 0.0), AfterTrials(pdr, longer[..k], ratio)) == Some(longer[k].rate)
    {
      if k < |trials| {
        assert longer[..k] == trials[..k];
      }
    }
  }

  lemma {:induction false} AfterBoth(i: Interval, a: seq<Trial>, b: seq<Trial>, ratio: real)
    ensures AfterTrials(i, a + b, ratio) == AfterTrials(AfterTrials(i, a, ratio), b, ratio)
  {
    if b == [] {
      assert a + b == a;
    } else {
      var n := |b| - 1;
      AfterBoth(i, a, b[..n], ratio);
      assert (a + b)[..|a + b| - 1] == a + b[..n];
    }
  }

  /** Trials that follow the choices can be cut anywhere. */
  lemma {:induction false} FollowsParts(choose: Chooser, ndr: Interval, pdr: Interval, ratio: real, a: seq<Trial>,
                                        b: seq<Trial>)
    requires Follows(choose, ndr, pdr, ratio, a + b)
    ensures Follows(choose, ndr, pdr, ratio, a)
    ensures Follows(choose, AfterTrials(ndr, a, 0.0), AfterTrials(pdr, a, ratio), ratio, b)
  {
    var all := a + b;
    forall k | 0 <= k < |a|
      ensures choose(AfterTrials(ndr, a[..k], 0.0), AfterTrials(pdr, a[..k], ratio)) == Some(a[k].rate)
    {
      assert all[..k] == a[..k] && all[k] == a[k];
    }
    forall k | 0 <= k < |b|
      ensures choose(AfterTrials(AfterTrials(ndr, a, 0.0), b[..k], 0.0),
                     AfterTrials(AfterTrials(pdr, a, ratio), b[..k], ratio))
           == Some(b[k].rate)
    {
      AfterBoth(ndr, a, b[..k], 0.0);
      AfterBoth(pdr, a, b[..k], ratio);
      assert all[..|a| + k] == a + b[..k] && all[|a| + k] == b[k];
    }
  }

  lemma OneTrial(i: Interval, t: Trial, ratio: real)
    ensures AfterTrials(i, [t], ratio) == NewInterval(i, t, ratio)
  {
    assert [t][..0] == [];
  }

  /** The last trial was chosen for the intervals before it. */
  lemma {:induction false} LastFollows(choose: Chooser, ndr: Interval, pdr: Interval, ratio: real, trials: seq<Trial>)
    requires Follows(choose, ndr, pdr, ratio, trials) && trials != []
    ensures var n := |trials| - 1;
            && Follows(choose, ndr, pdr, ratio, trials[..n])
            && choose(AfterTrials(ndr, trials[..n], 0.0), AfterTrials(pdr, trials[..n], ratio)) == Some(trials[n].rate)
  {
    var n := |trials| - 1;
    assert trials[..n] + [trials[n]] == trials;
    FollowsParts(choose, ndr, pdr, ratio, trials[..n], [trials[n]]);
  }
}
