/** The phases of the rate search, each a loop of trials, and the search as a whole. */
module MlrPhases {
  import opened Bytes
  import opened MlrSearch
  import opened MlrTraces

  function EarlierDuration(pow: (real, real) -> real, initial: real, duration: real, phases: nat): real
    requires phases > 0 && initial > 0.0
  {
    initial * pow(duration / initial, Fraction(phases - 1, phases))
  }

  /** The trial duration of phase `k` on the way to phase `phases`, whose own is `duration`. */
  ghost function PhaseDuration(pow: (real, real) -> real, initial: real, duration: real, phases: nat, k: nat): real
    requires k <= phases && initial > 0.0
    decreases phases
  {
    if k == phases then duration
    else PhaseDuration(pow, initial, EarlierDuration(pow, initial, duration, phases), phases - 1, k)
  }

  ghost predicate IsPower(pow: (real, real) -> real)
  {
    && (forall x :: x > 0.0 ==> pow(x, 0.0) == 1.0 && pow(x, 1.0) == x)
    && (forall x, a :: x > 0.0 ==> pow(x, a) > 0.0)
    && (forall x, a, b {:trigger pow(x, Times(a, b))} :: x > 0.0 ==> pow(pow(x, a), b) == pow(x, Times(a, b)))
  }

  function Fraction(k: nat, n: nat): real
    requires n > 0
  {
    k as real / n as real
  }

  lemma FractionEnds(n: nat)
    requires n > 0
    ensures Fraction(0, n) == 0.0 && Fraction(n, n) == 1.0
  {
  }

  lemma EarlierRatio(pow: (real, real) -> real, initial: real, duration: real, phases: nat)
    requires IsPower(pow) && initial > 0.0 && duration > 0.0 && phases > 0
    ensures duration / initial > 0.0
    ensures var d := EarlierDuration(pow, initial, duration, phases);
            d > 0.0 && d / initial == pow(duration / initial, Fraction(phases - 1, phases))
  {
    PositiveQuotient(duration, initial);
    var y := pow(duration / initial, Fraction(phases - 1, phases));
    PositiveProduct(initial, y);
    ProductOver(initial, y, initial * y);
  }

  /** Durations grow geometrically: phase `k` of `phases` has the initial duration times ratio to the `k / phases`. */
  lemma {:induction false} DurationsAreGeometric(pow: (real, real) -> real, initial: real, duration: real,
                                                 phases: nat, k: nat)
    requires IsPower(pow) && initial > 0.0 && duration > 0.0 && k <= phases && phases > 0
    ensures PhaseDuration(pow, initial, duration, phases, k) ==
            Times(initial, pow(duration / initial, Fraction(k, phases)))
    decreases phases
  {
    EarlierRatio(pow, initial, duration, phases);
    FractionEnds(phases);
    if k == phases {
      assert Times(initial, duration / initial) == duration;
    } else if phases > 1 {
      DurationsAreGeometric(pow, initial, EarlierDuration(pow, initial, duration, phases), phases - 1, k);
      PowersCombine(pow, duration / initial, phases, k);
    }
  }

  lemma PowersCombine(pow: (real, real) -> real, x: real, phases: nat, k: nat)
    requires IsPower(pow) && x > 0.0 && phases > 1
    ensures pow(pow(x, Fraction(phases - 1, phases)), Fraction(k, phases - 1)) == pow(x, Fraction(k, phases))
  {
    FractionsCancel((phases - 1) as real, phases as real, k as real);
    assert Times(Fraction(phases - 1, phases), Fraction(k, phases - 1)) == Fraction(k, phases);
    assert pow(x, Times(Fraction(phases - 1, phases), Fraction(k, phases - 1))) == pow(x, Fraction(k, phases));
  }

  lemma ProductOver(x: real, y: real, p: real)
    requires x > 0.0 && p == x * y
    ensures p / x == y
  {
    QuotientIs(p, x, y);
  }

  lemma FractionsCancel(x: real, y: real, z: real)
    requires x > 0.0 && y > 0.0
    ensures (x / y) * (z / x) == z / y
  {
    var a, b := x / y, z / x;
    assert a * y == x && b * x == z;
    assert (a * b) * y == (a * y) * b;
    QuotientIs(z, y, a * b);
  }

  /** `ProgressState`. */
  class ProgressState {
    var ndr: Interval
    var pdr: Interval
    var phases: nat
    var duration: real
    var width: real
    const ratio: real
    const min: real
    const max: real

    constructor (start: Interval, phases: nat, duration: real, width: real, ratio: real, min: real, max: real)
      ensures ndr == pdr == start && this.phases == phases && this.duration == duration && this.width == width
      ensures this.ratio == ratio && this.min == min && this.max == max
    {
      ndr, pdr, this.phases, this.duration, this.width := start, start, phases, duration, width;
      this.ratio, this.min, this.max := ratio, min, max;
    }

    function TheGoal(doublings: nat): Goal
      reads this
    {
      Goal(min, max, ratio, duration, width, doublings)
    }
  }

  /** What holds of both intervals after every trial; `initial` is the duration of the first trials. */
  ghost predicate Sound(trials: seq<Trial>, i: Interval, min: real, max: real, initial: real)
  {
    && 0.0 < min <= i.lo.rate <= i.hi.rate <= max
    && (min < max ==> UpToDate(trials, i))
    && (min == max ==> i.hi.duration == initial)
  }

  lemma {:induction false} StaysSound(trials: seq<Trial>, i: Interval, min: real, max: real, initial: real, m: Trial,
                                      ratio: real)
    requires Sound(trials, i, min, max, initial) && min <= m.rate <= max
    ensures Sound(trials + [m], NewInterval(i, m, ratio), min, max, initial)
  {
    if min < max {
      StaysUpToDate(trials, i, m, ratio);
    }
  }

  /** Every trial since `start` was at a rate within the bounds and for the duration of one of the phases. */
  ghost predicate Scheduled(trials: seq<Trial>, start: nat, min: real, max: real, durations: set<real>)
  {
    forall k :: start <= k < |trials| ==> min <= trials[k].rate <= max && trials[k].duration in durations
  }

  lemma {:induction false} ScheduledOneMore(trials: seq<Trial>, t: Trial, min: real, max: real, duration: real)
    requires Scheduled(trials, 0, min, max, {duration}) && min <= t.rate <= max && t.duration == duration
    ensures Scheduled(trials + [t], 0, min, max, {duration})
  {
  }

  lemma {:induction false} Regroup<T>(s: seq<T>, t: seq<T>, u: seq<T>)
    ensures s + t + u == s + (t + u)
  {
  }

  /** The goal of the last phase, and how many phases precede it. */
  datatype Schedule = Schedule(goal: Goal, pow: (real, real) -> real, initial: real, phases: nat)
  {
    /** Shorter trials and a wider goal. */
    function Earlier(): Schedule
      requires phases > 0 && initial > 0.0
    {
      var duration, width := EarlierDuration(pow, initial, goal.duration, phases), DoubleWidth(goal.width);
      var earlier := goal.(duration := duration, width := width);
      this.(goal := earlier, phases := phases - 1)
    }

    ghost function GoalOf(k: nat): Goal
      requires k <= phases && initial > 0.0
      decreases phases
    {
      if k == phases then goal else Earlier().GoalOf(k)
    }
  }

  lemma {:induction false} DoubledFirst(w: real, times: nat)
    ensures DoubledWidth(DoubleWidth(w), times) == DoubledWidth(w, times + 1)
  {
    if times > 0 {
      DoubledFirst(w, times - 1);
    }
  }

  /** Phase `k` has its own duration, and the final width doubled once for every phase after it. */
  lemma {:induction false} PhaseGoals(s: Schedule, k: nat)
    requires k <= s.phases && s.initial > 0.0
    ensures s.GoalOf(k) == s.goal.(duration := PhaseDuration(s.pow, s.initial, s.goal.duration, s.phases, k),
                                   width := DoubledWidth(s.goal.width, s.phases - k))
    decreases s.phases
  {
    if k < s.phases {
      PhaseGoals(s.Earlier(), k);
      DoubledFirst(s.goal.width, s.phases - 1 - k);
    }
  }

  /** One phase: its goal, the intervals before it, its trials, and the intervals after it. */
  datatype PhaseRun = PhaseRun(goal: Goal, choose: Chooser, ndr: Interval, pdr: Interval, made: seq<Trial>,
                               ndr': Interval, pdr': Interval)

  /** Every trial is at the rate asked for, within bounds and for the duration of the phase. */
  ghost predicate RunOf(sqrt: real -> real, r: PhaseRun)
  {
    && IsChooser(r.choose, sqrt, r.goal) && LeadTo(r.choose, r.ndr, r.pdr, r.goal.ratio, r.made, r.ndr', r.pdr')
    && Scheduled(r.made, 0, r.goal.min, r.goal.max, {r.goal.duration})
  }

  ghost predicate Reached(r: PhaseRun)
  {
    && r.ndr'.hi.rate > 0.0 && Settled(r.ndr', 0.0, r.goal)
    && r.pdr'.hi.rate > 0.0 && Settled(r.pdr', r.goal.ratio, r.goal)
  }

  /** Each phase but the last one reached its goal and left its intervals to the next one. */
  ghost predicate Handed(runs: seq<PhaseRun>, k: nat)
    requires k + 1 < |runs|
  {
    Reached(runs[k]) && runs[k + 1].ndr == runs[k].ndr' && runs[k + 1].pdr == runs[k].pdr'
  }

  /** The phases from the first on, as far as the search got. */
  ghost predicate PhaseRuns(sqrt: real -> real, s: Schedule, runs: seq<PhaseRun>, ndr: Interval, pdr: Interval)
    requires s.initial > 0.0
  {
    && 0 < |runs| <= s.phases + 1 && runs[0].ndr == ndr && runs[0].pdr == pdr
    && (forall k: nat :: k < |runs| ==> RunOf(sqrt, runs[k]) && runs[k].goal == s.GoalOf(k))
    && (forall k: nat :: k + 1 < |runs| ==> Handed(runs, k))
  }

  ghost function Made(runs: seq<PhaseRun>): seq<Trial>
  {
    if runs == [] then [] else Made(runs[..|runs| - 1]) + runs[|runs| - 1].made
  }

  lemma {:induction false} EarlierRuns(sqrt: real -> real, s: Schedule, runs: seq<PhaseRun>, ndr: Interval,
                                       pdr: Interval)
    requires s.initial > 0.0 && s.phases > 0 && PhaseRuns(sqrt, s.Earlier(), runs, ndr, pdr)
    ensures PhaseRuns(sqrt, s, runs, ndr, pdr)
  {
    forall k: nat | k < |runs| ensures runs[k].goal == s.GoalOf(k) {
      assert runs[k].goal == s.Earlier().GoalOf(k);
    }
  }

  lemma {:induction false} FirstRun(sqrt: real -> real, s: Schedule, run: PhaseRun)
    requires s.initial > 0.0 && s.phases == 0 && RunOf(sqrt, run) && run.goal == s.goal
    ensures PhaseRuns(sqrt, s, [run], run.ndr, run.pdr) && Made([run]) == run.made
  {
    assert [run][..0] == [];
  }

  lemma {:induction false} NextRun(sqrt: real -> real, s: Schedule, runs: seq<PhaseRun>, ndr: Interval, pdr: Interval,
                                   run: PhaseRun)
    requires s.initial > 0.0 && PhaseRuns(sqrt, s, runs, ndr, pdr) && |runs| == s.phases && Reached(runs[|runs| - 1])
    requires RunOf(sqrt, run) && run.goal == s.goal
    requires run.ndr == runs[|runs| - 1].ndr' && run.pdr == runs[|runs| - 1].pdr'
    ensures PhaseRuns(sqrt, s, runs + [run], ndr, pdr) && Made(runs + [run]) == Made(runs) + run.made
  {
    var longer := runs + [run];
    assert longer[..|runs|] == runs;
    forall k: nat | k < |longer| ensures RunOf(sqrt, longer[k]) && longer[k].goal == s.GoalOf(k) {
      assert k < |runs| ==> longer[k] == runs[k];
    }
    forall k: nat | k + 1 < |longer| ensures Handed(longer, k) {
      assert k + 1 < |runs| ==> Handed(runs, k);
    }
  }

  /** What the phases did, and how the last of them ended: with its goal, or with its time. */
  ghost predicate Outcome(sqrt: real -> real, turns: nat -> nat, s: Schedule, before: seq<Trial>, after: seq<Trial>,
                          ndr: Interval, pdr: Interval, ndr': Interval, pdr': Interval, done: bool, runs: seq<PhaseRun>)
    requires s.initial > 0.0
  {
    && PhaseRuns(sqrt, s, runs, ndr, pdr) && after == before + Made(runs)
    && ndr' == runs[|runs| - 1].ndr' && pdr' == runs[|runs| - 1].pdr'
    && (done ==> |runs| == s.phases + 1 && Reached(runs[|runs| - 1]))
    && (!done ==> |runs[|runs| - 1].made| == turns(|runs| - 1))
  }

  /** How one phase ended. */
  ghost predicate Ended(sqrt: real -> real, turns: nat -> nat, s: Schedule, run: PhaseRun, done: bool)
  {
    && RunOf(sqrt, run) && run.goal == s.goal
    && (done ==> Reached(run)) && (!done ==> |run.made| == turns(s.phases))
  }

  lemma {:induction false} OnlyPhase(sqrt: real -> real, turns: nat -> nat, s: Schedule, before: seq<Trial>,
                                     run: PhaseRun, done: bool)
    requires s.initial > 0.0 && s.phases == 0 && Ended(sqrt, turns, s, run, done)
    ensures Outcome(sqrt, turns, s, before, before + run.made, run.ndr, run.pdr, run.ndr', run.pdr', done, [run])
  {
    FirstRun(sqrt, s, run);
  }

  lemma {:induction false} NoTimeLeft(sqrt: real -> real, turns: nat -> nat, s: Schedule, before: seq<Trial>,
                                      after: seq<Trial>, ndr: Interval, pdr: Interval, ndr': Interval, pdr': Interval,
                                      runs: seq<PhaseRun>)
    requires s.initial > 0.0 && s.phases > 0
    requires Outcome(sqrt, turns, s.Earlier(), before, after, ndr, pdr, ndr', pdr', false, runs)
    ensures Outcome(sqrt, turns, s, before, after, ndr, pdr, ndr', pdr', false, runs)
  {
    EarlierRuns(sqrt, s, runs, ndr, pdr);
  }

  lemma {:induction false} OneMorePhase(sqrt: real -> real, turns: nat -> nat, s: Schedule, before: seq<Trial>,
                                        after: seq<Trial>, ndr: Interval, pdr: Interval, runs: seq<PhaseRun>,
                                        run: PhaseRun, done: bool)
    requires s.initial > 0.0 && s.phases > 0 && Ended(sqrt, turns, s, run, done)
    requires Outcome(sqrt, turns, s.Earlier(), before, after, ndr, pdr, run.ndr, run.pdr, true, runs)
    ensures Outcome(sqrt, turns, s, before, after + run.made, ndr, pdr, run.ndr', run.pdr', done, runs + [run])
  {
    EarlierRuns(sqrt, s, runs, ndr, pdr);
    NextRun(sqrt, s, runs, ndr, pdr, run);
    Regroup(before, Made(runs), run.made);
    assert (runs + [run])[|runs|] == run;
  }

  method ExpandDown(width: real, doublings: nat, rate: real) returns (r: real)
    ensures r == ExpandedDown(width, doublings, rate)
  {
    var w := width;
    for i := 0 to doublings
      invariant w == DoubledWidth(width, i)
    {
      w := DoubleWidth(w);
    }
    r := rate * (1.0 - w);
  }

  method ExpandUp(width: real, doublings: nat, rate: real) returns (r: real)
    requires DoubledWidth(width, doublings) < 1.0
    ensures r == ExpandedUp(width, doublings, rate)
  {
    var w := width;
    for i := 0 to doublings
      invariant w == DoubledWidth(width, i)
    {
      w := DoubleWidth(w);
    }
    r := rate / (1.0 - w);
  }

  /** `_ndrpdr_loss_fraction`: invalid bounds, in the order no-drop lower, partial-drop lower, then the upper ones. */
  method FindExternalRate(ndr: Interval, pdr: Interval, g: Goal, nw: real, pw: real) returns (r: Option<real>)
    requires CanExpand(ndr, g) && CanExpand(pdr, g) && nw == SearchWidth(ndr, g) && pw == SearchWidth(pdr, g)
    ensures r == ExternalRate(ndr, pdr, g)
  {
    r := None;
    if ndr.lo.loss > 0.0 {
      if ndr.lo.rate > g.min {
        var down := ExpandDown(nw, g.doublings, ndr.lo.rate);
        r := Some(Larger(g.min, down));
      } else if ndr.lo.duration < g.duration {
        r := Some(g.min);
      }
    }
    if r.None? && pdr.lo.loss > g.ratio {
      if pdr.lo.rate > g.min {
        var down := ExpandDown(pw, g.doublings, pdr.lo.rate);
        r := Some(Larger(g.min, down));
      } else if pdr.lo.duration < g.duration {
        r := Some(g.min);
      }
    }
    if r.None? && ndr.hi.loss <= 0.0 {
      if ndr.hi.rate < g.max {
        var up := ExpandUp(nw, g.doublings, ndr.hi.rate);
        r := Some(Smaller(g.max, up));
      } else if ndr.hi.duration < g.duration {
        r := Some(g.max);
      }
    }
    if r.None? && pdr.hi.loss <= g.ratio {
      if pdr.hi.rate < g.max {
        var up := ExpandUp(pw, g.doublings, pdr.hi.rate);
        r := Some(Smaller(g.max, up));
      } else if pdr.hi.duration < g.duration {
        r := Some(g.max);
      }
    }
  }

  /** One turn of the loop of a phase up to its measurement; nothing to try means that the phase is done. */
  method FindNextRate(sqrt: real -> real, ndr: Interval, pdr: Interval, g: Goal) returns (r: Option<real>)
    requires Ready(sqrt, ndr, pdr, g)
    ensures Defines(sqrt, ndr, pdr, g)
    ensures r == NextRate(sqrt, ndr, pdr, g) && AskedFor(r, ndr, pdr, g)
    ensures r.Some? ==> g.min <= r.value <= g.max
    ensures r.None? <==> Settled(ndr, 0.0, g) && Settled(pdr, g.ratio, g)
  {
    Defined(sqrt, ndr, pdr, g);
    NextRateWithin(sqrt, ndr, pdr, g);
    StopsIffSettled(sqrt, ndr, pdr, g);
    NextRateIsAskedFor(sqrt, ndr, pdr, g);
    var nw, pw := SearchWidth(ndr, g), SearchWidth(pdr, g);
    r := FindExternalRate(ndr, pdr, g, nw, pw);
    if r.Some? {
      return;
    }
    if Hopeless(ndr, 0.0, g) {
      nw := 0.0;
    }
    if Hopeless(pdr, g.ratio, g) {
      pw := 0.0;
    }
    r := InternalRate(sqrt, ndr, pdr, nw, pw, g);
    if r.Some? {
      return;
    }
    r := RemeasuredRate(ndr, pdr, nw, pw, g);
  }

  /** Loss and received rate of a trial: they may depend on everything tried before, on duration and on rate. */
  type Respond = (seq<Trial>, real, real) -> (real, real)

  ghost predicate Answered(respond: Respond, trials: seq<Trial>)
  {
    forall k :: 0 <= k < |trials| ==>
      (trials[k].loss, trials[k].received) == respond(trials[..k], trials[k].duration, trials[k].rate)
  }

  lemma {:induction false} AnsweredOneMore(respond: Respond, trials: seq<Trial>, t: Trial)
    requires Answered(respond, trials) && (t.loss, t.received) == respond(trials, t.duration, t.rate)
    ensures Answered(respond, trials + [t])
  {
    var longer := trials + [t];
    forall k | 0 <= k < |longer|
      ensures (longer[k].loss, longer[k].received) == respond(longer[..k], longer[k].duration, longer[k].rate)
    {
      assert longer[..k] == trials[..k];
      assert trials[..|trials|] == trials;
    }
  }

  /** Lower than the second trial after loss, higher without. */
  function RefinedRate(second: Trial, w: real): real
    requires w < 1.0
  {
    if second.loss > 0.0 then Smaller(second.rate * (1.0 - w), second.received) else second.rate / (1.0 - w)
  }

  /** What was received at the maximal rate, a little below that rate at most. */
  function SecondRate(min: real, max: real, w: real, received: real): real
  {
    Larger(min, Smaller(max * (1.0 - w), received))
  }

  /** The two or three trials of the initial phase, and the interval they make. */
  ghost predicate Started(made: seq<Trial>, start: Interval, min: real, max: real, w: real)
    requires w < 1.0
  {
    && 2 <= |made| <= 3 && made[0].rate == max && made[1].rate == SecondRate(min, max, w, made[0].received)
    && (|made| == 3 <==> min < RefinedRate(made[1], w) < max)
    && (|made| == 2 ==> start == Interval(made[1], made[0]))
    && (|made| == 3 ==> made[2].rate == RefinedRate(made[1], w) && start == Sorted(made[2], made[1]))
  }

  lemma {:induction false} InitialTrials(line: Trial, second: Trial, more: seq<Trial>, start: Interval, min: real,
                                         max: real, w: real, initial: real)
    requires w < 1.0 && min <= line.rate == max && min <= second.rate <= max
    requires line.duration == initial == second.duration
    requires second.rate == SecondRate(min, max, w, line.received) && Scheduled(more, 0, min, max, {initial})
    requires if min < RefinedRate(second, w) < max
             then |more| == 1 && more[0].rate == RefinedRate(second, w) && start == Sorted(more[0], second)
             else more == [] && start == Interval(second, line)
    ensures Started([line, second] + more, start, min, max, w)
    ensures Scheduled([line, second] + more, 0, min, max, {initial})
  {
  }

  /** After loss the smaller of a step down and the rate received, otherwise a step up. */
  lemma RefinedRateIs(second: Trial, w: real)
    requires w < 1.0
    ensures var r := RefinedRate(second, w);
            && (second.loss > 0.0 ==> r <= second.rate * (1.0 - w) && r <= second.received)
            && (second.loss > 0.0 ==> r == second.rate * (1.0 - w) || r == second.received)
            && (second.loss <= 0.0 ==> r * (1.0 - w) == second.rate)
  {
  }

  lemma RefinedRateDiffers(second: Trial, w: real)
    requires 0.0 < w < 1.0 && second.rate > 0.0
    ensures RefinedRate(second, w) != second.rate
  {
    ProductBelow(second.rate, 1.0 - w, second.rate * (1.0 - w));
    QuotientAbove(second.rate, 1.0 - w);
  }

  /**
   * A search from one history to the next: the initial trials and the interval they make, the phases from there on, and
   * the result, which is settled for the final goal and up to date, or nothing when the last phase ran out of time.
   */
  ghost predicate Searched(sqrt: real -> real, turns: nat -> nat, s: Schedule, before: seq<Trial>, after: seq<Trial>,
                           made: seq<Trial>, start: Interval, runs: seq<PhaseRun>, result: Option<(Interval, Interval)>)
  {
    var g, w := s.goal, DoubledWidth(s.goal.width, s.phases);
    && s.initial > 0.0 && w < 1.0 && after == before + made + Made(runs)
    && Scheduled(made, 0, g.min, g.max, {s.initial}) && Started(made, start, g.min, g.max, w)
    && Sound(before + made, start, g.min, g.max, s.initial) && PhaseRuns(sqrt, s, runs, start, start)
    && (result.None? ==> |runs[|runs| - 1].made| == turns(|runs| - 1))
    && (result.Some? ==>
          && |runs| == s.phases + 1 && Reached(runs[s.phases])
          && result.value == (runs[s.phases].ndr', runs[s.phases].pdr')
          && Sound(after, result.value.0, g.min, g.max, s.initial)
          && Sound(after, result.value.1, g.min, g.max, s.initial))
  }

  /** `MultipleLossRatioSearch` with its measurer; `turns` says how many turns of a phase precede its timeout. */
  class Search {
    const respond: Respond
    const sqrt: real -> real
    const pow: (real, real) -> real
    const turns: nat -> nat
    const finalWidth: real
    const finalDuration: real
    const initialDuration: real
    const phases: nat
    const doublings: nat
    var trials: seq<Trial>

    ghost predicate Valid()
      reads this
    {
      IsSqrt(sqrt) && 0.0 < finalWidth < 1.0 && initialDuration > 0.0 && Answered(respond, trials)
    }

    constructor (respond: Respond, sqrt: real -> real, pow: (real, real) -> real, turns: nat -> nat, finalWidth: real,
                 finalDuration: real, initialDuration: real, phases: nat, doublings: nat)
      requires IsSqrt(sqrt) && 0.0 < finalWidth < 1.0 && initialDuration > 0.0
      ensures Valid() && trials == [] && this.respond == respond && this.sqrt == sqrt && this.pow == pow
      ensures this.turns == turns && this.phases == phases && this.doublings == doublings
      ensures this.finalWidth == finalWidth && this.finalDuration == finalDuration
      ensures this.initialDuration == initialDuration
    {
      this.respond, this.sqrt, this.pow, this.turns := respond, sqrt, pow, turns;
      this.finalWidth, this.finalDuration, this.initialDuration := finalWidth, finalDuration, initialDuration;
      this.phases, this.doublings := phases, doublings;
      trials := [];
    }

    method Measure(duration: real, rate: real) returns (t: Trial)
      requires Valid()
      modifies this`trials
      ensures Valid()
      ensures trials == old(trials) + [t] && t.duration == duration && t.rate == rate
      ensures (t.loss, t.received) == respond(old(trials), duration, rate)
    {
      var (loss, received) := respond(trials, duration, rate);
      t := Trial(duration, rate, loss, received);
      AnsweredOneMore(respond, trials, t);
      trials := trials + [t];
    }

    method MeasureAndUpdate(state: ProgressState, rate: real) returns (ghost t: Trial)
      requires Valid()
      modifies this`trials, state`ndr, state`pdr
      ensures Valid() && trials == old(trials) + [t] && t.duration == state.duration && t.rate == rate
      ensures state.ndr == NewInterval(old(state.ndr), t, 0.0)
      ensures state.pdr == NewInterval(old(state.pdr), t, state.ratio)
      ensures old(state.ndr.lo.rate <= state.ndr.hi.rate) ==> Updated(old(state.ndr), t, 0.0, state.ndr)
      ensures old(state.pdr.lo.rate <= state.pdr.hi.rate) ==> Updated(old(state.pdr), t, state.ratio, state.pdr)
    {
      var m := Measure(state.duration, rate);
      state.ndr := NewInterval(state.ndr, m, 0.0);
      state.pdr := NewInterval(state.pdr, m, state.ratio);
      t := m;
    }

    ghost predicate BothSound(state: ProgressState)
      reads this, state
    {
      && Sound(trials, state.ndr, state.min, state.max, initialDuration)
      && Sound(trials, state.pdr, state.min, state.max, initialDuration)
    }

    /** One turn of a phase: nothing when it has reached its goal, otherwise one trial at the next rate. */
    method Turn(state: ProgressState, ghost choose: Chooser) returns (done: bool, ghost t: Trial)
      requires Valid() && BothSound(state) && 0.0 < state.width < 1.0
      requires IsChooser(choose, sqrt, state.TheGoal(doublings))
      modifies this`trials, state`ndr, state`pdr
      ensures Valid() && BothSound(state)
      ensures done <==> choose(old(state.ndr), old(state.pdr)).None?
      ensures done ==> var g := state.TheGoal(doublings); Settled(state.ndr, 0.0, g) && Settled(state.pdr, g.ratio, g)
      ensures done ==> trials == old(trials) && state.ndr == old(state.ndr) && state.pdr == old(state.pdr)
      ensures !done ==> choose(old(state.ndr), old(state.pdr)) == Some(t.rate) && trials == old(trials) + [t]
      ensures !done ==> state.min <= t.rate <= state.max && t.duration == state.duration
      ensures !done ==> state.ndr == NewInterval(old(state.ndr), t, 0.0)
      ensures !done ==> state.pdr == NewInterval(old(state.pdr), t, state.ratio)
    {
      var next := FindNextRate(sqrt, state.ndr, state.pdr, state.TheGoal(doublings));
      assert Ready(sqrt, state.ndr, state.pdr, state.TheGoal(doublings));
      done, t := next.None?, state.ndr.lo;
      if !done {
        ghost var before, ndr, pdr := trials, state.ndr, state.pdr;
        t := MeasureAndUpdate(state, next.value);
        StaysSound(before, ndr, state.min, state.max, initialDuration, t, 0.0);
        StaysSound(before, pdr, state.min, state.max, initialDuration, t, state.ratio);
      }
    }

    /**
     * The loop of one phase; false when the time is up first. Both intervals are the result of the trials made, each
     * of them at the rate that the intervals before it ask for.
     */
    method Iterate(state: ProgressState, ghost choose: Chooser) returns (done: bool, ghost made: seq<Trial>)
      requires Valid() && BothSound(state) && 0.0 < state.width < 1.0
      requires IsChooser(choose, sqrt, state.TheGoal(doublings))
      modifies this`trials, state`ndr, state`pdr
      ensures Valid() && BothSound(state) && trials == old(trials) + made
      ensures Scheduled(made, 0, state.min, state.max, {state.duration})
      ensures LeadTo(choose, old(state.ndr), old(state.pdr), state.ratio, made, state.ndr, state.pdr)
      ensures done ==> choose(state.ndr, state.pdr).None?
      ensures !done ==> |made| == turns(state.phases)
      ensures done ==> var g := state.TheGoal(doublings); Settled(state.ndr, 0.0, g) && Settled(state.pdr, g.ratio, g)
    {
      ghost var ndr, pdr := state.ndr, state.pdr;
      made := [];
      for turn := 0 to turns(state.phases)
        invariant Valid() && BothSound(state) && trials == old(trials) + made
        invariant Scheduled(made, 0, state.min, state.max, {state.duration})
        invariant LeadTo(choose, ndr, pdr, state.ratio, made, state.ndr, state.pdr) && |made| == turn
      {
        ghost var t;
        ghost var ndr', pdr' := state.ndr, state.pdr;
        done, t := Turn(state, choose);
        if done {
          return;
        }
        LeadToOneMore(choose, ndr, pdr, state.ratio, made, ndr', pdr', t);
        Regroup(old(trials), made, [t]);
        ScheduledOneMore(made, t, state.min, state.max, state.duration);
        made := made + [t];
      }
      done := false;
    }

    method OnePhase(state: ProgressState) returns (done: bool, ghost run: PhaseRun)
      requires Valid() && BothSound(state) && 0.0 < state.width < 1.0
      modifies this`trials, state`ndr, state`pdr
      ensures Valid() && BothSound(state) && trials == old(trials) + run.made
      ensures Ended(sqrt, turns, ScheduleOf(state), run, done)
      ensures run.ndr == old(state.ndr) && run.pdr == old(state.pdr) && run.ndr' == state.ndr && run.pdr' == state.pdr
    {
      ghost var choose := ChooserFor(sqrt, state.TheGoal(doublings));
      ghost var made;
      done, made := Iterate(state, choose);
      run := PhaseRun(state.TheGoal(doublings), choose, old(state.ndr), old(state.pdr), made, state.ndr, state.pdr);
    }

    function ScheduleOf(state: ProgressState): Schedule
      reads state
    {
      Schedule(state.TheGoal(doublings), pow, initialDuration, state.phases)
    }

    /** The phases before the one the state describes, which it describes again afterwards. */
    method EarlierPhases(state: ProgressState) returns (done: bool, ghost runs: seq<PhaseRun>)
      requires Valid() && BothSound(state) && 0.0 < state.width < 1.0 && state.phases > 0
      modifies this`trials, state
      ensures Valid() && BothSound(state)
      ensures Outcome(sqrt, turns, old(ScheduleOf(state)).Earlier(), old(trials), trials,
                      old(state.ndr), old(state.pdr), state.ndr, state.pdr, done, runs)
      ensures done ==> ScheduleOf(state) == old(ScheduleOf(state))
      decreases state.phases, 0
    {
      var phases, duration, width := state.phases, state.duration, state.width;
      state.duration := EarlierDuration(pow, initialDuration, duration, phases);
      state.phases := phases - 1;
      DoubleStaysWidth(width);
      state.width := DoubleWidth(width);
      done, runs := Phase(state);
      if done {
        state.duration, state.width, state.phases := duration, width, phases;
      }
    }

    /**
     * `ndrpdr`: the preceding phases, with shorter trials and a wider goal, then this one. Every phase starts from the
     * intervals of the one before it, which had reached its own goal.
     */
    method Phase(state: ProgressState) returns (done: bool, ghost runs: seq<PhaseRun>)
      requires Valid() && BothSound(state) && 0.0 < state.width < 1.0
      modifies this`trials, state
      ensures Valid() && BothSound(state)
      ensures Outcome(sqrt, turns, old(ScheduleOf(state)), old(trials), trials, old(state.ndr), old(state.pdr),
                      state.ndr, state.pdr, done, runs)
      ensures done ==> ScheduleOf(state) == old(ScheduleOf(state))
      decreases state.phases, 1
    {
      ghost var s, before, ndr, pdr := ScheduleOf(state), trials, state.ndr, state.pdr;
      ghost var run;
      if state.phases == 0 {
        done, run := OnePhase(state);
        OnlyPhase(sqrt, turns, s, before, run, done);
        runs := [run];
        return;
      }
      done, runs := EarlierPhases(state);
      ghost var middle := trials;
      if !done {
        NoTimeLeft(sqrt, turns, s, before, middle, ndr, pdr, state.ndr, state.pdr, runs);
        return;
      }
      done, run := OnePhase(state);
      OneMorePhase(sqrt, turns, s, before, middle, ndr, pdr, runs, run, done);
      runs := runs + [run];
    }

    method InitialWidth() returns (w: real)
      requires Valid()
      ensures w == DoubledWidth(finalWidth, phases) && 0.0 < w < 1.0
    {
      w := finalWidth;
      for i := 0 to phases
        invariant w == DoubledWidth(finalWidth, i)
      {
        w := DoubleWidth(w);
      }
      DoubledStaysWidth(finalWidth, phases);
    }

    /** A third trial next to the second one, if there is room for it within the bounds. */
    method Refine(min: real, max: real, rate: real, line: Trial, second: Trial)
      returns (start: Interval, ghost more: seq<Trial>)
      requires Valid() && 0.0 < min <= second.rate <= line.rate == max && rate != second.rate
      requires min < max ==> second.rate < line.rate && Latest(trials, line) && Latest(trials, second)
      requires line.duration == initialDuration
      modifies this`trials
      ensures Valid() && trials == old(trials) + more && Sound(trials, start, min, max, initialDuration)
      ensures Scheduled(more, 0, min, max, {initialDuration})
      ensures if min < rate < max then |more| == 1 && more[0].rate == rate && start == Sorted(more[0], second)
              else more == [] && start == Interval(second, line)
    {
      var low, high := second, line;
      more := [];
      if min < rate < max {
        high := second;
        ghost var before := trials;
        low := Measure(initialDuration, rate);
        more := [low];
        LatestNew(before, low);
        LatestKept(before, second, low);
        if rate > second.rate {
          low, high := high, low;
        }
      }
      start := Sorted(low, high);
    }

    /** A trial at the maximal rate, and one at the rate then received, or a little below the maximum. */
    method FirstTwo(min: real, max: real, w: real) returns (line: Trial, second: Trial)
      requires Valid() && 0.0 < min <= max && 0.0 < w < 1.0
      modifies this`trials
      ensures Valid() && trials == old(trials) + [line, second]
      ensures line.duration == second.duration == initialDuration
      ensures line.rate == max && min <= second.rate && (min < max ==> second.rate < max) && second.rate <= max
      ensures second.rate == SecondRate(min, max, w, line.received)
      ensures var top := max * (1.0 - w);
              && (min <= line.received <= top ==> second.rate == line.received)
              && (line.received < min || top < min ==> second.rate == min)
              && (min <= top < line.received ==> second.rate == top)
    {
      ProductBelow(max, 1.0 - w, max * (1.0 - w));
      line := Measure(initialDuration, max);
      second := Measure(initialDuration, SecondRate(min, max, w, line.received));
    }

    /** The initial phase: the maximal rate, what was received at it, and a refinement. */
    method Initial(min: real, max: real, w: real) returns (start: Interval, ghost made: seq<Trial>)
      requires Valid() && 0.0 < min <= max && 0.0 < w < 1.0
      modifies this`trials
      ensures Valid() && trials == old(trials) + made && Sound(trials, start, min, max, initialDuration)
      ensures Scheduled(made, 0, min, max, {initialDuration}) && Started(made, start, min, max, w)
    {
      var line, second := FirstTwo(min, max, w);
      assert trials == old(trials) + [line] + [second];
      LatestNew(old(trials), line);
      LatestNew(old(trials) + [line], second);
      if second.rate < max {
        LatestKept(old(trials) + [line], line, second);
      }
      var rate := RefinedRate(second, w);
      RefinedRateDiffers(second, w);
      ghost var more;
      start, more := Refine(min, max, rate, line, second);
      made := [line, second] + more;
      InitialTrials(line, second, more, start, min, max, w, initialDuration);
      assert trials == old(trials) + [line, second] + more;
    }

    function TheSchedule(min: real, max: real, ratio: real): Schedule
    {
      Schedule(Goal(min, max, ratio, finalDuration, finalWidth, doublings), pow, initialDuration, phases)
    }

    /**
     * `narrow_down_ndr_and_pdr`: the two intervals, or nothing when a phase ran out of time. Whatever the trials show,
     * no rate outside the bounds is tried; the initial trials are followed by those of phase after phase, each ended by
     * its goal but the last, which may have ended by its time; and the result is settled and up to date.
     */
    method NarrowDown(min: real, max: real, ratio: real)
      returns (result: Option<(Interval, Interval)>, ghost made: seq<Trial>, ghost start: Interval,
               ghost runs: seq<PhaseRun>)
      requires Valid() && 0.0 < min <= max
      modifies this`trials
      ensures Valid()
      ensures Searched(sqrt, turns, TheSchedule(min, max, ratio), old(trials), trials, made, start, runs, result)
    {
      var w := InitialWidth();
      var interval;
      interval, made := Initial(min, max, w);
      start := interval;
      var state := new ProgressState(interval, phases, finalDuration, finalWidth, ratio, min, max);
      var done;
      done, runs := Phase(state);
      result := if done then Some((state.ndr, state.pdr)) else None;
    }
  }
}
