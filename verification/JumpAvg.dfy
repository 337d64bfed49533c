/** `jumpavg.classify`: grouping a series of results so that describing the groups takes few bits. */
module JumpAvg {
  import opened Bytes
  import opened RunStats

  /** The bits a group takes, from its statistics and the average of the group before it, if any. */
  type Bits = (Stats, Option<real>) -> real

  type Partition = seq<seq<Run>>

  function PrevAvg(gs: Partition): Option<real>
  {
    if gs == [] then None else Some(StatsOf(gs[|gs| - 1]).avg)
  }

  /** Overall bit count: every group is charged with its predecessor in view. */
  function Cost(bits: Bits, gs: Partition): real
  {
    if gs == [] then 0.0
    else
      var front := gs[..|gs| - 1];
      Cost(bits, front) + bits(StatsOf(gs[|gs| - 1]), PrevAvg(front))
  }

  lemma CostOneMore(bits: Bits, gs: Partition, g: seq<Run>)
    ensures Cost(bits, gs + [g]) == Cost(bits, gs) + bits(StatsOf(g), PrevAvg(gs))
  {
    assert (gs + [g])[..|gs|] == gs;
  }

  ghost predicate Partitions(gs: Partition, values: seq<Run>)
  {
    Flatten(gs) == values && forall i :: 0 <= i < |gs| ==> gs[i] != []
  }

  lemma {:induction false} FlattenOneMore<T>(gs: seq<seq<T>>, g: seq<T>)
    ensures Flatten(gs + [g]) == Flatten(gs) + g
  {
    if gs == [] {
      assert [g][1..] == [] && [] + [g] == [g];
      assert g + Flatten<T>([]) == g;
    } else {
      FlattenOneMore(gs[1..], g);
      assert (gs + [g])[1..] == gs[1..] + [g];
    }
  }

  // ---------------------------------------------------------------------
  // What the algorithm promises about its table of best prefixes
  // ---------------------------------------------------------------------

  function Candidate(values: seq<Run>, closed: seq<Partition>, j: nat, m: nat): Partition
    requires j < m <= |values| && j < |closed|
  {
    closed[j] + [values[j..m]]
  }

  function CandidateCost(bits: Bits, values: seq<Run>, closed: seq<Partition>, j: nat, m: nat): real
    requires j < m <= |values| && j < |closed|
  {
    Cost(bits, Candidate(values, closed, j, m))
  }

  /** Which candidate wins a tie for entry `m`: the one whose last group is the last value alone, then the earliest. */
  predicate Precedes(i: nat, j: nat, m: nat) { i != j && (i == m - 1 || (j != m - 1 && i < j)) }

  /** The cheapest candidate, and the first of these. */
  ghost predicate Preferred(bits: Bits, values: seq<Run>, closed: seq<Partition>, j: nat, m: nat)
    requires j < m <= |values| && m <= |closed|
  {
    forall i: nat :: i < m ==>
      && CandidateCost(bits, values, closed, j, m) <= CandidateCost(bits, values, closed, i, m)
      && (Precedes(i, j, m) ==> CandidateCost(bits, values, closed, j, m) < CandidateCost(bits, values, closed, i, m))
  }

  /** Entry `m` is the preferred candidate. */
  ghost predicate BestAt(bits: Bits, values: seq<Run>, closed: seq<Partition>, m: nat)
    requires 0 < m <= |values| && m < |closed|
  {
    exists j: nat :: j < m && closed[m] == Candidate(values, closed, j, m) && Preferred(bits, values, closed, j, m)
  }

  lemma BestIsCheapest(bits: Bits, values: seq<Run>, closed: seq<Partition>, m: nat, i: nat)
    requires 0 < m <= |values| && m < |closed| && BestAt(bits, values, closed, m) && i < m
    ensures Cost(bits, closed[m]) <= CandidateCost(bits, values, closed, i, m)
  {
    var j: nat :| j < m && closed[m] == Candidate(values, closed, j, m) && Preferred(bits, values, closed, j, m);
    assert CandidateCost(bits, values, closed, j, m) <= CandidateCost(bits, values, closed, i, m);
  }

  ghost predicate Table(bits: Bits, values: seq<Run>, closed: seq<Partition>)
  {
    && 0 < |closed| <= |values| + 1 && closed[0] == []
    && forall m: nat :: 0 < m < |closed| ==> BestAt(bits, values, closed, m)
  }

  lemma {:induction false} TablePartitions(bits: Bits, values: seq<Run>, closed: seq<Partition>, m: nat)
    requires Table(bits, values, closed) && m < |closed|
    ensures Partitions(closed[m], values[..m])
    decreases m
  {
    if m > 0 {
      assert BestAt(bits, values, closed, m);
      var j: nat :| j < m && closed[m] == Candidate(values, closed, j, m);
      TablePartitions(bits, values, closed, j);
      FlattenOneMore(closed[j], values[j..m]);
      assert values[..m] == values[..j] + values[j..m];
    }
  }

  lemma SameCandidates(bits: Bits, values: seq<Run>, closed: seq<Partition>, other: seq<Partition>, j: nat, m: nat)
    requires m <= |values| && m <= |closed| && m <= |other| && closed[..m] == other[..m] && j < m
    ensures Candidate(values, closed, j, m) == Candidate(values, other, j, m)
    ensures CandidateCost(bits, values, closed, j, m) == CandidateCost(bits, values, other, j, m)
  {
    assert closed[..m][j] == closed[j] && other[..m][j] == other[j];
  }

  lemma OnePreferred(bits: Bits, values: seq<Run>, closed: seq<Partition>, i: nat, j: nat, m: nat)
    requires i < m <= |values| && j < m <= |closed|
    requires Preferred(bits, values, closed, i, m) && Preferred(bits, values, closed, j, m)
    ensures i == j
  {
    assert i == j || Precedes(i, j, m) || Precedes(j, i, m);
    assert CandidateCost(bits, values, closed, i, m) <= CandidateCost(bits, values, closed, j, m);
    assert CandidateCost(bits, values, closed, j, m) <= CandidateCost(bits, values, closed, i, m);
  }

  lemma {:induction false} PreferredInBoth(bits: Bits, values: seq<Run>, closed: seq<Partition>, other: seq<Partition>,
                                           j: nat, m: nat)
    requires j < m <= |values| && m <= |closed| && m <= |other| && closed[..m] == other[..m]
    requires Preferred(bits, values, closed, j, m)
    ensures Preferred(bits, values, other, j, m)
  {
    SameCandidates(bits, values, closed, other, j, m);
    forall i: nat | i < m
      ensures CandidateCost(bits, values, other, j, m) <= CandidateCost(bits, values, other, i, m)
      ensures Precedes(i, j, m) ==> CandidateCost(bits, values, other, j, m) < CandidateCost(bits, values, other, i, m)
    {
      SameCandidates(bits, values, closed, other, i, m);
      assert CandidateCost(bits, values, closed, j, m) <= CandidateCost(bits, values, closed, i, m);
    }
  }

  lemma {:induction false} EntryIsUnique(bits: Bits, values: seq<Run>, closed: seq<Partition>, other: seq<Partition>,
                                         n: nat)
    requires 0 < n <= |values| && n < |closed| && n < |other| && closed[..n] == other[..n]
    requires BestAt(bits, values, closed, n) && BestAt(bits, values, other, n)
    ensures closed[n] == other[n]
  {
    var i: nat :| i < n && closed[n] == Candidate(values, closed, i, n) && Preferred(bits, values, closed, i, n);
    var j: nat :| j < n && other[n] == Candidate(values, other, j, n) && Preferred(bits, values, other, j, n);
    PreferredInBoth(bits, values, closed, other, i, n);
    OnePreferred(bits, values, other, i, j, n);
    SameCandidates(bits, values, closed, other, i, n);
  }

  /** Ties included, the values determine the table, and so the answer. */
  lemma {:induction false} TableIsUnique(bits: Bits, values: seq<Run>, closed: seq<Partition>, other: seq<Partition>,
                                         m: nat)
    requires Table(bits, values, closed) && Table(bits, values, other) && m <= |closed| && m <= |other|
    ensures closed[..m] == other[..m]
    decreases m
  {
    if m > 0 {
      var n := m - 1;
      TableIsUnique(bits, values, closed, other, n);
      if n > 0 {
        EntryIsUnique(bits, values, closed, other, n);
      }
      assert closed[..m] == closed[..n] + [closed[n]] && other[..m] == other[..n] + [other[n]];
    }
  }

  // ---------------------------------------------------------------------
  // How far from optimal
  // ---------------------------------------------------------------------

  /** Which block precedes a block changes its bits by at most `d`. */
  ghost predicate Swing(bits: Bits, values: seq<Run>, d: real)
  {
    forall a: nat, b: nat, j: nat, m: nat :: a < j < m <= |values| && b < j ==>
      bits(StatsOf(values[j..m]), Some(StatsOf(values[a..j]).avg))
      <= bits(StatsOf(values[j..m]), Some(StatsOf(values[b..j]).avg)) + d
  }

  /** `d` for every group after the first. */
  function Slack(d: real, groups: nat): real { if groups <= 1 then 0.0 else Slack(d, groups - 1) + d }

  /** The last group of a partition is the last block of what it partitions. */
  lemma LastBlock(gs: Partition, values: seq<Run>)
    requires Partitions(gs, values) && gs != []
    ensures var front, g := gs[..|gs| - 1], gs[|gs| - 1];
            && 0 < |g| <= |values| && g == values[|values| - |g|..]
            && Partitions(front, values[..|values| - |g|])
  {
    var front, g := gs[..|gs| - 1], gs[|gs| - 1];
    assert gs == front + [g];
    FlattenOneMore(front, g);
  }

  lemma EmptyPartition(gs: Partition)
    requires Partitions(gs, [])
    ensures gs == []
  {
    if gs != [] {
      LastBlock(gs, []);
    }
  }

  lemma NonEmptyPartition(gs: Partition, values: seq<Run>)
    requires Partitions(gs, values) && values != []
    ensures gs != []
  {
    assert Flatten<Run>([]) == [];
  }

  /** The averages that can precede block `j..` are those of blocks ending at `j`. */
  lemma PrevAvgIsBlock(gs: Partition, values: seq<Run>, j: nat) returns (a: nat)
    requires 0 < j <= |values| && Partitions(gs, values[..j])
    ensures a < j && PrevAvg(gs) == Some(StatsOf(values[a..j]).avg)
  {
    NonEmptyPartition(gs, values[..j]);
    LastBlock(gs, values[..j]);
    a := j - |gs[|gs| - 1]|;
    assert values[..j][a..] == values[a..j];
  }

  lemma PredecessorSwing(bits: Bits, values: seq<Run>, d: real, gs: Partition, hs: Partition, j: nat, m: nat)
    requires Swing(bits, values, d) && 0 < j < m <= |values|
    requires Partitions(gs, values[..j]) && Partitions(hs, values[..j])
    ensures bits(StatsOf(values[j..m]), PrevAvg(gs)) <= bits(StatsOf(values[j..m]), PrevAvg(hs)) + d
  {
    var a := PrevAvgIsBlock(gs, values, j);
    var b := PrevAvgIsBlock(hs, values, j);
  }

  /** One group boundary costs at most `d` more than in any other partition with the same last group. */
  lemma OneBoundary(bits: Bits, values: seq<Run>, closed: seq<Partition>, d: real, front: Partition, j: nat, m: nat)
    requires Table(bits, values, closed) && 0 < m < |closed| && j < m && Swing(bits, values, d)
    requires Partitions(front, values[..j])
    ensures Cost(bits, closed[m]) <=
            Cost(bits, closed[j]) + bits(StatsOf(values[j..m]), PrevAvg(front)) + if j == 0 then 0.0 else d
  {
    assert BestAt(bits, values, closed, m);
    BestIsCheapest(bits, values, closed, m, j);
    CostOneMore(bits, closed[j], values[j..m]);
    if j == 0 {
      EmptyPartition(front);
    } else {
      TablePartitions(bits, values, closed, j);
      PredecessorSwing(bits, values, d, closed[j], front, j, m);
    }
  }

  /**
   * The table entry for a prefix takes at most `d` bits more per group boundary than any partition of that prefix,
   * `d` being the most that a change of predecessor can do to the bits of one group.
   */
  lemma {:induction false} NearOptimal(bits: Bits, values: seq<Run>, closed: seq<Partition>, d: real, m: nat,
                                       gs: Partition)
    requires Table(bits, values, closed) && m < |closed| && Swing(bits, values, d) && Partitions(gs, values[..m])
    ensures Cost(bits, closed[m]) <= Cost(bits, gs) + Slack(d, |gs|)
    decreases |gs|
  {
    if gs == [] {
      assert m == 0;
    } else {
      LastBlock(gs, values[..m]);
      var front, g := gs[..|gs| - 1], gs[|gs| - 1];
      var j: nat := m - |g|;
      assert values[..m][j..] == values[j..m] && values[..m][..j] == values[..j];
      NearOptimal(bits, values, closed, d, j, front);
      OneBoundary(bits, values, closed, d, front, j, m);
      if j == 0 {
        EmptyPartition(front);
      } else {
        NonEmptyPartition(front, values[..j]);
      }
    }
  }

  lemma {:induction false} NoSlack(groups: nat)
    ensures Slack(0.0, groups) == 0.0
  {
    if groups > 1 {
      NoSlack(groups - 1);
    }
  }

  /** If predecessors do not matter, the grouping found is optimal. */
  lemma OptimalWithoutSwing(bits: Bits, values: seq<Run>, closed: seq<Partition>, gs: Partition)
    requires Table(bits, values, closed) && |closed| == |values| + 1 && Swing(bits, values, 0.0)
    requires Partitions(gs, values)
    ensures Cost(bits, closed[|values|]) <= Cost(bits, gs)
  {
    assert values[..|values|] == values;
    NearOptimal(bits, values, closed, 0.0, |values|, gs);
    NoSlack(|gs|);
  }

  // ---------------------------------------------------------------------
  // The objects
  // ---------------------------------------------------------------------

  /** `BitCountingGroup`, with its bit count once that was asked for. */
  datatype Group = Group(runs: seq<Run>, stats: Stats, prevAvg: Option<real>, cachedBits: Option<real>)

  function RunsOf(groups: seq<Group>): (gs: Partition)
    ensures |gs| == |groups|
  {
    seq(|groups|, i requires 0 <= i < |groups| => groups[i].runs)
  }

  /** A group's statistics and cache are up to date for its runs and the group before it. */
  ghost predicate UpToDate(bits: Bits, groups: seq<Group>, i: nat)
    requires i < |groups|
  {
    var g := groups[i];
    && Total(g.runs).n > 0 && g.stats == StatsOf(g.runs)
    && g.prevAvg == PrevAvg(RunsOf(groups[..i]))
    && (g.cachedBits.Some? ==> g.cachedBits.value == bits(g.stats, g.prevAvg))
  }

  ghost predicate Consistent(bits: Bits, groups: seq<Group>, bitsExceptLast: real)
  {
    && (forall i: nat :: i < |groups| ==> UpToDate(bits, groups, i))
    && (groups != [] ==> bitsExceptLast == Cost(bits, RunsOf(groups[..|groups| - 1])))
  }

  lemma LastPrevAvg(bits: Bits, groups: seq<Group>, bitsExceptLast: real)
    requires Consistent(bits, groups, bitsExceptLast)
    ensures PrevAvg(RunsOf(groups)) == if groups == [] then None else Some(groups[|groups| - 1].stats.avg)
    ensures groups != [] ==>
              var g := groups[|groups| - 1];
              Cost(bits, RunsOf(groups)) == bitsExceptLast + bits(g.stats, g.prevAvg)
  {
    if groups != [] {
      var n := |groups| - 1;
      assert UpToDate(bits, groups, n);
      assert RunsOf(groups)[..n] == RunsOf(groups[..n]);
    }
  }

  lemma ChangeLast(bits: Bits, groups: seq<Group>, bitsExceptLast: real, g: Group)
    requires Consistent(bits, groups, bitsExceptLast) && groups != []
    requires g.prevAvg == groups[|groups| - 1].prevAvg && Total(g.runs).n > 0 && g.stats == StatsOf(g.runs)
    requires g.cachedBits.Some? ==> g.cachedBits.value == bits(g.stats, g.prevAvg)
    ensures Consistent(bits, groups[|groups| - 1 := g], bitsExceptLast)
    ensures RunsOf(groups[|groups| - 1 := g]) == RunsOf(groups[..|groups| - 1]) + [g.runs]
  {
    var n := |groups| - 1;
    var changed := groups[n := g];
    assert changed[..n] == groups[..n];
    forall i: nat | i < |changed| ensures UpToDate(bits, changed, i) {
      assert UpToDate(bits, groups, i);
      assert changed[..i] == groups[..i];
    }
  }

  lemma AddGroup(bits: Bits, groups: seq<Group>, bitsExceptLast: real, g: Group)
    requires Consistent(bits, groups, bitsExceptLast)
    requires g.prevAvg == PrevAvg(RunsOf(groups)) && g.cachedBits.None?
    requires Total(g.runs).n > 0 && g.stats == StatsOf(g.runs)
    ensures Consistent(bits, groups + [g], Cost(bits, RunsOf(groups)))
    ensures RunsOf(groups + [g]) == RunsOf(groups) + [g.runs]
  {
    var longer := groups + [g];
    assert longer[..|groups|] == groups;
    forall i: nat | i < |longer| ensures UpToDate(bits, longer, i) {
      assert longer[..i] == groups[..i];
      if i < |groups| {
        assert UpToDate(bits, groups, i);
      } else {
        assert groups[..i] == groups;
      }
    }
  }

  /** The partition with the run added to its last group. */
  function Extended(gs: Partition, run: Run): Partition
    requires gs != []
  {
    gs[..|gs| - 1] + [gs[|gs| - 1] + [run]]
  }

  /** `BitCountingGroupList` for one maximal value. */
  class GroupList {
    const bits: Bits
    var groups: seq<Group>
    var bitsExceptLast: real

    ghost predicate Valid()
      reads this
    {
      Consistent(bits, groups, bitsExceptLast)
    }

    ghost function View(): Partition
      reads this
    {
      RunsOf(groups)
    }

    constructor (bits: Bits)
      ensures Valid() && View() == [] && this.bits == bits
    {
      this.bits := bits;
      groups, bitsExceptLast := [], 0.0;
    }

    constructor Copied(other: GroupList)
      requires other.Valid()
      ensures Valid() && View() == other.View() && bits == other.bits
    {
      bits, groups, bitsExceptLast := other.bits, other.groups, other.bitsExceptLast;
    }

    /** The overall bit count; the last group's part of it is remembered. */
    method Count() returns (b: real)
      requires Valid()
      modifies this`groups
      ensures Valid() && View() == old(View()) && b == Cost(bits, View())
      ensures groups != [] ==> groups[|groups| - 1].cachedBits.Some?
    {
      if groups == [] {
        return 0.0;
      }
      LastPrevAvg(bits, groups, bitsExceptLast);
      var n := |groups| - 1;
      var g := groups[n];
      assert UpToDate(bits, groups, n);
      assert RunsOf(groups) == RunsOf(groups[..n]) + [g.runs];
      if g.cachedBits.None? {
        g := g.(cachedBits := Some(bits(g.stats, g.prevAvg)));
        ChangeLast(bits, groups, bitsExceptLast, g);
        groups := groups[n := g];
      }
      b := bitsExceptLast + g.cachedBits.value;
    }

    method AppendGroup(run: Run)
      requires Valid() && run.Size() > 0
      modifies this
      ensures Valid() && View() == old(View()) + [[run]]
    {
      var prev := if groups == [] then None else Some(groups[|groups| - 1].stats.avg);
      LastPrevAvg(bits, groups, bitsExceptLast);
      var s := ForRuns([run]);
      TotalOne(run);
      var g := Group([run], s.value, prev, None);
      var b := Count();
      AddGroup(bits, groups, bitsExceptLast, g);
      bitsExceptLast, groups := b, groups + [g];
    }

    method AppendRun(run: Run)
      requires Valid() && groups != []
      modifies this
      ensures Valid() && View() == Extended(old(View()), run)
    {
      var n := |groups| - 1;
      var g := groups[n];
      assert UpToDate(bits, groups, n);
      AppendedStats(g.runs, run);
      var s := ForRuns([Summary(g.stats), run]);
      TotalConcat(g.runs, [run]);
      var longer := Group(g.runs + [run], s.value, g.prevAvg, None);
      ChangeLast(bits, groups, bitsExceptLast, longer);
      assert RunsOf(groups)[..n] == RunsOf(groups[..n]);
      groups := groups[n := longer];
    }
  }

  // ---------------------------------------------------------------------
  // The algorithm
  // ---------------------------------------------------------------------

  /** Every list is an object of this call's own, up to date, and holds the partition it should. */
  ghost predicate Hold(lists: seq<GroupList>, bits: Bits, views: seq<Partition>)
    reads lists
  {
    |lists| == |views| &&
    forall i :: 0 <= i < |lists| ==> lists[i].Valid() && lists[i].bits == bits && lists[i].View() == views[i]
  }

  lemma ExtendCandidate(values: seq<Run>, closed: seq<Partition>, j: nat, m: nat)
    requires j < m < |values| && j < |closed|
    ensures Extended(Candidate(values, closed, j, m), values[m]) == Candidate(values, closed, j, m + 1)
  {
    assert values[j..m] + [values[m]] == values[j..m + 1];
    var c := Candidate(values, closed, j, m);
    assert c[..|c| - 1] == closed[j];
  }

  /** A copy with the run added to its last group, and its bit count. */
  method ExtendedCopy(open: GroupList, run: Run) returns (copy: GroupList, b: real)
    requires open.Valid() && open.groups != []
    ensures fresh(copy) && copy.Valid() && copy.bits == open.bits && copy.View() == Extended(open.View(), run)
    ensures b == Cost(copy.bits, copy.View())
  {
    copy := new GroupList.Copied(open);
    copy.AppendRun(run);
    b := copy.Count();
  }

  /** A copy with the run in a group of its own, and its bit count. */
  method OpenedCopy(closed: GroupList, run: Run) returns (copy: GroupList, b: real)
    requires closed.Valid() && run.Size() > 0
    ensures fresh(copy) && copy.Valid() && copy.bits == closed.bits && copy.View() == closed.View() + [[run]]
    ensures b == Cost(copy.bits, copy.View())
  {
    copy := new GroupList.Copied(closed);
    copy.AppendGroup(run);
    b := copy.Count();
  }

  /** The partitions the open lists hold: the best prefix before `j`, then everything from `j` to `m`. */
  ghost function OpenViews(values: seq<Run>, closed: seq<Partition>, m: nat, n: nat): (views: seq<Partition>)
    requires n <= m <= |values| && n <= |closed|
    ensures |views| == n
  {
    seq(n, j requires 0 <= j < n => Candidate(values, closed, j, m))
  }

  /** `cost` gives the bit counts of the candidates for one table entry. */
  ghost predicate Prices(cost: nat -> real, bits: Bits, values: seq<Run>, closed: seq<Partition>, end: nat)
    requires end <= |values| && end <= |closed|
  {
    forall j: nat {:trigger CandidateCost(bits, values, closed, j, end)} :: j < end ==>
      cost(j) == CandidateCost(bits, values, closed, j, end)
  }

  lemma HoldOneMore(lists: seq<GroupList>, bits: Bits, views: seq<Partition>, l: GroupList, v: Partition)
    requires Hold(lists, bits, views) && l.Valid() && l.bits == bits && l.View() == v
    ensures Hold(lists + [l], bits, views + [v])
  {
  }

  lemma OpenViewsOneMore(values: seq<Run>, closed: seq<Partition>, end: nat, p: nat)
    requires p < end <= |values| && p < |closed|
    ensures OpenViews(values, closed, end, p + 1)
         == OpenViews(values, closed, end, p) + [Candidate(values, closed, p, end)]
  {
  }

  /** One turn of the inner loop. */
  method ExtendOne(bits: Bits, values: seq<Run>, m: nat, open: GroupList, p: nat, ghost extended: seq<GroupList>,
                   ghost closed: seq<Partition>, ghost end: nat, ghost cost: nat -> real)
    returns (next: GroupList, nextBits: real)
    requires p < m < end == m + 1 <= |values| && |closed| == end && Prices(cost, bits, values, closed, end)
    requires open.Valid() && open.bits == bits && open.View() == Candidate(values, closed, p, m)
    requires Hold(extended, bits, OpenViews(values, closed, end, p))
    ensures Hold(extended + [next], bits, OpenViews(values, closed, end, p + 1))
    ensures fresh(next) && nextBits == cost(p)
  {
    next, nextBits := ExtendedCopy(open, values[m]);
    ExtendCandidate(values, closed, p, m);
    assert nextBits == CandidateCost(bits, values, closed, p, end);
    HoldOneMore(extended, bits, OpenViews(values, closed, end, p), next, Candidate(values, closed, p, end));
    OpenViewsOneMore(values, closed, end, p);
  }

  /**
   * Of candidate `m` and those before `p`, `best` is the cheapest; `m` wins ties, and earlier ones win over later
   * ones.
   */
  ghost predicate Lowest(cost: nat -> real, best: nat, p: nat, m: nat)
  {
    && (best < p || best == m)
    && forall j: nat :: j < p || j == m ==> cost(best) <= cost(j) && (Precedes(j, best, m + 1) ==> cost(best) < cost(j))
  }

  lemma LowestOneMore(cost: nat -> real, best: nat, p: nat, m: nat)
    requires Lowest(cost, best, p, m) && p < m
    ensures Lowest(cost, if cost(p) < cost(best) then p else best, p + 1, m)
  {
  }

  /**
   * Extends each open list by the next value and finds the cheapest of them and of `newly`, the list whose last
   * group holds that value alone; `newly` wins ties, and earlier lists win over later ones.
   */
  method ExtendAll(bits: Bits, values: seq<Run>, m: nat, open: seq<GroupList>, newly: GroupList, newlyBits: real,
                   ghost closed: seq<Partition>, ghost end: nat, ghost cost: nat -> real)
    returns (extended: seq<GroupList>, record: GroupList, ghost best: nat)
    requires m < end == m + 1 <= |values| && |closed| == end && Prices(cost, bits, values, closed, end)
    requires Hold(open, bits, OpenViews(values, closed, m, m))
    requires newlyBits == cost(m)
    ensures Hold(extended, bits, OpenViews(values, closed, end, m))
    ensures Lowest(cost, best, m, m) && record == (if best == m then newly else extended[best])
  {
    extended, record, best := [], newly, m;
    var recordBits := newlyBits;
    for p := 0 to m
      invariant Hold(open, bits, OpenViews(values, closed, m, m))
      invariant Hold(extended, bits, OpenViews(values, closed, end, p))
      invariant Lowest(cost, best, p, m)
      invariant record == (if best == m then newly else extended[best]) && recordBits == cost(best)
    {
      assert open[p].View() == OpenViews(values, closed, m, m)[p] == Candidate(values, closed, p, m);
      var next, nextBits := ExtendOne(bits, values, m, open[p], p, extended, closed, end, cost);
      extended := extended + [next];
      LowestOneMore(cost, best, p, m);
      if nextBits < recordBits {
        record, recordBits, best := next, nextBits, p;
      }
    }
  }

  lemma CandidateStable(values: seq<Run>, closed: seq<Partition>, entry: Partition, j: nat, m: nat)
    requires j < m <= |values| && j < |closed|
    ensures Candidate(values, closed + [entry], j, m) == Candidate(values, closed, j, m)
  {
  }

  lemma BestStable(bits: Bits, values: seq<Run>, closed: seq<Partition>, entry: Partition, m: nat)
    requires 0 < m < |closed| <= |values| && BestAt(bits, values, closed, m)
    ensures BestAt(bits, values, closed + [entry], m)
  {
    var longer := closed + [entry];
    var j: nat :| j < m && closed[m] == Candidate(values, closed, j, m) && Preferred(bits, values, closed, j, m);
    assert closed[..m] == longer[..m];
    CandidateStable(values, closed, entry, j, m);
    PreferredInBoth(bits, values, closed, longer, j, m);
    assert longer[m] == Candidate(values, longer, j, m);
  }

  lemma LowestIsPreferred(bits: Bits, values: seq<Run>, closed: seq<Partition>, cost: nat -> real, best: nat)
    requires 0 < |closed| <= |values| && best < |closed|
    requires Prices(cost, bits, values, closed, |closed|) && Lowest(cost, best, |closed| - 1, |closed| - 1)
    ensures Preferred(bits, values, closed, best, |closed|)
  {
    var end := |closed|;
    assert cost(best) == CandidateCost(bits, values, closed, best, end);
    forall i: nat | i < end
      ensures CandidateCost(bits, values, closed, best, end) <= CandidateCost(bits, values, closed, i, end)
      ensures Precedes(i, best, end) ==>
                CandidateCost(bits, values, closed, best, end) < CandidateCost(bits, values, closed, i, end)
    {
      assert cost(i) == CandidateCost(bits, values, closed, i, end);
      assert i < end - 1 || i == end - 1;
    }
  }

  /** The cheapest candidate is a right next entry of the table. */
  lemma TableOneMore(bits: Bits, values: seq<Run>, closed: seq<Partition>, cost: nat -> real, best: nat)
    requires Table(bits, values, closed) && |closed| <= |values| && best < |closed|
    requires Prices(cost, bits, values, closed, |closed|) && Lowest(cost, best, |closed| - 1, |closed| - 1)
    ensures Table(bits, values, closed + [Candidate(values, closed, best, |closed|)])
  {
    var end := |closed|;
    var entry := Candidate(values, closed, best, end);
    var longer := closed + [entry];
    forall m: nat | 0 < m < |longer| ensures BestAt(bits, values, longer, m) {
      if m < end {
        BestStable(bits, values, closed, entry, m);
      } else {
        LowestIsPreferred(bits, values, closed, cost, best);
        assert closed[..end] == longer[..end];
        PreferredInBoth(bits, values, closed, longer, best, end);
        CandidateStable(values, closed, entry, best, end);
        assert longer[end] == Candidate(values, longer, best, end);
      }
    }
  }

  lemma OpenViewsStable(values: seq<Run>, closed: seq<Partition>, entry: Partition, m: nat)
    requires m <= |values| && m <= |closed|
    ensures OpenViews(values, closed + [entry], m, m) == OpenViews(values, closed, m, m)
  {
    forall j | 0 <= j < m
      ensures OpenViews(values, closed + [entry], m, m)[j] == OpenViews(values, closed, m, m)[j] {
      CandidateStable(values, closed, entry, j, m);
    }
  }

  /** The dynamic program of `classify`, one table entry per prefix of the values. */
  method ClassifyRuns(bits: Bits, values: seq<Run>) returns (partition: GroupList, ghost closed: seq<Partition>)
    requires forall i :: 0 <= i < |values| ==> values[i].Size() > 0
    ensures Table(bits, values, closed) && |closed| == |values| + 1
    ensures partition.Valid() && partition.bits == bits && partition.View() == closed[|values|]
  {
    var openAt: seq<GroupList> := [];
    var empty := new GroupList(bits);
    var last := empty;
    closed := [[]];
    for m := 0 to |values|
      invariant |closed| == m + 1 && Table(bits, values, closed)
      invariant Hold(openAt, bits, OpenViews(values, closed, m, m))
      invariant last.Valid() && last.bits == bits && last.View() == closed[m]
    {
      openAt, last, closed := ClassifyNext(bits, values, m, openAt, last, closed);
    }
    partition := last;
  }

  lemma PriceList(bits: Bits, values: seq<Run>, closed: seq<Partition>, end: nat) returns (cost: nat -> real)
    requires end <= |values| && end <= |closed|
    ensures Prices(cost, bits, values, closed, end)
  {
    cost := (j: nat) => if j < end then CandidateCost(bits, values, closed, j, end) else 0.0;
  }

  /** One turn of the outer loop; `last` is the newest of the closed lists, the only one used again. */
  method ClassifyNext(bits: Bits, values: seq<Run>, m: nat, openAt: seq<GroupList>, last: GroupList,
                      ghost closed: seq<Partition>)
    returns (openAt': seq<GroupList>, last': GroupList, ghost closed': seq<Partition>)
    requires m < |values| && values[m].Size() > 0
    requires |closed| == m + 1 && Table(bits, values, closed)
    requires Hold(openAt, bits, OpenViews(values, closed, m, m))
    requires last.Valid() && last.bits == bits && last.View() == closed[m]
    ensures |closed'| == m + 2 && Table(bits, values, closed')
    ensures Hold(openAt', bits, OpenViews(values, closed', m + 1, m + 1))
    ensures last'.Valid() && last'.bits == bits && last'.View() == closed'[m + 1]
  {
    ghost var end := m + 1;
    ghost var cost := PriceList(bits, values, closed, end);
    var newly, newlyBits := OpenedCopy(last, values[m]);
    assert values[m..end] == [values[m]];
    assert newlyBits == CandidateCost(bits, values, closed, m, end);
    var extended, record, best := ExtendAll(bits, values, m, openAt, newly, newlyBits, closed, end, cost);
    TableOneMore(bits, values, closed, cost, best);
    ghost var entry := Candidate(values, closed, best, end);
    HoldOneMore(extended, bits, OpenViews(values, closed, end, m), newly, Candidate(values, closed, m, end));
    OpenViewsOneMore(values, closed, end, m);
    OpenViewsStable(values, closed, entry, end);
    openAt', last', closed' := extended + [newly], record, closed + [entry];
  }
}
