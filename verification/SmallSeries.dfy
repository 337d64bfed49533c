/**
 * Series that `classify` groups with the fewest bits, and the exact condition for the shortest ones that it may
 * not.
 */
module SmallSeries {
  import opened Bytes
  import opened RunStats
  import opened JumpAvg

  /** No grouping of the values takes fewer bits. */
  ghost predicate Optimal(bits: Bits, values: seq<Run>, answer: Partition)
  {
    forall gs :: Partitions(gs, values) ==> Cost(bits, answer) <= Cost(bits, gs)
  }

  // ---------------------------------------------------------------------
  // Groupings of up to three values
  // ---------------------------------------------------------------------

  /** Every grouping is one of a prefix and a last group. */
  lemma {:induction false} LastGroup(gs: Partition, values: seq<Run>) returns (front: Partition, j: nat)
    requires Partitions(gs, values) && values != []
    ensures j < |values| && Partitions(front, values[..j]) && gs == front + [values[j..]]
  {
    NonEmptyPartition(gs, values);
    LastBlock(gs, values);
    front, j := gs[..|gs| - 1], |values| - |gs[|gs| - 1]|;
    assert gs == front + [gs[|gs| - 1]];
  }

  lemma {:induction false} GroupingsOfOne(gs: Partition, values: seq<Run>)
    requires Partitions(gs, values) && |values| == 1
    ensures gs == [values]
  {
    var front, j := LastGroup(gs, values);
    EmptyPartition(front);
    assert values[0..] == values;
  }

  lemma {:induction false} GroupingsOfTwo(gs: Partition, values: seq<Run>)
    requires Partitions(gs, values) && |values| == 2
    ensures gs == [values] || gs == [[values[0]], [values[1]]]
  {
    var front, j := LastGroup(gs, values);
    if j == 0 {
      EmptyPartition(front);
      assert values[0..] == values;
    } else {
      GroupingsOfOne(front, values[..1]);
      assert values[..1] == [values[0]] && values[1..] == [values[1]];
    }
  }

  // The four groupings of three values.

  function Whole(v: seq<Run>): Partition { [v] }

  function LatePair(v: seq<Run>): Partition
    requires |v| == 3
  {
    [[v[0]], [v[1], v[2]]]
  }

  function EarlyPair(v: seq<Run>): Partition
    requires |v| == 3
  {
    [[v[0], v[1]], [v[2]]]
  }

  function AllSplit(v: seq<Run>): Partition
    requires |v| == 3
  {
    [[v[0]], [v[1]], [v[2]]]
  }

  lemma {:induction false} GroupingsOfThree(gs: Partition, v: seq<Run>)
    requires Partitions(gs, v) && |v| == 3
    ensures gs == Whole(v) || gs == LatePair(v) || gs == EarlyPair(v) || gs == AllSplit(v)
  {
    var front, j := LastGroup(gs, v);
    if j == 0 {
      EmptyPartition(front);
      assert v[0..] == v;
    } else if j == 1 {
      GroupingsOfOne(front, v[..1]);
      assert v[..1] == [v[0]] && v[1..] == [v[1], v[2]];
    } else {
      GroupingsOfTwo(front, v[..2]);
      assert v[..2] == [v[0], v[1]] && v[2..] == [v[2]];
    }
  }

  lemma {:induction false} PartitionsOfParts(gs: Partition, g: seq<Run>, values: seq<Run>)
    requires Partitions(gs, values) && g != []
    ensures Partitions(gs + [g], values + g)
  {
    FlattenOneMore(gs, g);
  }

  lemma AreGroupings(v: seq<Run>)
    requires |v| == 3
    ensures Partitions(Whole(v), v) && Partitions(LatePair(v), v)
    ensures Partitions(EarlyPair(v), v) && Partitions(AllSplit(v), v)
  {
    assert Partitions([], []);
    PartitionsOfParts([], v, []);
    PartitionsOfParts([], [v[0]], []);
    PartitionsOfParts([], [v[0], v[1]], []);
    assert [] + [v] == [v] && [] + v == v;
    assert [] + [[v[0]]] == [[v[0]]] && [] + [v[0]] == [v[0]];
    assert [] + [[v[0], v[1]]] == [[v[0], v[1]]] && [] + [v[0], v[1]] == [v[0], v[1]];
    PartitionsOfParts([[v[0]]], [v[1], v[2]], [v[0]]);
    PartitionsOfParts([[v[0], v[1]]], [v[2]], [v[0], v[1]]);
    PartitionsOfParts([[v[0]]], [v[1]], [v[0]]);
    assert [[v[0]]] + [[v[1]]] == [[v[0]], [v[1]]] && [v[0]] + [v[1]] == [v[0], v[1]];
    PartitionsOfParts([[v[0]], [v[1]]], [v[2]], [v[0], v[1]]);
    assert [v[0]] + [v[1], v[2]] == v && [v[0], v[1]] + [v[2]] == v;
    assert [[v[0]]] + [[v[1], v[2]]] == LatePair(v);
    assert [[v[0], v[1]]] + [[v[2]]] == EarlyPair(v);
    assert [[v[0]], [v[1]]] + [[v[2]]] == AllSplit(v);
  }

  // ---------------------------------------------------------------------
  // What the table holds for up to three values
  // ---------------------------------------------------------------------

  lemma {:induction false} FirstEntry(bits: Bits, v: seq<Run>, closed: seq<Partition>)
    requires |v| >= 1 && Table(bits, v, closed) && |closed| >= 2
    ensures closed[1] == [[v[0]]]
  {
    assert BestAt(bits, v, closed, 1);
    var j: nat :| j < 1 && closed[1] == Candidate(v, closed, j, 1);
    assert v[0..1] == [v[0]];
  }

  /** The first two values are kept apart unless it takes fewer bits to have them together. */
  predicate KeepsApart(bits: Bits, v: seq<Run>)
    requires |v| >= 2
  {
    Cost(bits, [[v[0]], [v[1]]]) <= Cost(bits, [[v[0], v[1]]])
  }

  /**
   * Of the first two values together and apart the cheaper one is carried on, apart on a tie, and the other never
   * seen again.
   */
  lemma {:induction false} SecondEntry(bits: Bits, v: seq<Run>, closed: seq<Partition>)
    requires |v| >= 2 && Table(bits, v, closed) && |closed| >= 3
    ensures closed[2] == if KeepsApart(bits, v) then [[v[0]], [v[1]]] else [[v[0], v[1]]]
  {
    CandidatesOfTwo(bits, v, closed);
    assert BestAt(bits, v, closed, 2);
    OneOfTwo(bits, v, closed);
  }

  lemma {:induction false} CandidatesOfTwo(bits: Bits, v: seq<Run>, closed: seq<Partition>)
    requires |v| >= 2 && Table(bits, v, closed) && |closed| >= 3
    ensures Candidate(v, closed, 0, 2) == [[v[0], v[1]]] && Candidate(v, closed, 1, 2) == [[v[0]], [v[1]]]
  {
    FirstEntry(bits, v, closed);
    assert v[0..2] == [v[0], v[1]];
    assert v[1..2] == [v[1]];
  }

  lemma {:induction false} OneOfTwo(bits: Bits, v: seq<Run>, closed: seq<Partition>)
    requires |v| >= 2 && |closed| >= 3 && BestAt(bits, v, closed, 2)
    ensures closed[2] == if CandidateCost(bits, v, closed, 1, 2) <= CandidateCost(bits, v, closed, 0, 2)
                         then Candidate(v, closed, 1, 2) else Candidate(v, closed, 0, 2)
  {
    var j: nat :| j < 2 && closed[2] == Candidate(v, closed, j, 2) && Preferred(bits, v, closed, j, 2);
    assert CandidateCost(bits, v, closed, j, 2) <= CandidateCost(bits, v, closed, 1 - j, 2);
    assert j == 0 ==> Precedes(1, j, 2);
  }

  function Kept(bits: Bits, v: seq<Run>): Partition
    requires |v| == 3
  {
    if KeepsApart(bits, v) then AllSplit(v) else EarlyPair(v)
  }

  function Dropped(bits: Bits, v: seq<Run>): Partition
    requires |v| == 3
  {
    if KeepsApart(bits, v) then EarlyPair(v) else AllSplit(v)
  }

  lemma {:induction false} CandidatesOfThree(bits: Bits, v: seq<Run>, closed: seq<Partition>)
    requires |v| == 3 && Table(bits, v, closed) && |closed| == 4
    ensures Candidate(v, closed, 0, 3) == Whole(v) && Candidate(v, closed, 1, 3) == LatePair(v)
    ensures Candidate(v, closed, 2, 3) == Kept(bits, v)
  {
    FirstEntry(bits, v, closed);
    SecondEntry(bits, v, closed);
    assert v[0..3] == v;
    assert v[1..3] == [v[1], v[2]];
    assert v[2..3] == [v[2]];
  }

  lemma {:induction false} ThirdEntry(bits: Bits, v: seq<Run>, closed: seq<Partition>)
    requires |v| == 3 && Table(bits, v, closed) && |closed| == 4
    ensures closed[3] == Whole(v) || closed[3] == LatePair(v) || closed[3] == Kept(bits, v)
    ensures Cost(bits, closed[3]) <= Cost(bits, Whole(v)) && Cost(bits, closed[3]) <= Cost(bits, LatePair(v))
    ensures Cost(bits, closed[3]) <= Cost(bits, Kept(bits, v))
  {
    CandidatesOfThree(bits, v, closed);
    assert BestAt(bits, v, closed, 3);
    BestIsCheapest(bits, v, closed, 3, 0);
    BestIsCheapest(bits, v, closed, 3, 1);
    BestIsCheapest(bits, v, closed, 3, 2);
  }

  // ---------------------------------------------------------------------
  // When the answer is optimal
  // ---------------------------------------------------------------------

  /** Up to two values: always, for any coding. */
  lemma {:induction false} UpToTwoIsOptimal(bits: Bits, values: seq<Run>, closed: seq<Partition>)
    requires |values| <= 2 && Table(bits, values, closed) && |closed| == |values| + 1
    ensures Optimal(bits, values, closed[|values|])
  {
    forall gs | Partitions(gs, values) ensures Cost(bits, closed[|values|]) <= Cost(bits, gs) {
      if values == [] {
        EmptyPartition(gs);
      } else if |values| == 1 {
        GroupingsOfOne(gs, values);
        FirstEntry(bits, values, closed);
        assert values == [values[0]];
      } else {
        GroupingsOfTwo(gs, values);
        SecondEntry(bits, values, closed);
        assert values == [values[0], values[1]];
      }
    }
  }

  /**
   * Three values: if and only if what is dropped after the second is not strictly the cheapest of all four groupings.
   * Which one that is can be told from the costs of the first two values.
   */
  lemma {:induction false} ThreeAreOptimalIff(bits: Bits, v: seq<Run>, closed: seq<Partition>)
    requires |v| == 3 && Table(bits, v, closed) && |closed| == 4
    ensures Optimal(bits, v, closed[3]) <==>
            var d := Cost(bits, Dropped(bits, v));
            !(d < Cost(bits, Whole(v)) && d < Cost(bits, LatePair(v)) && d < Cost(bits, Kept(bits, v)))
  {
    ThirdEntry(bits, v, closed);
    AreGroupings(v);
    forall gs | Partitions(gs, v) && Cost(bits, closed[3]) <= Cost(bits, Dropped(bits, v))
      ensures Cost(bits, closed[3]) <= Cost(bits, gs)
    {
      GroupingsOfThree(gs, v);
    }
    assert Partitions(Dropped(bits, v), v);
  }

  /** Values of one average: always, for any coding, since then every group has the same predecessor to reckon with. */
  lemma {:induction false} EqualAveragesAreOptimal(bits: Bits, values: seq<Run>, closed: seq<Partition>, a: real)
    requires forall i :: 0 <= i < |values| ==> values[i].Size() > 0 && values[i].Avg() == a
    requires Table(bits, values, closed) && |closed| == |values| + 1
    ensures Optimal(bits, values, closed[|values|])
  {
    EqualAveragesDoNotSwing(bits, values, a);
    forall gs | Partitions(gs, values) ensures Cost(bits, closed[|values|]) <= Cost(bits, gs) {
      OptimalWithoutSwing(bits, values, closed, gs);
    }
  }

  lemma {:induction false} EqualAveragesDoNotSwing(bits: Bits, values: seq<Run>, a: real)
    requires forall i :: 0 <= i < |values| ==> values[i].Size() > 0 && values[i].Avg() == a
    ensures Swing(bits, values, 0.0)
  {
    forall p: nat, q: nat, j: nat, m: nat | p < j < m <= |values| && q < j
      ensures bits(StatsOf(values[j..m]), Some(StatsOf(values[p..j]).avg))
           <= bits(StatsOf(values[j..m]), Some(StatsOf(values[q..j]).avg)) + 0.0
    {
      SameAverage(values[p..j], a);
      SameAverage(values[q..j], a);
    }
  }

  lemma {:induction false} SameAverage(runs: seq<Run>, a: real)
    requires runs != [] && forall i :: 0 <= i < |runs| ==> runs[i].Size() > 0 && runs[i].Avg() == a
    ensures StatsOf(runs).avg == a
  {
    SameSum(runs, a);
    AverageIs(Total(runs).n as real, a, Total(runs).s1);
  }

  lemma AverageIs(n: real, a: real, s: real)
    requires n > 0.0 && s == n * a
    ensures s / n == a
  {
    assert (s / n - a) * n == 0.0;
  }

  lemma {:induction false} SameSum(runs: seq<Run>, a: real)
    requires forall i :: 0 <= i < |runs| ==> runs[i].Size() > 0 && runs[i].Avg() == a
    ensures Total(runs).n >= |runs| && Total(runs).s1 == Total(runs).n as real * a
  {
    if runs != [] {
      var n := |runs| - 1;
      SameSum(runs[..n], a);
      TotalStep(runs, n);
      assert runs[..n + 1] == runs;
      AddScaled(Total(runs[..n]).n as real, runs[n].Size() as real, a);
    }
  }

  lemma AddScaled(x: real, y: real, a: real)
    ensures x * a + y * a == (x + y) * a
  {
  }
}
