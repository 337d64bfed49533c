/** The stateful driver: wait for the first packet, rebase the clock, sample until the traffic is over. */
module AstfSampling {
  import opened Bytes
  import opened LossAccounting

  /** Packets sent by the first port at some reading of the clock. */
  datatype Probe = Probe(clock: real, opackets: int)

  datatype Sample = Sample(clock: real, stats: map<int, Count>)

  datatype Outcome =
    | Waiting                     // no packet has left yet
    | KeyError                    // a port is missing from the statistics
    | Reported(trexStartTime: real, report: Report)
    | Exported(port0: Count, port1: Option<Count>)  // left running: the references of the ports

  ghost predicate IsMax(k: real, s: set<real>) { k in s && forall j :: j in s ==> j <= k }

  lemma {:induction false} MaxExists(s: set<real>, x: real)
    requires x in s
    ensures exists k :: IsMax(k, s)
    decreases |s|
  {
    var rest := s - {x};
    if y :| y in rest {
      MaxExists(rest, y);
      var k :| IsMax(k, rest);
      assert forall j :: j in s ==> j == x || j in rest;
      assert IsMax(if k < x then x else k, s);
    } else {
      assert forall j :: j in s ==> j == x || j in rest;
      assert IsMax(x, s);
    }
  }

  /** `sorted(stats.keys())[-1]`; `some` witnesses that there is a key. */
  method LastKey<T>(stats: map<real, T>, ghost some: real) returns (k: real)
    requires some in stats
    ensures IsMax(k, stats.Keys)
  {
    MaxExists(stats.Keys, some);
    ghost var m :| IsMax(m, stats.Keys);
    k :| k in stats.Keys && forall j :: j in stats.Keys ==> j <= k;
  }

  /** Number of the first probe that saw a packet. */
  ghost predicate FirstSent(probes: seq<Probe>, f: int)
  {
    0 <= f < |probes| && probes[f].opackets != 0 && forall i :: 0 <= i < f ==> probes[i].opackets == 0
  }

  /** Start detection: the dictionary holds one probe at a time, keyed by its distance from `start`. */
  method DetectStart(start: real, probes: seq<Probe>) returns (found: Option<real>, timeStart: real)
    ensures found.None? <==> forall i :: 0 <= i < |probes| ==> probes[i].opackets == 0
    ensures found.Some? ==> exists f :: FirstSent(probes, f) && found.value == probes[f].clock - start
                                        && timeStart == probes[f].clock
  {
    found, timeStart := None, start;
    if probes == [] {
      return;
    }
    var stats: map<real, int> := map[probes[0].clock - timeStart := probes[0].opackets];
    var i := 0;
    while true
      invariant i < |probes| && stats == map[probes[i].clock - timeStart := probes[i].opackets]
      invariant forall j :: 0 <= j < i ==> probes[j].opackets == 0
      decreases |probes| - i
    {
      var k := LastKey(stats, probes[i].clock - timeStart);
      if stats[k] != 0 {
        assert FirstSent(probes, i);
        return Some(k), timeStart + k;
      }
      i := i + 1;
      if i == |probes| {
        return;
      }
      stats := map[];
      stats := stats[probes[i].clock - timeStart := probes[i].opackets];
    }
  }

  ghost predicate Ordered(samples: seq<Sample>)
  {
    forall i, j :: 0 <= i < j < |samples| ==> samples[i].clock <= samples[j].clock
  }

  /** The dictionary keys of some samples. */
  ghost function KeysOf(samples: seq<Sample>, timeStart: real): set<real>
  {
    set s | s in samples :: s.clock - timeStart
  }

  lemma KeysOneMore(samples: seq<Sample>, i: nat, timeStart: real)
    requires i < |samples|
    ensures KeysOf(samples[..i + 1], timeStart) == KeysOf(samples[..i], timeStart) + {samples[i].clock - timeStart}
  {
    assert samples[..i + 1] == samples[..i] + [samples[i]];
    forall s | s in samples[..i + 1] ensures s in samples[..i] || s == samples[i] {
    }
    assert samples[i] in samples[..i + 1];
  }

  lemma LastIsLatest(active: seq<Sample>, last: Sample, timeStart: real)
    requires Ordered(active + [last])
    ensures forall k :: k in KeysOf(active, timeStart) ==> k <= last.clock - timeStart
  {
    forall s | s in active ensures s.clock <= last.clock {
      var j :| 0 <= j < |active| && active[j] == s;
      assert (active + [last])[j].clock <= (active + [last])[|active|].clock;
    }
  }

  /** Sampling while the traffic is active, then once more; the latest key is the last sample's, even on a tie. */
  method CollectSamples(timeStart: real, active: seq<Sample>, last: Sample)
    returns (duration: real, stats: map<int, Count>, taken: map<real, map<int, Count>>)
    requires Ordered(active + [last])
    ensures duration == last.clock - timeStart && stats == last.stats
    ensures taken.Keys == KeysOf(active, timeStart) + {duration}
  {
    taken := map[];
    for i := 0 to |active|
      invariant taken.Keys == KeysOf(active[..i], timeStart)
    {
      KeysOneMore(active, i, timeStart);
      taken := taken[active[i].clock - timeStart := active[i].stats];
    }
    assert active[..|active|] == active;
    taken := taken[last.clock - timeStart := last.stats];
    LastIsLatest(active, last, timeStart);
    duration := LastKey(taken, last.clock - timeStart);
    assert last.clock - timeStart in taken.Keys;
    stats := taken[duration];
  }

  /** The report is about the last sample, and its duration runs from the first sent packet to that sample. */
  ghost predicate FinalReport(o: Outcome, start: real, port0: int, port1: int, directions: int,
                              probes: seq<Probe>, f: int, last: Sample)
    requires 0 <= f < |probes|
  {
    && o.Reported?
    && o.trexStartTime == probes[f].clock - start
    && o.report.duration == last.clock - probes[f].clock
    && o.report.duration >= 0.0 && o.report.rate == 0.0
    && o.report.frameLoss == o.report.totalSent - o.report.totalReceived
    && o.report.totalSent == At(last.stats, port0).tx + (if directions > 1 then At(last.stats, port1).tx else 0)
    && o.report.totalReceived == At(last.stats, port1).rx + (if directions > 1 then At(last.stats, port0).rx else 0)
  }

  /** `simple_burst` after the traffic was started at clock `start`; `references` are those of the client's ports. */
  method SimpleBurst(start: real, port0: int, port1: int, directions: int, asyncStart: bool,
                     references: map<int, Count>, probes: seq<Probe>, active: seq<Sample>, last: Sample)
    returns (o: Outcome)
    requires Ordered(active + [last])
    requires forall i :: 0 <= i < |probes| ==> probes[i].clock <= last.clock
    ensures o.Waiting? <==> forall i :: 0 <= i < |probes| ==> probes[i].opackets == 0
    ensures !o.Waiting? && asyncStart ==>
              if port0 in references && (directions > 1 ==> port1 in references)
              then o == Exported(references[port0], if directions > 1 then Some(references[port1]) else None)
              else o.KeyError?
    ensures !o.Waiting? && !asyncStart ==>
              if {port0, port1} <= last.stats.Keys
              then exists f :: FirstSent(probes, f)
                               && FinalReport(o, start, port0, port1, directions, probes, f, last)
              else o.KeyError?
  {
    var found, timeStart := DetectStart(start, probes);
    if found.None? {
      return Waiting;
    }
    if asyncStart {
      if port0 !in references || (directions > 1 && port1 !in references) {
        return Outcome.KeyError;
      }
      return Exported(references[port0], if directions > 1 then Some(references[port1]) else None);
    }
    var duration, stats, taken := CollectSamples(timeStart, active, last);
    if port0 !in stats || port1 !in stats {
      return Outcome.KeyError;
    }
    var lostA, lostB := Losses(stats, port0, port1, directions);
    var totalSent, totalRcvd := stats[port0].tx, stats[port1].rx;
    if directions > 1 {
      totalSent, totalRcvd := stats[port0].tx + stats[port1].tx, stats[port0].rx + stats[port1].rx;
    }
    o := Reported(found.value, Report(totalRcvd, totalSent, lostA + lostB, duration, 0.0));
    ghost var f :| FirstSent(probes, f) && found.value == probes[f].clock - start && timeStart == probes[f].clock;
    assert FinalReport(o, start, port0, port1, directions, probes, f, last);
  }
}
