/** Warm-up, clear, run, sample, report: the stateless driver's accounting, and the script that stops it later. */
module LossAccounting {
  import opened Bytes

  /** Packets a port has sent and received. */
  datatype Count = Count(tx: int, rx: int)
  {
    function Plus(c: Count): Count { Count(tx + c.tx, rx + c.rx) }

    function Minus(c: Count): Count { Count(tx - c.tx, rx - c.rx) }
  }

  const NOTHING := Count(0, 0)

  /** Per port, what an interval of traffic adds. */
  type Traffic = map<int, Count>

  function At(t: map<int, Count>, port: int): Count { if port in t then t[port] else NOTHING }

  /** The generator's hardware counters. They are shared by every client that connects and are never cleared. */
  class Device {
    var counters: map<int, Count>

    /** Traffic between two moments the scripts can observe. */
    method Carry(t: Traffic)
      modifies this
      ensures Grown(old(counters), t, counters)
    {
      counters := map p | p in counters :: counters[p].Plus(At(t, p));
    }
  }

  /** A client remembers where the counters stood; what it reports is the difference. */
  class Client {
    const device: Device
    var reference: map<int, Count>

    constructor (device: Device, reference: map<int, Count>)
      ensures this.device == device && this.reference == reference
    {
      this.device, this.reference := device, reference;
    }

    method ClearStats()
      modifies this
      ensures reference == device.counters
    {
      reference := device.counters;
    }

    method GetStats() returns (stats: map<int, Count>)
      ensures stats.Keys == device.counters.Keys
      ensures forall p :: p in stats ==> stats[p] == device.counters[p].Minus(At(reference, p))
    {
      stats := map p | p in device.counters :: device.counters[p].Minus(At(reference, p));
    }
  }

  datatype Report = Report(totalReceived: int, totalSent: int, frameLoss: int, duration: real, rate: real)

  /** `KeyError`: a port number that is missing from the statistics. */
  datatype Burst = Printed(report: Report) | Snapshot(port0: Count, port1: Option<Count>) | KeyError

  predicate Known(ports: set<int>, port0: int, port1: int, directions: int)
  {
    port0 in ports && port1 in ports && (directions > 1 ==> 0 in ports && 1 in ports)
  }

  /** What the report of a finished run says about the traffic of that run. */
  ghost predicate Reports(r: Report, t: Traffic, port0: int, port1: int, directions: int, duration: real)
  {
    && r.totalSent == (if directions > 1 then At(t, 0).tx + At(t, 1).tx else At(t, port0).tx)
    && r.totalReceived == (if directions > 1 then At(t, 0).rx + At(t, 1).rx else At(t, port1).rx)
    && r.frameLoss == At(t, port0).tx - At(t, port1).rx
                      + (if directions > 1 then At(t, port1).tx - At(t, port0).rx else 0)
    && r.duration == duration
    && (duration != 0.0 ==> r.rate * duration == r.totalSent as real)
    && (duration == 0.0 ==> r.rate == 0.0)
  }

  /** The counters after an interval that carried `t`. */
  ghost predicate Grown(before: map<int, Count>, t: Traffic, after: map<int, Count>)
  {
    after.Keys == before.Keys && forall p :: p in before ==> after[p] == before[p].Plus(At(t, p))
  }

  /** The losses of an interval, as the two ports saw it. */
  method Losses(stats: map<int, Count>, port0: int, port1: int, directions: int) returns (lostA: int, lostB: int)
    requires port0 in stats && port1 in stats
    ensures lostA == stats[port0].tx - stats[port1].rx
    ensures lostB == if directions > 1 then stats[port1].tx - stats[port0].rx else 0
  {
    lostA, lostB := stats[port0].tx - stats[port1].rx, 0;
    if directions > 1 {
      lostB := stats[port1].tx - stats[port0].rx;
    }
  }

  /** Warm-up phase: its own losses are printed and otherwise forgotten. */
  method WarmUp(client: Client, port0: int, port1: int, directions: int, t: Traffic)
    returns (ok: bool, lostA: int, lostB: int)
    modifies client, client.device
    ensures ok ==> lostA == At(t, port0).tx - At(t, port1).rx
    ensures ok && directions > 1 ==> lostB == At(t, port1).tx - At(t, port0).rx
    ensures ok <==> {port0, port1} <= old(client.device.counters).Keys
    ensures Grown(old(client.device.counters), t, client.device.counters)
  {
    client.ClearStats();
    client.device.Carry(t);
    var stats := client.GetStats();
    ok, lostA, lostB := port0 in stats && port1 in stats, 0, 0;
    if ok {
      lostA, lostB := Losses(stats, port0, port1, directions);
    }
  }

  /** The measured phase of a synchronous run. */
  method Measure(client: Client, port0: int, port1: int, directions: int, t: Traffic, duration: real)
    returns (b: Burst)
    requires client.reference == client.device.counters
    modifies client.device
    ensures if Known(old(client.device.counters).Keys, port0, port1, directions)
            then b.Printed? && Reports(b.report, t, port0, port1, directions, duration)
            else b.KeyError?
    ensures Grown(old(client.device.counters), t, client.device.counters)
  {
    client.device.Carry(t);
    var stats := client.GetStats();
    if port0 !in stats || port1 !in stats {
      return KeyError;
    }
    var lostA, lostB := Losses(stats, port0, port1, directions);
    var totalSent, totalRcvd := stats[port0].tx, stats[port1].rx;
    if directions > 1 {
      if 0 !in stats || 1 !in stats {
        return KeyError;
      }
      totalSent, totalRcvd := stats[0].tx + stats[1].tx, stats[0].rx + stats[1].rx;
    }
    var rate := if duration != 0.0 then totalSent as real / duration else 0.0;
    b := Printed(Report(totalRcvd, totalSent, lostA + lostB, duration, rate));
  }

  /** The references exported when the traffic is left running. */
  method Export(client: Client, directions: int) returns (b: Burst)
    ensures if 0 in client.reference && (directions > 1 ==> 1 in client.reference)
            then b == Snapshot(client.reference[0], if directions > 1 then Some(client.reference[1]) else None)
            else b.KeyError?
  {
    if 0 !in client.reference || (directions > 1 && 1 !in client.reference) {
      return KeyError;
    }
    b := Snapshot(client.reference[0], if directions > 1 then Some(client.reference[1]) else None);
  }

  /**
   * `simple_burst` from the warm-up on. `warmup` and `run` are what the network carries in the two phases;
   * whatever the warm-up carried, the report is about the run alone.
   */
  method SimpleBurst(client: Client, port0: int, port1: int, directions: int, warmup: Option<Traffic>,
                     run: Traffic, duration: real, asyncStart: bool) returns (b: Burst)
    requires {port0, port1} <= client.device.counters.Keys
    modifies client, client.device
    ensures !asyncStart ==> if Known(old(client.device.counters).Keys, port0, port1, directions)
                            then b.Printed? && Reports(b.report, run, port0, port1, directions, duration)
                            else b.KeyError?
    ensures Grown(old(client.device.counters), if warmup.Some? then warmup.value else map[], client.reference)
    ensures Grown(client.reference, run, client.device.counters)
    ensures asyncStart && {0, 1} <= client.reference.Keys ==>
              b == Snapshot(client.reference[0], if directions > 1 then Some(client.reference[1]) else None)
  {
    if warmup.Some? {
      var ok, lostA, lostB := WarmUp(client, port0, port1, directions, warmup.value);
    }
    client.ClearStats();
    if asyncStart {
      b := Export(client, directions);
      client.device.Carry(run);
    } else {
      b := Measure(client, port0, port1, directions, run, duration);
    }
  }

  /** One direction: the printed loss always reconciles with the printed totals. */
  lemma OneWayReconciles(r: Report, t: Traffic, port0: int, port1: int, directions: int, duration: real)
    requires Reports(r, t, port0, port1, directions, duration) && directions <= 1
    ensures r.frameLoss == r.totalSent - r.totalReceived
  {
  }

  /** Both directions: the totals are read from ports 0 and 1, so the loss reconciles whatever was carried
      if and only if those are the two ports used. */
  lemma TwoWayReconcilesIff(port0: int, port1: int, directions: int, duration: real)
    requires directions > 1
    ensures (forall r, t :: Reports(r, t, port0, port1, directions, duration) ==>
               r.frameLoss == r.totalSent - r.totalReceived)
            <==> {port0, port1} == {0, 1}
  {
    if {port0, port1} == {0, 1} {
      forall r, t | Reports(r, t, port0, port1, directions, duration)
        ensures r.frameLoss == r.totalSent - r.totalReceived
      {
        assert port0 in {0, 1} && port1 in {0, 1} && 0 in {port0, port1} && 1 in {port0, port1};
      }
    } else {
      var stranger := Stranger(port0, port1);
      var t: Traffic := map[stranger := Count(1, 0)];
      var sent := At(t, 0).tx + At(t, 1).tx;
      var loss := At(t, port0).tx + At(t, port1).tx;
      var r := Report(0, sent, loss, duration, if duration == 0.0 then 0.0 else sent as real / duration);
      assert Reports(r, t, port0, port1, directions, duration);
      assert r.frameLoss != r.totalSent - r.totalReceived;
    }
  }

  /** A port on one of the two sides only. */
  function Stranger(port0: int, port1: int): (p: int)
    requires {port0, port1} != {0, 1}
    ensures (p in {0, 1}) != (p in {port0, port1})
  {
    if port0 !in {0, 1} then port0
    else if port1 !in {0, 1} then port1
    else
      assert port0 == port1;
      1 - port0
  }

  datatype Stopped = Stopped(report: Report, lostA: int, lostB: int)

  /** `trex_stl_stop`: a new client, whose own references are overwritten by the snapshots that were passed on. */
  method Stop(client: Client, xstat0: Option<Count>, xstat1: Option<Count>) returns (s: Stopped)
    requires {0, 1} <= client.device.counters.Keys
    modifies client
    ensures var ref0 := if xstat0.Some? then xstat0.value else At(old(client.reference), 0);
            var ref1 := if xstat1.Some? then xstat1.value else At(old(client.reference), 1);
            var t := map[0 := client.device.counters[0].Minus(ref0), 1 := client.device.counters[1].Minus(ref1)];
            && Reports(s.report, t, 0, 1, 2, 0.0)
            && s.report.frameLoss == s.lostA + s.lostB == s.report.totalSent - s.report.totalReceived
            && s.lostA == t[0].tx - t[1].rx
  {
    if xstat0.Some? {
      client.reference := client.reference[0 := xstat0.value];
    }
    if xstat1.Some? {
      client.reference := client.reference[1 := xstat1.value];
    }
    var xstats := client.GetStats();
    var lostA, lostB := xstats[0].tx - xstats[1].rx, xstats[1].tx - xstats[0].rx;
    var totalRcvd, totalSent := xstats[0].rx + xstats[1].rx, xstats[0].tx + xstats[1].tx;
    s := Stopped(Report(totalRcvd, totalSent, totalSent - totalRcvd, 0.0, 0.0), lostA, lostB);
  }

  /**
   * Starting asynchronously and stopping from another process later gives the report that a synchronous run of
   * the same traffic would have given, whatever references the stopping client had of its own.
   */
  method AsyncThenStop(device: Device, first: Client, warmup: Option<Traffic>, run: Traffic, other: map<int, Count>)
    returns (s: Stopped)
    requires first.device == device && {0, 1} <= device.counters.Keys
    modifies first, device
    ensures Reports(s.report, run, 0, 1, 2, 0.0)
  {
    var b := SimpleBurst(first, 0, 1, 2, warmup, run, 0.0, true);
    var second := new Client(device, other);
    s := Stop(second, Some(b.port0), b.port1);
  }

  /** Where the counters of a port stand when the measured run starts. */
  ghost function AtStart(counters: map<int, Count>, warmup: Option<Traffic>, port: int): Count
  {
    At(counters, port).Plus(if warmup.Some? then At(warmup.value, port) else NOTHING)
  }

  /**
   * A one-directional start passes on no snapshot of port 1, so the stop script falls back on its own reference. Its
   * totals are off by how far that reference is from where the counters stood at the start, and they count what the
   * other direction carried; a synchronous run of the same traffic reports the same totals if and only if both cancel.
   */
  method OneWayAsyncThenStop(device: Device, first: Client, warmup: Option<Traffic>, run: Traffic,
                             other: map<int, Count>)
    returns (s: Stopped)
    requires first.device == device && {0, 1} <= device.counters.Keys
    modifies first, device
    ensures var start := AtStart(old(device.counters), warmup, 1);
            && s.report.totalSent == At(run, 0).tx + At(run, 1).tx + start.tx - At(other, 1).tx
            && s.report.totalReceived == At(run, 0).rx + At(run, 1).rx + start.rx - At(other, 1).rx
    ensures var start := AtStart(old(device.counters), warmup, 1);
            forall r, duration :: Reports(r, run, 0, 1, 1, duration) ==>
              && (s.report.totalSent == r.totalSent <==> At(run, 1).tx + start.tx == At(other, 1).tx)
              && (s.report.totalReceived == r.totalReceived <==> At(run, 0).rx + start.rx == At(other, 1).rx)
  {
    var b := SimpleBurst(first, 0, 1, 1, warmup, run, 0.0, true);
    var second := new Client(device, other);
    assert device.counters[0] == b.port0.Plus(At(run, 0));
    assert device.counters[1] == AtStart(old(device.counters), warmup, 1).Plus(At(run, 1));
    s := Stop(second, Some(b.port0), b.port1);
  }
}
