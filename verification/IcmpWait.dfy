/** The IPv4 echo script: a nested wait loop with one time budget and one packet budget. */
module IcmpWait {
  import opened Bytes

  const MAX_PACKETS := 1000
  const WAIT_STEP := 1
  const ECHO_REPLY := 0

  datatype Echo = Echo(icmpType: nat, src: string, dst: string)

  /** One call of `recv`: nothing within the step, a neighbour solicitation, or another packet and its ICMP part. */
  datatype Event = Silence | Solicitation | Packet(echo: Option<Echo>)

  /** How and at which event the run ends; `LookupFailed` is a packet without the IP and ICMP layers. */
  datatype Outcome = Success(at: nat) | TimedOut(at: nat) | LimitReached(at: nat) | LookupFailed(at: nat) | Running

  predicate Matches(e: Event, srcIp: string, dstIp: string)
  {
    e.Packet? && e.echo.Some? && e.echo.value == Echo(ECHO_REPLY, dstIp, srcIp)
  }

  /** `main` from the first receive call on. */
  method WaitForReply(srcIp: string, dstIp: string, timeout: int, events: seq<Event>) returns (o: Outcome)
    ensures IsOutcome(o, srcIp, dstIp, timeout, events)
  {
    var left := timeout;
    var pos := 0;
    for count := 0 to MAX_PACKETS
      invariant pos <= |events| && Packets(events[..pos]) == count && left == timeout - Silences(events[..pos])
      invariant forall i :: 0 <= i < pos && !(i == pos - 1 && count == MAX_PACKETS) ==>
                  Harmless(srcIp, dstIp, timeout, events, i)
      invariant count == MAX_PACKETS ==>
                  && pos > 0 && events[pos - 1].Packet? && events[pos - 1].echo.Some?
                  && !Matches(events[pos - 1], srcIp, dstIp)
    {
      while true
        invariant pos <= |events| && Packets(events[..pos]) == count && left == timeout - Silences(events[..pos])
        invariant forall i :: 0 <= i < pos ==> Harmless(srcIp, dstIp, timeout, events, i)
        decreases |events| - pos
      {
        if pos == |events| {
          return Running;
        }
        CountOneMore(events, pos);
        if events[pos].Silence? {
          left := left - WAIT_STEP;
          if left < 0 {
            return TimedOut(pos);
          }
        } else if !events[pos].Solicitation? {
          break;
        }
        pos := pos + 1;
      }
      var echo := events[pos].echo;
      if echo.None? {
        return LookupFailed(pos);
      }
      if echo.value.icmpType == ECHO_REPLY && echo.value.src == dstIp && echo.value.dst == srcIp {
        return Success(pos);
      }
      CountOneMore(events, pos);
      pos := pos + 1;
    }
    return LimitReached(pos - 1);
  }

  function Silences(events: seq<Event>): nat
  {
    if events == [] then 0
    else Silences(events[..|events| - 1]) + if events[|events| - 1].Silence? then 1 else 0
  }

  function Packets(events: seq<Event>): nat
  {
    if events == [] then 0
    else Packets(events[..|events| - 1]) + if events[|events| - 1].Packet? then 1 else 0
  }

  lemma CountOneMore(events: seq<Event>, n: nat)
    requires n < |events|
    ensures Silences(events[..n + 1]) == Silences(events[..n]) + if events[n].Silence? then 1 else 0
    ensures Packets(events[..n + 1]) == Packets(events[..n]) + if events[n].Packet? then 1 else 0
  {
    assert events[..n + 1][..n] == events[..n];
  }

  /** Event `i` does not end the run, both budgets being counted from the start. */
  ghost predicate Harmless(srcIp: string, dstIp: string, timeout: int, events: seq<Event>, i: nat)
    requires i < |events|
  {
    match events[i]
    case Silence => Silences(events[..i + 1]) <= timeout
    case Solicitation => true
    case Packet(echo) =>
      echo.Some? && !Matches(events[i], srcIp, dstIp) && Packets(events[..i + 1]) < MAX_PACKETS
  }

  ghost predicate IsOutcome(o: Outcome, srcIp: string, dstIp: string, timeout: int, events: seq<Event>)
  {
    var end := if o.Running? then |events| else o.at;
    && end <= |events|
    && (forall i :: 0 <= i < end ==> Harmless(srcIp, dstIp, timeout, events, i))
    && (!o.Running? ==> end < |events|)
    && match o
       case Running => true
       case Success(at) => Matches(events[at], srcIp, dstIp)
       case TimedOut(at) => events[at].Silence? && Silences(events[..at + 1]) > timeout
       case LookupFailed(at) => events[at] == Packet(None)
       case LimitReached(at) =>
         && events[at].Packet? && events[at].echo.Some? && !Matches(events[at], srcIp, dstIp)
         && Packets(events[..at + 1]) == MAX_PACKETS
  }

  lemma {:induction false} CountsGrow(events: seq<Event>, i: nat, n: nat)
    requires i <= n <= |events|
    ensures Silences(events[..i]) <= Silences(events[..n])
    ensures Packets(events[..i]) <= Packets(events[..n])
    decreases n - i
  {
    if i < n {
      CountsGrow(events, i, n - 1);
      CountOneMore(events, n - 1);
    }
  }

  /** What a caller can read off the trace: a matching reply within both budgets, with only ICMP before it. */
  ghost predicate InBudget(srcIp: string, dstIp: string, timeout: int, events: seq<Event>, i: int)
  {
    && 0 <= i < |events| && events[i] == Packet(Some(Echo(0, dstIp, srcIp)))
    && (Silences(events[..i]) == 0 || Silences(events[..i]) <= timeout)
    && Packets(events[..i]) <= 999
    && forall j :: 0 <= j < i ==> events[j] != Packet(None)
  }

  lemma SuccessIsInBudget(o: Outcome, srcIp: string, dstIp: string, timeout: int, events: seq<Event>)
    requires IsOutcome(o, srcIp, dstIp, timeout, events) && o.Success?
    ensures InBudget(srcIp, dstIp, timeout, events, o.at)
  {
    HarmlessPrefix(srcIp, dstIp, timeout, events, o.at);
    assert forall j :: 0 <= j < o.at && events[j] == Packet(None) ==> !Harmless(srcIp, dstIp, timeout, events, j);
  }

  lemma {:induction false} HarmlessPrefix(srcIp: string, dstIp: string, timeout: int, events: seq<Event>, n: nat)
    requires n <= |events| && forall i :: 0 <= i < n ==> Harmless(srcIp, dstIp, timeout, events, i)
    ensures Silences(events[..n]) == 0 || Silences(events[..n]) <= timeout
    ensures Packets(events[..n]) <= MAX_PACKETS - 1
  {
    if n > 0 {
      HarmlessPrefix(srcIp, dstIp, timeout, events, n - 1);
      CountOneMore(events, n - 1);
      assert Harmless(srcIp, dstIp, timeout, events, n - 1);
    }
  }

  /** No event before an in-budget reply can end the run in anything but success. */
  lemma BeforeInBudget(srcIp: string, dstIp: string, timeout: int, events: seq<Event>, i: nat, j: nat)
    requires InBudget(srcIp, dstIp, timeout, events, i) && j < i
    ensures Matches(events[j], srcIp, dstIp) || Harmless(srcIp, dstIp, timeout, events, j)
  {
    CountsGrow(events, j + 1, i);
    CountOneMore(events, j);
  }

  /**
   * The run succeeds if and only if some matching reply is in budget: at most `timeout` silent steps in total
   * before it, at most 999 packets before it, solicitations free, and every packet before it ICMP over IP.
   */
  lemma SuccessIffInBudget(o: Outcome, srcIp: string, dstIp: string, timeout: int, events: seq<Event>)
    requires IsOutcome(o, srcIp, dstIp, timeout, events)
    ensures o.Success? <==> exists i :: InBudget(srcIp, dstIp, timeout, events, i)
  {
    if o.Success? {
      SuccessIsInBudget(o, srcIp, dstIp, timeout, events);
    }
    if i :| InBudget(srcIp, dstIp, timeout, events, i) {
      assert !Harmless(srcIp, dstIp, timeout, events, i);
      if !o.Running? && o.at < i {
        BeforeInBudget(srcIp, dstIp, timeout, events, i, o.at);
      }
    }
  }

  lemma OutcomeIsUnique(o: Outcome, p: Outcome, srcIp: string, dstIp: string, timeout: int, events: seq<Event>)
    requires IsOutcome(o, srcIp, dstIp, timeout, events) && IsOutcome(p, srcIp, dstIp, timeout, events)
    ensures o == p
  {
    assert !o.Running? ==> !Harmless(srcIp, dstIp, timeout, events, o.at);
    assert !p.Running? ==> !Harmless(srcIp, dstIp, timeout, events, p.at);
  }

  /** "It ignores all other packets" is not so: one packet without ICMP ends the run before the reply is read. */
  lemma OtherPacketsAreNotIgnored(srcIp: string, dstIp: string, timeout: int)
    ensures IsOutcome(LookupFailed(0), srcIp, dstIp, timeout,
                      [Packet(None), Packet(Some(Echo(ECHO_REPLY, dstIp, srcIp)))])
  {
  }
}
