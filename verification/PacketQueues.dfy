/** `auto_pad`, the receive and transmit queues, and `Interface`: loop-back suppression. */
module PacketQueues {
  import opened Bytes

  const MIN_LENGTH_IPV4 := 64
  const MIN_LENGTH_IPV6 := 78

  type Wire = seq<Byte>

  /** What a packet object holds: fixed header bytes and the loads of its Raw and Padding layers, if any. */
  datatype Contents = Contents(isIPv6: bool, header: Wire, raw: Option<Wire>, padding: Option<Wire>)
  {
    function Bytes(): Wire
    {
      header + (if raw.Some? then raw.value else []) + (if padding.Some? then padding.value else [])
    }

    function MinLength(): nat { if isIPv6 then MIN_LENGTH_IPV6 else MIN_LENGTH_IPV4 }

    function Padded(): Contents
    {
      var missing := Zeros(MinLength() - |Bytes()|);
      if raw.Some? then this.(raw := Some(raw.value + missing))
      else if padding.Some? then this.(padding := Some(padding.value + missing))
      else this
    }

    /** What two packets are compared by. */
    function Key(): Wire { Padded().Bytes() }
  }

  /** Padding twice adds nothing, and a packet with somewhere to put the zeros reaches the minimum. */
  lemma PaddedIsNormal(c: Contents)
    ensures c.Padded().Padded() == c.Padded()
    ensures c.Padded().Key() == c.Key() == c.Padded().Bytes()
    ensures c.raw.Some? || c.padding.Some? ==> |c.Key()| == Max(|c.Bytes()|, c.MinLength())
    ensures c.raw.None? && c.padding.None? ==> c.Key() == c.Bytes()
    ensures c.raw.None? || c.padding.None? ==> c.Key() == c.Bytes() + Zeros(|c.Key()| - |c.Bytes()|)
  {
    var p := c.Padded();
    assert |p.Bytes()| >= c.MinLength() || (c.raw.None? && c.padding.None?);
    if c.raw.Some? {
      assert p.raw.value + [] == p.raw.value;
    } else if c.padding.Some? {
      assert p.padding.value + [] == p.padding.value;
    }
  }

  /** A load is filled up to 64 bytes, or 78 with IPv6, counted over the whole packet. */
  lemma PaddedTo(c: Contents)
    requires c.raw.Some? || c.padding.Some?
    ensures |c.Key()| == Max(|c.Bytes()|, if c.isIPv6 then 78 else 64)
    ensures c.raw.Some? ==> c.Padded().padding == c.padding
    ensures c.raw.None? ==> c.Padded().raw == None
  {
    PaddedIsNormal(c);
  }

  /** Bytes that are already the key need no padding. */
  lemma SameBytesSamePacket(c: Contents)
    requires c.Bytes() == c.Key()
    ensures c.Padded() == c
  {
    var missing := Zeros(c.MinLength() - |c.Bytes()|);
    assert |c.Key()| == |c.Bytes()| + if c.raw.Some? || c.padding.Some? then |missing| else 0;
    if c.raw.Some? {
      assert c.raw.value + missing == c.raw.value;
    } else if c.padding.Some? {
      assert c.padding.value + missing == c.padding.value;
    }
  }

  /** A packet object. `key` is the comparison key it was made with; only padding may happen to it since. */
  class Packet {
    const isIPv6: bool
    const header: Wire
    var raw: Option<Wire>
    var padding: Option<Wire>
    ghost const key: Wire

    ghost predicate Valid()
      reads this
    {
      View().Key() == key
    }

    ghost predicate IsPadded()
      reads this
    {
      View().Bytes() == key
    }

    constructor (isIPv6: bool, header: Wire, raw: Option<Wire>, padding: Option<Wire>)
      ensures Valid() && View() == Contents(isIPv6, header, raw, padding)
    {
      this.isIPv6, this.header, this.raw, this.padding := isIPv6, header, raw, padding;
      this.key := Contents(isIPv6, header, raw, padding).Key();
    }

    function View(): Contents
      reads this
    {
      Contents(isIPv6, header, raw, padding)
    }

    /** In place, as `packet[layer].load += ...` does. */
    method AutoPad() returns (bytes: Wire)
      requires Valid()
      modifies this
      ensures View() == old(View()).Padded()
      ensures Valid() && IsPadded() && bytes == View().Bytes() == key
      ensures old(IsPadded()) ==> unchanged(this)
    {
      PaddedIsNormal(View());
      if View().Bytes() == View().Key() { SameBytesSamePacket(View()); }
      var missing := Zeros(View().MinLength() - |View().Bytes()|);
      if raw.Some? {
        raw := Some(raw.value + missing);
      } else if padding.Some? {
        padding := Some(padding.value + missing);
      }
      bytes := View().Bytes();
    }
  }

  // ---------------------------------------------------------------------
  // What a receive call should return, given everything it could observe
  // ---------------------------------------------------------------------

  /** One turn of the loop: the clock, and the packet if the socket turned out to be readable. */
  datatype Poll = Poll(now: real, arrival: Option<Packet>)

  datatype Observation = Observation(now: real, key: Option<Wire>)

  datatype Outcome = TimedOut(at: nat) | Received(at: nat) | StillWaiting

  function Occurrences(seen: seq<Observation>, key: Wire): nat
  {
    if seen == [] then 0
    else Occurrences(seen[..|seen| - 1], key) + if seen[|seen| - 1].key == Some(key) then 1 else 0
  }

  /** Arrival `i` has now been seen more often than it was to be ignored. */
  ghost predicate Exceeds(seen: seq<Observation>, ignore: multiset<Wire>, i: nat)
    requires i < |seen|
  {
    seen[i].key.Some? && Occurrences(seen[..i + 1], seen[i].key.value) > ignore[seen[i].key.value]
  }

  ghost predicate PassedBy(seen: seq<Observation>, ignore: multiset<Wire>, deadline: real, i: nat)
    requires i < |seen|
  {
    seen[i].now < deadline && !Exceeds(seen, ignore, i)
  }

  /** The first poll past the deadline ends the call, unless an arrival in excess came before it. */
  ghost predicate IsOutcome(o: Outcome, seen: seq<Observation>, ignore: multiset<Wire>, deadline: real)
  {
    match o
    case TimedOut(at) =>
      && at < |seen| && seen[at].now >= deadline
      && forall i :: 0 <= i < at ==> PassedBy(seen, ignore, deadline, i)
    case Received(at) =>
      && at < |seen| && seen[at].now < deadline && Exceeds(seen, ignore, at)
      && forall i :: 0 <= i < at ==> PassedBy(seen, ignore, deadline, i)
    case StillWaiting =>
      forall i :: 0 <= i < |seen| ==> PassedBy(seen, ignore, deadline, i)
  }

  /** The description leaves no choice. */
  lemma OutcomeIsUnique(o: Outcome, p: Outcome, seen: seq<Observation>, ignore: multiset<Wire>, deadline: real)
    requires IsOutcome(o, seen, ignore, deadline) && IsOutcome(p, seen, ignore, deadline)
    ensures o == p
  {
    assert !o.StillWaiting? ==> !PassedBy(seen, ignore, deadline, o.at);
    assert !p.StillWaiting? ==> !PassedBy(seen, ignore, deadline, p.at);
  }

  ghost function Observe(polls: seq<Poll>): (seen: seq<Observation>)
    ensures |seen| == |polls|
  {
    seq(|polls|, i requires 0 <= i < |polls| =>
      Observation(polls[i].now, if polls[i].arrival.Some? then Some(polls[i].arrival.value.key) else None))
  }

  ghost function Arrivals(polls: seq<Poll>): set<Packet>
  {
    set p | p in polls && p.arrival.Some? :: p.arrival.value
  }

  ghost function Keys(pkts: seq<Packet>): (ks: seq<Wire>)
    ensures |ks| == |pkts|
  {
    seq(|pkts|, i requires 0 <= i < |pkts| => pkts[i].key)
  }

  ghost predicate AllValid(pkts: set<Packet>)
    reads pkts
  {
    forall p :: p in pkts ==> p.Valid()
  }

  /** All packets stay valid, and a packet that was already padded is not touched. */
  twostate predicate OnlyPadded(pkts: set<Packet>)
    reads pkts
  {
    forall p :: p in pkts ==> p.Valid() && (old(p.IsPadded()) ==> unchanged(p))
  }

  /** Python's `list.remove`: the first equal entry goes. */
  function RemoveFirst(s: seq<Wire>, w: Wire): (r: seq<Wire>)
    requires w in s
    ensures multiset(r) == multiset(s) - multiset{w}
  {
    if s[0] == w then
      assert s == [s[0]] + s[1..];
      s[1..]
    else
      assert s == [s[0]] + s[1..];
      [s[0]] + RemoveFirst(s[1..], w)
  }

  // ---------------------------------------------------------------------
  // The queues
  // ---------------------------------------------------------------------

  ghost function Elements(pkts: seq<Packet>): set<Packet> { set p | p in pkts }

  method PadOne(p: Packet, ghost all: set<Packet>) returns (bytes: Wire)
    requires p in all && AllValid(all)
    modifies p
    ensures OnlyPadded(all) && p.IsPadded() && bytes == p.key
  {
    bytes := p.AutoPad();
  }

  /** Pads every listed packet and returns the padded bytes: `[str(auto_pad(p)) for p in ignore]`. */
  method PadAll(pkts: seq<Packet>, ghost all: set<Packet>) returns (keys: seq<Wire>)
    requires Elements(pkts) <= all && AllValid(all)
    modifies pkts
    ensures keys == Keys(pkts)
    ensures OnlyPadded(all)
    ensures forall p :: p in pkts ==> p.IsPadded()
  {
    keys := [];
    for i := 0 to |pkts|
      invariant keys == Keys(pkts)[..i]
      invariant OnlyPadded(all)
      invariant forall p :: p in pkts[..i] ==> p.IsPadded()
    {
      var bytes := PadOne(pkts[i], all);
      keys := keys + [bytes];
      assert pkts[..i + 1] == pkts[..i] + [pkts[i]];
    }
    assert pkts[..|pkts|] == pkts;
  }

  /** Each entry of the ignore list is either still there or accounts for one arrival. */
  ghost predicate Accounts(seen: seq<Observation>, n: nat, remaining: multiset<Wire>, ignore: multiset<Wire>)
    requires n <= |seen|
  {
    forall w :: remaining[w] + Occurrences(seen[..n], w) == ignore[w]
  }

  lemma AccountsForOne(seen: seq<Observation>, n: nat, remaining: multiset<Wire>, ignore: multiset<Wire>)
    requires n < |seen| && Accounts(seen, n, remaining, ignore)
    ensures seen[n].key.None? ==> !Exceeds(seen, ignore, n) && Accounts(seen, n + 1, remaining, ignore)
    ensures seen[n].key.Some? ==> (Exceeds(seen, ignore, n) <==> seen[n].key.value !in remaining)
    ensures seen[n].key.Some? && seen[n].key.value in remaining ==>
              Accounts(seen, n + 1, remaining - multiset{seen[n].key.value}, ignore)
  {
    assert seen[..n + 1][..n] == seen[..n];
    forall w
      ensures Occurrences(seen[..n + 1], w) == Occurrences(seen[..n], w) + if seen[n].key == Some(w) then 1 else 0
    {
    }
  }

  /** One arrival: padded in place, then struck from the ignore list if it is there. */
  method Arrive(p: Packet, toIgnore: seq<Wire>, ghost all: set<Packet>) returns (ignored: bool, rest: seq<Wire>)
    requires p in all && AllValid(all)
    modifies p
    ensures OnlyPadded(all) && p.IsPadded()
    ensures ignored <==> p.key in toIgnore
    ensures multiset(rest) == multiset(toIgnore) - multiset{p.key}
  {
    var padded := PadOne(p, all);
    ignored := padded in toIgnore;
    rest := if ignored then RemoveFirst(toIgnore, padded) else toIgnore;
  }

  /** The scan from poll `i` on: its outcome and the ignore entries left over. */
  ghost function Scan(seen: seq<Observation>, remaining: multiset<Wire>, deadline: real, i: nat):
    (r: (Outcome, multiset<Wire>))
    requires i <= |seen|
    ensures !r.0.StillWaiting? ==> r.0.at < |seen|
    decreases |seen| - i
  {
    if i == |seen| then (StillWaiting, remaining)
    else if seen[i].now >= deadline then (TimedOut(i), remaining)
    else if seen[i].key.None? then Scan(seen, remaining, deadline, i + 1)
    else if seen[i].key.value !in remaining then (Received(i), remaining)
    else Scan(seen, remaining - multiset{seen[i].key.value}, deadline, i + 1)
  }

  lemma {:induction false} ScanFrom(seen: seq<Observation>, remaining: multiset<Wire>, ignore: multiset<Wire>,
                                    deadline: real, i: nat)
    requires i <= |seen| && Accounts(seen, i, remaining, ignore)
    requires forall j :: 0 <= j < i ==> PassedBy(seen, ignore, deadline, j)
    ensures var (o, left) := Scan(seen, remaining, deadline, i);
            && IsOutcome(o, seen, ignore, deadline)
            && Accounts(seen, if o.StillWaiting? then |seen| else o.at, left, ignore)
    decreases |seen| - i
  {
    if i < |seen| && seen[i].now < deadline {
      AccountsForOne(seen, i, remaining, ignore);
      if seen[i].key.None? {
        ScanFrom(seen, remaining, ignore, deadline, i + 1);
      } else if seen[i].key.value in remaining {
        ScanFrom(seen, remaining - multiset{seen[i].key.value}, ignore, deadline, i + 1);
      }
    }
  }

  /** Striking arrivals off a list one by one finds the first arrival in excess, and loses no entry. */
  lemma ScanIsOutcome(seen: seq<Observation>, ignore: multiset<Wire>, deadline: real)
    ensures var (o, left) := Scan(seen, ignore, deadline, 0);
            && IsOutcome(o, seen, ignore, deadline)
            && Accounts(seen, if o.StillWaiting? then |seen| else o.at, left, ignore)
  {
    ScanFrom(seen, ignore, ignore, deadline, 0);
  }

  lemma {:induction false} OccurrencesGrow(seen: seq<Observation>, n: nat, key: Wire)
    requires n <= |seen|
    ensures Occurrences(seen[..n], key) <= Occurrences(seen, key)
    decreases |seen| - n
  {
    if n == |seen| {
      assert seen[..n] == seen;
    } else {
      OccurrencesGrow(seen, n + 1, key);
      assert seen[..n + 1][..n] == seen[..n];
    }
  }

  /** What is returned is something that arrived more often than it was to be ignored, whatever else arrived. */
  lemma OnlyExcessSurfaces(seen: seq<Observation>, ignore: multiset<Wire>, deadline: real, o: Outcome)
    requires IsOutcome(o, seen, ignore, deadline) && o.Received?
    ensures seen[o.at].key.Some? && Occurrences(seen, seen[o.at].key.value) > ignore[seen[o.at].key.value]
  {
    OccurrencesGrow(seen, o.at + 1, seen[o.at].key.value);
  }

  /** The loop of `RxQueue.recv`; `polls` is what the clock and the socket deliver, in order. */
  method Listen(timeEnd: real, ignore: seq<Wire>, polls: seq<Poll>, ghost all: set<Packet>)
    returns (o: Outcome, pkt: Option<Packet>, ghost remaining: multiset<Wire>)
    requires Arrivals(polls) <= all && AllValid(all)
    modifies Arrivals(polls)
    ensures var scan := Scan(Observe(polls), multiset(ignore), timeEnd, 0); o == scan.0 && remaining == scan.1
    ensures pkt == if o.Received? then polls[o.at].arrival else None
    ensures pkt.Some? ==> pkt.value.IsPadded()
    ensures OnlyPadded(all)
  {
    ghost var seen := Observe(polls);
    var toIgnore := ignore;
    for i := 0 to |polls|
      invariant Scan(seen, multiset(ignore), timeEnd, 0) == Scan(seen, multiset(toIgnore), timeEnd, i)
      invariant OnlyPadded(all)
    {
      if polls[i].now >= timeEnd {
        return TimedOut(i), None, multiset(toIgnore);
      }
      if polls[i].arrival.Some? {
        var p := polls[i].arrival.value;
        assert p in all && seen[i].key == Some(p.key);
        var ignored, rest := Arrive(p, toIgnore, all);
        if !ignored {
          return Received(i), Some(p), multiset(toIgnore);
        }
        toIgnore := rest;
      }
    }
    return StillWaiting, None, multiset(toIgnore);
  }

  /** `RxQueue.recv`: the deadline is fixed at the start and the ignore list is copied, padded, as bytes. */
  method Recv(start: real, timeout: real, ignore: Option<seq<Packet>>, polls: seq<Poll>, ghost all: set<Packet>)
    returns (o: Outcome, pkt: Option<Packet>, ghost remaining: multiset<Wire>)
    requires (ignore.Some? ==> Elements(ignore.value) <= all) && Arrivals(polls) <= all && AllValid(all)
    modifies if ignore.Some? then Elements(ignore.value) else {}, Arrivals(polls)
    ensures var initial := multiset(Keys(if ignore.Some? then ignore.value else []));
            && IsOutcome(o, Observe(polls), initial, start + timeout)
            && Accounts(Observe(polls), if o.StillWaiting? then |polls| else o.at, remaining, initial)
    ensures pkt == if o.Received? then polls[o.at].arrival else None
    ensures pkt.Some? ==> pkt.value.IsPadded()
    ensures OnlyPadded(all)
  {
    var timeEnd := start + timeout;
    var given := if ignore.Some? then ignore.value else [];
    var toIgnore := PadAll(given, all);
    o, pkt, remaining := Listen(timeEnd, toIgnore, polls, all);
    ScanIsOutcome(Observe(polls), multiset(toIgnore), timeEnd);
  }

  /** `TxQueue.send`: the caller's own object is padded, and its padded bytes go on the wire. */
  method Send(pkt: Packet) returns (wire: Wire)
    requires pkt.Valid()
    modifies pkt
    ensures wire == pkt.key && pkt.View() == old(pkt.View()).Padded()
    ensures OnlyPadded({pkt}) && pkt.IsPadded()
  {
    wire := pkt.AutoPad();
  }

  class Interface {
    var sentPackets: seq<Packet>

    /** Everything in the list was padded when it was sent. */
    ghost predicate Valid()
      reads this, sentPackets
    {
      forall p :: p in sentPackets ==> p.Valid() && p.IsPadded()
    }

    constructor ()
      ensures Valid() && sentPackets == []
    {
      sentPackets := [];
    }

    method SendPkt(pkt: Packet, ghost all: set<Packet>) returns (wire: Wire)
      requires Valid() && pkt in all && AllValid(all)
      modifies this, pkt
      ensures Valid() && sentPackets == old(sentPackets) + [pkt]
      ensures wire == pkt.key
      ensures OnlyPadded(all)
    {
      sentPackets := sentPackets + [pkt];
      wire := Send(pkt);
    }

    method RecvPkt(start: real, timeout: real, polls: seq<Poll>, ghost all: set<Packet>)
      returns (o: Outcome, pkt: Option<Packet>)
      requires Valid() && Elements(sentPackets) <= all && Arrivals(polls) <= all && AllValid(all)
      modifies sentPackets, Arrivals(polls)
      ensures Valid() && sentPackets == old(sentPackets)
      ensures forall p :: p in sentPackets ==> p.View() == old(p.View())
      ensures IsOutcome(o, Observe(polls), multiset(Keys(sentPackets)), start + timeout)
      ensures pkt == if o.Received? then polls[o.at].arrival else None
      ensures OnlyPadded(all)
    {
      ghost var remaining;
      o, pkt, remaining := Recv(start, timeout, Some(sentPackets), polls, all);
      assert forall p :: p in sentPackets ==> p in all;
    }
  }

  // ---------------------------------------------------------------------
  // Whole runs of one interface
  // ---------------------------------------------------------------------

  datatype Action = Transmit(pkt: Packet) | Receive(start: real, timeout: real, polls: seq<Poll>)

  datatype Effect = Sent(wire: Wire) | Got(outcome: Outcome)

  ghost function TouchedBy(a: Action): set<Packet>
  {
    if a.Transmit? then {a.pkt} else Arrivals(a.polls)
  }

  ghost function SentBy(a: Action): seq<Packet> { if a.Transmit? then [a.pkt] else [] }

  ghost function Touched(actions: seq<Action>): set<Packet>
  {
    set a, p | a in actions && p in TouchedBy(a) :: p
  }

  ghost function Sends(actions: seq<Action>): (pkts: seq<Packet>)
  {
    if actions == [] then [] else Sends(actions[..|actions| - 1]) + SentBy(actions[|actions| - 1])
  }

  lemma {:induction false} SendsAreTouched(actions: seq<Action>)
    ensures Elements(Sends(actions)) <= Touched(actions)
  {
    if actions != [] {
      var front, last := actions[..|actions| - 1], actions[|actions| - 1];
      SendsAreTouched(front);
      assert Touched(front) <= Touched(actions);
      assert Elements(SentBy(last)) <= TouchedBy(last) <= Touched(actions);
    }
  }

  /** What an action should do, given the packets sent before it. */
  ghost predicate EffectOf(action: Action, sentBefore: seq<Packet>, effect: Effect)
  {
    match action
    case Transmit(pkt) => effect == Sent(pkt.key)
    case Receive(start, timeout, polls) =>
      effect.Got? && IsOutcome(effect.outcome, Observe(polls), multiset(Keys(sentBefore)), start + timeout)
  }

  /** Every action of a run did what it should after the actions before it. */
  ghost predicate EffectsOf(actions: seq<Action>, effects: seq<Effect>)
  {
    && |effects| == |actions|
    && (actions != [] ==>
          var n := |actions| - 1;
          EffectsOf(actions[..n], effects[..n]) && EffectOf(actions[n], Sends(actions[..n]), effects[n]))
  }

  lemma {:induction false} EffectAt(actions: seq<Action>, effects: seq<Effect>, i: nat)
    requires EffectsOf(actions, effects) && i < |actions|
    ensures EffectOf(actions[i], Sends(actions[..i]), effects[i])
  {
    var n := |actions| - 1;
    if i < n {
      EffectAt(actions[..n], effects[..n], i);
      assert actions[..n][..i] == actions[..i];
    }
  }

  method Act(iface: Interface, action: Action, ghost all: set<Packet>) returns (effect: Effect)
    requires iface.Valid() && Elements(iface.sentPackets) <= all && TouchedBy(action) <= all && AllValid(all)
    modifies iface, all
    ensures iface.Valid() && AllValid(all)
    ensures iface.sentPackets == old(iface.sentPackets) + SentBy(action)
    ensures EffectOf(action, old(iface.sentPackets), effect)
  {
    match action
    case Transmit(pkt) =>
      var wire := iface.SendPkt(pkt, all);
      effect := Sent(wire);
    case Receive(start, timeout, polls) =>
      var o, got := iface.RecvPkt(start, timeout, polls, all);
      effect := Got(o);
  }

  /**
   * Any interleaving of sends and receives: every receive suppresses exactly the frames sent before it,
   * each up to the number of times it was sent, and no receive uses up what a later one may suppress.
   */
  method Run(iface: Interface, actions: seq<Action>) returns (effects: seq<Effect>)
    requires iface.sentPackets == [] && AllValid(Touched(actions))
    modifies iface, Touched(actions)
    ensures iface.Valid() && iface.sentPackets == Sends(actions)
    ensures EffectsOf(actions, effects)
  {
    effects := [];
    ghost var all := Touched(actions);
    for n := 0 to |actions|
      invariant iface.Valid() && iface.sentPackets == Sends(actions[..n])
      invariant AllValid(all)
      invariant EffectsOf(actions[..n], effects)
    {
      SendsAreTouched(actions[..n]);
      assert Touched(actions[..n]) <= all;
      var effect := Act(iface, actions[n], all);
      assert actions[..n + 1][..n] == actions[..n];
      assert (effects + [effect])[..n] == effects;
      effects := effects + [effect];
    }
    assert actions[..|actions|] == actions;
  }
}
