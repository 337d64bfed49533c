/** From the bytes on the wire back to the key of a frame: which own frames `recv` recognises when they return. */
module Loopback {
  import opened Bytes
  import opened PacketQueues

  /** What travels when these bytes are sent. */
  function OnWire(sent: Wire): Wire { sent + Zeros(MIN_FRAME - |sent|) }

  predicate HasLoad(c: Contents) { c.raw.Some? || c.padding.Some? }

  /** `d` is what the sender's own interface hears when `c` was sent; the dissection of its bytes is free otherwise. */
  ghost predicate ComesBackAs(c: Contents, d: Contents)
  {
    d.isIPv6 == c.isIPv6 && d.Bytes() == OnWire(c.Key())
  }

  /** Keys have the length of their packet, or the minimal one if there is a load to extend. */
  lemma KeyLength(c: Contents)
    ensures |c.Key()| == if HasLoad(c) then Max(|c.Bytes()|, c.MinLength()) else |c.Bytes()|
    ensures |c.Key()| == |c.Bytes()| ==> c.Key() == c.Bytes()
  {
    PaddedIsNormal(c);
    if |c.Key()| == |c.Bytes()| {
      var missing := Zeros(c.MinLength() - |c.Bytes()|);
      assert HasLoad(c) ==> missing == [];
      assert c.raw.Some? ==> c.raw.value + missing == c.raw.value;
      assert c.padding.Some? ==> c.padding.value + missing == c.padding.value;
    }
  }

  /**
   * A frame that comes back has the key of the packet sent if and only if nothing is added to it on its way or on its
   * arrival. That is always so when the packet sent had a load.
   */
  lemma RecognisedIff(c: Contents, d: Contents)
    requires ComesBackAs(c, d)
    ensures d.Key() == c.Key() <==> |c.Key()| >= MIN_FRAME && (!HasLoad(d) || |c.Key()| >= d.MinLength())
    ensures HasLoad(c) ==> d.Key() == c.Key() == d.Bytes()
  {
    KeyLength(c);
    KeyLength(d);
    if |c.Key()| >= MIN_FRAME {
      assert OnWire(c.Key()) == c.Key();
    }
  }

  /**
   * As the sender can tell: however its frame is dissected on return, it is recognised if and only if it is long
   * enough.
   */
  lemma AlwaysRecognisedIff(c: Contents)
    ensures (forall d :: ComesBackAs(c, d) ==> d.Key() == c.Key()) <==> |c.Key()| >= c.MinLength()
  {
    forall d | ComesBackAs(c, d) && |c.Key()| >= c.MinLength() ensures d.Key() == c.Key() {
      RecognisedIff(c, d);
    }
    if |c.Key()| < c.MinLength() {
      var d := Contents(c.isIPv6, OnWire(c.Key()), None, Some([]));
      assert d.Bytes() == OnWire(c.Key());
      RecognisedIff(c, d);
    }
  }

  // ---------------------------------------------------------------------
  // Suppression in terms of frames
  // ---------------------------------------------------------------------

  datatype Arrival = Arrival(now: real, frame: Option<Contents>)

  ghost function KeysOf(sent: seq<Contents>): (ks: seq<Wire>)
    ensures |ks| == |sent|
  {
    seq(|sent|, i requires 0 <= i < |sent| => sent[i].Key())
  }

  ghost function SeenOf(arrivals: seq<Arrival>): seq<Observation>
  {
    if arrivals == [] then []
    else
      var a := arrivals[|arrivals| - 1];
      SeenOf(arrivals[..|arrivals| - 1])
      + [Observation(a.now, if a.frame.Some? then Some(a.frame.value.Key()) else None)]
  }

  /** How often these very bytes arrive. */
  ghost function Deliveries(arrivals: seq<Arrival>, w: Wire): nat
  {
    if arrivals == [] then 0
    else
      var a := arrivals[|arrivals| - 1];
      Deliveries(arrivals[..|arrivals| - 1], w) + if a.frame.Some? && a.frame.value.Bytes() == w then 1 else 0
  }

  ghost predicate Own(sent: seq<Contents>, a: Arrival)
  {
    a.frame.Some? ==> exists i :: 0 <= i < |sent| && ComesBackAs(sent[i], a.frame.value)
  }

  /** A packet that is not like any of those sent. */
  ghost predicate Foreign(sent: seq<Contents>, a: Arrival)
  {
    a.frame.Some? && a.frame.value.Key() !in KeysOf(sent)
  }

  /** Own frames, up to the number of times they were sent, among frames of others. */
  ghost predicate Loops(sent: seq<Contents>, arrivals: seq<Arrival>)
  {
    && (forall c :: c in sent ==> HasLoad(c))
    && (forall a :: a in arrivals ==> Own(sent, a) || Foreign(sent, a))
    && (forall w :: w in KeysOf(sent) ==> Deliveries(arrivals, w) <= multiset(KeysOf(sent))[w])
  }

  /** An own frame has its bytes for a key; a foreign one has no key that was sent. */
  lemma {:induction false} OccurrencesAreDeliveries(sent: seq<Contents>, arrivals: seq<Arrival>, w: Wire)
    requires w in KeysOf(sent) && forall c :: c in sent ==> HasLoad(c)
    requires forall a :: a in arrivals ==> Own(sent, a) || Foreign(sent, a)
    ensures Occurrences(SeenOf(arrivals), w) <= Deliveries(arrivals, w)
  {
    if arrivals != [] {
      var n := |arrivals| - 1;
      var a := arrivals[n];
      OccurrencesAreDeliveries(sent, arrivals[..n], w);
      assert a in arrivals;
      if a.frame.Some? && !Foreign(sent, a) {
        var i :| 0 <= i < |sent| && ComesBackAs(sent[i], a.frame.value);
        assert sent[i] in sent;
        RecognisedIff(sent[i], a.frame.value);
      }
      var seen := SeenOf(arrivals);
      assert seen[..|seen| - 1] == SeenOf(arrivals[..n]);
    }
  }

  lemma {:induction false} SeenAt(arrivals: seq<Arrival>, i: nat)
    requires i < |arrivals|
    ensures |SeenOf(arrivals)| == |arrivals|
    ensures var a := arrivals[i];
            SeenOf(arrivals)[i] == Observation(a.now, if a.frame.Some? then Some(a.frame.value.Key()) else None)
    decreases |arrivals|
  {
    var n := |arrivals| - 1;
    if n > 0 {
      SeenAt(arrivals[..n], if i < n then i else 0);
    }
  }

  lemma {:induction false} OccursAt(seen: seq<Observation>, i: nat, key: Wire)
    requires i < |seen| && seen[i].key == Some(key)
    ensures Occurrences(seen[..i + 1], key) >= 1
  {
    assert seen[..i + 1][i] == seen[i];
  }

  /** Exactly the foreign frames are in excess. */
  lemma {:induction false} ExceedsIffForeign(sent: seq<Contents>, arrivals: seq<Arrival>, i: nat)
    requires Loops(sent, arrivals) && i < |arrivals|
    ensures |SeenOf(arrivals)| == |arrivals|
    ensures Exceeds(SeenOf(arrivals), multiset(KeysOf(sent)), i) <==> Foreign(sent, arrivals[i])
  {
    SeenAt(arrivals, i);
    var seen, a := SeenOf(arrivals), arrivals[i];
    if a.frame.Some? {
      var w := a.frame.value.Key();
      if Foreign(sent, a) {
        OccursAt(seen, i, w);
        assert multiset(KeysOf(sent))[w] == 0;
      } else {
        OccurrencesGrow(seen, i + 1, w);
        OccurrencesAreDeliveries(sent, arrivals, w);
      }
    }
  }

  /** The first foreign frame, arriving in time. */
  ghost predicate FirstForeign(sent: seq<Contents>, arrivals: seq<Arrival>, deadline: real, i: nat)
  {
    && i < |arrivals| && Foreign(sent, arrivals[i]) && arrivals[i].now < deadline
    && forall j :: 0 <= j < i ==> arrivals[j].now < deadline && !Foreign(sent, arrivals[j])
  }

  /** A receive returns the first arrival in excess, in terms of which arrivals are in excess. */
  lemma {:induction false} FirstInExcess(seen: seq<Observation>, ignore: multiset<Wire>, deadline: real, o: Outcome,
                                         excess: seq<bool>, i: nat)
    requires |excess| == |seen| && forall j: nat :: j < |seen| ==> (Exceeds(seen, ignore, j) <==> excess[j])
    requires IsOutcome(o, seen, ignore, deadline)
    ensures o == Received(i) <==>
            && i < |seen| && excess[i] && seen[i].now < deadline
            && forall j :: 0 <= j < i ==> seen[j].now < deadline && !excess[j]
  {
    if i < |seen| && excess[i] && seen[i].now < deadline
       && forall j :: 0 <= j < i ==> seen[j].now < deadline && !excess[j] {
      forall j: nat | j < i ensures PassedBy(seen, ignore, deadline, j) {
        assert !excess[j];
      }
      assert IsOutcome(Received(i), seen, ignore, deadline);
      OutcomeIsUnique(o, Received(i), seen, ignore, deadline);
    }
    if o == Received(i) {
      assert Exceeds(seen, ignore, i);
      forall j: nat | j < i ensures seen[j].now < deadline && !excess[j] {
        assert PassedBy(seen, ignore, deadline, j);
      }
    }
  }

  lemma {:induction false} SeenLength(arrivals: seq<Arrival>)
    ensures |SeenOf(arrivals)| == |arrivals|
  {
    if arrivals != [] {
      SeenAt(arrivals, 0);
    }
  }

  /** Among any frames of others, `recv` returns the first of these, and never one of its own. */
  lemma {:induction false} LoopbackIsSuppressed(sent: seq<Contents>, arrivals: seq<Arrival>, deadline: real, o: Outcome,
                                                i: nat)
    requires Loops(sent, arrivals) && IsOutcome(o, SeenOf(arrivals), multiset(KeysOf(sent)), deadline)
    ensures o == Received(i) <==> FirstForeign(sent, arrivals, deadline, i)
  {
    var seen, ignore := SeenOf(arrivals), multiset(KeysOf(sent));
    SeenLength(arrivals);
    var excess := ForeignOnes(sent, arrivals);
    forall j: nat | j < |seen|
      ensures seen[j].now == arrivals[j].now && (Exceeds(seen, ignore, j) <==> excess[j])
    {
      SeenAt(arrivals, j);
      ExceedsIffForeign(sent, arrivals, j);
    }
    FirstInExcess(seen, ignore, deadline, o, excess, i);
  }

  lemma {:induction false} ForeignOnes(sent: seq<Contents>, arrivals: seq<Arrival>) returns (foreign: seq<bool>)
    ensures |foreign| == |arrivals| && forall j :: 0 <= j < |arrivals| ==> (foreign[j] <==> Foreign(sent, arrivals[j]))
  {
    foreign := seq(|arrivals|, j requires 0 <= j < |arrivals| => Foreign(sent, arrivals[j]));
  }

  // ---------------------------------------------------------------------
  // ... and over whole runs
  // ---------------------------------------------------------------------

  /** The packet objects, padded since or not, were made from these contents. */
  ghost predicate MadeFrom(pkts: seq<Packet>, contents: seq<Contents>)
  {
    |pkts| == |contents| && forall i :: 0 <= i < |pkts| ==> pkts[i].key == contents[i].Key()
  }

  ghost predicate Delivered(polls: seq<Poll>, arrivals: seq<Arrival>)
  {
    && |polls| == |arrivals|
    && forall i :: 0 <= i < |polls| ==>
         && polls[i].now == arrivals[i].now && polls[i].arrival.Some? == arrivals[i].frame.Some?
         && (polls[i].arrival.Some? ==> polls[i].arrival.value.key == arrivals[i].frame.value.Key())
  }

  lemma {:induction false} ObservedIsSeen(polls: seq<Poll>, arrivals: seq<Arrival>)
    requires Delivered(polls, arrivals)
    ensures Observe(polls) == SeenOf(arrivals)
  {
    if polls != [] {
      SeenAt(arrivals, 0);
    }
    forall i | 0 <= i < |polls| ensures Observe(polls)[i] == SeenOf(arrivals)[i] {
      SeenAt(arrivals, i);
    }
  }

  /** In any run of sends and receives, every receive returns the first foreign frame that arrives in time, if any. */
  lemma {:induction false} RunSuppressesLoopback(actions: seq<Action>, effects: seq<Effect>, k: nat,
                                                 sent: seq<Contents>, arrivals: seq<Arrival>, i: nat)
    requires EffectsOf(actions, effects) && k < |actions| && actions[k].Receive?
    requires MadeFrom(Sends(actions[..k]), sent) && Delivered(actions[k].polls, arrivals) && Loops(sent, arrivals)
    ensures var deadline := actions[k].start + actions[k].timeout;
            effects[k].Got? && (effects[k].outcome == Received(i) <==> FirstForeign(sent, arrivals, deadline, i))
  {
    EffectAt(actions, effects, k);
    ObservedIsSeen(actions[k].polls, arrivals);
    assert Keys(Sends(actions[..k])) == KeysOf(sent);
    var a := actions[k];
    LoopbackIsSuppressed(sent, arrivals, a.start + a.timeout, effects[k].outcome, i);
  }

  /**
   * Without a load it can fail: a gratuitous ARP request of 42 bytes comes back as 60, the rest a padding layer, which
   * is padded once more. The frame is not recognised and is returned to the caller.
   */
  lemma ShortRequestSurfaces(request: Wire, now: real, deadline: real)
    requires |request| == 42 && now < deadline
    ensures var c := Contents(false, request, None, None);
            var d := Contents(false, request, None, Some(Zeros(MIN_FRAME - 42)));
            && ComesBackAs(c, d) && d.Key() != c.Key()
            && IsOutcome(Received(0), SeenOf([Arrival(now, Some(d))]), multiset{c.Key()}, deadline)
  {
    var c := Contents(false, request, None, None);
    var d := Contents(false, request, None, Some(Zeros(MIN_FRAME - 42)));
    KeyLength(c);
    KeyLength(d);
    assert c.Bytes() == request;
    assert d.Bytes() == OnWire(c.Key());
    var arrivals := [Arrival(now, Some(d))];
    assert arrivals[..0] == [];
    var seen := SeenOf(arrivals);
    assert seen == SeenOf([]) + [Observation(now, Some(d.Key()))];
    assert seen[..1] == seen && seen[..0] == [];
    assert Occurrences(seen, d.Key()) == 1;
  }
}
