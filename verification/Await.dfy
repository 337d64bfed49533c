/** The receive loop that the protocol scripts share: skip neighbour solicitations, fail on silence. */
module Await {
  import opened Bytes

  /** `Unfinished`: the receive results listed so far do not decide the wait. */
  datatype Awaited<+P> = Got(packet: P) | RxTimeout | Unfinished

  /** Independent description: result number `i` is the first that is not a solicitation. */
  ghost predicate FirstOther<P(!new)>(results: seq<Option<P>>, isSolicitation: P -> bool, i: int)
  {
    && 0 <= i < |results|
    && (results[i].Some? ==> !isSolicitation(results[i].value))
    && forall j :: 0 <= j < i ==> results[j].Some? && isSolicitation(results[j].value)
  }

  function AwaitOther<P>(results: seq<Option<P>>, isSolicitation: P -> bool): (r: Awaited<P>)
  {
    if results == [] then Unfinished
    else if results[0].None? then RxTimeout
    else if isSolicitation(results[0].value) then AwaitOther(results[1..], isSolicitation)
    else Got(results[0].value)
  }

  lemma {:induction false} AwaitsFirstOther<P(!new)>(results: seq<Option<P>>, isSolicitation: P -> bool)
    ensures var r := AwaitOther(results, isSolicitation);
            match r
            case Got(p) => exists i :: FirstOther(results, isSolicitation, i) && results[i] == Some(p)
            case RxTimeout => exists i :: FirstOther(results, isSolicitation, i) && results[i].None?
            case Unfinished => forall i :: !FirstOther(results, isSolicitation, i)
  {
    if results != [] {
      if results[0].Some? && isSolicitation(results[0].value) {
        var rest := results[1..];
        AwaitsFirstOther(rest, isSolicitation);
        forall i | FirstOther(rest, isSolicitation, i) ensures FirstOther(results, isSolicitation, i + 1) {
        }
        forall i | FirstOther(results, isSolicitation, i) ensures i > 0 && FirstOther(rest, isSolicitation, i - 1) {
          assert forall j :: 0 <= j < i - 1 ==> rest[j] == results[j + 1];
        }
        if !AwaitOther(rest, isSolicitation).Unfinished? {
          var i :| FirstOther(rest, isSolicitation, i) &&
                   rest[i] == (match AwaitOther(rest, isSolicitation) case Got(p) => Some(p) case _ => None);
          assert results[i + 1] == rest[i];
        }
      } else {
        assert FirstOther(results, isSolicitation, 0);
      }
    }
  }

  /** The `while True` loop itself. */
  method AwaitPacket<P>(results: seq<Option<P>>, isSolicitation: P -> bool) returns (r: Awaited<P>)
    ensures r == AwaitOther(results, isSolicitation)
  {
    for i := 0 to |results|
      invariant AwaitOther(results, isSolicitation) == AwaitOther(results[i..], isSolicitation)
    {
      if results[i].None? {
        return RxTimeout;
      }
      if !isSolicitation(results[i].value) {
        return Got(results[i].value);
      }
      assert results[i..][1..] == results[i + 1..];
    }
    return Unfinished;
  }

  /** Any number of solicitations in front changes nothing. */
  lemma {:induction false} SolicitationsIrrelevant<P>(noise: seq<Option<P>>, rest: seq<Option<P>>,
                                                      isSolicitation: P -> bool)
    requires forall i :: 0 <= i < |noise| ==> noise[i].Some? && isSolicitation(noise[i].value)
    ensures AwaitOther(noise + rest, isSolicitation) == AwaitOther(rest, isSolicitation)
  {
    if noise == [] {
      assert noise + rest == rest;
    } else {
      SolicitationsIrrelevant(noise[1..], rest, isSolicitation);
      assert (noise + rest)[1..] == noise[1..] + rest;
    }
  }
}
