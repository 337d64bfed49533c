/** `fmt_latency`: three rounded numbers and a histogram in one slash-separated text. */
module Latency {
  import opened Bytes

  /** Python's `round`: to the nearest integer, ties to the even one. */
  function Round(x: real): int
  {
    var low := x.Floor;
    var rest := x - low as real;
    if rest < 0.5 then low else if rest > 0.5 then low + 1 else if low % 2 == 0 then low else low + 1
  }

  /** Rounding moves a value by at most a half, by a half only to an even number, and keeps the order. */
  lemma RoundIsNearestEven(x: real, y: real)
    ensures -0.5 <= Round(x) as real - x <= 0.5
    ensures Round(x) as real - x in {-0.5, 0.5} ==> Round(x) % 2 == 0
    ensures x <= y ==> Round(x) <= Round(y)
  {
    if x <= y {
      assert x.Floor <= y.Floor;
    }
  }

  /** What `float` makes of a text; "nan" counts as no number, since rounding it raises the same error. */
  datatype Reading = Number(x: real) | Infinite | NoNumber

  /** One column: -1 when the text is no number. Rounding an infinity raises an error that is not caught. */
  function Column(latency: Reading): Option<int>
  {
    match latency
    case Number(x) => Some(Round(x))
    case Infinite => None
    case NoNumber => Some(-1)
  }

  function Digit(d: nat): char
    requires d < 10
  {
    ['0', '1', '2', '3', '4', '5', '6', '7', '8', '9'][d]
  }

  function Decimal(n: nat): (s: string)
    ensures s != []
  {
    if n < 10 then [Digit(n)] else Decimal(n / 10) + [Digit(n % 10)]
  }

  function Str(n: int): string { if n < 0 then "-" + Decimal(-n) else Decimal(n) }

  function Joined(min: int, avg: int, max: int, hdrh: string): string
  {
    Str(min) + "/" + (Str(avg) + "/" + (Str(max) + "/" + hdrh))
  }

  /** Nothing is returned when an infinity was read. */
  function FmtLatency(min: Reading, avg: Reading, max: Reading, hdrh: string): Option<string>
  {
    var a, b, c := Column(min), Column(avg), Column(max);
    if a.None? || b.None? || c.None? then None else Some(Joined(a.value, b.value, c.value, hdrh))
  }

  // ---------------------------------------------------------------------
  // A reader of the text
  // ---------------------------------------------------------------------

  function DigitValue(c: char): Option<nat>
  {
    if '0' <= c <= '9' then Some((c as int - '0' as int) as nat) else None
  }

  function ReadNat(s: string): Option<nat>
  {
    if s == [] then None
    else
      match DigitValue(s[|s| - 1])
      case None => None
      case Some(d) =>
        if |s| == 1 then Some(d)
        else
          match ReadNat(s[..|s| - 1])
          case None => None
          case Some(n) => Some(n * 10 + d)
  }

  function ReadInt(s: string): Option<int>
  {
    if s != [] && s[0] == '-' then
      match ReadNat(s[1..])
      case None => None
      case Some(n) => Some(0 - n as int)
    else
      match ReadNat(s)
      case None => None
      case Some(n) => Some(n)
  }

  /** The text before and after the first slash. */
  function Cut(s: string): Option<(string, string)>
  {
    if s == [] then None
    else if s[0] == '/' then Some(([], s[1..]))
    else
      match Cut(s[1..])
      case None => None
      case Some((before, after)) => Some(([s[0]] + before, after))
  }

  datatype Columns = Columns(min: int, avg: int, max: int, hdrh: string)

  function Read(s: string): Option<Columns>
  {
    var c1 := Cut(s);
    if c1.None? then None
    else
      var c2 := Cut(c1.value.1);
      if c2.None? then None
      else
        var c3 := Cut(c2.value.1);
        if c3.None? then None
        else
          var a, b, c := ReadInt(c1.value.0), ReadInt(c2.value.0), ReadInt(c3.value.0);
          if a.None? || b.None? || c.None? then None
          else Some(Columns(a.value, b.value, c.value, c3.value.1))
  }

  lemma {:induction false} DecimalReads(n: nat)
    ensures ReadNat(Decimal(n)) == Some(n)
    ensures forall i :: 0 <= i < |Decimal(n)| ==> '0' <= Decimal(n)[i] <= '9'
  {
    if n >= 10 {
      var s := Decimal(n);
      DecimalReads(n / 10);
      assert s[..|s| - 1] == Decimal(n / 10);
    }
  }

  lemma StrReads(n: int)
    ensures ReadInt(Str(n)) == Some(n) && '/' !in Str(n)
    ensures Str(n)[0] == '-' <==> n < 0
  {
    DecimalReads(if n < 0 then -n else n);
    if n < 0 {
      assert Str(n)[1..] == Decimal(-n);
    }
  }

  lemma {:induction false} CutAtFirst(before: string, after: string)
    requires '/' !in before
    ensures Cut(before + "/" + after) == Some((before, after))
  {
    var s := before + "/" + after;
    if before == [] {
      assert s[0] == '/' && s[1..] == after;
    } else {
      CutAtFirst(before[1..], after);
      assert s[1..] == before[1..] + "/" + after;
      assert before == [before[0]] + before[1..];
    }
  }

  lemma JoinedReads(min: int, avg: int, max: int, hdrh: string)
    ensures Read(Joined(min, avg, max, hdrh)) == Some(Columns(min, avg, max, hdrh))
  {
    StrReads(min);
    StrReads(avg);
    StrReads(max);
    var t3 := Str(max) + "/" + hdrh;
    var t2 := Str(avg) + "/" + t3;
    CutAtFirst(Str(max), hdrh);
    CutAtFirst(Str(avg), t3);
    CutAtFirst(Str(min), t2);
  }

  /**
   * Unless an infinity was read there is a text, and from it the three numbers and the histogram come back unchanged,
   * even when the histogram text contains slashes.
   */
  lemma LatencyRoundTrip(min: Reading, avg: Reading, max: Reading, hdrh: string)
    ensures FmtLatency(min, avg, max, hdrh).None? <==> Infinite in {min, avg, max}
    ensures FmtLatency(min, avg, max, hdrh).Some? ==>
              && Column(min).Some? && Column(avg).Some? && Column(max).Some?
              && Read(FmtLatency(min, avg, max, hdrh).value) ==
                 Some(Columns(Column(min).value, Column(avg).value, Column(max).value, hdrh))
  {
    var a, b, c := Column(min), Column(avg), Column(max);
    if a.Some? && b.Some? && c.Some? {
      JoinedReads(a.value, b.value, c.value, hdrh);
    }
  }

  /** What a printed number says of its latency: the nearest integer, ties to even, -1 for no number. */
  ghost predicate Shows(n: int, latency: Reading)
  {
    match latency
    case Number(x) =>
      && -0.5 <= n as real - x <= 0.5
      && (n as real - x in {-0.5, 0.5} ==> n % 2 == 0)
    case NoNumber => n == -1
    case Infinite => false
  }

  /** Reader and writer together: every column read back shows its latency. */
  lemma PrintedRounded(min: Reading, avg: Reading, max: Reading, hdrh: string)
    requires Infinite !in {min, avg, max}
    ensures FmtLatency(min, avg, max, hdrh).Some?
    ensures var c := Read(FmtLatency(min, avg, max, hdrh).value);
            c.Some? && Shows(c.value.min, min) && Shows(c.value.avg, avg) && Shows(c.value.max, max)
  {
    LatencyRoundTrip(min, avg, max, hdrh);
    ColumnShows(min);
    ColumnShows(avg);
    ColumnShows(max);
  }

  lemma ColumnShows(latency: Reading)
    requires !latency.Infinite?
    ensures Column(latency).Some? && Shows(Column(latency).value, latency)
  {
    if latency.Number? {
      RoundIsNearestEven(latency.x, latency.x);
    }
  }

  lemma ShownIsUnique(m: int, n: int, latency: Reading)
    requires Shows(m, latency) && Shows(n, latency)
    ensures m == n
  {
    if latency.Number? {
      assert -1.0 <= m as real - n as real <= 1.0;
    }
  }

  /** Measured values stay ordered as printed. */
  lemma PrintedInOrder(min: real, avg: real, max: real, hdrh: string)
    requires min <= avg <= max
    ensures var text := FmtLatency(Number(min), Number(avg), Number(max), hdrh);
            && text.Some? && Read(text.value).Some?
            && var c := Read(text.value).value;
               c.min <= c.avg <= c.max
  {
    LatencyRoundTrip(Number(min), Number(avg), Number(max), hdrh);
    RoundIsNearestEven(min, avg);
    RoundIsNearestEven(avg, max);
  }
}
