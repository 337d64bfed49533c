/** `checksum_equal` and the one's-complement sums it compares. */
module Checksum {

  const NEGATIVE_ZERO := 0xFFFF

  type Word = w: int | 0 <= w <= 0xFFFF

  predicate ChecksumEqual(chksum1: Word, chksum2: Word)
  {
    var c1 := if chksum1 == NEGATIVE_ZERO then 0 else chksum1;
    var c2 := if chksum2 == NEGATIVE_ZERO then 0 else chksum2;
    c1 == c2
  }

  /** Equality of checksums is congruence modulo 0xFFFF, the two zeros being one residue. */
  lemma EqualIffCongruent(a: Word, b: Word)
    ensures ChecksumEqual(a, b) <==> (a - b) % 0xFFFF == 0
  {
    Residue(a, b);
  }

  lemma Residue(a: int, b: int)
    ensures (a - b) % 0xFFFF == 0 <==> a % 0xFFFF == b % 0xFFFF
  {
    if a % 0xFFFF == b % 0xFFFF {
      assert a - b == (a / 0xFFFF - b / 0xFFFF) * 0xFFFF;
    }
    if (a - b) % 0xFFFF == 0 {
      assert a == b + (a - b) / 0xFFFF * 0xFFFF;
    }
  }

  /** Addition with end-around carry (section 2 of RFC 1071). */
  function Add(a: Word, b: Word): (s: Word)
  {
    var raw := a as int + b as int;
    if raw > 0xFFFF then raw - 0x1_0000 + 1 else raw
  }

  function Complement(a: Word): (c: Word)
  {
    0xFFFF - a
  }

  /** A way to add up words: any association, hence also sums of separately summed parts. */
  datatype Sum = Leaf(word: Word) | Plus(left: Sum, right: Sum)
  {
    function Words(): seq<Word>
    {
      match this
      case Leaf(w) => [w]
      case Plus(l, r) => l.Words() + r.Words()
    }

    function Total(): Word
    {
      match this
      case Leaf(w) => w
      case Plus(l, r) => Add(l.Total(), r.Total())
    }
  }

  ghost function IntegerTotal(ws: seq<Word>): (n: nat)
  {
    if ws == [] then 0 else ws[0] + IntegerTotal(ws[1..])
  }

  lemma {:induction false} IntegerTotalConcat(a: seq<Word>, b: seq<Word>)
    ensures IntegerTotal(a + b) == IntegerTotal(a) + IntegerTotal(b)
  {
    if a == [] {
      assert a + b == b;
    } else {
      assert (a + b)[1..] == a[1..] + b;
      IntegerTotalConcat(a[1..], b);
    }
  }

  /** The 16-bit representative an end-around sum settles on: +0 only for zero itself. */
  function Representative(n: nat): (w: Word)
  {
    if n == 0 then 0 else (n - 1) % 0xFFFF + 1
  }

  lemma AddRepresentatives(m: nat, n: nat)
    ensures Add(Representative(m), Representative(n)) == Representative(m + n)
  {
    if m > 0 && n > 0 {
      var a, b := (m - 1) % 0xFFFF, (n - 1) % 0xFFFF;
      var q := (m - 1) / 0xFFFF + (n - 1) / 0xFFFF;
      assert m + n - 1 == (a + b + 1) + q * 0xFFFF;
      if a + b + 1 < 0xFFFF {
        Remainder(m + n - 1, q, a + b + 1);
      } else {
        Remainder(m + n - 1, q + 1, a + b + 1 - 0xFFFF);
      }
    }
  }

  lemma Remainder(n: int, q: int, r: int)
    requires n == r + q * 0xFFFF && 0 <= r < 0xFFFF
    ensures n % 0xFFFF == r
  {
  }

  lemma LeafTotal(w: Word)
    ensures IntegerTotal([w]) == w && Representative(w) == w
  {
    assert [w][1..] == [];
  }

  /** Whatever the grouping, the total is the representative of the integer total. */
  lemma {:induction false} TotalIsRepresentative(t: Sum)
    ensures t.Total() == Representative(IntegerTotal(t.Words()))
  {
    match t
    case Leaf(w) => LeafTotal(w);
    case Plus(l, r) =>
      TotalIsRepresentative(l);
      TotalIsRepresentative(r);
      IntegerTotalConcat(l.Words(), r.Words());
      AddRepresentatives(IntegerTotal(l.Words()), IntegerTotal(r.Words()));
  }

  function Without(s: seq<Word>, i: nat): seq<Word>
    requires i < |s|
  {
    s[..i] + s[i + 1..]
  }

  lemma {:induction false} WithoutTotal(s: seq<Word>, i: nat)
    requires i < |s|
    ensures IntegerTotal(Without(s, i)) == IntegerTotal(s) - s[i]
    decreases i
  {
    if i == 0 {
      assert Without(s, i) == s[1..];
    } else {
      WithoutTotal(s[1..], i - 1);
      assert Without(s, i)[1..] == Without(s[1..], i - 1);
    }
  }

  lemma WithoutMultiset(s: seq<Word>, i: nat)
    requires i < |s|
    ensures multiset(Without(s, i)) == multiset(s) - multiset{s[i]}
  {
    assert s == s[..i] + [s[i]] + s[i + 1..];
  }

  /** Reordering does not change the integer total. */
  lemma {:induction false} IntegerTotalPermuted(a: seq<Word>, b: seq<Word>)
    requires multiset(a) == multiset(b)
    ensures IntegerTotal(a) == IntegerTotal(b)
    decreases |a|
  {
    assert |a| == |multiset(a)| == |b|;
    if a != [] {
      assert a[0] in multiset(b);
      var i :| 0 <= i < |b| && b[i] == a[0];
      WithoutMultiset(a, 0);
      WithoutMultiset(b, i);
      WithoutTotal(b, i);
      assert Without(a, 0) == a[1..];
      IntegerTotalPermuted(a[1..], Without(b, i));
    }
  }

  function InternetChecksum(t: Sum): Word { Complement(t.Total()) }

  /** The checksum of some words is the same in any order and any grouping. */
  lemma OrderAndGroupingIrrelevant(t: Sum, u: Sum)
    requires multiset(t.Words()) == multiset(u.Words())
    ensures InternetChecksum(t) == InternetChecksum(u)
    ensures ChecksumEqual(InternetChecksum(t), InternetChecksum(u))
  {
    TotalIsRepresentative(t);
    TotalIsRepresentative(u);
    IntegerTotalPermuted(t.Words(), u.Words());
  }

  /** Deferred carries: sum in a wide accumulator, fold the carries back at the end. */
  function Fold(n: nat): (w: Word)
  {
    if n <= 0xFFFF then n else Fold(n % 0x1_0000 + n / 0x1_0000)
  }

  lemma {:induction false} FoldIsRepresentative(n: nat)
    ensures Fold(n) == Representative(n)
  {
    if n > 0xFFFF {
      var q := n / 0x1_0000;
      var folded := n % 0x1_0000 + q;
      FoldIsRepresentative(folded);
      assert n - 1 == (folded - 1) % 0xFFFF + ((folded - 1) / 0xFFFF + q) * 0xFFFF;
      Remainder(n - 1, (folded - 1) / 0xFFFF + q, (folded - 1) % 0xFFFF);
    }
  }

  lemma DeferredCarries(t: Sum)
    ensures t.Total() == Fold(IntegerTotal(t.Words()))
  {
    TotalIsRepresentative(t);
    FoldIsRepresentative(IntegerTotal(t.Words()));
  }

  /** Incremental update after one word changes (section 3 of RFC 1624). */
  function Updated(checksum: Word, oldWord: Word, newWord: Word): Word
  {
    Complement(Add(Add(Complement(checksum), Complement(oldWord)), newWord))
  }

  lemma RepresentativeQuotient(n: nat) returns (q: int)
    ensures n == Representative(n) + q * 0xFFFF
  {
    q := if n == 0 then 0 else (n - 1) / 0xFFFF;
  }

  /** A checksum right up to the sign of zero has a complement that differs from the total by a multiple. */
  lemma RightIsMultiple(c: Word, t: Sum) returns (q: int)
    requires ChecksumEqual(c, InternetChecksum(t))
    ensures Complement(c) == IntegerTotal(t.Words()) + q * 0xFFFF
  {
    TotalIsRepresentative(t);
    q := RepresentativeQuotient(IntegerTotal(t.Words()));
    q := if c == InternetChecksum(t) then -q else if c == 0 then 1 - q else -1 - q;
  }

  lemma MultipleIsEqual(a: Word, b: Word, q: int)
    requires a - b == q * 0xFFFF
    ensures ChecksumEqual(Complement(a), Complement(b))
  {
    assert -1 <= q <= 1;
  }

  lemma MultipleIsRight(c: Word, t: Sum, q: int)
    requires Complement(c) == IntegerTotal(t.Words()) + q * 0xFFFF
    ensures ChecksumEqual(c, InternetChecksum(t))
  {
    TotalIsRepresentative(t);
    var p := RepresentativeQuotient(IntegerTotal(t.Words()));
    MultipleIsEqual(Complement(c), t.Total(), p + q);
  }

  lemma UpdatedMultiple(checksum: Word, oldWord: Word, newWord: Word) returns (q: int)
    ensures Complement(Updated(checksum, oldWord, newWord)) ==
            Complement(checksum) - oldWord + newWord + q * 0xFFFF
  {
    var inner := Add(Complement(checksum), Complement(oldWord));
    q := 1 - (if Complement(checksum) + Complement(oldWord) > 0xFFFF then 1 else 0)
    - (if inner + newWord > 0xFFFF then 1 else 0);
  }

  lemma ReplacedTotal(words: seq<Word>, i: nat, newWord: Word)
    requires i < |words|
    ensures IntegerTotal(words[i := newWord]) == IntegerTotal(words) - words[i] + newWord
  {
    WithoutTotal(words, i);
    WithoutTotal(words[i := newWord], i);
    assert Without(words[i := newWord], i) == Without(words, i);
  }

  /** The updated checksum is the checksum of the changed words, up to the sign of zero. */
  lemma IncrementalUpdate(before: Sum, after: Sum, checksum: Word, i: nat, newWord: Word)
    requires i < |before.Words()|
    requires multiset(after.Words()) == multiset(before.Words()[i := newWord])
    requires ChecksumEqual(checksum, InternetChecksum(before))
    ensures ChecksumEqual(Updated(checksum, before.Words()[i], newWord), InternetChecksum(after))
  {
    IntegerTotalPermuted(after.Words(), before.Words()[i := newWord]);
    ReplacedTotal(before.Words(), i, newWord);
    var q := RightIsMultiple(checksum, before);
    var p := UpdatedMultiple(checksum, before.Words()[i], newWord);
    MultipleIsRight(Updated(checksum, before.Words()[i], newWord), after, p + q);
  }

  /** Plain equality would reject a correct update: the two zeros have to be identified. */
  lemma PlainEqualityIsTooStrong()
    ensures exists before: Sum, after: Sum ::
              before.Words() == [1] && after.Words() == [0]
              && Updated(InternetChecksum(before), 1, 0) != InternetChecksum(after)
  {
    var before, after := Leaf(1), Leaf(0);
    assert before.Words() == [1] && after.Words() == [0];
    assert Updated(InternetChecksum(before), 1, 0) == 0 && InternetChecksum(after) == 0xFFFF;
  }
}
