/** Byte strings, big-endian numbers, and small definitions that several modules use. */
module Bytes {

  type Byte = b: int | 0 <= b < 256

  /** The shortest Ethernet frame, without its checksum. */
  const MIN_FRAME := 60

  datatype Option<+T> = None | Some(value: T)

  /** The number a byte string denotes in network byte order. */
  function BigEndian(s: seq<Byte>): (n: nat)
  {
    if s == [] then 0 else BigEndian(s[..|s| - 1]) * 256 + s[|s| - 1]
  }

  /** `len` bytes of `n` in network byte order; the high bytes that do not fit are dropped. */
  function ToBigEndian(n: nat, len: nat): (s: seq<Byte>)
    ensures |s| == len
  {
    if len == 0 then [] else ToBigEndian(n / 256, len - 1) + [n % 256]
  }

  function Pow256(k: nat): (p: nat)
    ensures p >= 1
  {
    if k == 0 then 1 else 256 * Pow256(k - 1)
  }

  function U16(s: seq<Byte>, at: nat): (n: nat)
    requires at + 2 <= |s|
    ensures n < 0x1_0000
  {
    s[at] as int * 256 + s[at + 1]
  }

  function Zeros(n: int): (s: seq<Byte>)
    ensures |s| == if n < 0 then 0 else n
    ensures forall i :: 0 <= i < |s| ==> s[i] == 0
  {
    if n <= 0 then [] else seq(n, i => 0)
  }

  /** A product by name, for laws about functions of a product. */
  function Times(x: real, y: real): real { x * y }

  function Max(a: int, b: int): int { if a < b then b else a }

  function Flatten<T>(parts: seq<seq<T>>): seq<T>
  {
    if parts == [] then [] else parts[0] + Flatten(parts[1..])
  }

  /** A number that fits survives being written and read back. */
  lemma {:induction false} WriteRead(n: nat, len: nat)
    requires n < Pow256(len)
    ensures BigEndian(ToBigEndian(n, len)) == n
  {
    if len > 0 {
      var s := ToBigEndian(n, len);
      WriteRead(n / 256, len - 1);
      assert s[..|s| - 1] == ToBigEndian(n / 256, len - 1);
    }
  }

  /** Every byte string is the encoding of the number it denotes. */
  lemma {:induction false} ReadWrite(s: seq<Byte>)
    ensures BigEndian(s) < Pow256(|s|)
    ensures ToBigEndian(BigEndian(s), |s|) == s
  {
    if s != [] {
      ReadWrite(s[..|s| - 1]);
      assert BigEndian(s) / 256 == BigEndian(s[..|s| - 1]);
    }
  }

  lemma OneByte(v: nat)
    requires v < 256
    ensures ToBigEndian(v, 1) == [v]
  {
    assert ToBigEndian(v, 1) == ToBigEndian(v / 256, 0) + [v % 256];
  }

  lemma TwoBytes(v: nat)
    requires v < 0x1_0000
    ensures ToBigEndian(v, 2) == [v / 256, v % 256]
  {
    assert ToBigEndian(v, 2) == ToBigEndian(v / 256, 1) + [v % 256];
    OneByte(v / 256);
  }
}
