/** Byte strings: the lexicographic order of Go's bytes.Compare, and
    little-endian integers as written by encoding/binary. */
module Bytes {

  type byte = x: int | 0 <= x < 256
  type bytes = seq<byte>
  type uint16 = x: int | 0 <= x < 0x1_0000
  type uint32 = x: int | 0 <= x < 0x1_0000_0000
  type uint64 = x: int | 0 <= x < 0x1_0000_0000_0000_0000

  const UINT16: nat := 0x1_0000
  const UINT32: nat := 0x1_0000_0000
  const UINT64: nat := 0x1_0000_0000_0000_0000

  datatype Option<+T> = None | Some(value: T)

  // ---------- bytes.Compare ----------

  /** bytes.Compare(a, b) < 0 */
  predicate Lt(a: bytes, b: bytes)
  {
    b != [] && (a == [] || a[0] < b[0] || (a[0] == b[0] && Lt(a[1..], b[1..])))
  }

  predicate Le(a: bytes, b: bytes)
  {
    !Lt(b, a)
  }

  lemma {:induction false} LtIrreflexive(a: bytes)
    ensures !Lt(a, a)
  {
    if a != [] { LtIrreflexive(a[1..]); }
  }

  lemma {:induction false} LtTransitive(a: bytes, b: bytes, c: bytes)
    requires Lt(a, b) && Lt(b, c)
    ensures Lt(a, c)
  {
    if a != [] && a[0] == b[0] && b[0] == c[0] { LtTransitive(a[1..], b[1..], c[1..]); }
  }

  lemma {:induction false} LtTrichotomy(a: bytes, b: bytes)
    ensures Lt(a, b) || a == b || Lt(b, a)
  {
    if a != [] && b != [] && a[0] == b[0] {
      LtTrichotomy(a[1..], b[1..]);
      if a[1..] == b[1..] { assert a == [a[0]] + a[1..] && b == [b[0]] + b[1..]; }
    }
  }

  lemma LtAsymmetric(a: bytes, b: bytes)
    requires Lt(a, b)
    ensures !Lt(b, a) && a != b
  {
    LtIrreflexive(a);
    if Lt(b, a) { LtTransitive(a, b, a); }
  }

  lemma LtLeTransitive(a: bytes, b: bytes, c: bytes)
    requires Lt(a, b) && Le(b, c)
    ensures Lt(a, c)
  {
    LtTrichotomy(b, c);
    if Lt(b, c) { LtTransitive(a, b, c); }
  }

  lemma LeLtTransitive(a: bytes, b: bytes, c: bytes)
    requires Le(a, b) && Lt(b, c)
    ensures Lt(a, c)
  {
    LtTrichotomy(a, b);
    if Lt(a, b) { LtTransitive(a, b, c); }
  }

  /** The whole order at once, for proofs that range over every key. */
  lemma OrderFacts()
    ensures forall a: bytes :: !Lt(a, a)
    ensures forall a: bytes, b: bytes, c: bytes :: Lt(a, b) && Lt(b, c) ==> Lt(a, c)
    ensures forall a: bytes, b: bytes :: Lt(a, b) || a == b || Lt(b, a)
  {
    forall a: bytes { LtIrreflexive(a); }
    forall a: bytes, b: bytes, c: bytes | Lt(a, b) && Lt(b, c) ensures Lt(a, c) { LtTransitive(a, b, c); }
    forall a: bytes, b: bytes ensures Lt(a, b) || a == b || Lt(b, a) { LtTrichotomy(a, b); }
  }

  // ---------- encoding/binary little endian ----------

  function Pow256(n: nat): (p: nat)
    ensures p > 0
  {
    if n == 0 then 1 else 256 * Pow256(n - 1)
  }

  /** The n low-order bytes of x, least significant first: a PutUint32 or
      PutUint64 of a wider value truncates exactly like this. */
  function PutLE(x: nat, n: nat): (s: bytes)
    ensures |s| == n
  {
    if n == 0 then [] else [x % 256] + PutLE(x / 256, n - 1)
  }

  function GetLE(s: bytes): (x: nat)
  {
    if s == [] then 0 else s[0] + 256 * GetLE(s[1..])
  }

  lemma {:induction false} GetLEBound(s: bytes)
    ensures GetLE(s) < Pow256(|s|)
  {
    if s != [] { GetLEBound(s[1..]); }
  }

  lemma {:induction false} GetPutLE(x: nat, n: nat)
    requires x < Pow256(n)
    ensures GetLE(PutLE(x, n)) == x
  {
    if n > 0 {
      assert x / 256 < Pow256(n - 1);
      GetPutLE(x / 256, n - 1);
      assert PutLE(x, n)[1..] == PutLE(x / 256, n - 1);
    }
  }

  lemma Pow256Values()
    ensures Pow256(2) == 0x1_0000
    ensures Pow256(4) == 0x1_0000_0000
    ensures Pow256(8) == 0x1_0000_0000_0000_0000
  {
    assert Pow256(1) == 256;
    assert Pow256(3) == 256 * Pow256(2);
    assert Pow256(4) == 256 * Pow256(3);
    assert Pow256(5) == 256 * Pow256(4);
    assert Pow256(6) == 256 * Pow256(5);
    assert Pow256(7) == 256 * Pow256(6);
  }

  lemma RoundTrip32(x: uint32)
    ensures GetLE(PutLE(x, 4)) == x
  {
    Pow256Values();
    GetPutLE(x, 4);
  }

  lemma RoundTrip64(x: uint64)
    ensures GetLE(PutLE(x, 8)) == x
  {
    Pow256Values();
    GetPutLE(x, 8);
  }

  // ---------- slices ----------

  /** Reading inside a region whose bytes are known. */
  lemma SliceWithin<T>(data: seq<T>, at: nat, part: seq<T>, i: nat, j: nat)
    requires at + |part| <= |data| && data[at..at + |part|] == part
    requires i <= j <= |part|
    ensures data[at + i..at + j] == part[i..j]
  {
    forall k | 0 <= k < j - i ensures data[at + i..at + j][k] == part[i..j][k] {
      assert part[i + k] == data[at..at + |part|][i + k];
    }
  }
}
