/** Bloom filters: a bit array probed at k positions derived from two hashes. */
module Bloom {
  import opened Bytes

  type Hash = bytes -> (uint64, uint64)

  // ---------- bits ----------

  function Mask(j: nat): (m: bv8)
    requires j < 8
    ensures m != 0
  {
    if j == 0 then 1 else if j == 1 then 2 else if j == 2 then 4 else if j == 3 then 8
    else if j == 4 then 16 else if j == 5 then 32 else if j == 6 then 64 else 128
  }

  predicate HasBit(bits: seq<bv8>, bit: nat)
    requires bit / 8 < |bits|
  {
    bits[bit / 8] & Mask(bit % 8) != 0
  }

  lemma SetKeeps(b: bv8, m: bv8, t: bv8)
    ensures b & t != 0 ==> (b | m) & t != 0
    ensures m != 0 ==> (b | m) & m != 0
    ensures m & t == 0 && (b | m) & t != 0 ==> b & t != 0
  {
  }

  lemma MasksDiffer(i: nat, j: nat)
    requires i < 8 && j < 8 && i != j
    ensures Mask(i) & Mask(j) == 0
  {
  }

  lemma SetBit(bits: seq<bv8>, bit: nat, other: nat)
    requires bit / 8 < |bits| && other / 8 < |bits|
    ensures var after := bits[bit / 8 := bits[bit / 8] | Mask(bit % 8)];
            && HasBit(after, bit) && (HasBit(bits, other) ==> HasBit(after, other))
            && (HasBit(after, other) && other != bit ==> HasBit(bits, other))
  {
    hide Mask;
    if other % 8 != bit % 8 { MasksDiffer(bit % 8, other % 8); }
    SetKeeps(bits[bit / 8], Mask(bit % 8), Mask(other % 8));
  }

  // ---------- the filter as a value ----------

  datatype FilterData = FilterData(bits: seq<bv8>, k: byte)

  /** The bit count as the source computes it, in 32 bits; the probes take it as their modulus. */
  predicate Sized(bits: nat)
  {
    (bits * 8) % UINT32 != 0
  }

  function ProbeOf(h1: uint64, h2: uint64, bytesLen: nat, i: nat): (bit: nat)
    requires Sized(bytesLen)
    ensures bit / 8 < bytesLen
  {
    var n := (bytesLen * 8) % UINT32;
    assert n <= bytesLen * 8;
    ((h1 + i * h2) % UINT64) % n
  }

  function Probe(hash: Hash, bytesLen: nat, key: bytes, i: nat): (bit: nat)
    requires Sized(bytesLen)
    ensures bit / 8 < bytesLen
  {
    ProbeOf(hash(key).0, hash(key).1, bytesLen, i)
  }

  predicate ProbesSet(hash: Hash, bits: seq<bv8>, key: bytes, upto: nat)
    requires Sized(|bits|)
  {
    forall i: nat :: i < upto ==> HasBit(bits, Probe(hash, |bits|, key, i))
  }

  predicate May(hash: Hash, f: FilterData, key: bytes)
    requires Sized(|f.bits|)
  {
    ProbesSet(hash, f.bits, key, f.k)
  }

  function Encode(f: FilterData): (b: bytes)
    ensures |b| == 1 + |f.bits|
  {
    [f.k] + seq(|f.bits|, i requires 0 <= i < |f.bits| => f.bits[i] as int)
  }

  function Decode(data: bytes): (r: Option<FilterData>)
  {
    if |data| < 2 then None
    else Some(FilterData(seq(|data| - 1, i requires 0 <= i < |data| - 1 => data[i + 1] as bv8), data[0]))
  }

  lemma ByteRoundTrip(b: bv8)
    ensures (b as int) as bv8 == b
  {
  }

  /** Any filter with at least one byte of bits survives encoding. */
  lemma FilterReadsBack(f: FilterData)
    requires |f.bits| > 0
    ensures Decode(Encode(f)) == Some(f)
  {
    var b := Encode(f);
    forall i | 0 <= i < |f.bits| ensures b[i + 1] as bv8 == f.bits[i] { ByteRoundTrip(f.bits[i]); }
    assert Decode(b).value.bits == f.bits;
  }

  // ---------- the filter in place ----------

  /** The number of probes for a setting: 0.69 per bit, between 1 and 30. */
  function ProbeCount(bitsPerKey: nat): (k: byte)
    ensures 1 <= k <= 30
  {
    var k := (bitsPerKey as real * 0.69).Floor;
    if k < 1 then 1 else if k > 30 then 30 else k
  }

  /** The byte length for a number of keys. */
  function FilterBytes(keys: nat, bitsPerKey: nat): (n: nat)
    ensures n >= 8 && n * 8 >= keys * bitsPerKey
  {
    var m := keys * bitsPerKey;
    ((if m < 64 then 64 else m) + 7) / 8
  }

  class Filter {
    var bits: array<bv8>
    const k: byte

    constructor (keys: nat, bitsPerKey: nat)
      ensures bits.Length == FilterBytes(keys, bitsPerKey) && k == ProbeCount(bitsPerKey) && fresh(bits)
      ensures forall bit: nat :: bit / 8 < bits.Length ==> !HasBit(bits[..], bit)
    {
      bits := new bv8[FilterBytes(keys, bitsPerKey)](i => 0);
      k := ProbeCount(bitsPerKey);
    }

    ghost function Value(): (f: FilterData)
      reads this, bits
    {
      FilterData(bits[..], k)
    }

    /** Adds a key, forgets none, and sets no bit but the key's. */
    method Add(hash: Hash, key: bytes)
      requires Sized(bits.Length)
      modifies bits
      ensures May(hash, Value(), key)
      ensures forall other: bytes :: old(May(hash, Value(), other)) ==> May(hash, Value(), other)
      ensures OnlyProbed(hash, old(bits[..]), bits[..], key, k)
    {
      hide Mask, Probe, Sized, OnlyProbed;
      var (h1, h2) := hash(key);
      ghost var before := bits[..];
      NothingProbed(hash, before, key);
      for i := 0 to k
        invariant |bits[..]| == |before|
        invariant ProbesSet(hash, bits[..], key, i)
        invariant Grown(before, bits[..]) && OnlyProbed(hash, before, bits[..], key, i)
      {
        var bit := ProbeOf(h1, h2, bits.Length, i);
        ghost var was := bits[..];
        ProbeIs(hash, bits.Length, key, i);
        bits[bit / 8] := bits[bit / 8] | Mask(bit % 8);
        assert bits[..] == was[bit / 8 := was[bit / 8] | Mask(bit % 8)];
        SetGrows(was, bit);
        GrownTrans(before, was, bits[..]);
        OneMoreProbed(hash, before, was, key, i);
        GrownProbes(hash, was, bits[..], key, i);
      }
      forall other: bytes | old(May(hash, Value(), other)) ensures May(hash, Value(), other) {
        GrownProbes(hash, before, bits[..], other, k);
      }
    }

    method MayContain(hash: Hash, key: bytes) returns (r: bool)
      requires Sized(bits.Length)
      ensures r == May(hash, Value(), key)
    {
      r := Contains(hash, FilterData(bits[..], k), key);
    }
  }

  lemma ProbeIs(hash: Hash, bytesLen: nat, key: bytes, i: nat)
    requires Sized(bytesLen)
    ensures ProbeOf(hash(key).0, hash(key).1, bytesLen, i) == Probe(hash, bytesLen, key, i)
  {
  }

  ghost predicate Probed(hash: Hash, bytesLen: nat, key: bytes, upto: nat, bit: nat)
    requires Sized(bytesLen)
  {
    exists i: nat :: i < upto && Probe(hash, bytesLen, key, i) == bit
  }

  /** Every new bit is one of the first probes of the key. */
  ghost predicate OnlyProbed(hash: Hash, before: seq<bv8>, now: seq<bv8>, key: bytes, upto: nat)
  {
    |now| == |before| && Sized(|now|)
      && forall bit: nat :: bit / 8 < |now| && HasBit(now, bit) ==>
           HasBit(before, bit) || Probed(hash, |now|, key, upto, bit)
  }

  lemma NothingProbed(hash: Hash, bits: seq<bv8>, key: bytes)
    requires Sized(|bits|)
    ensures OnlyProbed(hash, bits, bits, key, 0)
  {
  }

  lemma OneMoreProbed(hash: Hash, before: seq<bv8>, was: seq<bv8>, key: bytes, i: nat)
    requires OnlyProbed(hash, before, was, key, i)
    ensures var bit := Probe(hash, |was|, key, i);
            OnlyProbed(hash, before, was[bit / 8 := was[bit / 8] | Mask(bit % 8)], key, i + 1)
  {
    hide Mask, HasBit, Sized, Probe;
    var bit := Probe(hash, |was|, key, i);
    var now := was[bit / 8 := was[bit / 8] | Mask(bit % 8)];
    forall other: nat | other / 8 < |now| && HasBit(now, other)
      ensures HasBit(before, other) || Probed(hash, |now|, key, i + 1, other)
    {
      SetBit(was, bit, other);
      if other == bit { assert Probe(hash, |now|, key, i) == other; }
      if Probed(hash, |was|, key, i, other) {
        var j: nat :| j < i && Probe(hash, |was|, key, j) == other;
        assert Probe(hash, |now|, key, j) == other;
      }
    }
  }

  ghost predicate Grown(a: seq<bv8>, b: seq<bv8>)
  {
    |a| == |b| && forall bit: nat :: bit / 8 < |a| && HasBit(a, bit) ==> HasBit(b, bit)
  }

  lemma GrownTrans(a: seq<bv8>, b: seq<bv8>, c: seq<bv8>)
    requires Grown(a, b) && Grown(b, c)
    ensures Grown(a, c)
  {
    hide HasBit;
  }

  lemma SetGrows(bits: seq<bv8>, bit: nat)
    requires bit / 8 < |bits|
    ensures var after := bits[bit / 8 := bits[bit / 8] | Mask(bit % 8)];
            Grown(bits, after) && HasBit(after, bit)
  {
    hide Mask;
    var after := bits[bit / 8 := bits[bit / 8] | Mask(bit % 8)];
    forall other: nat | other / 8 < |bits| && HasBit(bits, other) ensures HasBit(after, other) {
      SetBit(bits, bit, other);
    }
    SetBit(bits, bit, bit);
  }

  lemma GrownProbes(hash: Hash, a: seq<bv8>, b: seq<bv8>, key: bytes, upto: nat)
    requires Grown(a, b) && Sized(|a|) && ProbesSet(hash, a, key, upto)
    ensures ProbesSet(hash, b, key, upto)
  {
    hide HasBit, Probe, Sized;
  }

  /** The probe loop of a lookup. */
  method Contains(hash: Hash, f: FilterData, key: bytes) returns (r: bool)
    requires Sized(|f.bits|)
    ensures r == May(hash, f, key)
  {
    hide Mask, Sized;
    var (h1, h2) := hash(key);
    for i := 0 to f.k
      invariant ProbesSet(hash, f.bits, key, i)
    {
      var bit := ProbeOf(h1, h2, |f.bits|, i);
      ProbeIs(hash, |f.bits|, key, i);
      if f.bits[bit / 8] & Mask(bit % 8) == 0 {
        return false;
      }
    }
    return true;
  }
}
