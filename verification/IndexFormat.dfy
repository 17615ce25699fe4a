/** The block index: its encoding, and the search for the block that may hold a key. */
module IndexFormat {
  import opened Bytes
  import opened Concat
  import opened Ordering

  const INDEX_HEADER: nat := 16         // key length, offset, length

  datatype IndexEntry = IndexEntry(key: bytes, offset: uint64, length: uint32)

  function EntryBytes(e: IndexEntry): (b: bytes)
    ensures |b| == INDEX_HEADER + |e.key|
  {
    PutLE(|e.key|, 4) + PutLE(e.offset, 8) + PutLE(e.length, 4) + e.key
  }

  function IndexBytes(entries: seq<IndexEntry>): (b: bytes)
  {
    if entries == [] then [] else EntryBytes(entries[0]) + IndexBytes(entries[1..])
  }

  predicate KeysFit(entries: seq<IndexEntry>)
  {
    forall i :: 0 <= i < |entries| ==> |entries[i].key| < UINT32
  }

  /** The entry at a position, and the position after it. */
  function EntryIn(data: bytes, pos: nat): (r: Option<(IndexEntry, nat)>)
    requires pos <= |data|
    ensures r.Some? ==> pos < r.value.1 <= |data|
  {
    if |data| - pos < INDEX_HEADER then None
    else
      var keyLen := GetLE(data[pos..pos + 4]);
      var at := pos + INDEX_HEADER;
      if |data| - at < keyLen then None
      else
        GetLEBound(data[pos + 4..pos + 12]); GetLEBound(data[pos + 12..pos + 16]); Pow256Values();
        Some((IndexEntry(data[at..at + keyLen], GetLE(data[pos + 4..pos + 12]), GetLE(data[pos + 12..pos + 16])),
          at + keyLen))
  }

  /** The entries of an encoded index from a position on, or None when it is cut short. */
  function IndexIn(data: bytes, pos: nat): (r: Option<seq<IndexEntry>>)
    requires pos <= |data|
    decreases |data| - pos
  {
    if pos == |data| then Some([])
    else match EntryIn(data, pos)
      case None => None
      case Some((e, next)) => Joined([e], IndexIn(data, next))
  }

  lemma EntryReadsBack(data: bytes, pos: nat, e: IndexEntry)
    requires |e.key| < UINT32
    requires pos + |EntryBytes(e)| <= |data| && data[pos..pos + |EntryBytes(e)|] == EntryBytes(e)
    ensures EntryIn(data, pos) == Some((e, pos + |EntryBytes(e)|))
  {
    hide PutLE, GetLE;
    var b := EntryBytes(e);
    FourParts(PutLE(|e.key|, 4), PutLE(e.offset, 8), PutLE(e.length, 4), e.key);
    SliceWithin(data, pos, b, 0, 4);
    SliceWithin(data, pos, b, 4, 12);
    SliceWithin(data, pos, b, 12, 16);
    SliceWithin(data, pos, b, 16, |b|);
    RoundTrip32(|e.key|);
    RoundTrip64(e.offset);
    RoundTrip32(e.length);
  }

  lemma FourParts(p: bytes, q: bytes, r: bytes, s: bytes)
    ensures var b := p + q + r + s;
            var i, j := |p| + |q|, |p| + |q| + |r|;
            b[0..|p|] == p && b[|p|..i] == q && b[i..j] == r && b[j..|b|] == s
  {
  }

  /** Decoding an encoded index gives the index back. */
  lemma {:induction false} IndexReadsBack(before: bytes, entries: seq<IndexEntry>)
    requires KeysFit(entries)
    ensures IndexIn(before + IndexBytes(entries), |before|) == Some(entries)
    decreases |entries|
  {
    hide EntryIn, EntryBytes;
    if entries != [] {
      var data, b, rest := before + IndexBytes(entries), EntryBytes(entries[0]), IndexBytes(entries[1..]);
      assert IndexBytes(entries) == b + rest;
      assert data == (before + b) + rest && |before + b| == |before| + |b|;
      assert data[|before|..|before| + |b|] == b;
      EntryReadsBack(data, |before|, entries[0]);
      IndexReadsBack(before + b, entries[1..]);
      assert entries == [entries[0]] + entries[1..];
    } else {
      assert IndexBytes([]) == [];
    }
  }

  lemma {:induction false} IndexBytesAppend(entries: seq<IndexEntry>, e: IndexEntry)
    ensures IndexBytes(entries + [e]) == IndexBytes(entries) + EntryBytes(e)
  {
    hide EntryBytes;
    if entries == [] {
    } else {
      IndexBytesAppend(entries[1..], e);
      assert (entries + [e])[1..] == entries[1..] + [e];
    }
  }

  method EncodeIndex(entries: seq<IndexEntry>) returns (out: bytes)
    ensures out == IndexBytes(entries)
  {
    out := [];
    for i := 0 to |entries|
      invariant out == IndexBytes(entries[..i])
    {
      var e := entries[i];
      out := out + (PutLE(|e.key|, 4) + PutLE(e.offset, 8) + PutLE(e.length, 4)) + e.key;
      IndexBytesAppend(entries[..i], e);
      assert entries[..i + 1] == entries[..i] + [e];
    }
    assert entries[..|entries|] == entries;
  }

  lemma DecodeStep(data: bytes, pos: nat, entries: seq<IndexEntry>)
    requires pos < |data|
    ensures match EntryIn(data, pos)
            case None => Joined(entries, IndexIn(data, pos)) == None
            case Some((e, next)) => Joined(entries, IndexIn(data, pos)) == Joined(entries + [e], IndexIn(data, next))
  {
    hide EntryIn;
    match EntryIn(data, pos)
    case None =>
    case Some((e, next)) => JoinedTwice(entries, e, IndexIn(data, next));
  }

  /** Fails exactly when the index is cut short. */
  method DecodeIndex(data: bytes) returns (r: Option<seq<IndexEntry>>)
    ensures r == IndexIn(data, 0)
  {
    hide GetLE, IndexIn;
    var entries: seq<IndexEntry> := [];
    var pos := 0;
    JoinedNothing(IndexIn(data, 0));
    while pos < |data|
      invariant 0 <= pos <= |data|
      invariant IndexIn(data, 0) == Joined(entries, IndexIn(data, pos))
    {
      DecodeStep(data, pos, entries);
      if |data| - pos < INDEX_HEADER { return None; }
      var keyLen, offset, length := GetLE(data[pos..pos + 4]), GetLE(data[pos + 4..pos + 12]),
          GetLE(data[pos + 12..pos + 16]);
      GetLEBound(data[pos + 4..pos + 12]);
      GetLEBound(data[pos + 12..pos + 16]);
      Pow256Values();
      pos := pos + INDEX_HEADER;
      if |data| - pos < keyLen { return None; }
      var key := data[pos..pos + keyLen];
      pos := pos + keyLen;
      entries := entries + [IndexEntry(key, offset, length)];
    }
    EndsEmpty(data);
    assert entries + [] == entries;
    return Some(entries);
  }

  lemma EndsEmpty(data: bytes)
    ensures IndexIn(data, |data|) == Some([])
  {
  }

  // ---------- findBlock ----------

  ghost predicate KeysIncrease(entries: seq<IndexEntry>)
  {
    forall i, j :: 0 <= i < j < |entries| ==> Lt(entries[i].key, entries[j].key)
  }

  /** Entry r is the last whose key is at most the key; -1 when all keys are above it. */
  ghost predicate IsSlot(entries: seq<IndexEntry>, key: bytes, r: int)
  {
    && -1 <= r < |entries|
    && (forall i :: 0 <= i <= r ==> Le(entries[i].key, key))
    && (forall i :: r < i < |entries| ==> Lt(key, entries[i].key))
  }

  function AboveIn(entries: seq<IndexEntry>, key: bytes): (at: nat -> bool)
  {
    (i: nat) => i < |entries| && Lt(key, entries[i].key)
  }

  lemma SearchIsSlot(entries: seq<IndexEntry>, key: bytes)
    requires KeysIncrease(entries)
    ensures IsSlot(entries, key, Search(0, |entries|, AboveIn(entries, key)) - 1)
  {
    hide Lt;
    var at := AboveIn(entries, key);
    forall i, j | 0 <= i <= j < |entries| && at(i) ensures at(j) {
      if i < j { LtTransitive(key, entries[i].key, entries[j].key); }
    }
    SearchFinds(0, |entries|, at);
    var n := Search(0, |entries|, at);
    forall i | 0 <= i <= n - 1 ensures Le(entries[i].key, key) { assert !at(i); }
    forall i | n - 1 < i < |entries| ensures Lt(key, entries[i].key) { assert at(i); }
  }

  method FindBlock(entries: seq<IndexEntry>, key: bytes) returns (r: int)
    ensures -1 <= r < |entries|
    ensures KeysIncrease(entries) ==> IsSlot(entries, key, r)
  {
    hide Lt;
    ghost var good := KeysIncrease(entries);
    if |entries| == 0 { return -1; }
    if good { SearchIsSlot(entries, key); }
    if Lt(key, entries[0].key) {
      if good { BelowAll(entries, key); }
      return -1;
    }
    var i := Search(0, |entries|, AboveIn(entries, key));
    if i == 0 { return -1; }
    var idx := i - 1;
    if entries[idx].key == key {
      while idx > 0 && entries[idx - 1].key == key
        invariant 0 <= idx <= i - 1 && entries[idx].key == key
        invariant good ==> idx == i - 1
      {
        if good { LtIrreflexive(key); }
        idx := idx - 1;
      }
    }
    return idx;
  }

  lemma BelowAll(entries: seq<IndexEntry>, key: bytes)
    requires KeysIncrease(entries) && |entries| > 0 && Lt(key, entries[0].key)
    ensures IsSlot(entries, key, -1)
  {
    forall i | -1 < i < |entries| ensures Lt(key, entries[i].key) {
      if i > 0 { LtTransitive(key, entries[0].key, entries[i].key); }
    }
  }
}
