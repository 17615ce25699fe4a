/** Data blocks as bytes: prefix-compressed entries, restart points, and the
    restart array at the tail. */
module BlockFormat {
  import opened Bytes
  import opened Entries

  const ENTRY_HEADER: nat := 21        // shared, unshared, valLen, seq, flags
  const OFFSET_SIZE: nat := 4
  const COUNT_SIZE: nat := 4

  // ---------- one entry ----------

  function CommonPrefix(a: bytes, b: bytes): (n: nat)
    ensures n <= |a| && n <= |b| && a[..n] == b[..n]
    ensures n == |a| || n == |b| || a[n] != b[n]
  {
    if a == [] || b == [] || a[0] != b[0] then 0
    else
      var n := CommonPrefix(a[1..], b[1..]);
      assert a[..n + 1] == [a[0]] + a[1..][..n] && b[..n + 1] == [b[0]] + b[1..][..n];
      1 + n
  }

  function Flags(e: Entry): (f: byte)
  {
    if e.tombstone then 1 else 0
  }

  function Header(shared: nat, unshared: nat, e: Entry): (h: bytes)
    ensures |h| == ENTRY_HEADER
  {
    PutLE(shared, 4) + PutLE(unshared, 4) + PutLE(|e.value|, 4) + PutLE(e.seqno, 8) + [Flags(e)]
  }

  function EncodeEntry(shared: nat, e: Entry): (b: bytes)
    requires shared <= |e.key|
    ensures |b| == ENTRY_HEADER + |e.key| - shared + |e.value|
  {
    Header(shared, |e.key| - shared, e) + e.key[shared..] + e.value
  }

  /** The entry's lengths fit their 32-bit fields. */
  predicate Fits(e: Entry)
  {
    |e.key| < UINT32 && |e.value| < UINT32
  }

  datatype Parsed =
    | End                                  // offset has reached the limit
    | Bad                                  // truncated, or the shared prefix is longer than the last key
    | Item(entry: Entry, next: nat)        // the entry, and the offset after it

  /** What a cursor reads at an offset, given the key it read before. */
  function ParseEntry(data: bytes, offset: nat, limit: nat, lastKey: bytes): (r: Parsed)
    requires limit <= |data|
    ensures r.Item? ==> offset < r.next <= limit
  {
    if offset >= limit then End
    else if limit - offset < ENTRY_HEADER then Bad
    else
      var shared := GetLE(data[offset..offset + 4]);
      var unshared := GetLE(data[offset + 4..offset + 8]);
      var valLen := GetLE(data[offset + 8..offset + 12]);
      var keyStart := offset + ENTRY_HEADER;
      var keyEnd := keyStart + unshared;
      var valEnd := keyEnd + valLen;
      if valEnd > limit then Bad
      else if shared > |lastKey| then Bad
      else
        GetLEBound(data[offset + 12..offset + 20]);
        Pow256Values();
        Item(Entry(lastKey[..shared] + data[keyStart..keyEnd], data[keyEnd..valEnd],
                   data[offset + 20] % 2 == 1, GetLE(data[offset + 12..offset + 20])), valEnd)
  }

  lemma HeaderFields(shared: uint32, unshared: uint32, e: Entry)
    requires Fits(e)
    ensures var h := Header(shared, unshared, e);
            && GetLE(h[0..4]) == shared && GetLE(h[4..8]) == unshared && GetLE(h[8..12]) == |e.value|
            && GetLE(h[12..20]) == e.seqno && h[20] == Flags(e)
  {
    var h := Header(shared, unshared, e);
    assert h[0..4] == PutLE(shared, 4);
    assert h[4..8] == PutLE(unshared, 4);
    assert h[8..12] == PutLE(|e.value|, 4);
    assert h[12..20] == PutLE(e.seqno, 8);
    RoundTrip32(shared);
    RoundTrip32(unshared);
    RoundTrip32(|e.value|);
    RoundTrip64(e.seqno);
  }

  lemma EncodedParts(shared: nat, e: Entry)
    requires shared <= |e.key|
    ensures var b, k := EncodeEntry(shared, e), ENTRY_HEADER + |e.key| - shared;
            && b[..ENTRY_HEADER] == Header(shared, |e.key| - shared, e)
            && b[ENTRY_HEADER..k] == e.key[shared..] && b[k..] == e.value
  {
  }

  /** Reading an encoded entry back, from inside a larger block. */
  lemma ParseEncoded(data: bytes, offset: nat, limit: nat, lastKey: bytes, shared: nat, e: Entry)
    requires Fits(e) && shared <= |e.key| && shared <= |lastKey| && lastKey[..shared] == e.key[..shared]
    requires offset + |EncodeEntry(shared, e)| <= limit <= |data|
    requires data[offset..offset + |EncodeEntry(shared, e)|] == EncodeEntry(shared, e)
    ensures ParseEntry(data, offset, limit, lastKey) == Item(e, offset + |EncodeEntry(shared, e)|)
  {
    hide Header, PutLE, GetLE;
    var b := EncodeEntry(shared, e);
    EncodedParts(shared, e);
    HeaderFields(shared, |e.key| - shared, e);
    var h := b[..ENTRY_HEADER];
    SliceWithin(data, offset, b, 0, ENTRY_HEADER);
    var k := ENTRY_HEADER + |e.key| - shared;
    SliceWithin(data, offset, b, ENTRY_HEADER, k);
    SliceWithin(data, offset, b, k, |b|);
    SliceWithin(data, offset, h, 0, 4);
    SliceWithin(data, offset, h, 4, 8);
    SliceWithin(data, offset, h, 8, 12);
    SliceWithin(data, offset, h, 12, 20);
    assert data[offset + 20] == data[offset..offset + |b|][20] == h[20];
    assert b[k..|b|] == b[k..];
    assert e.key == e.key[..shared] + e.key[shared..];
  }

  // ---------- a run of entries ----------

  /** Which entries are restart points; the first always is. */
  ghost predicate Marks(es: seq<Entry>, ms: seq<bool>)
  {
    |ms| == |es| && (es != [] ==> ms[0])
  }

  function SharedAt(es: seq<Entry>, ms: seq<bool>, i: nat): (n: nat)
    requires Marks(es, ms) && i < |es|
    ensures n <= |es[i].key|
  {
    if ms[i] then 0 else CommonPrefix(es[i - 1].key, es[i].key)
  }

  lemma MarksPrefix(es: seq<Entry>, ms: seq<bool>, i: nat)
    requires Marks(es, ms) && i <= |es|
    ensures Marks(es[..i], ms[..i])
  {
  }

  /** The entry area of a block. */
  function Buf(es: seq<Entry>, ms: seq<bool>): (b: bytes)
    requires Marks(es, ms)
  {
    if es == [] then []
    else
      var n := |es| - 1;
      Buf(es[..n], ms[..n]) + EncodeEntry(SharedAt(es, ms, n), es[n])
  }

  function Offset(es: seq<Entry>, ms: seq<bool>, i: nat): (n: nat)
    requires Marks(es, ms) && i <= |es|
  {
    |Buf(es[..i], ms[..i])|
  }

  /** The offsets of the restart points. */
  function Restarts(es: seq<Entry>, ms: seq<bool>): (r: seq<nat>)
    requires Marks(es, ms)
    ensures |r| <= |es|
  {
    if es == [] then []
    else
      var n := |es| - 1;
      Restarts(es[..n], ms[..n]) + (if ms[n] then [Offset(es, ms, n)] else [])
  }

  /** The entry numbers of the restart points. */
  function RestartAt(ms: seq<bool>): (r: seq<nat>)
    ensures forall k :: 0 <= k < |r| ==> r[k] < |ms| && ms[r[k]]
  {
    if ms == [] then []
    else RestartAt(ms[..|ms| - 1]) + (if ms[|ms| - 1] then [|ms| - 1] else [])
  }

  lemma {:induction false} RestartAtSorted(ms: seq<bool>)
    ensures forall j, k :: 0 <= j < k < |RestartAt(ms)| ==> RestartAt(ms)[j] < RestartAt(ms)[k]
    ensures forall i :: 0 <= i < |ms| && ms[i] ==> i in RestartAt(ms)
  {
    if ms != [] {
      RestartAtSorted(ms[..|ms| - 1]);
      forall i | 0 <= i < |ms| && ms[i] ensures i in RestartAt(ms) {
        if i < |ms| - 1 { assert i in RestartAt(ms[..|ms| - 1]); }
      }
    }
  }

  lemma RestartsAre(es: seq<Entry>, ms: seq<bool>)
    requires Marks(es, ms)
    ensures |Restarts(es, ms)| == |RestartAt(ms)|
    ensures forall k :: 0 <= k < |RestartAt(ms)| ==> Restarts(es, ms)[k] == Offset(es, ms, RestartAt(ms)[k])
  {
    hide Restarts, RestartAt, Offset;
    RestartCount(es, ms);
    forall k | 0 <= k < |RestartAt(ms)|
      ensures Restarts(es, ms)[k] == Offset(es, ms, RestartAt(ms)[k])
    {
      RestartIs(es, ms, k);
    }
  }

  lemma {:induction false} RestartCount(es: seq<Entry>, ms: seq<bool>)
    requires Marks(es, ms)
    ensures |Restarts(es, ms)| == |RestartAt(ms)|
  {
    hide Buf;
    if es != [] { RestartCount(es[..|es| - 1], ms[..|es| - 1]); }
  }

  lemma {:induction false} RestartIs(es: seq<Entry>, ms: seq<bool>, k: nat)
    requires Marks(es, ms) && k < |RestartAt(ms)|
    ensures k < |Restarts(es, ms)| && Restarts(es, ms)[k] == Offset(es, ms, RestartAt(ms)[k])
  {
    hide Buf;
    RestartCount(es, ms);
    if es != [] {
      var n := |es| - 1;
      RestartCount(es[..n], ms[..n]);
      if k < |RestartAt(ms[..n])| {
        RestartIs(es[..n], ms[..n], k);
        var i := RestartAt(ms[..n])[k];
        assert es[..n][..i] == es[..i] && ms[..n][..i] == ms[..i];
      }
    }
  }

  lemma SharedAtPrefix(es: seq<Entry>, ms: seq<bool>, n: nat, i: nat)
    requires Marks(es, ms) && i < n <= |es|
    ensures Marks(es[..n], ms[..n]) && SharedAt(es[..n], ms[..n], i) == SharedAt(es, ms, i)
  {
  }

  lemma OffsetStep(es: seq<Entry>, ms: seq<bool>, i: nat)
    requires Marks(es, ms) && i < |es|
    ensures Offset(es, ms, i + 1) == Offset(es, ms, i) + |EncodeEntry(SharedAt(es, ms, i), es[i])|
    ensures Offset(es, ms, i) < Offset(es, ms, i + 1)
    ensures Offset(es, ms, 0) == 0 && Offset(es, ms, |es|) == |Buf(es, ms)|
  {
    MarksPrefix(es, ms, i + 1);
    assert es[..i + 1][..i] == es[..i] && ms[..i + 1][..i] == ms[..i];
    SharedAtPrefix(es, ms, i + 1, i);
    assert es[..|es|] == es && ms[..|ms|] == ms;
  }

  lemma {:induction false} OffsetMonotone(es: seq<Entry>, ms: seq<bool>, i: nat, j: nat)
    requires Marks(es, ms) && i <= j <= |es|
    ensures Offset(es, ms, i) <= Offset(es, ms, j) <= |Buf(es, ms)|
    ensures i < j ==> Offset(es, ms, i) < Offset(es, ms, j)
    decreases |es| - i
  {
    hide Buf;
    if i < |es| {
      OffsetStep(es, ms, i);
      if i < j {
        OffsetMonotone(es, ms, i + 1, j);
      } else {
        OffsetMonotone(es, ms, i + 1, |es|);
        OffsetStep(es, ms, |es| - 1);
      }
    } else {
      assert es[..|es|] == es && ms[..|ms|] == ms;
    }
  }

  lemma {:induction false} BufPrefix(es: seq<Entry>, ms: seq<bool>, i: nat)
    requires Marks(es, ms) && i <= |es|
    ensures Buf(es[..i], ms[..i]) <= Buf(es, ms)
  {
    if i == |es| {
      assert es[..i] == es && ms[..i] == ms;
    } else {
      var n := |es| - 1;
      BufPrefix(es[..n], ms[..n], i);
      assert es[..n][..i] == es[..i] && ms[..n][..i] == ms[..i];
    }
  }

  /** Where each entry lies in the block. */
  lemma EntryLies(es: seq<Entry>, ms: seq<bool>, i: nat)
    requires Marks(es, ms) && i < |es|
    ensures Offset(es, ms, i) <= Offset(es, ms, i + 1) <= |Buf(es, ms)|
    ensures Buf(es, ms)[Offset(es, ms, i)..Offset(es, ms, i + 1)] == EncodeEntry(SharedAt(es, ms, i), es[i])
  {
    hide EncodeEntry;
    BufPrefix(es, ms, i + 1);
    var upto := Buf(es[..i + 1], ms[..i + 1]);
    MarksPrefix(es, ms, i + 1);
    assert es[..i + 1][..i] == es[..i] && ms[..i + 1][..i] == ms[..i];
    SharedAtPrefix(es, ms, i + 1, i);
    assert upto == Buf(es[..i], ms[..i]) + EncodeEntry(SharedAt(es, ms, i), es[i]);
    assert Buf(es, ms)[..|upto|] == upto;
  }

  /** A cursor standing at entry i, with the key of the entry before it unless i is a
      restart point, reads entry i and stops right after it. */
  lemma ParseAt(es: seq<Entry>, ms: seq<bool>, i: nat, limit: nat, lastKey: bytes)
    requires Marks(es, ms) && i < |es| && Fits(es[i])
    requires Offset(es, ms, i + 1) <= limit <= |Buf(es, ms)|
    requires ms[i] || lastKey == es[i - 1].key
    ensures ParseEntry(Buf(es, ms), Offset(es, ms, i), limit, lastKey) == Item(es[i], Offset(es, ms, i + 1))
  {
    hide Buf, Offset, ParseEntry, EncodeEntry;
    EntryLies(es, ms, i);
    OffsetStep(es, ms, i);
    ParseEncoded(Buf(es, ms), Offset(es, ms, i), limit, lastKey, SharedAt(es, ms, i), es[i]);
  }

  // ---------- the whole payload ----------

  function PutOffsets(offs: seq<nat>): (b: bytes)
    ensures |b| == OFFSET_SIZE * |offs|
  {
    if offs == [] then [] else PutOffsets(offs[..|offs| - 1]) + PutLE(offs[|offs| - 1], OFFSET_SIZE)
  }

  /** Builder.Finish. */
  function Payload(es: seq<Entry>, ms: seq<bool>): (b: bytes)
    requires Marks(es, ms)
  {
    Buf(es, ms) + PutOffsets(Restarts(es, ms)) + PutLE(|Restarts(es, ms)|, COUNT_SIZE)
  }

  lemma {:induction false} OffsetLies(offs: seq<nat>, i: nat)
    requires i < |offs|
    ensures PutOffsets(offs)[i * OFFSET_SIZE..(i + 1) * OFFSET_SIZE] == PutLE(offs[i], OFFSET_SIZE)
  {
    if i < |offs| - 1 {
      OffsetLies(offs[..|offs| - 1], i);
      assert PutOffsets(offs)[..OFFSET_SIZE * (|offs| - 1)] == PutOffsets(offs[..|offs| - 1]);
    }
  }

  /** The keys stored at the restart points. */
  function RestartKeys(es: seq<Entry>, ms: seq<bool>): (r: seq<bytes>)
    requires Marks(es, ms)
    ensures |r| == |RestartAt(ms)| && forall k :: 0 <= k < |r| ==> r[k] == es[RestartAt(ms)[k]].key
  {
    seq(|RestartAt(ms)|, k requires 0 <= k < |RestartAt(ms)| => es[RestartAt(ms)[k]].key)
  }
}
