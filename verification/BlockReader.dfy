/** Decoding a data block, and searching it through its restart points. */
module BlockReader {
  import opened Bytes
  import opened Entries
  import opened Ordering
  import opened BlockFormat

  datatype Block = Block(data: bytes, restarts: seq<nat>, restartKeys: seq<bytes>)

  /** A block layout whose sizes fit the 32-bit fields. */
  ghost predicate LayoutOk(es: seq<Entry>, ms: seq<bool>)
  {
    Marks(es, ms) && es != [] && (forall e :: e in es ==> Fits(e)) && |Buf(es, ms)| < UINT32
  }

  ghost function BlockOf(es: seq<Entry>, ms: seq<bool>): (b: Block)
    requires Marks(es, ms)
  {
    Block(Buf(es, ms), Restarts(es, ms), RestartKeys(es, ms))
  }

  // ---------- Decode ----------

  /** The number of restart points, from the last four bytes. */
  function CountOf(p: bytes): (n: nat)
    requires |p| >= COUNT_SIZE
  {
    GetLE(p[|p| - COUNT_SIZE..])
  }

  predicate HasOffsets(p: bytes)
  {
    |p| >= COUNT_SIZE && |p| >= COUNT_SIZE + CountOf(p) * OFFSET_SIZE
  }

  function DataOf(p: bytes): (d: bytes)
    requires HasOffsets(p)
  {
    p[..|p| - COUNT_SIZE - CountOf(p) * OFFSET_SIZE]
  }

  function OffsetOf(p: bytes, i: nat): (n: nat)
    requires HasOffsets(p) && i < CountOf(p)
  {
    var at := |DataOf(p)| + i * OFFSET_SIZE;
    GetLE(p[at..at + OFFSET_SIZE])
  }

  /** A complete entry without shared prefix starts here. */
  predicate RestartEntryOk(data: bytes, off: nat)
  {
    && off + ENTRY_HEADER <= |data|
    && GetLE(data[off..off + 4]) == 0
    && off + ENTRY_HEADER + GetLE(data[off + 4..off + 8]) + GetLE(data[off + 8..off + 12]) <= |data|
  }

  function RestartKeyOf(data: bytes, off: nat): (k: bytes)
    requires RestartEntryOk(data, off)
  {
    data[off + ENTRY_HEADER..off + ENTRY_HEADER + GetLE(data[off + 4..off + 8])]
  }

  predicate WellFormed(p: bytes)
  {
    && HasOffsets(p)
    && (CountOf(p) == 0 ==> DataOf(p) == [])
    && (forall i: nat :: i < CountOf(p) ==> OffsetOf(p, i) < |DataOf(p)| % UINT32)
    && (forall i: nat :: i < CountOf(p) ==> RestartEntryOk(DataOf(p), OffsetOf(p, i)))
  }

  ghost function Decoded(p: bytes): (b: Block)
    requires WellFormed(p)
  {
    Block(DataOf(p),
          seq(CountOf(p), i requires 0 <= i < CountOf(p) => OffsetOf(p, i)),
          seq(CountOf(p), i requires 0 <= i < CountOf(p) => RestartKeyOf(DataOf(p), OffsetOf(p, i))))
  }

  /** Succeeds exactly on well-formed payloads, and reads off the three parts of the block. */
  method Decode(payload: bytes) returns (r: Option<Block>)
    ensures r.Some? <==> WellFormed(payload)
    ensures r.Some? ==> r.value == Decoded(payload)
  {
    hide GetLE;
    if |payload| < COUNT_SIZE { return None; }
    var count := GetLE(payload[|payload| - COUNT_SIZE..]);
    var offsetsLen := count * OFFSET_SIZE;
    if |payload| < COUNT_SIZE + offsetsLen { return None; }
    var offsetStart := |payload| - COUNT_SIZE - offsetsLen;
    var data := payload[..offsetStart];
    if count == 0 && |data| > 0 { return None; }
    var restarts: seq<nat> := [];
    for i := 0 to count
      invariant |restarts| == i && forall k: nat :: k < i ==> restarts[k] == OffsetOf(payload, k) < |data| % UINT32
    {
      var pos := offsetStart + i * OFFSET_SIZE;
      var off := GetLE(payload[pos..pos + OFFSET_SIZE]);
      assert off == OffsetOf(payload, i);
      if off >= |data| % UINT32 { return None; }
      restarts := restarts + [off];
    }
    var keys: seq<bytes> := [];
    for i := 0 to |restarts|
      invariant |keys| == i
      invariant forall k: nat :: k < i ==>
                  RestartEntryOk(data, restarts[k]) && keys[k] == RestartKeyOf(data, restarts[k])
    {
      var pos := restarts[i];
      assert pos == OffsetOf(payload, i);
      if |data| - pos < ENTRY_HEADER { return None; }
      var shared, unshared, valLen := GetLE(data[pos..pos + 4]), GetLE(data[pos + 4..pos + 8]),
          GetLE(data[pos + 8..pos + 12]);
      if shared != 0 { return None; }
      var keyStart := pos + ENTRY_HEADER;
      var keyEnd := keyStart + unshared;
      if keyEnd + valLen > |data| { return None; }
      keys := keys + [data[keyStart..keyEnd]];
    }
    r := Some(Block(data, restarts, keys));
  }

  // ---------- Decode of what the builder wrote ----------

  lemma PayloadParts(es: seq<Entry>, ms: seq<bool>)
    requires LayoutOk(es, ms)
    ensures var p := Payload(es, ms);
            HasOffsets(p) && CountOf(p) == |Restarts(es, ms)| && DataOf(p) == Buf(es, ms)
    ensures |Restarts(es, ms)| > 0
  {
    hide Buf, Fits;
    var p, n := Payload(es, ms), |Restarts(es, ms)|;
    RestartsAre(es, ms);
    RestartAtSorted(ms);
    assert 0 in RestartAt(ms);
    RestartCount(es, ms);
    assert p[|p| - COUNT_SIZE..] == PutLE(n, COUNT_SIZE);
    RoundTrip32(n);
  }

  lemma {:induction false} RestartCount(es: seq<Entry>, ms: seq<bool>)
    requires Marks(es, ms)
    ensures |Restarts(es, ms)| <= |Buf(es, ms)|
  {
    if es != [] { RestartCount(es[..|es| - 1], ms[..|ms| - 1]); }
  }

  lemma PayloadOffset(es: seq<Entry>, ms: seq<bool>, i: nat)
    requires LayoutOk(es, ms) && i < |Restarts(es, ms)|
    ensures HasOffsets(Payload(es, ms)) && i < CountOf(Payload(es, ms))
    ensures OffsetOf(Payload(es, ms), i) == Restarts(es, ms)[i] < |Buf(es, ms)|
  {
    hide Buf, Fits, PutLE, GetLE, HasOffsets, CountOf, RestartAt, Restarts;
    var p, rs := Payload(es, ms), Restarts(es, ms);
    PayloadParts(es, ms);
    RestartsAre(es, ms);
    var k := RestartAt(ms)[i];
    OffsetMonotone(es, ms, k, |es|);
    OffsetMonotone(es, ms, k, k + 1);
    OffsetMonotone(es, ms, k + 1, |es|);
    var part := PutOffsets(rs);
    OffsetLies(rs, i);
    assert p[|Buf(es, ms)|..|Buf(es, ms)| + |part|] == part;
    SliceWithin(p, |Buf(es, ms)|, part, i * OFFSET_SIZE, (i + 1) * OFFSET_SIZE);
    RoundTrip32(rs[i]);
  }

  /** A restart point holds its entry in full. */
  lemma RestartEntry(es: seq<Entry>, ms: seq<bool>, i: nat)
    requires LayoutOk(es, ms) && i < |es| && ms[i]
    ensures RestartEntryOk(Buf(es, ms), Offset(es, ms, i))
    ensures RestartKeyOf(Buf(es, ms), Offset(es, ms, i)) == es[i].key
  {
    hide Buf, Offset, Header, PutLE, GetLE;
    var data, off, b := Buf(es, ms), Offset(es, ms, i), EncodeEntry(0, es[i]);
    EntryLies(es, ms, i);
    OffsetStep(es, ms, i);
    assert Fits(es[i]);
    EncodedParts(0, es[i]);
    HeaderFields(0, |es[i].key|, es[i]);
    var h := b[..ENTRY_HEADER];
    SliceWithin(data, off, b, 0, ENTRY_HEADER);
    SliceWithin(data, off, h, 0, 4);
    SliceWithin(data, off, h, 4, 8);
    SliceWithin(data, off, h, 8, 12);
    SliceWithin(data, off, b, ENTRY_HEADER, ENTRY_HEADER + |es[i].key|);
    assert es[i].key[0..] == es[i].key;
  }

  /** Decoding a finished block gives back its entry area, restart offsets and restart keys. */
  lemma DecodePayload(es: seq<Entry>, ms: seq<bool>)
    requires LayoutOk(es, ms)
    ensures WellFormed(Payload(es, ms)) && Decoded(Payload(es, ms)) == BlockOf(es, ms)
  {
    hide Buf, Offset, PutLE, GetLE, Payload, CountOf, DataOf, OffsetOf, RestartEntryOk, RestartKeyOf, RestartAt,
         Restarts;
    var p := Payload(es, ms);
    PayloadParts(es, ms);
    RestartsAre(es, ms);
    forall i: nat | i < CountOf(p)
      ensures OffsetOf(p, i) == Restarts(es, ms)[i] < |DataOf(p)|
      ensures RestartEntryOk(DataOf(p), OffsetOf(p, i))
              && RestartKeyOf(DataOf(p), OffsetOf(p, i)) == RestartKeys(es, ms)[i]
    {
      PayloadOffset(es, ms, i);
      RestartEntry(es, ms, RestartAt(ms)[i]);
    }
  }

  // ---------- Cursor ----------

  class Cursor {
    const data: bytes
    const limit: nat
    var offset: nat
    var lastKey: bytes

    constructor (b: Block, offset: int, limit: int)
      ensures data == b.data && this.limit <= |data| && this.offset <= this.limit && lastKey == []
      ensures 0 < limit <= |b.data| ==> this.limit == limit
      ensures limit <= 0 || limit > |b.data| ==> this.limit == |b.data|
      ensures 0 <= offset <= this.limit ==> this.offset == offset
    {
      var lim := if limit <= 0 || limit > |b.data| then |b.data| else limit;
      var off := if offset < 0 then 0 else offset;
      data, this.limit, lastKey := b.data, lim, [];
      this.offset := if off > lim then lim else off;
    }

    method Next() returns (r: Parsed)
      requires limit <= |data|
      modifies this
      ensures r == ParseEntry(data, old(offset), limit, old(lastKey))
      ensures r.Item? ==> offset == r.next && lastKey == r.entry.key
      ensures !r.Item? ==> offset == old(offset) && lastKey == old(lastKey)
    {
      r := ParseEntry(data, offset, limit, lastKey);
      if r.Item? { offset, lastKey := r.next, r.entry.key; }
    }

    /** The cursor stands before entry i of a block laid out like this, and stops before entry n. */
    ghost predicate At(es: seq<Entry>, ms: seq<bool>, i: nat, n: nat)
      reads this
    {
      && LayoutOk(es, ms) && i <= n <= |es| && data == Buf(es, ms)
      && offset == Offset(es, ms, i) && limit == Offset(es, ms, n)
      && (i < |es| ==> ms[i] || lastKey == es[i - 1].key)
    }

    /** Next on a well-formed block: the entries in order, then the end. */
    method Advance(ghost es: seq<Entry>, ghost ms: seq<bool>, ghost i: nat, ghost n: nat) returns (r: Parsed)
      requires limit <= |data|
      modifies this
      ensures r == ParseEntry(data, old(offset), limit, old(lastKey))
      ensures r.Item? ==> offset == r.next && lastKey == r.entry.key
      ensures !r.Item? ==> offset == old(offset) && lastKey == old(lastKey)
      ensures old(At(es, ms, i, n)) && i < n ==> r.Item? && r.entry == es[i] && At(es, ms, i + 1, n)
      ensures old(At(es, ms, i, n)) && i == n ==> r == End
    {
      hide Buf, Offset, ParseEntry;
      ghost var at := At(es, ms, i, n);
      r := Next();
      if at && i < n {
        OffsetMonotone(es, ms, i + 1, n);
        OffsetMonotone(es, ms, n, n);
        assert Fits(es[i]);
        ParseAt(es, ms, i, limit, old(lastKey));
      } else if at {
        ParseAtEnd(data, offset, limit, lastKey);
      }
    }
  }

  lemma ParseAtEnd(data: bytes, offset: nat, limit: nat, lastKey: bytes)
    requires limit <= |data| && offset >= limit
    ensures ParseEntry(data, offset, limit, lastKey) == End
  {
  }

  // ---------- search ----------

  datatype Hit = Absent | Found(entry: Entry) | Corrupt

  function AboveAt(keys: seq<bytes>, key: bytes): (at: nat -> bool)
  {
    (i: nat) => i < |keys| && Lt(key, keys[i])
  }

  /** The restart point to start from: the last one whose key is at most the key, or the first. */
  function SeekRestart(keys: seq<bytes>, key: bytes): (i: nat)
    requires keys != []
    ensures i < |keys|
  {
    var n := Search(0, |keys|, AboveAt(keys, key));
    if n == 0 then 0 else n - 1
  }

  lemma SeekRestartFinds(keys: seq<bytes>, key: bytes)
    requires keys != [] && forall i, j :: 0 <= i < j < |keys| ==> Lt(keys[i], keys[j])
    ensures var i := SeekRestart(keys, key);
            && (i > 0 ==> Le(keys[i], key))
            && (i + 1 < |keys| ==> Lt(key, keys[i + 1]))
  {
    var at := AboveAt(keys, key);
    forall i, j | 0 <= i <= j < |keys| && at(i) ensures at(j) { if i < j { LtTransitive(key, keys[i], keys[j]); } }
    SearchFinds(0, |keys|, at);
    var i := SeekRestart(keys, key);
    assert i > 0 ==> !at(i);
    assert i + 1 < |keys| ==> at(i + 1);
  }

  lemma RestartKeysSorted(es: seq<Entry>, ms: seq<bool>)
    requires Sorted(es) && Marks(es, ms)
    ensures forall i, j :: 0 <= i < j < |RestartKeys(es, ms)| ==> Lt(RestartKeys(es, ms)[i], RestartKeys(es, ms)[j])
  {
    RestartAtSorted(ms);
  }

  ghost predicate KeysBelow(es: seq<Entry>, i: nat, key: bytes)
  {
    i <= |es| && forall j :: 0 <= j < i ==> Lt(es[j].key, key)
  }

  ghost predicate KeysAbove(es: seq<Entry>, n: nat, key: bytes)
  {
    n <= |es| && forall j :: n <= j < |es| ==> Lt(key, es[j].key)
  }

  lemma NotThere(es: seq<Entry>, i: nat, key: bytes)
    requires KeysBelow(es, i, key) && KeysAbove(es, i, key)
    ensures Find(es, key) == None
  {
    FindSound(es, key);
    LtIrreflexive(key);
  }

  lemma AboveFrom(es: seq<Entry>, i: nat, key: bytes)
    requires Sorted(es) && i < |es| && Lt(key, es[i].key)
    ensures KeysAbove(es, i, key)
  {
    forall j | i < j < |es| ensures Lt(key, es[j].key) { LtTransitive(key, es[i].key, es[j].key); }
  }

  lemma BelowUpTo(es: seq<Entry>, i: nat, key: bytes)
    requires Sorted(es) && i < |es| && Le(es[i].key, key)
    ensures KeysBelow(es, i, key)
  {
    forall j | 0 <= j < i ensures Lt(es[j].key, key) { LtLeTransitive(es[j].key, es[i].key, key); }
  }

  lemma OneMoreBelow(es: seq<Entry>, i: nat, key: bytes)
    requires KeysBelow(es, i, key) && i < |es| && Lt(es[i].key, key)
    ensures KeysBelow(es, i + 1, key)
  {
  }

  /** The stretch of entries a search scans: from a restart point whose predecessors are all below
      the key, up to the next restart point, from which on all keys are above it. */
  lemma SearchWindow(es: seq<Entry>, ms: seq<bool>, key: bytes) returns (idx: nat, i: nat, n: nat)
    requires LayoutOk(es, ms) && Sorted(es)
    ensures RestartKeys(es, ms) != [] && idx == SeekRestart(RestartKeys(es, ms), key)
    ensures idx < |RestartAt(ms)| == |Restarts(es, ms)| && i == RestartAt(ms)[idx] && i < n <= |es| && ms[i]
    ensures n == if idx + 1 < |RestartAt(ms)| then RestartAt(ms)[idx + 1] else |es|
    ensures KeysBelow(es, i, key) && KeysAbove(es, n, key)
  {
    hide Buf, RestartAt, Lt, Le, SeekRestart, KeysAbove, Restarts;
    var keys := RestartKeys(es, ms);
    RestartsAre(es, ms);
    RestartAtSorted(ms);
    assert 0 in RestartAt(ms);
    idx := SeekRestart(keys, key);
    RestartKeysSorted(es, ms);
    SeekRestartFinds(keys, key);
    i := RestartAt(ms)[idx];
    n := if idx + 1 < |RestartAt(ms)| then RestartAt(ms)[idx + 1] else |es|;
    if idx == 0 {
      FirstIsZero(RestartAt(ms));
    } else {
      BelowUpTo(es, i, key);
    }
    if n < |es| { AboveFrom(es, n, key); } else { NoneAbove(es, key); }
  }

  lemma NoneAbove(es: seq<Entry>, key: bytes)
    ensures KeysAbove(es, |es|, key)
  {
  }

  lemma FirstIsZero(s: seq<nat>)
    requires 0 in s && forall j, k :: 0 <= j < k < |s| ==> s[j] < s[k]
    ensures s[0] == 0
  {
    var z :| 0 <= z < |s| && s[z] == 0;
    assert s[0] <= s[z];
  }

  ghost predicate GoodBlock(b: Block, es: seq<Entry>, ms: seq<bool>)
  {
    LayoutOk(es, ms) && Sorted(es) && b == BlockOf(es, ms)
  }

  /** A cursor opened at the restart point of the search, or reading on to the end of the block. */
  lemma WindowCursor(b: Block, key: bytes, cursor: Cursor, es: seq<Entry>, ms: seq<bool>, whole: bool)
      returns (i: nat, n: nat)
    requires GoodBlock(b, es, ms) && b.restarts != [] && |b.restarts| == |b.restartKeys|
    requires cursor.data == b.data && cursor.lastKey == []
    requires var idx := SeekRestart(b.restartKeys, key);
             var limit := if !whole && idx + 1 < |b.restarts| then b.restarts[idx + 1] else |b.data|;
             && (0 < limit <= |b.data| ==> cursor.limit == limit)
             && (limit <= 0 || limit > |b.data| ==> cursor.limit == |b.data|)
             && (b.restarts[idx] <= cursor.limit ==> cursor.offset == b.restarts[idx])
    ensures cursor.At(es, ms, i, n) && KeysBelow(es, i, key) && KeysAbove(es, n, key)
    ensures whole ==> n == |es|
  {
    hide Buf, RestartAt, Restarts, Offset, KeysBelow, KeysAbove, SeekRestart, LayoutOk;
    var idx;
    assert Marks(es, ms) by { LayoutMarks(es, ms); }
    idx, i, n := SearchWindow(es, ms, key);
    if whole { n := |es|; NoneAbove(es, key); }
    RestartsAre(es, ms);
    OffsetMonotone(es, ms, i, n);
    OffsetStep(es, ms, |es| - 1);
  }

  lemma LayoutMarks(es: seq<Entry>, ms: seq<bool>)
    requires LayoutOk(es, ms)
    ensures Marks(es, ms)
  {
  }

  lemma GoodHasRestarts(b: Block, es: seq<Entry>, ms: seq<bool>)
    requires GoodBlock(b, es, ms)
    ensures b.restarts != [] && |b.restarts| == |b.restartKeys|
  {
    RestartsAre(es, ms);
    RestartAtSorted(ms);
    assert 0 in RestartAt(ms);
  }

  /** On a well-formed sorted block, exactly the linear search of its entries. */
  method FindView(b: Block, key: bytes, ghost es: seq<Entry>, ghost ms: seq<bool>) returns (r: Hit)
    requires |b.restarts| == |b.restartKeys|
    ensures GoodBlock(b, es, ms) ==> r == match Find(es, key) case None => Absent case Some(e) => Found(e)
  {
    hide Buf, Offset, ParseEntry, LayoutOk, RestartAt, Restarts, Lt, KeysBelow, KeysAbove, GoodBlock, Find, SeekRestart,
         Sorted;
    ghost var good := GoodBlock(b, es, ms);
    if good { GoodHasRestarts(b, es, ms); GoodIsSorted(b, es, ms); }
    if |b.restarts| == 0 { return Absent; }
    var idx := SeekRestart(b.restartKeys, key);
    var limit := |b.data|;
    if idx + 1 < |b.restarts| { limit := b.restarts[idx + 1]; }
    var cursor := new Cursor(b, b.restarts[idx], limit);
    ghost var i, n: nat := 0, 0;
    if good { i, n := WindowCursor(b, key, cursor, es, ms, false); }
    while true
      invariant cursor.limit <= |cursor.data| && cursor.offset <= cursor.limit
      invariant good ==> Sorted(es) && cursor.At(es, ms, i, n) && KeysBelow(es, i, key) && KeysAbove(es, n, key)
      decreases cursor.limit - cursor.offset
    {
      var e := cursor.Advance(es, ms, i, n);
      match e
      case Bad => return Corrupt;
      case End =>
        if good { NotThere(es, i, key); }
        return Absent;
      case Item(entry, next) =>
        if entry.key == key {
          if good { FindAt(es, i); }
          return Found(entry);
        }
        if Lt(key, entry.key) {
          if good { AboveFrom(es, i, key); NotThere(es, i, key); }
          return Absent;
        }
        if good { LtTrichotomy(entry.key, key); OneMoreBelow(es, i, key); }
        i := i + 1;
    }
  }

  lemma GoodIsSorted(b: Block, es: seq<Entry>, ms: seq<bool>)
    requires GoodBlock(b, es, ms)
    ensures Sorted(es)
  {
  }

  /** On a well-formed sorted block, the first entry at or above the key, with a cursor
      that goes on from there to the end of the block. */
  method Seek(b: Block, key: bytes, ghost es: seq<Entry>, ghost ms: seq<bool>)
      returns (cursor: Cursor?, r: Hit, ghost i: nat)
    requires |b.restarts| == |b.restartKeys|
    ensures r.Found? ==>
              cursor != null && fresh(cursor) && cursor.limit <= |cursor.data| && cursor.offset <= cursor.limit
    ensures GoodBlock(b, es, ms) && r.Found? ==>
              i < |es| && KeysBelow(es, i, key) && r.entry == es[i] && Le(key, es[i].key)
                && cursor.At(es, ms, i + 1, |es|)
    ensures GoodBlock(b, es, ms) && !r.Found? ==> r == Absent && KeysBelow(es, |es|, key)
  {
    hide Buf, Offset, ParseEntry, LayoutOk, RestartAt, Restarts, Lt, KeysBelow, KeysAbove, GoodBlock, SeekRestart,
         Sorted;
    ghost var good := GoodBlock(b, es, ms);
    i := 0;
    if good { GoodHasRestarts(b, es, ms); }
    if |b.restarts| == 0 { return null, Absent, 0; }
    var idx := SeekRestart(b.restartKeys, key);
    var c := new Cursor(b, b.restarts[idx], |b.data|);
    ghost var n: nat := 0;
    if good { i, n := WindowCursor(b, key, c, es, ms, true); }
    while true
      invariant c.limit <= |c.data| && c.offset <= c.limit
      invariant good ==> c.At(es, ms, i, n) && KeysBelow(es, i, key) && n == |es|
      decreases c.limit - c.offset
    {
      var e := c.Advance(es, ms, i, n);
      match e
      case Bad => return null, Corrupt, i;
      case End => return null, Absent, i;
      case Item(entry, next) =>
        if !Lt(entry.key, key) { return c, Found(entry), i; }
        if good { OneMoreBelow(es, i, key); }
        i := i + 1;
    }
  }

  /** A cursor from any restart point to the end of the block yields exactly the entries from there on. */
  method ReadFrom(b: Block, k: nat, ghost es: seq<Entry>, ghost ms: seq<bool>) returns (out: seq<Entry>, ok: bool)
    requires k < |b.restarts|
    ensures LayoutOk(es, ms) && b == BlockOf(es, ms) ==> k < |RestartAt(ms)| && ok && out == es[RestartAt(ms)[k]..]
  {
    hide Buf, Offset, ParseEntry, LayoutOk, RestartAt, Restarts;
    var cursor := new Cursor(b, b.restarts[k], |b.data|);
    ghost var good := LayoutOk(es, ms) && (LayoutMarks(es, ms); b == BlockOf(es, ms));
    ghost var i: nat, from: nat := 0, 0;
    if good {
      RestartsAre(es, ms);
      i, from := RestartAt(ms)[k], RestartAt(ms)[k];
      OffsetMonotone(es, ms, i, |es|);
      OffsetStep(es, ms, |es| - 1);
    }
    out := [];
    while true
      invariant cursor.limit <= |cursor.data| && cursor.offset <= cursor.limit
      invariant good ==> cursor.At(es, ms, i, |es|) && from <= i && out == es[from..i]
      decreases cursor.limit - cursor.offset
    {
      var e := cursor.Advance(es, ms, i, |es|);
      match e
      case Bad => return out, false;
      case End => return out, true;
      case Item(entry, next) =>
        out := out + [entry];
        i := i + 1;
    }
  }
}
