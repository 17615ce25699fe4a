/** The map memtable: hash buckets, a list of keys, and ranges by sorting the keys. */
module MapTable {
  import opened Bytes
  import opened Entries
  import opened Memtable
  import opened Ordering
  import opened RunFacts
  import S = RangeScan

  // ---------- buckets ----------

  ghost predicate KeysDiffer(bucket: seq<Entry>)
  {
    forall i, j :: 0 <= i < j < |bucket| ==> bucket[i].key != bucket[j].key
  }

  /** The scan of a bucket. */
  method IndexOf(bucket: seq<Entry>, key: bytes) returns (r: Option<nat>)
    ensures r.Some? ==> r.value < |bucket| && bucket[r.value].key == key && Find(bucket, key) == Some(bucket[r.value])
    ensures r.None? ==> Find(bucket, key) == None
  {
    hide Find;
    for i := 0 to |bucket|
      invariant forall j :: 0 <= j < i ==> bucket[j].key != key
    {
      if bucket[i].key == key {
        FirstIs(bucket, key, i);
        return Some(i);
      }
    }
    FindSound(bucket, key);
    return None;
  }

  lemma {:induction false} FirstIs(bucket: seq<Entry>, key: bytes, i: nat)
    requires i < |bucket| && bucket[i].key == key && forall j :: 0 <= j < i ==> bucket[j].key != key
    ensures Find(bucket, key) == Some(bucket[i])
  {
    if i > 0 { FirstIs(bucket[1..], key, i - 1); }
  }

  lemma {:induction false} Replaced(bucket: seq<Entry>, i: nat, e: Entry, key: bytes)
    requires i < |bucket| && bucket[i].key == e.key && KeysDiffer(bucket)
    ensures KeysDiffer(bucket[i := e])
    ensures Find(bucket[i := e], key) == if key == e.key then Some(e) else Find(bucket, key)
  {
    if i > 0 {
      assert bucket[i := e][1..] == bucket[1..][i - 1 := e];
      Replaced(bucket[1..], i - 1, e, key);
    } else {
      assert bucket[0 := e][1..] == bucket[1..];
    }
  }

  function Bucket(entries: map<nat, seq<Entry>>, h: nat): (b: seq<Entry>)
  {
    if h in entries then entries[h] else []
  }

  ghost predicate BucketsOk(entries: map<nat, seq<Entry>>, hash: bytes -> nat, writes: seq<Entry>)
  {
    && (forall h :: h in entries ==> KeysDiffer(entries[h]))
    && forall key: bytes :: Find(Bucket(entries, hash(key)), key) == Last(writes, key)
  }

  /** Every key once, and only keys that were written. */
  ghost predicate KeysOk(keys: seq<bytes>, writes: seq<Entry>)
  {
    && (forall i, j :: 0 <= i < j < |keys| ==> keys[i] != keys[j])
    && forall key: bytes :: key in keys <==> Last(writes, key).Some?
  }

  lemma LastOne(writes: seq<Entry>, e: Entry, key: bytes)
    ensures Last(writes + [e], key) == if e.key == key then Some(e) else Last(writes, key)
  {
    assert (writes + [e])[..|writes|] == writes;
  }

  /** A bucket with the entry in its place. */
  ghost predicate Updated(before: seq<Entry>, after: seq<Entry>, e: Entry)
  {
    KeysDiffer(after) && forall key: bytes :: Find(after, key) == if key == e.key then Some(e) else Find(before, key)
  }

  lemma BucketsStep(entries: map<nat, seq<Entry>>, hash: bytes -> nat, writes: seq<Entry>, e: Entry, after: seq<Entry>)
    requires BucketsOk(entries, hash, writes) && Updated(Bucket(entries, hash(e.key)), after, e)
    ensures BucketsOk(entries[hash(e.key) := after], hash, writes + [e])
  {
    hide Find, Last, KeysDiffer;
    var now := entries[hash(e.key) := after];
    forall key: bytes ensures Find(Bucket(now, hash(key)), key) == Last(writes + [e], key) { LastOne(writes, e, key); }
  }

  lemma KeysStep(keys: seq<bytes>, writes: seq<Entry>, e: Entry)
    requires KeysOk(keys, writes)
    ensures Last(writes, e.key).Some? ==> KeysOk(keys, writes + [e])
    ensures Last(writes, e.key).None? ==> KeysOk(keys + [e.key], writes + [e])
  {
    hide Last;
    forall key: bytes
      ensures Last(writes + [e], key).Some? <==> e.key == key || Last(writes, key).Some?
    {
      LastOne(writes, e, key);
    }
  }

  lemma SizeStep(writes: seq<Entry>, e: Entry)
    ensures RunOf(writes + [e]) == Put(RunOf(writes), e)
    ensures Size(RunOf(writes + [e])) == Size(RunOf(writes)) + EntrySize(e) - SizeOf(Last(writes, e.key))
  {
    assert (writes + [e])[..|writes|] == writes;
    RunReads(writes, e.key);
    PutSize(RunOf(writes), e);
  }

  // ---------- the keys in order ----------

  lemma LtIsStrictWeak()
    ensures StrictWeak(Lt)
  {
    hide Lt;
    OrderFacts();
    forall a, b ensures Asymmetric(Lt, a, b) { }
    forall a, b, c ensures Between(Lt, a, b, c) { }
  }

  /** Sorting different keys makes them increase. */
  lemma SortedKeys(keys: seq<bytes>)
    requires forall i, j :: 0 <= i < j < |keys| ==> keys[i] != keys[j]
    ensures var r := SortSlice(keys, Lt);
            |r| == |keys| && (forall i, j :: 0 <= i < j < |r| ==> Lt(r[i], r[j])) && forall k :: k in r <==> k in keys
  {
    hide SortSlice;
    var r := SortSlice(keys, Lt);
    LtIsStrictWeak();
    SortSorts(keys, Lt);
    SortKeepsMembers(keys, Lt);
    SortKeepsDistinct(keys, Lt);
    forall i, j | 0 <= i < j < |r| ensures Lt(r[i], r[j]) { LtTrichotomy(r[i], r[j]); }
  }

  /** The entries of the first n keys that are in range. */
  ghost predicate Picked(keys: seq<bytes>, n: nat, writes: seq<Entry>, start: bytes, end: bytes, out: seq<Entry>)
  {
    && n <= |keys| && Sorted(out) && (out != [] ==> n > 0 && Le(out[|out| - 1].key, keys[n - 1]))
    && forall e :: e in out <==>
         (exists i :: 0 <= i < n && keys[i] == e.key) && Last(writes, e.key) == Some(e) && S.InRange(e.key, start, end)
  }

  lemma NothingPicked(keys: seq<bytes>, writes: seq<Entry>, start: bytes, end: bytes)
    ensures Picked(keys, 0, writes, start, end, [])
  {
  }

  /** What the next key adds. */
  lemma PickOne(keys: seq<bytes>, n: nat, writes: seq<Entry>, start: bytes, end: bytes, out: seq<Entry>)
    requires Picked(keys, n, writes, start, end, out) && n < |keys|
             && forall i, j :: 0 <= i < j < |keys| ==> Lt(keys[i], keys[j])
    ensures var e := Last(writes, keys[n]);
            if S.InRange(keys[n], start, end) && e.Some? then Picked(keys, n + 1, writes, start, end, out + [e.value])
              else Picked(keys, n + 1, writes, start, end, out)
  {
    hide Last, S.InRange, Lt;
    LastSound(writes, keys[n]);
    OrderFacts();
    var e := Last(writes, keys[n]);
    if out != [] { LastBelow(keys, n, out); }
    if S.InRange(keys[n], start, end) && e.Some? { SortedAppend(out, e.value); }
  }

  lemma LastBelow(keys: seq<bytes>, n: nat, out: seq<Entry>)
    requires 0 < n < |keys| && (forall i, j :: 0 <= i < j < |keys| ==> Lt(keys[i], keys[j])) && out != []
             && Le(out[|out| - 1].key, keys[n - 1])
    ensures Lt(out[|out| - 1].key, keys[n]) && Le(out[|out| - 1].key, keys[n])
  {
    LeLtTransitive(out[|out| - 1].key, keys[n - 1], keys[n]);
    LtAsymmetric(out[|out| - 1].key, keys[n]);
  }

  /** Past the last key, or past the end of the range, nothing is missing. */
  lemma AllPicked(sorted: seq<bytes>, n: nat, keys: seq<bytes>, writes: seq<Entry>, start: bytes, end: bytes,
                  out: seq<Entry>)
    requires Picked(sorted, n, writes, start, end, out) && KeysOk(keys, writes)
             && (forall k :: k in sorted <==> k in keys)
    requires forall i, j :: 0 <= i < j < |sorted| ==> Lt(sorted[i], sorted[j])
    requires n < |sorted| ==> end != [] && !Lt(sorted[n], end)
    ensures out == S.Select(RunOf(writes), start, end)
  {
    hide Last, RunOf, S.Select, Lt;
    forall e: Entry | Last(writes, e.key) == Some(e) && S.InRange(e.key, start, end) ensures e in out {
      assert e.key in keys && e.key in sorted;
      var i :| 0 <= i < |sorted| && sorted[i] == e.key;
      if i >= n { PastEnd(sorted, n, i, end); }
    }
    IsRange(writes, start, end, out);
  }

  lemma PastEnd(sorted: seq<bytes>, n: nat, i: nat, end: bytes)
    requires n <= i < |sorted| && !Lt(sorted[n], end)
             && forall a, b :: 0 <= a < b < |sorted| ==> Lt(sorted[a], sorted[b])
    ensures !Lt(sorted[i], end)
  {
    if n < i && Lt(sorted[i], end) { LtTransitive(sorted[n], sorted[i], end); }
  }

  lemma BucketIs(entries: map<nat, seq<Entry>>, hash: bytes -> nat, writes: seq<Entry>, key: bytes)
    requires BucketsOk(entries, hash, writes)
    ensures KeysDiffer(Bucket(entries, hash(key))) && Find(Bucket(entries, hash(key)), key) == Last(writes, key)
  {
  }

  lemma InPlace(bucket: seq<Entry>, i: nat, e: Entry)
    requires i < |bucket| && bucket[i].key == e.key && KeysDiffer(bucket)
    ensures Updated(bucket, bucket[i := e], e)
  {
    hide Find, KeysDiffer;
    forall key: bytes
      ensures Find(bucket[i := e], key) == if key == e.key then Some(e) else Find(bucket, key)
    {
      Replaced(bucket, i, e, key);
    }
    Replaced(bucket, i, e, e.key);
  }

  lemma Appended(bucket: seq<Entry>, e: Entry)
    requires KeysDiffer(bucket) && Find(bucket, e.key) == None
    ensures Updated(bucket, bucket + [e], e)
  {
    hide Find;
    FindSound(bucket, e.key);
    forall key: bytes
      ensures Find(bucket + [e], key) == if key == e.key then Some(e) else Find(bucket, key)
    {
      FindAfter(bucket, e, key);
    }
  }

  lemma NothingHeld(hash: bytes -> nat)
    ensures BucketsOk(map[], hash, []) && KeysOk([], []) && Size(RunOf([])) == 0
  {
  }

  class Table {
    const hash: bytes -> nat
    var entries: map<nat, seq<Entry>>
    var keys: seq<bytes>
    var seqno: nat
    var sizeBytes: int

    ghost var writes: seq<Entry>         // every write since the table was last cleared

    ghost predicate Valid()
      reads this
    {
      BucketsOk(entries, hash, writes) && KeysOk(keys, writes) && sizeBytes == RunFacts.Size(RunOf(writes))
    }

    constructor (hash: bytes -> nat)
      ensures Valid() && writes == [] && seqno == 0 && this.hash == hash
    {
      this.hash := hash;
      entries, keys, seqno, sizeBytes, writes := map[], [], 0, 0, [];
    }

    method GetByKey(key: bytes) returns (r: Option<Entry>)
      requires Valid()
      ensures r == Last(writes, key) == Find(RunOf(writes), key)
    {
      hide Find, Last, RunOf, KeysDiffer;
      RunReads(writes, key);
      var bucket := Bucket(entries, hash(key));
      var i := IndexOf(bucket, key);
      return if i.None? then None else Some(bucket[i.value]);
    }

    method SetEntry(e: Entry) returns (prev: Option<Entry>)
      requires Valid()
      modifies `entries, `keys
      ensures BucketsOk(entries, hash, writes + [e]) && KeysOk(keys, writes + [e]) && prev == Last(writes, e.key)
    {
      hide Find, Last, RunOf, BucketsOk, KeysOk, Updated;
      KeysStep(keys, writes, e);
      var bucket := Bucket(entries, hash(e.key));
      BucketIs(entries, hash, writes, e.key);
      var i := IndexOf(bucket, e.key);
      if i.Some? {
        prev := Some(bucket[i.value]);
        InPlace(bucket, i.value, e);
        BucketsStep(entries, hash, writes, e, bucket[i.value := e]);
        entries := entries[hash(e.key) := bucket[i.value := e]];
      } else {
        prev := None;
        Appended(bucket, e);
        BucketsStep(entries, hash, writes, e, bucket + [e]);
        entries := entries[hash(e.key) := bucket + [e]];
        keys := keys + [e.key];
      }
    }

    method UpdateEntry(e: Entry)
      requires Valid()
      modifies `entries, `keys, `sizeBytes, `writes
      ensures Valid() && writes == old(writes) + [e]
    {
      hide BucketsOk, KeysOk, Last, RunOf, RunFacts.Size;
      SizeStep(writes, e);
      var prev := SetEntry(e);
      sizeBytes := sizeBytes + EntrySize(e) - SizeOf(prev);
      writes := writes + [e];
    }

    /** One write: it is the last write of its key from now on. */
    method ApplyOwned(e: Entry)
      requires Valid()
      modifies this
      ensures Valid() && writes == old(writes) + [e]
      ensures seqno == if e.seqno as nat <= old(seqno) then old(seqno) else e.seqno as nat
    {
      hide BucketsOk, KeysOk, RunOf, RunFacts.Size;
      if e.seqno as nat > seqno { seqno := e.seqno as nat; }
      UpdateEntry(e);
    }

    method ApplyBatchOwned(batch: seq<Entry>)
      requires Valid()
      modifies this
      ensures Valid() && writes == old(writes) + batch
      ensures old(seqno) <= seqno && (forall e :: e in batch ==> e.seqno as nat <= seqno)
      ensures seqno == old(seqno) || exists e :: e in batch && e.seqno as nat == seqno
    {
      hide BucketsOk, KeysOk, RunOf, RunFacts.Size;
      ghost var before, top := writes, seqno;
      for i := 0 to |batch|
        invariant Valid() && writes == before + batch[..i]
        invariant top <= seqno && (forall j :: 0 <= j < i ==> batch[j].seqno as nat <= seqno)
        invariant seqno == top || exists e :: e in batch && e.seqno as nat == seqno
      {
        var e := batch[i];
        if e.seqno as nat > seqno { seqno := e.seqno as nat; }
        UpdateEntry(e);
        assert batch[..i + 1] == batch[..i] + [e];
      }
      assert batch[..|batch|] == batch;
    }

    method Size() returns (n: int)
      requires Valid()
      ensures n == RunFacts.Size(RunOf(writes))
    {
      n := sizeBytes;
    }

    /** The entries in range, by sorting the keys. */
    method Range(start: bytes, end: bytes) returns (out: seq<Entry>)
      requires Valid()
      ensures out == S.Select(RunOf(writes), start, end)
    {
      hide BucketsOk, RunFacts.Size, SortSlice, Picked, S.Select, RunOf, Last, Find;
      if |start| > 0 && |end| > 0 && !Lt(start, end) {
        EmptyRange(RunOf(writes), start, end);
        return [];
      }
      SortedKeys(keys);
      var sorted := SortSlice(keys, Lt);
      out := [];
      NothingPicked(sorted, writes, start, end);
      var i := 0;
      while i < |sorted|
        invariant 0 <= i <= |sorted| && Picked(sorted, i, writes, start, end, out)
      {
        PickOne(sorted, i, writes, start, end, out);
        if |start| == 0 || !Lt(sorted[i], start) {
          if |end| > 0 && !Lt(sorted[i], end) { break; }
          var e := GetByKey(sorted[i]);
          if e.Some? { out := out + [e.value]; }
        }
        i := i + 1;
      }
      AllPicked(sorted, i, keys, writes, start, end, out);
    }

    /** Hands out everything in key order and starts over. */
    method Drain() returns (out: seq<Entry>)
      requires Valid()
      modifies `entries, `keys, `sizeBytes, `writes
      ensures Valid() && out == old(RunOf(writes)) && writes == []
    {
      hide RunOf, Last;
      out := Range([], []);
      WholeRange(RunOf(writes));
      entries, keys, sizeBytes, writes := map[], [], 0, [];
      NothingHeld(hash);
    }
  }
}
