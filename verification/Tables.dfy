/** SSTables by level, the order in which reads visit them, and the invariant
    that makes the first hit the newest version. Key ranges of two tables in one
    level may overlap: only their key sets are kept apart. */
module Tables {
  import opened Bytes
  import opened Entries
  import opened Ordering

  datatype TableMeta = TableMeta(
    path: bytes, level: nat, minKey: bytes, maxKey: bytes,
    seqMin: uint64, seqMax: uint64, sizeBytes: uint64)

  /** A table's metadata together with what its handle reads back. */
  datatype Table = Table(meta: TableMeta, entries: seq<Entry>)

  predicate Holds(t: Table, key: bytes)
  {
    HasKey(t.entries, key)
  }

  /** The metadata the writer computes for a non-empty sorted run. */
  ghost predicate WfTable(t: Table)
  {
    && t.entries != [] && Sorted(t.entries)
    && t.meta.minKey == t.entries[0].key
    && t.meta.maxKey == t.entries[|t.entries| - 1].key
    && (forall e :: e in t.entries ==> t.meta.seqMin <= e.seqno <= t.meta.seqMax)
    && (exists e :: e in t.entries && e.seqno == t.meta.seqMin)
    && (exists e :: e in t.entries && e.seqno == t.meta.seqMax)
  }

  lemma OneEntryIsWf(t: Table, e: Entry)
    requires t.entries == [e] && t.meta.minKey == t.meta.maxKey == e.key && t.meta.seqMin == t.meta.seqMax == e.seqno
    ensures WfTable(t)
  {
    assert t.entries[0] in t.entries;
  }

  /** Read order of the table set: larger SeqMax first, then smaller path. */
  predicate ReadBefore(t: Table, u: Table)
  {
    t.meta.seqMax > u.meta.seqMax || (t.meta.seqMax == u.meta.seqMax && Lt(t.meta.path, u.meta.path))
  }

  lemma ReadBeforeIsStrictWeak()
    ensures StrictWeak(ReadBefore)
  {
    OrderFacts();
    forall t, u ensures Asymmetric(ReadBefore, t, u) { }
    forall t, u, v ensures Between(ReadBefore, t, u, v) { }
  }

  /** A point read over tables in read order: the first table that holds the key. */
  function Lookup(ts: seq<Table>, key: bytes): (r: Option<Entry>)
  {
    if ts == [] then None
    else match Find(ts[0].entries, key)
      case Some(e) => Some(e)
      case None => Lookup(ts[1..], key)
  }

  // ---------- the levelled invariant ----------

  ghost predicate KeysDisjoint(t: Table, u: Table)
  {
    forall key :: !(Holds(t, key) && Holds(u, key))
  }

  /** Every sequence number of t is above every one of u. */
  predicate SeqAbove(t: Table, u: Table)
  {
    t.meta.seqMin > u.meta.seqMax
  }

  ghost predicate Compatible(t: Table, u: Table)
  {
    if t.meta.level < u.meta.level then SeqAbove(t, u)
    else if u.meta.level < t.meta.level then SeqAbove(u, t)
    else if t.meta.level == 0 then SeqAbove(t, u) || SeqAbove(u, t)
    else KeysDisjoint(t, u)
  }

  ghost predicate Layered(ts: seq<Table>)
  {
    && (forall t :: t in ts ==> WfTable(t))
    && (forall t, u :: t in ts && u in ts && t != u ==> t.meta.path != u.meta.path && Compatible(t, u))
  }

  // ---------- newest versions ----------

  ghost predicate IsVersion(ts: seq<Table>, key: bytes, e: Entry)
  {
    e.key == key && exists t :: t in ts && e in t.entries
  }

  ghost predicate IsNewest(ts: seq<Table>, key: bytes, e: Entry)
  {
    IsVersion(ts, key, e) && forall f :: IsVersion(ts, key, f) ==> f == e || f.seqno < e.seqno
  }

  lemma {:induction false} LookupSound(ts: seq<Table>, key: bytes)
    ensures Lookup(ts, key).Some? ==> IsVersion(ts, key, Lookup(ts, key).value)
    ensures Lookup(ts, key).None? ==> forall e :: !IsVersion(ts, key, e)
    ensures Lookup(ts, key).Some? ==> exists i ::
              && 0 <= i < |ts| && Find(ts[i].entries, key) == Lookup(ts, key)
              && forall j :: 0 <= j < i ==> !Holds(ts[j], key)
  {
    if ts != [] {
      FindSound(ts[0].entries, key);
      LookupSound(ts[1..], key);
      if Find(ts[0].entries, key).None? {
        if Lookup(ts, key).Some? {
          var i :| 0 <= i < |ts[1..]| && Find(ts[1..][i].entries, key) == Lookup(ts, key)
                   && forall j :: 0 <= j < i ==> !Holds(ts[1..][j], key);
          forall j | 0 <= j < i + 1 ensures !Holds(ts[j], key) { if j > 0 { assert ts[j] == ts[1..][j - 1]; } }
          assert ts[i + 1] == ts[1..][i];
        } else {
          forall e ensures !IsVersion(ts, key, e) { VersionSplit(ts, key, e); }
        }
      }
    }
  }

  lemma VersionSplit(ts: seq<Table>, key: bytes, e: Entry)
    requires ts != []
    ensures IsVersion(ts, key, e) ==> HasKey(ts[0].entries, key) || IsVersion(ts[1..], key, e)
  {
    if IsVersion(ts, key, e) {
      var t :| t in ts && e in t.entries;
      assert t != ts[0] ==> t in ts[1..];
    }
  }

  lemma VersionIsHeld(ts: seq<Table>, key: bytes, e: Entry) returns (t: Table)
    requires IsVersion(ts, key, e)
    ensures t in ts && e in t.entries && Holds(t, key)
  {
    t :| t in ts && e in t.entries;
    var i :| 0 <= i < |t.entries| && t.entries[i] == e;
    assert t.entries[i].key == key;
  }

  /** Two versions of one key in one table are the same entry. */
  lemma OneVersionPerTable(t: Table, e: Entry, f: Entry)
    requires Sorted(t.entries) && e in t.entries && f in t.entries && e.key == f.key
    ensures e == f
  {
    var i: nat :| i < |t.entries| && t.entries[i] == e;
    var j: nat :| j < |t.entries| && t.entries[j] == f;
    SortedIsInjective(t.entries, i, j);
  }

  /** Two tables that hold the same key order its versions by table. */
  lemma SharedKeyOrders(t: Table, u: Table, e: Entry, f: Entry)
    requires WfTable(t) && WfTable(u) && Compatible(t, u)
    requires e in t.entries && f in u.entries && e.key == f.key
    ensures SeqAbove(t, u) || SeqAbove(u, t)
    ensures e.seqno > f.seqno <==> SeqAbove(t, u)
  {
    if t.meta.level == u.meta.level != 0 {
      var i :| 0 <= i < |t.entries| && t.entries[i] == e;
      var j :| 0 <= j < |u.entries| && u.entries[j] == f;
      assert Holds(t, e.key) && Holds(u, e.key);
      assert false;
    }
  }

  /** In a layered set read in read order, the first table that holds a key holds
      its newest version, and no other version carries that sequence number. */
  lemma FirstHitIsNewest(ts: seq<Table>, key: bytes)
    requires Layered(ts) && SortedBy(ts, ReadBefore)
    ensures Lookup(ts, key).Some? ==> IsNewest(ts, key, Lookup(ts, key).value)
    ensures Lookup(ts, key).None? ==> forall e :: !IsVersion(ts, key, e)
  {
    LookupSound(ts, key);
    if Lookup(ts, key).Some? {
      var e := Lookup(ts, key).value;
      var i :| 0 <= i < |ts| && Find(ts[i].entries, key) == Some(e) && forall j :: 0 <= j < i ==> !Holds(ts[j], key);
      FindSound(ts[i].entries, key);
      forall f | IsVersion(ts, key, f) ensures f == e || f.seqno < e.seqno {
        var u := VersionIsHeld(ts, key, f);
        var j :| 0 <= j < |ts| && ts[j] == u;
        if u == ts[i] {
          OneVersionPerTable(u, e, f);
        } else {
          assert i < j;
          SharedKeyOrders(ts[i], u, e, f);
        }
      }
    }
  }

  /** What a read returns is settled by the newest version alone. */
  lemma LookupIs(ts: seq<Table>, key: bytes, e: Entry)
    requires Layered(ts) && SortedBy(ts, ReadBefore) && IsNewest(ts, key, e)
    ensures Lookup(ts, key) == Some(e)
  {
    FirstHitIsNewest(ts, key);
  }
}
