/** Table edits: the table set, the manifest and the files, updated one after the other. */
module TableEdit {
  import opened Bytes
  import opened Ordering
  import opened Tables
  import opened Compaction
  import opened TableSet

  // ---------- the manifest ----------

  predicate MetaBefore(a: TableMeta, b: TableMeta)
  {
    a.seqMax > b.seqMax || (a.seqMax == b.seqMax && Lt(a.path, b.path))
  }

  ghost predicate MetasDiffer(ms: seq<TableMeta>)
  {
    forall i, j :: 0 <= i < j < |ms| ==> ms[i].path != ms[j].path
  }

  /** The last of the given entries under each path. */
  ghost function Latest(ms: seq<TableMeta>): (m: map<bytes, TableMeta>)
    ensures forall p :: p in m ==> m[p].path == p
  {
    if ms == [] then map[] else Latest(ms[..|ms| - 1])[ms[|ms| - 1].path := ms[|ms| - 1]]
  }

  /** What stays and what is added, in read order, no path twice. */
  ghost predicate ManifestOf(out: seq<TableMeta>, existing: seq<TableMeta>, latest: map<bytes, TableMeta>,
                             remove: set<bytes>)
  {
    && SortedBy(out, MetaBefore) && (MetasDiffer(existing) ==> MetasDiffer(out))
    && forall m :: m in out <==>
         (m in existing && m.path !in remove && m.path !in latest) || (m.path in latest && latest[m.path] == m)
  }

  lemma MetaBeforeIsStrictWeak()
    ensures StrictWeak(MetaBefore)
  {
    hide Lt;
    OrderFacts();
    forall a, b ensures Asymmetric(MetaBefore, a, b) { }
    forall a, b, c ensures Between(MetaBefore, a, b, c) { }
  }

  method MergeManifestTables(existing: seq<TableMeta>, add: seq<TableMeta>, remove: set<bytes>)
      returns (out: seq<TableMeta>)
    ensures ManifestOf(out, existing, Latest(add), remove)
  {
    hide Latest, SortSlice, MetaBefore;
    var addMap := Collect(add);
    out := KeepOld(existing, addMap.Keys, remove);
    out := AppendAll(out, addMap);
    SortMetas(out);
    out := SortSlice(out, MetaBefore);
  }

  method Collect(add: seq<TableMeta>) returns (m: map<bytes, TableMeta>)
    ensures m == Latest(add)
  {
    m := map[];
    for i := 0 to |add|
      invariant m == Latest(add[..i])
    {
      m := m[add[i].path := add[i]];
      assert add[..i + 1][..i] == add[..i];
    }
    assert add[..|add|] == add;
  }

  method KeepOld(existing: seq<TableMeta>, added: set<bytes>, remove: set<bytes>) returns (out: seq<TableMeta>)
    ensures forall m :: m in out <==> m in existing && m.path !in remove && m.path !in added
    ensures MetasDiffer(existing) ==> MetasDiffer(out)
  {
    out := [];
    for i := 0 to |existing|
      invariant forall m :: m in out <==> m in existing[..i] && m.path !in remove && m.path !in added
      invariant MetasDiffer(existing) ==> MetasDiffer(out)
    {
      var m := existing[i];
      if m.path !in remove && m.path !in added {
        AppendDiffers(existing, i, out, m);
        out := out + [m];
      }
    }
    assert existing[..|existing|] == existing;
  }

  lemma AppendDiffers(existing: seq<TableMeta>, i: nat, out: seq<TableMeta>, m: TableMeta)
    requires i < |existing| && m == existing[i] && forall x :: x in out ==> x in existing[..i]
    ensures MetasDiffer(existing) && MetasDiffer(out) ==> MetasDiffer(out + [m])
  {
    if MetasDiffer(existing) {
      forall k | 0 <= k < |out| ensures out[k].path != m.path {
        assert out[k] in existing[..i];
        var j :| 0 <= j < i && existing[j] == out[k];
      }
    }
  }

  /** Go iterates over the map in any order. */
  method AppendAll(kept: seq<TableMeta>, added: map<bytes, TableMeta>) returns (out: seq<TableMeta>)
    requires (forall p :: p in added ==> added[p].path == p) && forall m :: m in kept ==> m.path !in added
    ensures forall m :: m in out <==> m in kept || (m.path in added && added[m.path] == m)
    ensures MetasDiffer(kept) ==> MetasDiffer(out)
  {
    out := kept;
    var rest := added.Keys;
    while rest != {}
      invariant rest <= added.Keys && (MetasDiffer(kept) ==> MetasDiffer(out))
      invariant forall m :: m in out <==> m in kept || (m.path in added.Keys - rest && added[m.path] == m)
      decreases rest
    {
      var p :| p in rest;
      rest := rest - {p};
      forall k | 0 <= k < |out| ensures out[k].path != p { assert out[k] in out; }
      out := out + [added[p]];
    }
  }

  lemma SortMetas(ms: seq<TableMeta>)
    ensures var r := SortSlice(ms, MetaBefore);
            SortedBy(r, MetaBefore) && (MetasDiffer(ms) ==> MetasDiffer(r)) && forall m :: m in r <==> m in ms
  {
    hide SortSlice, MetaBefore;
    MetaBeforeIsStrictWeak();
    var r := SortSlice(ms, MetaBefore);
    SortSorts(ms, MetaBefore);
    SortKeepsMembers(ms, MetaBefore);
    if MetasDiffer(ms) {
      SortKeepsDistinct(ms, MetaBefore);
      forall i, j | 0 <= i < j < |r| ensures r[i].path != r[j].path {
        assert r[i] in ms && r[j] in ms;
        var a :| 0 <= a < |ms| && ms[a] == r[i];
        var b :| 0 <= b < |ms| && ms[b] == r[j];
      }
    }
  }

  lemma MetasAreDistinct(ms: seq<TableMeta>)
    requires MetasDiffer(ms)
    ensures Distinct(ms) && forall x, y :: x in ms && y in ms && x != y ==> MetaBefore(x, y) || MetaBefore(y, x)
  {
    hide Lt;
    OrderFacts();
    forall x, y | x in ms && y in ms && x != y
      ensures MetaBefore(x, y) || MetaBefore(y, x)
    {
      LtTrichotomy(x.path, y.path);
    }
  }

  // ---------- the manifest mirrors the table set ----------

  lemma {:induction false} LatestIs(ms: seq<TableMeta>, m: TableMeta)
    requires MetasDiffer(ms)
    ensures m.path in Latest(ms) <==> exists x :: x in ms && x.path == m.path
    ensures m.path in Latest(ms) && Latest(ms)[m.path] == m <==> m in ms
  {
    if ms != [] {
      var front, last := ms[..|ms| - 1], ms[|ms| - 1];
      LatestIs(front, m);
      assert ms == front + [last];
      forall x | x in front
        ensures x.path != last.path
      {
        var i :| 0 <= i < |front| && front[i] == x;
        assert ms[i] == x;
      }
    }
  }

  lemma PathsOfMetas(ts: seq<Table>, p: bytes)
    ensures p in PathsOf(ts) <==> exists x :: x in Metas(ts) && x.path == p
  {
    if p in PathsOf(ts) {
      var t :| t in ts && t.meta.path == p;
      MetasMembers(ts);
    }
    if x :| x in Metas(ts) && x.path == p { MetasMembers(ts); }
  }

  /** Merging an edit into the manifest gives the metadata of the edited table set. */
  lemma ManifestMirrors(ts: seq<Table>, add: seq<Table>, remove: set<bytes>, out: seq<TableMeta>)
    requires PathsDiffer(ts) && PathsDiffer(add) && PathsOf(ts) !! PathsOf(add)
    requires ManifestOf(out, Metas(ts), Latest(Metas(add)), remove)
    ensures out == Metas(Edited(ts, add, remove))
  {
    hide Edited, Latest, MetaBefore, PathsDiffer;
    var now := Edited(ts, add, remove);
    EditedFacts(ts, add, remove);
    EditedMembers(ts, add, remove);
    MetasDifferToo(ts);
    MetasDifferToo(add);
    MetasDifferToo(now);
    MetasAreDistinct(out);
    MetasAreDistinct(Metas(now));
    MetasSorted(now);
    forall m: TableMeta ensures m in out <==> m in Metas(now) {
      LatestIs(Metas(add), m);
      PathsOfMetas(add, m.path);
      EditedMeta(ts, add, remove, m);
    }
    SortedUnique(out, Metas(now), MetaBefore);
  }

  lemma MetasDifferToo(ts: seq<Table>)
    requires PathsDiffer(ts)
    ensures MetasDiffer(Metas(ts))
  {
  }

  lemma MetasSorted(ts: seq<Table>)
    requires SortedBy(ts, ReadBefore)
    ensures SortedBy(Metas(ts), MetaBefore)
  {
    hide Lt;
    forall i, j | 0 <= i < j < |ts|
      ensures !MetaBefore(Metas(ts)[j], Metas(ts)[i])
    {
      assert !ReadBefore(ts[j], ts[i]);
    }
  }

  lemma EditedMeta(ts: seq<Table>, add: seq<Table>, remove: set<bytes>, m: TableMeta)
    requires PathsOf(ts) !! PathsOf(add)
    ensures m in Metas(Edited(ts, add, remove)) <==>
              (m in Metas(ts) && m.path !in remove && m.path !in PathsOf(add)) || m in Metas(add)
  {
    hide Edited;
    EditedMembers(ts, add, remove);
    MetasMembers(ts);
    MetasMembers(add);
    MetasMembers(Edited(ts, add, remove));
  }

  // ---------- two edits ----------

  datatype Edit = Edit(add: seq<Table>, remove: set<bytes>)

  function Applied(ts: seq<Table>, e: Edit): (r: seq<Table>)
  {
    Edited(ts, e.add, e.remove)
  }

  /** Run-unique paths: what is there, and what either edit adds, are different tables. */
  ghost predicate Fresh(ts: seq<Table>, a: Edit, b: Edit)
  {
    && PathsDiffer(ts) && PathsDiffer(a.add) && PathsDiffer(b.add)
    && PathsOf(ts) !! PathsOf(a.add) && PathsOf(ts) !! PathsOf(b.add) && PathsOf(a.add) !! PathsOf(b.add)
  }

  lemma TwiceEdited(ts: seq<Table>, a: Edit, b: Edit)
    requires Fresh(ts, a, b)
    ensures var r := Applied(Applied(ts, a), b);
            && SortedBy(r, ReadBefore) && PathsDiffer(r)
            && forall t :: t in r <==>
                 (t in ts && t.meta.path !in a.remove && t.meta.path !in b.remove)
                   || (t in a.add && t.meta.path !in b.remove) || t in b.add
  {
    hide Edited, PathsDiffer, PathsOf, ReadBefore;
    EditedFacts(ts, a.add, a.remove);
    EditedMembers(ts, a.add, a.remove);
    EditedFacts(Applied(ts, a), b.add, b.remove);
    EditedMembers(Applied(ts, a), b.add, b.remove);
  }

  lemma TablesAreDistinct(ts: seq<Table>)
    requires PathsDiffer(ts)
    ensures Distinct(ts) && forall t, u :: t in ts && u in ts && t != u ==> ReadBefore(t, u) || ReadBefore(u, t)
  {
    hide Lt;
    forall t, u | t in ts && u in ts && t != u
      ensures ReadBefore(t, u) || ReadBefore(u, t)
    {
      LtTrichotomy(t.meta.path, u.meta.path);
    }
  }

  /** The table set and the manifest are updated under separate locks. When two edits reach them in
      different orders, they end with the same tables exactly if neither removes what the other adds. */
  lemma InterleavedEditsAgreeIff(ts: seq<Table>, a: Edit, b: Edit)
    requires Fresh(ts, a, b)
    ensures Applied(Applied(ts, a), b) == Applied(Applied(ts, b), a) <==>
              PathsOf(a.add) !! b.remove && PathsOf(b.add) !! a.remove
  {
    hide Applied, PathsDiffer, ReadBefore;
    var r, s := Applied(Applied(ts, a), b), Applied(Applied(ts, b), a);
    TwiceEdited(ts, a, b);
    TwiceEdited(ts, b, a);
    if PathsOf(a.add) !! b.remove && PathsOf(b.add) !! a.remove {
      forall t
        ensures t in r <==> t in s
      {
        assert t in a.add ==> t.meta.path in PathsOf(a.add);
        assert t in b.add ==> t.meta.path in PathsOf(b.add);
      }
      TablesAreDistinct(r);
      TablesAreDistinct(s);
      SortedUnique(r, s, ReadBefore);
    } else {
      OnlyInOne(ts, a, b);
      OnlyInOne(ts, b, a);
    }
  }

  /** A table that one edit adds and the other removes is in one of the two lists only. */
  lemma OnlyInOne(ts: seq<Table>, a: Edit, b: Edit)
    requires Fresh(ts, a, b)
    ensures !(PathsOf(a.add) !! b.remove) ==>
              exists t :: t in Applied(Applied(ts, b), a) && t !in Applied(Applied(ts, a), b)
  {
    hide Applied, PathsDiffer, ReadBefore;
    TwiceEdited(ts, a, b);
    TwiceEdited(ts, b, a);
    if !(PathsOf(a.add) !! b.remove) {
      var p :| p in PathsOf(a.add) && p in b.remove;
      var t :| t in a.add && t.meta.path == p;
      assert (t in b.add ==> t.meta.path in PathsOf(b.add)) && (t in ts ==> t.meta.path in PathsOf(ts));
      assert t in Applied(Applied(ts, b), a) && t !in Applied(Applied(ts, a), b);
    }
  }

  /** A flush adds a table and a compaction removes it. Set and manifest that take the two edits in
      different orders disagree on it. */
  lemma FlushAgainstCompaction(t: Table)
    ensures var flush, compaction := Edit([t], {}), Edit([], {t.meta.path});
            && Fresh([], flush, compaction)
            && Applied(Applied([], flush), compaction) == [] && Applied(Applied([], compaction), flush) == [t]
  {
    var flush, compaction := Edit([t], {}), Edit([], {t.meta.path});
    var r, s := Applied(Applied([], flush), compaction), Applied(Applied([], compaction), flush);
    TwiceEdited([], flush, compaction);
    TwiceEdited([], compaction, flush);
    SomeMember(r);
    OnlyMember(s, t);
  }

  lemma OnlyMember(ts: seq<Table>, t: Table)
    requires PathsDiffer(ts) && t in ts
    ensures ts == [t] <==> forall u :: u in ts ==> u == t
  {
    if |ts| > 1 { assert ts[0] in ts && ts[1] in ts && ts[0].meta.path != ts[1].meta.path; }
  }

  // ---------- the service ----------

  /** What an edit deletes is neither live nor pending afterwards. */
  lemma StillThere(live: set<bytes>, remove: set<bytes>, add: set<bytes>, pending: set<bytes>, pins: set<bytes>,
                   files: set<bytes>)
    requires live !! pending && live !! add && live <= files && pending <= files && add <= files
    ensures var gone := (live * remove) - pins;
            var l, g := (live - remove) + add, pending + ((live * remove) * pins);
            l <= files && g <= files && l <= files - gone && g <= files - gone
  {
  }

  class Service {
    const tables: Set
    var manifest: seq<TableMeta>
    var walSeq: uint64
    var files: set<bytes>

    ghost predicate Valid()
      reads this, tables, tables.tables
    {
      tables.Valid()
    }

    ghost predicate Mirrors()
      requires Valid()
      reads this, tables, tables.tables
    {
      manifest == Metas(tables.Live())
    }

    /** Every table that somebody may still read has its file. */
    ghost predicate FilesOk()
      requires Valid()
      reads this, tables, tables.tables
    {
      PathsOf(tables.Live()) <= files && tables.pending.Keys <= files
    }

    constructor (tables: Set)
      requires tables.Valid() && tables.Live() == [] && tables.pending == map[]
      ensures this.tables == tables && Valid() && Mirrors() && FilesOk() && walSeq == 0
    {
      this.tables := tables;
      manifest, walSeq, files := [], 0, {};
    }

    /** Table set, then manifest, then files; a manifest that cannot be saved stops before the files. */
    method Apply(add: seq<Table>, remove: set<bytes>, seqno: uint64, saved: bool) returns (ok: bool)
      requires Valid() && FilesOk()
      requires PathsDiffer(add) && PathsOf(add) !! tables.added && PathsOf(add) <= files
      modifies this, tables, tables.tables
      ensures Valid() && FilesOk() && ok == saved && tables.Live() == Edited(old(tables.Live()), add, remove)
      ensures ok ==>
                ManifestOf(manifest, old(manifest), Latest(Metas(add)), remove) && walSeq == if seqno > 0 then seqno
                  else old(walSeq)
      ensures ok && old(Mirrors()) ==> Mirrors()
      ensures ok ==> files == old(files) - ((PathsOf(old(tables.Live())) * remove) - old(tables.pinned).Keys)
      ensures !ok ==> manifest == old(manifest) && walSeq == old(walSeq) && files == old(files)
    {
      hide SortedBy, IndexOk, PinsOk, PendingOk, Conserved, Edited, PathsDiffer, PathsOf, Metas, ManifestOf, Latest;
      ghost var live, pending, pinned := tables.Live(), tables.pending, tables.pinned;
      tables.LiveFacts();
      EditedFacts(live, add, remove);
      var removed := tables.Apply(add, remove);
      StillThere(PathsOf(live), remove, PathsOf(add), pending.Keys, pinned.Keys, files);
      if !saved { return false; }
      var merged := MergeManifestTables(manifest, Metas(add), remove);
      if manifest == Metas(live) { ManifestMirrors(live, add, remove, merged); }
      manifest := merged;
      if seqno > 0 { walSeq := seqno; }
      files := files - PathsOf(removed);
      ok := true;
    }
  }
}
