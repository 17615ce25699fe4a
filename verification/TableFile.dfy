/** A table file: data blocks, filters, index and meta as regions of one byte string,
    and why the index leads every key to the one block that can hold it. */
module TableFile {
  import opened Bytes
  import opened Concat
  import opened Entries
  import opened BlockFormat
  import opened BlockReader
  import opened Envelope
  import opened IndexFormat
  import Bloom

  // ---------- regions ----------

  ghost predicate Lies(file: bytes, at: nat, b: bytes)
  {
    at + |b| <= |file| && file[at..at + |b|] == b
  }

  lemma LiesStill(file: bytes, longer: bytes, at: nat, b: bytes)
    requires Lies(file, at, b) && file <= longer
    ensures Lies(longer, at, b)
  {
    assert longer[at..at + |b|] == file[at..at + |b|];
  }

  lemma LiesAtEnd(file: bytes, b: bytes)
    ensures Lies(file + b, |file|, b)
  {
  }

  /** A block written somewhere in the file, with its place recorded in a 64-bit offset
      and a 32-bit length. */
  ghost predicate Stored(file: bytes, offset: uint64, length: uint32, b: bytes)
  {
    length == |b| % UINT32 && exists at: nat :: Lies(file, at, b) && offset == at % UINT64
  }

  lemma StoredStill(file: bytes, longer: bytes, offset: uint64, length: uint32, b: bytes)
    requires Stored(file, offset, length, b) && file <= longer
    ensures Stored(longer, offset, length, b)
  {
    var at: nat :| Lies(file, at, b) && offset == at % UINT64;
    LiesStill(file, longer, at, b);
  }

  /** Where sizes fit the fields, a stored block is found again. */
  lemma StoredIsFound(file: bytes, offset: uint64, length: uint32, b: bytes)
    requires Stored(file, offset, length, b) && |file| < UINT64 && |b| < UINT32
    ensures length == |b| && Lies(file, offset, b)
  {
  }

  // ---------- data blocks ----------

  /** A data block: its entries, their restart marks, and where it was written. */
  datatype Cut = Cut(es: seq<Entry>, ms: seq<bool>, at: nat)

  ghost predicate Shaped(cut: Cut)
  {
    cut.es != [] && Marks(cut.es, cut.ms)
  }

  ghost function DataBlock(c: Codec, x: Compression, cut: Cut): (b: bytes)
    requires Shaped(cut)
  {
    Seal(c, Payload(cut.es, cut.ms), Data, x)
  }

  ghost predicate CutOk(c: Codec, x: Compression, file: bytes, cut: Cut)
  {
    Shaped(cut) && Lies(file, cut.at, DataBlock(c, x, cut))
  }

  ghost predicate CutsOk(c: Codec, x: Compression, file: bytes, cuts: seq<Cut>)
  {
    forall i :: 0 <= i < |cuts| ==> CutOk(c, x, file, cuts[i])
  }

  lemma CutsOkStill(c: Codec, x: Compression, file: bytes, longer: bytes, cuts: seq<Cut>)
    requires CutsOk(c, x, file, cuts) && file <= longer
    ensures CutsOk(c, x, longer, cuts)
  {
    forall i | 0 <= i < |cuts| ensures CutOk(c, x, longer, cuts[i]) {
      assert CutOk(c, x, file, cuts[i]);
      LiesStill(file, longer, cuts[i].at, DataBlock(c, x, cuts[i]));
    }
  }

  ghost predicate AllShaped(cuts: seq<Cut>)
  {
    forall i :: 0 <= i < |cuts| ==> Shaped(cuts[i])
  }

  /** The index entry of a block, with its 64-bit offset and 32-bit length. */
  ghost function EntryFor(c: Codec, x: Compression, cut: Cut): (e: IndexEntry)
    requires Shaped(cut)
  {
    IndexEntry(cut.es[0].key, cut.at % UINT64, |DataBlock(c, x, cut)| % UINT32)
  }

  ghost function IndexFor(c: Codec, x: Compression, cuts: seq<Cut>): (r: seq<IndexEntry>)
    requires AllShaped(cuts)
    ensures |r| == |cuts| && forall i :: 0 <= i < |cuts| ==> r[i] == EntryFor(c, x, cuts[i])
  {
    seq(|cuts|, i requires 0 <= i < |cuts| => assert Shaped(cuts[i]); EntryFor(c, x, cuts[i]))
  }

  ghost function Runs(cuts: seq<Cut>): (r: seq<seq<Entry>>)
    ensures |r| == |cuts| && forall i :: 0 <= i < |cuts| ==> r[i] == cuts[i].es
  {
    seq(|cuts|, i requires 0 <= i < |cuts| => cuts[i].es)
  }

  ghost function Contents(cuts: seq<Cut>): (es: seq<Entry>)
  {
    Flat(Runs(cuts))
  }

  ghost function GroupRuns(groups: seq<seq<Cut>>): (r: seq<seq<Entry>>)
    ensures |r| == |groups| && forall j :: 0 <= j < |groups| ==> r[j] == Contents(groups[j])
  {
    seq(|groups|, j requires 0 <= j < |groups| => Contents(groups[j]))
  }

  /** The entries of a table, group by group of blocks. */
  lemma {:induction false} ContentsByGroup(groups: seq<seq<Cut>>)
    ensures Contents(Flat(groups)) == Flat(GroupRuns(groups))
  {
    if groups == [] {
      assert Runs(Flat(groups)) == [];
    } else {
      var n := |groups| - 1;
      ContentsByGroup(groups[..n]);
      assert GroupRuns(groups)[..n] == GroupRuns(groups[..n]);
      assert Runs(Flat(groups)) == Runs(Flat(groups[..n])) + Runs(groups[n]);
      FlatAppend(Runs(Flat(groups[..n])), Runs(groups[n]));
    }
  }

  lemma ContentsAppend(cuts: seq<Cut>, cut: Cut)
    ensures Contents(cuts + [cut]) == Contents(cuts) + cut.es
  {
    assert Runs(cuts + [cut]) == Runs(cuts) + [cut.es];
    FlatStep(Runs(cuts), cut.es);
  }

  lemma GroupHead(group: seq<Cut>)
    requires AllShaped(group) && group != []
    ensures Contents(group) != [] && Contents(group)[0] == group[0].es[0]
  {
    assert Shaped(group[0]);
    FlatAt(Runs(group), 0, 0);
    assert Start(Runs(group), 0) == 0;
  }

  // ---------- one index level ----------

  /** An index over runs of entries: one entry for each run, under its first key. */
  ghost predicate Indexes(entries: seq<IndexEntry>, runs: seq<seq<Entry>>)
  {
    |entries| == |runs| && forall i :: 0 <= i < |runs| ==> runs[i] != [] && entries[i].key == runs[i][0].key
  }

  lemma RunsInOrder(runs: seq<seq<Entry>>, i: nat, k: nat, j: nat, l: nat)
    requires Sorted(Flat(runs)) && i < j < |runs| && k < |runs[i]| && l < |runs[j]|
    ensures Lt(runs[i][k].key, runs[j][l].key)
  {
    FlatAt(runs, i, k);
    FlatAt(runs, j, l);
    StartsInOrder(runs, i, j);
  }

  lemma FirstKeysIncrease(entries: seq<IndexEntry>, runs: seq<seq<Entry>>)
    requires Sorted(Flat(runs)) && Indexes(entries, runs)
    ensures KeysIncrease(entries)
  {
    forall i, j | 0 <= i < j < |entries| ensures Lt(entries[i].key, entries[j].key) { RunsInOrder(runs, i, 0, j, 0); }
  }

  lemma {:induction false} FindAppend(a: seq<Entry>, b: seq<Entry>, key: bytes)
    ensures Find(a + b, key) == if Find(a, key).Some? then Find(a, key) else Find(b, key)
  {
    if a == [] {
      assert a + b == b;
    } else {
      assert (a + b)[1..] == a[1..] + b;
      FindAppend(a[1..], b, key);
    }
  }

  lemma NotInRuns(runs: seq<seq<Entry>>, key: bytes)
    requires forall j, k :: 0 <= j < |runs| && 0 <= k < |runs[j]| ==> runs[j][k].key != key
    ensures Find(Flat(runs), key) == None
  {
    FindSound(Flat(runs), key);
    if HasKey(Flat(runs), key) {
      var n :| 0 <= n < |Flat(runs)| && Flat(runs)[n].key == key;
      FlatMembers(runs, Flat(runs)[n]);
    }
  }

  lemma BeforeSlot(entries: seq<IndexEntry>, runs: seq<seq<Entry>>, key: bytes, r: nat)
    requires Sorted(Flat(runs)) && Indexes(entries, runs) && IsSlot(entries, key, r)
    ensures Find(Flat(runs[..r]), key) == None
  {
    hide Find, Lt;
    forall j, k | 0 <= j < |runs[..r]| && 0 <= k < |runs[..r][j]| ensures runs[..r][j][k].key != key {
      RunsInOrder(runs, j, k, r, 0);
      LtLeTransitive(runs[j][k].key, entries[r].key, key);
      LtIrreflexive(key);
    }
    NotInRuns(runs[..r], key);
  }

  lemma AfterSlot(entries: seq<IndexEntry>, runs: seq<seq<Entry>>, key: bytes, r: int)
    requires Sorted(Flat(runs)) && Indexes(entries, runs) && IsSlot(entries, key, r)
    ensures Find(Flat(runs[r + 1..]), key) == None
  {
    hide Find, Lt;
    var rest: seq<seq<Entry>> := runs[r + 1..];
    forall j, k | 0 <= j < |rest| && 0 <= k < |rest[j]| ensures rest[j][k].key != key {
      var n := r + 1 + j;
      assert Lt(key, entries[n].key);
      if k > 0 {
        FlatAt(runs, n, 0);
        FlatAt(runs, n, k);
        LtTransitive(key, entries[n].key, runs[n][k].key);
      }
      LtIrreflexive(key);
    }
    NotInRuns(rest, key);
  }

  /** Only the run at the key's slot can hold the key. */
  lemma SlotFinds(entries: seq<IndexEntry>, runs: seq<seq<Entry>>, key: bytes, r: int)
    requires Sorted(Flat(runs)) && Indexes(entries, runs) && IsSlot(entries, key, r)
    ensures Find(Flat(runs), key) == if r < 0 then None else Find(runs[r], key)
  {
    hide Find, Lt, IsSlot, Indexes, Sorted, Flat;
    AfterSlot(entries, runs, key, r);
    if r < 0 {
      assert r == -1 by { SlotRange(entries, key, r); }
      assert runs[0..] == runs;
    } else {
      assert r < |runs| by { SlotRange(entries, key, r); IndexesLength(entries, runs); }
      BeforeSlot(entries, runs, key, r);
      FlatAround(runs, r);
      var before, after := Flat(runs[..r]), Flat(runs[r + 1..]);
      FindAppend(before + runs[r], after, key);
      FindAppend(before, runs[r], key);
    }
  }

  lemma SlotRange(entries: seq<IndexEntry>, key: bytes, r: int)
    requires IsSlot(entries, key, r)
    ensures -1 <= r < |entries|
  {
  }

  lemma IndexesLength(entries: seq<IndexEntry>, runs: seq<seq<Entry>>)
    requires Indexes(entries, runs)
    ensures |entries| == |runs|
  {
  }

  // ---------- filters ----------

  ghost predicate Covers(hash: Bloom.Hash, f: Bloom.FilterData, es: seq<Entry>)
  {
    Bloom.Sized(|f.bits|) && forall i :: 0 <= i < |es| ==> Bloom.May(hash, f, es[i].key)
  }

  lemma NotCoveredIsAbsent(hash: Bloom.Hash, f: Bloom.FilterData, es: seq<Entry>, key: bytes)
    requires Covers(hash, f, es) && !Bloom.May(hash, f, key)
    ensures Find(es, key) == None
  {
    FindSound(es, key);
  }

  // ---------- the whole file ----------

  /** What the parts of a table file are, as the writer decided them. */
  datatype Layout = Layout(
    x: Compression,
    cuts: seq<Cut>,
    partitioned: bool,
    groups: seq<seq<Cut>>,               // the blocks of each index partition
    top: seq<IndexEntry>,
    filter: Option<Bloom.FilterData>,
    filterPartitioned: bool,
    filters: seq<Bloom.FilterData>,      // one for each index partition
    filterTop: seq<IndexEntry>,
    info: TableInfo,
    footer: Footer)

  ghost function IndexBlock(c: Codec, entries: seq<IndexEntry>): (b: bytes)
  {
    Seal(c, IndexBytes(entries), Index, Plain)
  }

  ghost function FilterBlock(c: Codec, f: Bloom.FilterData): (b: bytes)
  {
    Seal(c, Bloom.Encode(f), Filter, Plain)
  }

  ghost function FilterTopBlock(c: Codec, entries: seq<IndexEntry>): (b: bytes)
  {
    Seal(c, IndexBytes(entries), Filter, Plain)
  }

  ghost function MetaBlock(c: Codec, m: TableInfo): (b: bytes)
  {
    Seal(c, EncodeMeta(m), Meta, Plain)
  }

  ghost predicate PartOk(c: Codec, x: Compression, file: bytes, group: seq<Cut>, e: IndexEntry)
  {
    && AllShaped(group) && group != [] && e.key == group[0].es[0].key
    && Stored(file, e.offset, e.length, IndexBlock(c, IndexFor(c, x, group)))
  }

  ghost predicate PartsOk(c: Codec, x: Compression, file: bytes, groups: seq<seq<Cut>>, top: seq<IndexEntry>)
  {
    |top| == |groups| && forall j :: 0 <= j < |groups| ==> PartOk(c, x, file, groups[j], top[j])
  }

  ghost predicate FilterPartOk(c: Codec, file: bytes, group: seq<Cut>, f: Bloom.FilterData, e: IndexEntry)
  {
    && AllShaped(group) && group != [] && e.key == group[0].es[0].key
    && Stored(file, e.offset, e.length, FilterBlock(c, f)) && Covers(c.hash, f, Contents(group))
  }

  ghost predicate FiltersOk(c: Codec, file: bytes, groups: seq<seq<Cut>>, fs: seq<Bloom.FilterData>,
                            top: seq<IndexEntry>)
  {
    |top| == |groups| == |fs| && forall j :: 0 <= j < |groups| ==> FilterPartOk(c, file, groups[j], fs[j], top[j])
  }

  ghost predicate IndexOk(c: Codec, file: bytes, l: Layout)
  {
    && CutsOk(c, l.x, file, l.cuts) && AllShaped(l.cuts)
    && (if l.partitioned then l.groups != [] && Flat(l.groups) == l.cuts && PartsOk(c, l.x, file, l.groups, l.top)
        else l.top == IndexFor(c, l.x, l.cuts))
    && Stored(file, l.footer.indexOffset, l.footer.indexLen, IndexBlock(c, l.top))
  }

  ghost predicate FilterOk(c: Codec, file: bytes, es: seq<Entry>, l: Layout)
  {
    if l.filterPartitioned then
      && l.partitioned && l.filter.None? && FiltersOk(c, file, l.groups, l.filters, l.filterTop)
      && (|file| < UINT64 ==> l.info.bloomOffset > 0)
      && Stored(file, l.info.bloomOffset, l.info.bloomLen, FilterTopBlock(c, l.filterTop))
    else
      && l.filterTop == []
      && match l.filter
         case None => l.info.bloomLen == 0
         case Some(f) =>
           && Covers(c.hash, f, es) && (|file| < UINT64 ==> l.info.bloomOffset > 0)
           && Stored(file, l.info.bloomOffset, l.info.bloomLen, FilterBlock(c, f))
  }

  ghost predicate MetaOk(c: Codec, file: bytes, es: seq<Entry>, l: Layout)
  {
    && es != [] && l.info.minKey == es[0].key && l.info.maxKey == es[|es| - 1].key
    && Stored(file, l.footer.metaOffset, l.footer.metaLen, MetaBlock(c, l.info))
    && |file| >= FOOTER_SIZE && Lies(file, |file| - FOOTER_SIZE, EncodeFooter(c, l.footer))
    && l.footer.flags == (if l.partitioned then 1 else 0) + (if l.filterPartitioned then 2 else 0)
  }

  /** A file that holds these entries in this layout. */
  ghost predicate FileOf(c: Codec, file: bytes, es: seq<Entry>, l: Layout)
  {
    && es == Contents(l.cuts)
    && IndexOk(c, file, l) && FilterOk(c, file, es, l) && MetaOk(c, file, es, l)
  }

  /** Sizes are within the fields that record them. */
  ghost predicate FieldsFit(c: Codec, file: bytes, l: Layout)
  {
    && |file| < UINT64 / 2
    && (forall i :: 0 <= i < |l.cuts| ==> CutFits(c, l.x, l.cuts[i]))
    && (forall j :: 0 <= j < |l.groups| && AllShaped(l.groups[j]) ==>
         |IndexBlock(c, IndexFor(c, l.x, l.groups[j]))| < UINT32)
    && (forall j :: 0 <= j < |l.filters| ==> |FilterBlock(c, l.filters[j])| < UINT32)
    && (l.filter.Some? ==> |FilterBlock(c, l.filter.value)| < UINT32)
    && |FilterTopBlock(c, l.filterTop)| < UINT32 && |IndexBlock(c, l.top)| < UINT32 && |MetaBlock(c, l.info)| < UINT32
  }

  ghost predicate CutFits(c: Codec, x: Compression, cut: Cut)
  {
    LayoutOk(cut.es, cut.ms) && |DataBlock(c, x, cut)| < UINT32
  }
}
