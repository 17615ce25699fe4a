/** Opening a table file and point reads through filter, index, block fetch and decode. */
module Reader {
  import opened Bytes
  import opened Concat
  import opened Entries
  import opened BlockFormat
  import opened BlockReader
  import opened Envelope
  import opened IndexFormat
  import opened TableFile
  import Bloom

  datatype Reader = Reader(
    info: TableInfo,
    top: seq<IndexEntry>,
    partitioned: bool,
    filter: Option<Bloom.FilterData>,
    filterIndex: seq<IndexEntry>,
    filterPartitioned: bool,
    readBlockMaxBytes: int)

  /** An intact table: a file in this layout, with sizes the fields can hold. */
  ghost predicate Intact(c: Codec, file: bytes, es: seq<Entry>, l: Layout)
  {
    RoundTrips(c) && Sorted(es) && FileOf(c, file, es, l) && FieldsFit(c, file, l)
  }

  /** What opening an intact table leaves in memory. */
  ghost predicate ReaderOf(rd: Reader, l: Layout)
  {
    && rd.info == l.info && rd.top == l.top && rd.partitioned == l.partitioned
    && rd.filter == l.filter && rd.filterIndex == l.filterTop && rd.filterPartitioned == l.filterPartitioned
  }

  // ---------- blocks ----------

  function ReadAt(file: bytes, offset: nat, length: nat): (r: Option<bytes>)
  {
    if length == 0 || offset + length > |file| then None else Some(file[offset..offset + length])
  }

  function ReadBlockPayload(c: Codec, file: bytes, offset: nat, length: nat, t: BlockType): (r: Option<bytes>)
  {
    match ReadAt(file, offset, length) case None => None case Some(data) => DecodeBlockPayload(c, data, t)
  }

  lemma StoredReads(c: Codec, file: bytes, offset: uint64, length: uint32, payload: bytes, t: BlockType, x: Compression)
    requires RoundTrips(c) && |file| < UINT64 && |Seal(c, payload, t, x)| < UINT32
    requires Stored(file, offset, length, Seal(c, payload, t, x))
    ensures ReadBlockPayload(c, file, offset, length, t) == Some(payload)
  {
    hide DecodeBlockPayload, RoundTrips, CompressPayload;
    StoredIsFound(file, offset, length, Seal(c, payload, t, x));
    SealOpens(c, payload, t, x, t);
  }

  // ---------- open ----------

  lemma CutKeyFits(c: Codec, x: Compression, cut: Cut)
    requires CutFits(c, x, cut)
    ensures cut.es != [] && forall k :: 0 <= k < |cut.es| ==> |cut.es[k].key| < UINT32
  {
    forall k | 0 <= k < |cut.es| ensures |cut.es[k].key| < UINT32 { assert Fits(cut.es[k]); }
  }

  lemma TopKeysFit(c: Codec, file: bytes, l: Layout)
    requires IndexOk(c, file, l) && FieldsFit(c, file, l)
    ensures KeysFit(l.top)
    ensures forall j :: 0 <= j < |l.groups| && l.partitioned ==> KeysFit(IndexFor(c, l.x, l.groups[j]))
  {
    hide Flat, Stored, CutOk, CutFits, DataBlock, IndexBlock, FilterBlock, FilterTopBlock, MetaBlock, Contents;
    if l.partitioned {
      forall j, i | 0 <= j < |l.groups| && 0 <= i < |l.groups[j]| ensures CutFits(c, l.x, l.groups[j][i]) {
        FlatAt(l.groups, j, i);
      }
      forall j | 0 <= j < |l.groups|
        ensures PartOk(c, l.x, file, l.groups[j], l.top[j]) && KeysFit(IndexFor(c, l.x, l.groups[j]))
                && |l.top[j].key| < UINT32
      {
        assert PartOk(c, l.x, file, l.groups[j], l.top[j]);
        GroupKeysFit(c, l.x, l.groups[j]);
      }
    } else {
      GroupKeysFit(c, l.x, l.cuts);
    }
  }

  lemma GroupKeysFit(c: Codec, x: Compression, group: seq<Cut>)
    requires AllShaped(group) && forall i :: 0 <= i < |group| ==> CutFits(c, x, group[i])
    ensures KeysFit(IndexFor(c, x, group))
    ensures group != [] ==> Shaped(group[0]) && |group[0].es[0].key| < UINT32
  {
    hide CutFits, DataBlock;
    forall i | 0 <= i < |group| ensures Shaped(group[i]) && |group[i].es[0].key| < UINT32 {
      assert Shaped(group[i]);
      CutKeyFits(c, x, group[i]);
    }
  }

  lemma FilterKeysFit(c: Codec, file: bytes, es: seq<Entry>, l: Layout)
    requires IndexOk(c, file, l) && FieldsFit(c, file, l) && FilterOk(c, file, es, l)
    ensures KeysFit(l.filterTop)
  {
    hide Flat, Stored, CutOk, CutFits, DataBlock, IndexBlock, FilterBlock, FilterTopBlock, MetaBlock, Contents, Covers,
         PartOk;
    if l.filterPartitioned {
      forall j | 0 <= j < |l.filterTop| ensures |l.filterTop[j].key| < UINT32 {
        assert FilterPartOk(c, file, l.groups[j], l.filters[j], l.filterTop[j]);
        forall i | 0 <= i < |l.groups[j]| ensures CutFits(c, l.x, l.groups[j][i]) { FlatAt(l.groups, j, i); }
        GroupKeysFit(c, l.x, l.groups[j]);
      }
    }
  }

  lemma MetaKeysFit(c: Codec, file: bytes, es: seq<Entry>, l: Layout)
    requires FileOf(c, file, es, l) && FieldsFit(c, file, l)
    ensures MetaFits(l.info)
  {
    hide Flat, Stored, CutOk, CutFits, DataBlock, IndexBlock, FilterBlock, FilterTopBlock, MetaBlock, Covers, PartOk,
         IndexOk, FilterOk, EncodeFooter;
    forall e | e in es ensures |e.key| < UINT32 {
      FlatMembers(Runs(l.cuts), e);
      var i :| 0 <= i < |l.cuts| && e in Runs(l.cuts)[i];
      CutKeyFits(c, l.x, l.cuts[i]);
    }
    assert es[0] in es && es[|es| - 1] in es;
  }

  lemma TopReads(c: Codec, file: bytes, es: seq<Entry>, l: Layout)
    requires Intact(c, file, es, l)
    ensures ReadBlockPayload(c, file, l.footer.indexOffset, l.footer.indexLen, Index) == Some(IndexBytes(l.top))
    ensures IndexIn(IndexBytes(l.top), 0) == Some(l.top)
    ensures ReadBlockPayload(c, file, l.footer.metaOffset, l.footer.metaLen, Meta) == Some(EncodeMeta(l.info))
    ensures DecodeMeta(EncodeMeta(l.info)) == Some(l.info)
    ensures |file| >= FOOTER_SIZE && DecodeFooter(c, file[|file| - FOOTER_SIZE..]) == Some(l.footer)
  {
    hide Flat, Stored, CutOk, CutFits, DataBlock, FilterBlock, FilterTopBlock, Covers, PartOk, FilterOk, Contents,
         RoundTrips,
         EncodeMeta, DecodeMeta, EncodeFooter, DecodeFooter, IndexIn, IndexBytes, ReadBlockPayload, Seal, Sorted,
           PartsOk, CutsOk, IndexFor;
    StoredReads(c, file, l.footer.indexOffset, l.footer.indexLen, IndexBytes(l.top), Index, Plain);
    TopKeysFit(c, file, l);
    IndexReadsBack([], l.top);
    assert [] + IndexBytes(l.top) == IndexBytes(l.top);
    StoredReads(c, file, l.footer.metaOffset, l.footer.metaLen, EncodeMeta(l.info), Meta, Plain);
    MetaKeysFit(c, file, es, l);
    MetaReadsBack(l.info);
    FooterReadsBack(c, l.footer);
    assert file[|file| - FOOTER_SIZE..|file|] == file[|file| - FOOTER_SIZE..];
  }

  lemma FilterReads(c: Codec, file: bytes, es: seq<Entry>, l: Layout)
    requires Intact(c, file, es, l)
    ensures l.filterPartitioned ==>
              && l.info.bloomOffset > 0 && l.info.bloomLen > 0
              && ReadBlockPayload(c, file, l.info.bloomOffset, l.info.bloomLen, Filter) == Some(IndexBytes(l.filterTop))
              && IndexIn(IndexBytes(l.filterTop), 0) == Some(l.filterTop)
    ensures !l.filterPartitioned && l.filter.Some? ==>
              && l.info.bloomOffset > 0 && l.info.bloomLen > 0
              && ReadBlockPayload(c, file, l.info.bloomOffset, l.info.bloomLen, Filter) ==
                 Some(Bloom.Encode(l.filter.value))
              && Bloom.Decode(Bloom.Encode(l.filter.value)) == Some(l.filter.value)
    ensures !l.filterPartitioned && l.filter.None? ==> l.info.bloomLen == 0
    ensures !l.filterPartitioned ==> l.filterTop == []
    ensures l.filterPartitioned ==> l.filter == None
  {
    hide Flat, Stored, CutOk, CutFits, DataBlock, IndexBlock, Covers, PartOk, Contents, RoundTrips, EncodeMeta,
         EncodeFooter,
         IndexIn, IndexBytes, ReadBlockPayload, Seal, Sorted, PartsOk, CutsOk, IndexFor, MetaOk, Bloom.Encode,
           Bloom.Decode, FiltersOk, IndexOk;
    if l.filterPartitioned {
      StoredReads(c, file, l.info.bloomOffset, l.info.bloomLen, IndexBytes(l.filterTop), Filter, Plain);
      FilterKeysFit(c, file, es, l);
      IndexReadsBack([], l.filterTop);
      assert [] + IndexBytes(l.filterTop) == IndexBytes(l.filterTop);
      StoredLength(file, l.info.bloomOffset, l.info.bloomLen, c, IndexBytes(l.filterTop));
    } else if l.filter.Some? {
      var f := l.filter.value;
      StoredReads(c, file, l.info.bloomOffset, l.info.bloomLen, Bloom.Encode(f), Filter, Plain);
      CoveringHasBits(c.hash, f, es);
      Bloom.FilterReadsBack(f);
      StoredLength(file, l.info.bloomOffset, l.info.bloomLen, c, Bloom.Encode(f));
    }
  }

  lemma StoredLength(file: bytes, offset: uint64, length: uint32, c: Codec, payload: bytes)
    requires Stored(file, offset, length, Seal(c, payload, Filter, Plain)) && |Seal(c, payload, Filter, Plain)| < UINT32
    ensures length > 0
  {
  }

  lemma CoveringHasBits(hash: Bloom.Hash, f: Bloom.FilterData, es: seq<Entry>)
    requires Covers(hash, f, es)
    ensures |f.bits| > 0 && Bloom.Sized(|f.bits|)
  {
  }

  /** Opening an intact table succeeds and recovers index, meta and filter. */
  method Open(c: Codec, file: bytes, readBlockMaxBytes: int, ghost es: seq<Entry>, ghost l: Layout)
      returns (r: Option<Reader>)
    ensures Intact(c, file, es, l) ==> r.Some? && ReaderOf(r.value, l) && r.value.readBlockMaxBytes == readBlockMaxBytes
  {
    hide Intact, ReadBlockPayload, DecodeMeta, DecodeFooter, IndexIn, IndexBytes, EncodeMeta, Bloom.Decode,
         Bloom.Encode;
    ghost var good := Intact(c, file, es, l);
    if good { TopReads(c, file, es, l); FilterReads(c, file, es, l); FlagsRead(c, file, es, l); }
    if |file| < FOOTER_SIZE { return None; }
    var footer := DecodeFooter(c, file[|file| - FOOTER_SIZE..]);
    if footer.None? { return None; }
    var ft := footer.value;
    var metaPayload := ReadBlockPayload(c, file, ft.metaOffset, ft.metaLen, Meta);
    if metaPayload.None? { return None; }
    var m := DecodeMeta(metaPayload.value);
    if m.None? { return None; }
    var indexPayload := ReadBlockPayload(c, file, ft.indexOffset, ft.indexLen, Index);
    if indexPayload.None? { return None; }
    var top := DecodeIndex(indexPayload.value);
    if top.None? { return None; }
    var filter: Option<Bloom.FilterData> := None;
    var filterIndex: seq<IndexEntry> := [];
    var filterPartitioned := (ft.flags / 2) % 2 == 1;
    if m.value.bloomLen > 0 && m.value.bloomOffset > 0 {
      var filterPayload := ReadBlockPayload(c, file, m.value.bloomOffset, m.value.bloomLen, Filter);
      if filterPayload.None? { return None; }
      if filterPartitioned {
        var index := DecodeIndex(filterPayload.value);
        if index.None? { return None; }
        filterIndex := index.value;
      } else {
        filter := Bloom.Decode(filterPayload.value);
        if filter.None? { return None; }
      }
    }
    r := Some(Reader(m.value, top.value, ft.flags % 2 == 1, filter, filterIndex, filterPartitioned, readBlockMaxBytes));
  }

  lemma FlagsRead(c: Codec, file: bytes, es: seq<Entry>, l: Layout)
    requires Intact(c, file, es, l)
    ensures (l.footer.flags % 2 == 1) == l.partitioned && ((l.footer.flags / 2) % 2 == 1) == l.filterPartitioned
  {
    hide IndexOk, FilterOk, FieldsFit, Sorted, RoundTrips, Lies, Stored;
  }

  // ---------- index ----------

  lemma PartReads(c: Codec, file: bytes, es: seq<Entry>, l: Layout, j: nat)
    requires Intact(c, file, es, l) && l.partitioned && j < |l.top|
    ensures |l.top| == |l.groups| && AllShaped(l.groups[j])
    ensures var part := IndexFor(c, l.x, l.groups[j]);
            && ReadBlockPayload(c, file, l.top[j].offset, l.top[j].length, Index) == Some(IndexBytes(part))
            && IndexIn(IndexBytes(part), 0) == Some(part)
  {
    hide Flat, Stored, CutOk, CutFits, DataBlock, Contents, RoundTrips, IndexIn, IndexBytes, ReadBlockPayload, Seal,
         Sorted, CutsOk,
         MetaOk, FilterOk, EncodeMeta, EncodeFooter, FilterBlock, FilterTopBlock, MetaBlock;
    assert PartOk(c, l.x, file, l.groups[j], l.top[j]);
    var part := IndexFor(c, l.x, l.groups[j]);
    StoredReads(c, file, l.top[j].offset, l.top[j].length, IndexBytes(part), Index, Plain);
    TopKeysFit(c, file, l);
    IndexReadsBack([], part);
    assert [] + IndexBytes(part) == IndexBytes(part);
  }

  lemma GroupsIndexed(c: Codec, file: bytes, es: seq<Entry>, l: Layout)
    requires Intact(c, file, es, l) && l.partitioned
    ensures Indexes(l.top, GroupRuns(l.groups)) && es == Flat(GroupRuns(l.groups))
  {
    hide Flat, Stored, CutOk, CutFits, DataBlock, RoundTrips, Sorted, CutsOk, FieldsFit, IndexFor, IndexBlock,
         MetaOk, FilterOk, EncodeMeta, EncodeFooter, FilterBlock, FilterTopBlock, MetaBlock, Contents;
    ContentsByGroup(l.groups);
    forall j | 0 <= j < |l.groups|
      ensures GroupRuns(l.groups)[j] != [] && l.top[j].key == GroupRuns(l.groups)[j][0].key
    {
      assert PartOk(c, l.x, file, l.groups[j], l.top[j]);
      GroupHead(l.groups[j]);
    }
  }

  lemma RunIsSorted(runs: seq<seq<Entry>>, j: nat)
    requires Sorted(Flat(runs)) && j < |runs|
    ensures Sorted(runs[j])
  {
    FlatAround(runs, j);
    assert Flat(runs)[Start(runs, j)..Start(runs, j) + |runs[j]|] == runs[j];
  }

  lemma CutsIndexed(c: Codec, x: Compression, group: seq<Cut>)
    requires AllShaped(group)
    ensures Indexes(IndexFor(c, x, group), Runs(group))
  {
    hide DataBlock;
    forall i | 0 <= i < |group| ensures Runs(group)[i] != [] && IndexFor(c, x, group)[i].key == Runs(group)[i][0].key {
      assert Shaped(group[i]);
    }
  }

  /** One index block over a group of data blocks: the slot is the one block that can hold the key. */
  lemma BlockSlot(c: Codec, x: Compression, group: seq<Cut>, key: bytes, i: int)
    requires AllShaped(group) && Sorted(Contents(group)) && IsSlot(IndexFor(c, x, group), key, i)
    ensures -1 <= i < |group| && Find(Contents(group), key) == if i < 0 then None else Find(group[i].es, key)
  {
    hide Find, Sorted, Lt, IsSlot;
    CutsIndexed(c, x, group);
    SlotRange(IndexFor(c, x, group), key, i);
    SlotFinds(IndexFor(c, x, group), Runs(group), key, i);
  }

  /** The partition slot, then the block slot within it. */
  lemma PartitionSlot(c: Codec, file: bytes, es: seq<Entry>, l: Layout, key: bytes, j: int)
    requires Intact(c, file, es, l) && l.partitioned && IsSlot(l.top, key, j)
    ensures |l.top| == |l.groups| && -1 <= j < |l.groups|
    ensures j < 0 ==> Find(es, key) == None
    ensures j >= 0 ==>
              AllShaped(l.groups[j]) && Sorted(Contents(l.groups[j])) && KeysIncrease(IndexFor(c, l.x, l.groups[j]))
    ensures j >= 0 ==> Find(es, key) == Find(Contents(l.groups[j]), key)
    ensures j >= 0 ==> l.groups[j] != [] && Le(IndexFor(c, l.x, l.groups[j])[0].key, key)
  {
    hide Find, Lt, FieldsFit, FilterOk, MetaOk, Contents, Flat, Stored, DataBlock, IndexBlock, CutsOk, RoundTrips,
         Sorted, KeysIncrease;
    GroupsIndexed(c, file, es, l);
    SlotRange(l.top, key, j);
    SlotFinds(l.top, GroupRuns(l.groups), key, j);
    if j >= 0 {
      RunIsSorted(GroupRuns(l.groups), j);
      assert PartOk(c, l.x, file, l.groups[j], l.top[j]);
      CutsIndexed(c, l.x, l.groups[j]);
      GroupSorted(l.groups[j]);
      FirstKeysIncrease(IndexFor(c, l.x, l.groups[j]), Runs(l.groups[j]));
      assert Shaped(l.groups[j][0]);
    }
  }

  lemma GroupSorted(group: seq<Cut>)
    requires Sorted(Contents(group))
    ensures Sorted(Flat(Runs(group)))
  {
  }

  datatype IndexHit = NoBlock | InBlock(entry: IndexEntry) | BadIndex

  /** Finds the index entry of the only block that can hold the key. */
  method IndexFind(c: Codec, file: bytes, rd: Reader, key: bytes, ghost es: seq<Entry>, ghost l: Layout)
      returns (r: IndexHit, ghost i: nat)
    ensures Intact(c, file, es, l) && ReaderOf(rd, l) ==>
              match r
              case BadIndex => false
              case NoBlock => Find(es, key) == None
              case InBlock(e) => i < |l.cuts| && Shaped(l.cuts[i]) && e == EntryFor(c, l.x, l.cuts[i])
                                 && Find(es, key) == Find(l.cuts[i].es, key)
  {
    hide Intact, Find, IndexIn, IndexBytes, ReadBlockPayload, IndexFor, Contents, KeysIncrease, Lt, Sorted, AllShaped,
         EntryFor, Shaped;
    ghost var good := Intact(c, file, es, l) && ReaderOf(rd, l);
    i := 0;
    if !rd.partitioned {
      if good { WholeIndex(c, file, es, l); }
      var idx := FindBlock(rd.top, key);
      if good { WholeSlot(c, file, es, l, key, idx); }
      if idx < 0 { return NoBlock, 0; }
      return InBlock(rd.top[idx]), idx;
    }
    if good { TopIncreases(c, file, es, l); }
    var partIdx := FindBlock(rd.top, key);
    if good { PartitionSlot(c, file, es, l, key, partIdx); }
    if partIdx < 0 { return NoBlock, 0; }
    if good { PartReads(c, file, es, l, partIdx); }
    var payload := ReadBlockPayload(c, file, rd.top[partIdx].offset, rd.top[partIdx].length, Index);
    if payload.None? { return BadIndex, 0; }
    var part := DecodeIndex(payload.value);
    if part.None? { return BadIndex, 0; }
    var idx := FindBlock(part.value, key);
    if good {
      SlotNotBelow(part.value, key, idx);
      BlockSlot(c, l.x, l.groups[partIdx], key, idx);
      i := MemberOf(c, file, es, l, partIdx, idx);
    }
    if idx < 0 { return NoBlock, 0; }
    return InBlock(part.value[idx]), i;
  }

  lemma SlotNotBelow(entries: seq<IndexEntry>, key: bytes, r: int)
    requires entries != [] && Le(entries[0].key, key) && IsSlot(entries, key, r)
    ensures 0 <= r < |entries|
  {
  }

  lemma MemberOf(c: Codec, file: bytes, es: seq<Entry>, l: Layout, j: nat, k: nat) returns (i: nat)
    requires Intact(c, file, es, l) && l.partitioned && j < |l.groups| && k < |l.groups[j]| && AllShaped(l.groups[j])
    ensures i < |l.cuts| && l.cuts[i] == l.groups[j][k] && Shaped(l.cuts[i])
    ensures IndexFor(c, l.x, l.groups[j])[k] == EntryFor(c, l.x, l.cuts[i])
  {
    hide Flat, FieldsFit, FilterOk, MetaOk, Contents, Stored, DataBlock, IndexBlock, CutsOk, RoundTrips, Sorted,
         PartsOk;
    FlatAt(l.groups, j, k);
    i := Start(l.groups, j) + k;
    assert Shaped(l.groups[j][k]);
  }

  lemma WholeIndex(c: Codec, file: bytes, es: seq<Entry>, l: Layout)
    requires Intact(c, file, es, l) && !l.partitioned
    ensures KeysIncrease(l.top)
  {
    hide FieldsFit, FilterOk, MetaOk, Stored, DataBlock, IndexBlock, CutsOk, RoundTrips, Sorted, PartsOk, Flat,
         KeysIncrease;
    CutsIndexed(c, l.x, l.cuts);
    FirstKeysIncrease(l.top, Runs(l.cuts));
  }

  lemma TopIncreases(c: Codec, file: bytes, es: seq<Entry>, l: Layout)
    requires Intact(c, file, es, l) && l.partitioned
    ensures KeysIncrease(l.top)
  {
    hide FieldsFit, FilterOk, MetaOk, IndexOk, RoundTrips, Sorted, Flat, KeysIncrease;
    GroupsIndexed(c, file, es, l);
    FirstKeysIncrease(l.top, GroupRuns(l.groups));
  }

  lemma WholeSlot(c: Codec, file: bytes, es: seq<Entry>, l: Layout, key: bytes, i: int)
    requires Intact(c, file, es, l) && !l.partitioned && IsSlot(l.top, key, i)
    ensures |l.top| == |l.cuts| && -1 <= i < |l.cuts| && Find(es, key) == if i < 0 then None
            else Find(l.cuts[i].es, key)
    ensures i >= 0 ==> Shaped(l.cuts[i]) && l.top[i] == EntryFor(c, l.x, l.cuts[i])
  {
    hide FieldsFit, FilterOk, MetaOk, Stored, DataBlock, IndexBlock, CutsOk, RoundTrips, Sorted, PartsOk, Flat, IsSlot,
         Find, Contents, EntryFor;
    BlockSlot(c, l.x, l.cuts, key, i);
    if i >= 0 { assert Shaped(l.cuts[i]); }
  }

  // ---------- filter ----------

  lemma FilterPartReads(c: Codec, file: bytes, es: seq<Entry>, l: Layout, j: nat)
    requires Intact(c, file, es, l) && l.filterPartitioned && j < |l.filterTop|
    ensures |l.filterTop| == |l.groups| == |l.filters| && Covers(c.hash, l.filters[j], Contents(l.groups[j]))
    ensures ReadBlockPayload(c, file, l.filterTop[j].offset, l.filterTop[j].length, Filter) ==
            Some(Bloom.Encode(l.filters[j]))
    ensures Bloom.Decode(Bloom.Encode(l.filters[j])) == Some(l.filters[j])
  {
    hide Flat, Stored, CutOk, CutFits, DataBlock, Contents, RoundTrips, ReadBlockPayload, Seal, Sorted, CutsOk, IndexOk,
         MetaOk, EncodeMeta, EncodeFooter, IndexBlock, FilterTopBlock, MetaBlock, Covers, Bloom.Encode, Bloom.Decode;
    assert FilterPartOk(c, file, l.groups[j], l.filters[j], l.filterTop[j]);
    StoredReads(c, file, l.filterTop[j].offset, l.filterTop[j].length, Bloom.Encode(l.filters[j]), Filter, Plain);
    CoveringHasBits(c.hash, l.filters[j], Contents(l.groups[j]));
    Bloom.FilterReadsBack(l.filters[j]);
  }

  lemma FilterGroupsIndexed(c: Codec, file: bytes, es: seq<Entry>, l: Layout)
    requires Intact(c, file, es, l) && l.filterPartitioned
    ensures l.partitioned && Indexes(l.filterTop, GroupRuns(l.groups)) && es == Flat(GroupRuns(l.groups))
  {
    hide Flat, Stored, CutOk, CutFits, DataBlock, RoundTrips, Sorted, CutsOk, FieldsFit, IndexFor, IndexOk,
         MetaOk, EncodeMeta, EncodeFooter, FilterBlock, FilterTopBlock, MetaBlock, Contents, Covers;
    GroupsIndexed(c, file, es, l);
    forall j | 0 <= j < |l.groups|
      ensures GroupRuns(l.groups)[j] != [] && l.filterTop[j].key == GroupRuns(l.groups)[j][0].key
    {
      assert FilterPartOk(c, file, l.groups[j], l.filters[j], l.filterTop[j]);
      GroupHead(l.groups[j]);
    }
  }

  /** The filter of the key's slot decides for the whole table. */
  lemma FilterSlot(c: Codec, file: bytes, es: seq<Entry>, l: Layout, key: bytes, j: int)
    requires Intact(c, file, es, l) && l.filterPartitioned && IsSlot(l.filterTop, key, j) && j >= 0
    ensures |l.filterTop| == |l.groups| == |l.filters| && j < |l.filters| && Bloom.Sized(|l.filters[j].bits|)
    ensures !Bloom.May(c.hash, l.filters[j], key) ==> Find(es, key) == None
  {
    hide Find, Lt, FieldsFit, FilterOk, MetaOk, IndexOk, Contents, Flat, RoundTrips, Sorted, Bloom.May, IsSlot, Covers,
         Bloom.Encode, Bloom.Decode, ReadBlockPayload;
    FilterGroupsIndexed(c, file, es, l);
    SlotRange(l.filterTop, key, j);
    SlotFinds(l.filterTop, GroupRuns(l.groups), key, j);
    FilterPartReads(c, file, es, l, j);
    CoveringHasBits(c.hash, l.filters[j], Contents(l.groups[j]));
    if !Bloom.May(c.hash, l.filters[j], key) { NotCoveredIsAbsent(c.hash, l.filters[j], Contents(l.groups[j]), key); }
  }

  lemma FilterTopIncreases(c: Codec, file: bytes, es: seq<Entry>, l: Layout)
    requires Intact(c, file, es, l) && l.filterPartitioned
    ensures KeysIncrease(l.filterTop)
  {
    hide FieldsFit, FilterOk, MetaOk, IndexOk, RoundTrips, Sorted, Flat, KeysIncrease;
    FilterGroupsIndexed(c, file, es, l);
    FirstKeysIncrease(l.filterTop, GroupRuns(l.groups));
  }

  lemma WholeFilter(c: Codec, file: bytes, es: seq<Entry>, l: Layout, key: bytes)
    requires Intact(c, file, es, l) && !l.filterPartitioned && l.filter.Some?
    ensures Bloom.Sized(|l.filter.value.bits|)
    ensures !Bloom.May(c.hash, l.filter.value, key) ==> Find(es, key) == None
  {
    hide FieldsFit, MetaOk, IndexOk, RoundTrips, Sorted, Covers, Find, Stored, FilterBlock, Bloom.May;
    CoveringHasBits(c.hash, l.filter.value, es);
    if !Bloom.May(c.hash, l.filter.value, key) { NotCoveredIsAbsent(c.hash, l.filter.value, es, key); }
  }

  /** The filter gate never rejects a key of the table. None is a read error. A filter whose bit
      count wraps to zero makes the source divide by zero; that is None here too. */
  method MayContain(c: Codec, file: bytes, rd: Reader, key: bytes, ghost es: seq<Entry>, ghost l: Layout)
      returns (r: Option<bool>)
    ensures Intact(c, file, es, l) && ReaderOf(rd, l) ==> r.Some? && (r == Some(false) ==> Find(es, key) == None)
  {
    hide Intact, Find, ReadBlockPayload, Contents, KeysIncrease, IsSlot, Bloom.May, Bloom.Encode, Bloom.Decode, Covers,
         Bloom.Sized;
    ghost var good := Intact(c, file, es, l) && ReaderOf(rd, l);
    if !rd.filterPartitioned {
      if rd.filter.None? { return Some(true); }
      if good { WholeFilter(c, file, es, l, key); }
      if !Bloom.Sized(|rd.filter.value.bits|) { return None; }
      var may := Bloom.Contains(c.hash, rd.filter.value, key);
      return Some(may);
    }
    if |rd.filterIndex| == 0 { return Some(true); }
    if good { FilterTopIncreases(c, file, es, l); }
    var idx := FindBlock(rd.filterIndex, key);
    if idx < 0 { return Some(true); }
    if good { FilterPartReads(c, file, es, l, idx); FilterSlot(c, file, es, l, key, idx); }
    var e := rd.filterIndex[idx];
    var payload := ReadBlockPayload(c, file, e.offset, e.length, Filter);
    if payload.None? { return None; }
    var filter := Bloom.Decode(payload.value);
    if filter.None? || !Bloom.Sized(|filter.value.bits|) { return None; }
    var may := Bloom.Contains(c.hash, filter.value, key);
    return Some(may);
  }

  // ---------- data ----------

  /** The checks before a block is read; a limit of zero or less is no limit. */
  predicate ValidEntry(e: IndexEntry, readBlockMaxBytes: int, size: nat)
  {
    && e.length != 0
    && !(readBlockMaxBytes > 0 && e.length > readBlockMaxBytes)
    && !(size > 0 && e.offset + e.length > size)
  }

  ghost predicate TooLarge(c: Codec, l: Layout, readBlockMaxBytes: int, i: nat)
    requires i < |l.cuts| && Shaped(l.cuts[i])
  {
    readBlockMaxBytes > 0 && |DataBlock(c, l.x, l.cuts[i])| > readBlockMaxBytes
  }

  lemma BlockReads(c: Codec, file: bytes, es: seq<Entry>, l: Layout, i: nat)
    requires Intact(c, file, es, l) && i < |l.cuts|
    ensures Shaped(l.cuts[i]) && LayoutOk(l.cuts[i].es, l.cuts[i].ms) && Sorted(l.cuts[i].es)
    ensures var e, cut := EntryFor(c, l.x, l.cuts[i]), l.cuts[i];
            && e.length == |DataBlock(c, l.x, cut)| > 0 && e.offset + e.length <= |file|
            && ReadBlockPayload(c, file, e.offset, e.length, Data) == Some(Payload(cut.es, cut.ms))
            && WellFormed(Payload(cut.es, cut.ms)) && Decoded(Payload(cut.es, cut.ms)) == BlockOf(cut.es, cut.ms)
  {
    hide Intact, Stored, RoundTrips, ReadBlockPayload, Payload, LayoutOk, WellFormed, Decoded, BlockOf, Seal, Sorted;
    var cut := l.cuts[i];
    CutParts(c, file, es, l, i);
    SealLength(c, Payload(cut.es, cut.ms), l.x);
    var e := EntryFor(c, l.x, cut);
    LiesIsStored(file, cut.at, DataBlock(c, l.x, cut));
    StoredReads(c, file, e.offset, e.length, Payload(cut.es, cut.ms), Data, l.x);
    DecodePayload(cut.es, cut.ms);
  }

  lemma CutParts(c: Codec, file: bytes, es: seq<Entry>, l: Layout, i: nat)
    requires Intact(c, file, es, l) && i < |l.cuts|
    ensures RoundTrips(c) && |file| < UINT64
    ensures CutOk(c, l.x, file, l.cuts[i]) && CutFits(c, l.x, l.cuts[i]) && Sorted(l.cuts[i].es)
  {
    hide Flat, FilterOk, MetaOk, Stored, RoundTrips, CutOk, CutFits, IndexFor, PartsOk, Sorted;
    RunIsSorted(Runs(l.cuts), i);
  }

  lemma SealLength(c: Codec, payload: bytes, x: Compression)
    ensures |Seal(c, payload, Data, x)| > 0
  {
  }

  lemma LiesIsStored(file: bytes, at: nat, b: bytes)
    requires Lies(file, at, b) && |b| < UINT32
    ensures Stored(file, at % UINT64, |b| % UINT32, b)
  {
  }

  /** Reads and decodes a data block. */
  method ReadBlockEntry(c: Codec, file: bytes, rd: Reader, e: IndexEntry, ghost es: seq<Entry>, ghost l: Layout,
                        ghost i: nat)
      returns (r: Option<Block>)
    ensures r.Some? ==> |r.value.restarts| == |r.value.restartKeys|
    ensures Intact(c, file, es, l) && i < |l.cuts| && Shaped(l.cuts[i]) && e == EntryFor(c, l.x, l.cuts[i]) ==>
              r == if TooLarge(c, l, rd.readBlockMaxBytes, i) then None else Some(BlockOf(l.cuts[i].es, l.cuts[i].ms))
    ensures Intact(c, file, es, l) && i < |l.cuts| && Shaped(l.cuts[i]) && e == EntryFor(c, l.x, l.cuts[i])
            && r.Some? ==>
              GoodBlock(r.value, l.cuts[i].es, l.cuts[i].ms)
  {
    hide Intact, ReadBlockPayload, Payload, LayoutOk, WellFormed, BlockOf, EntryFor, DataBlock, Sorted, Shaped;
    if Intact(c, file, es, l) && i < |l.cuts| && Shaped(l.cuts[i]) && e == EntryFor(c, l.x, l.cuts[i]) {
      BlockReads(c, file, es, l, i);
    }
    if !ValidEntry(e, rd.readBlockMaxBytes, |file|) { return None; }
    var payload := ReadBlockPayload(c, file, e.offset, e.length, Data);
    if payload.None? { return None; }
    r := Decode(payload.value);
  }

  // ---------- point reads ----------

  /** The stages of a read, each handing the request on to the next. */
  datatype Node = FilterNode | IndexNode | DataNode | DecodeNode | Done

  function Rank(n: Node): (k: nat)
  {
    match n case FilterNode => 4 case IndexNode => 3 case DataNode => 2 case DecodeNode => 1 case Done => 0
  }

  function Linear(es: seq<Entry>, key: bytes): (r: Hit)
  {
    match Find(es, key) case None => Absent case Some(e) => Found(e)
  }

  /** What the request carries between stages. */
  datatype FlowItem = FlowItem(index: IndexEntry, block: Option<Block>, hit: Hit)

  /** What holds of the request when a stage is about to run. */
  ghost predicate Staged(c: Codec, es: seq<Entry>, l: Layout, rd: Reader, key: bytes, node: Node, item: FlowItem,
                         i: nat)
  {
    match node
    case FilterNode => item.hit == Absent
    case IndexNode => item.hit == Absent
    case DataNode =>
      && i < |l.cuts| && Shaped(l.cuts[i]) && item.index == EntryFor(c, l.x, l.cuts[i])
         && Find(es, key) == Find(l.cuts[i].es, key)
    case DecodeNode =>
      && i < |l.cuts| && Shaped(l.cuts[i]) && !TooLarge(c, l, rd.readBlockMaxBytes, i)
      && item.block.Some? && GoodBlock(item.block.value, l.cuts[i].es, l.cuts[i].ms)
         && Find(es, key) == Find(l.cuts[i].es, key)
    case Done => item.hit == Linear(es, key) && (item.hit.Found? ==> Reached(c, es, l, rd, key, i))
  }

  /** The key's block was within the read limit. */
  ghost predicate Reached(c: Codec, es: seq<Entry>, l: Layout, rd: Reader, key: bytes, i: nat)
  {
    i < |l.cuts| && Shaped(l.cuts[i]) && !TooLarge(c, l, rd.readBlockMaxBytes, i)
      && Find(es, key) == Find(l.cuts[i].es, key)
  }

  /** A read fails only on a block above the read limit. */
  ghost predicate Blocked(c: Codec, es: seq<Entry>, l: Layout, rd: Reader, key: bytes, i: nat)
  {
    i < |l.cuts| && Shaped(l.cuts[i]) && TooLarge(c, l, rd.readBlockMaxBytes, i)
      && Find(es, key) == Find(l.cuts[i].es, key)
  }

  /** One stage. */
  method Process(c: Codec, file: bytes, rd: Reader, key: bytes, node: Node, item: FlowItem, ghost es: seq<Entry>,
                 ghost l: Layout, ghost i0: nat)
      returns (err: bool, node': Node, item': FlowItem, ghost i: nat)
    requires node != Done
    requires item.block.Some? ==> |item.block.value.restarts| == |item.block.value.restartKeys|
    ensures Rank(node') < Rank(node)
    ensures item'.block.Some? ==> |item'.block.value.restarts| == |item'.block.value.restartKeys|
    ensures Intact(c, file, es, l) && ReaderOf(rd, l) && Staged(c, es, l, rd, key, node, item, i0) ==>
              if err then Blocked(c, es, l, rd, key, i) else Staged(c, es, l, rd, key, node', item', i)
  {
    hide Intact, ReaderOf, Find, EntryFor, DataBlock, Sorted, GoodBlock, BlockOf, Shaped;
    err, node', item', i := false, Done, item, i0;
    match node
    case FilterNode =>
      var may := MayContain(c, file, rd, key, es, l);
      if may.None? { err := true; } else if may.value { node' := IndexNode; }
    case IndexNode =>
      var r;
      r, i := IndexFind(c, file, rd, key, es, l);
      match r {
        case BadIndex => err := true;
        case NoBlock =>
        case InBlock(e) => item', node' := item.(index := e), DataNode;
      }
    case DataNode =>
      var blk := ReadBlockEntry(c, file, rd, item.index, es, l, i);
      if blk.None? { err := true; } else { item', node' := item.(block := blk), DecodeNode; }
    case DecodeNode =>
      if item.block.Some? {
        var hit;
        hit :=
          FindView(item.block.value, key, if i < |l.cuts| then l.cuts[i].es else [], if i < |l.cuts| then l.cuts[i].ms
            else []);
        if hit.Corrupt? { err := true; }
        item' := item.(hit := hit);
      }
  }

  /** On an intact table a point read is linear search in the entries, unless the one block
      that can hold the key is above the read limit; then it is an error. */
  method Get(c: Codec, file: bytes, rd: Reader, key: bytes, ghost es: seq<Entry>, ghost l: Layout)
      returns (r: Hit, ghost i: nat)
    ensures Intact(c, file, es, l) && ReaderOf(rd, l) ==>
              match r
              case Absent => Find(es, key) == None
              case Found(e) => Find(es, key) == Some(e) && Reached(c, es, l, rd, key, i)
              case Corrupt => Blocked(c, es, l, rd, key, i)
  {
    hide Intact, Staged, Blocked, Reached, Find;
    ghost var good := Intact(c, file, es, l) && ReaderOf(rd, l);
    i := 0;
    if |rd.info.minKey| > 0 && Lt(key, rd.info.minKey) {
      if good { OutsideRange(c, file, es, l, key); }
      return Absent, 0;
    }
    if |rd.info.maxKey| > 0 && Lt(rd.info.maxKey, key) {
      if good { OutsideRange(c, file, es, l, key); }
      return Absent, 0;
    }
    var item := FlowItem(IndexEntry([], 0, 0), None, Absent);
    var node := FilterNode;
    StartStage(c, es, l, rd, key, item);
    while node != Done
      invariant item.block.Some? ==> |item.block.value.restarts| == |item.block.value.restartKeys|
      invariant good ==> Staged(c, es, l, rd, key, node, item, i)
      decreases Rank(node)
    {
      var err;
      err, node, item, i := Process(c, file, rd, key, node, item, es, l, i);
      if err { return Corrupt, i; }
    }
    if good { EndStage(c, es, l, rd, key, item, i); }
    return item.hit, i;
  }

  lemma StartStage(c: Codec, es: seq<Entry>, l: Layout, rd: Reader, key: bytes, item: FlowItem)
    requires item.hit == Absent
    ensures Staged(c, es, l, rd, key, FilterNode, item, 0)
  {
  }

  lemma EndStage(c: Codec, es: seq<Entry>, l: Layout, rd: Reader, key: bytes, item: FlowItem, i: nat)
    requires Staged(c, es, l, rd, key, Done, item, i)
    ensures item.hit == Linear(es, key) && (item.hit.Found? ==> Reached(c, es, l, rd, key, i))
  {
  }

  lemma OutsideRange(c: Codec, file: bytes, es: seq<Entry>, l: Layout, key: bytes)
    requires Intact(c, file, es, l) && (Lt(key, l.info.minKey) || Lt(l.info.maxKey, key))
    ensures Linear(es, key) == Absent
  {
    hide IndexOk, FilterOk, FieldsFit, RoundTrips, Stored, Lies, Contents, Lt, MetaBlock, EncodeFooter;
    if Lt(key, l.info.minKey) {
      AboveFrom(es, 0, key);
      NotThere(es, 0, key);
    } else {
      forall j | 0 <= j < |es| ensures Lt(es[j].key, key) {
        if j < |es| - 1 { LtTransitive(es[j].key, es[|es| - 1].key, key); }
      }
      NotThere(es, |es|, key);
    }
  }

  /** A stored key has one block: so a read returns it exactly when that block is within the limit. */
  lemma OneBlockDecides(c: Codec, file: bytes, es: seq<Entry>, l: Layout, rd: Reader, key: bytes, i: nat, j: nat)
    requires Intact(c, file, es, l) && i < |l.cuts| && Find(l.cuts[i].es, key).Some?
    requires Reached(c, es, l, rd, key, j) || Blocked(c, es, l, rd, key, j)
    ensures i == j
  {
    hide Intact, TooLarge, Shaped;
    CutFind(c, file, es, l, key, i);
    SameCut(c, file, es, l, key, i, j);
  }

  lemma CutFind(c: Codec, file: bytes, es: seq<Entry>, l: Layout, key: bytes, i: nat)
    requires Intact(c, file, es, l) && i < |l.cuts|
    ensures Find(l.cuts[i].es, key).Some? ==> Find(es, key) == Find(l.cuts[i].es, key)
  {
    hide IndexOk, FilterOk, FieldsFit, MetaOk, RoundTrips, Flat, Find;
    var run := l.cuts[i].es;
    if Find(run, key).Some? {
      FindSound(run, key);
      var k :| 0 <= k < |run| && run[k] == Find(run, key).value;
      FlatAt(Runs(l.cuts), i, k);
      FindAt(es, Start(Runs(l.cuts), i) + k);
    }
  }

  lemma SameCut(c: Codec, file: bytes, es: seq<Entry>, l: Layout, key: bytes, i: nat, j: nat)
    requires Intact(c, file, es, l) && i < |l.cuts| && j < |l.cuts|
    requires Find(l.cuts[i].es, key).Some? && Find(l.cuts[j].es, key).Some?
    ensures i == j
  {
    hide IndexOk, FilterOk, FieldsFit, MetaOk, RoundTrips, Flat, Find, Lt;
    FindSound(l.cuts[i].es, key);
    FindSound(l.cuts[j].es, key);
    var a :| 0 <= a < |l.cuts[i].es| && l.cuts[i].es[a].key == key;
    var b :| 0 <= b < |l.cuts[j].es| && l.cuts[j].es[b].key == key;
    LtIrreflexive(key);
    if i < j { RunsInOrder(Runs(l.cuts), i, a, j, b); }
    if j < i { RunsInOrder(Runs(l.cuts), j, b, i, a); }
  }

  // ---------- the read limit ----------

  /** The block that holds the key is above the read limit. */
  ghost predicate HeldOver(c: Codec, l: Layout, readBlockMaxBytes: int, key: bytes)
  {
    exists i :: 0 <= i < |l.cuts| && Shaped(l.cuts[i]) && Find(l.cuts[i].es, key).Some?
      && TooLarge(c, l, readBlockMaxBytes, i)
  }

  lemma OverIsHeld(c: Codec, file: bytes, es: seq<Entry>, l: Layout, readBlockMaxBytes: int, key: bytes)
    requires Intact(c, file, es, l) && HeldOver(c, l, readBlockMaxBytes, key)
    ensures Find(es, key).Some?
  {
    hide Find, Intact, TooLarge, Shaped;
    var i :| 0 <= i < |l.cuts| && Shaped(l.cuts[i]) && Find(l.cuts[i].es, key).Some?
        && TooLarge(c, l, readBlockMaxBytes, i);
    CutFind(c, file, es, l, key, i);
  }

  lemma ReachedIsWithin(c: Codec, file: bytes, es: seq<Entry>, l: Layout, rd: Reader, key: bytes, i: nat)
    requires Intact(c, file, es, l) && Reached(c, es, l, rd, key, i) && Find(es, key).Some?
    ensures !HeldOver(c, l, rd.readBlockMaxBytes, key)
  {
    hide Find, Intact, TooLarge, Shaped;
    if HeldOver(c, l, rd.readBlockMaxBytes, key) {
      var j :| 0 <= j < |l.cuts| && Shaped(l.cuts[j]) && Find(l.cuts[j].es, key).Some?
          && TooLarge(c, l, rd.readBlockMaxBytes, j);
      OneBlockDecides(c, file, es, l, rd, key, j, i);
    }
  }

  lemma BlockedIsOver(c: Codec, es: seq<Entry>, l: Layout, rd: Reader, key: bytes, i: nat)
    requires Blocked(c, es, l, rd, key, i) && Find(es, key).Some?
    ensures HeldOver(c, l, rd.readBlockMaxBytes, key)
  {
    hide Find, TooLarge, Shaped;
  }

  /** A point read of a stored key fails exactly when its block is above the limit, and finds it otherwise. */
  method StrictGet(c: Codec, file: bytes, rd: Reader, key: bytes, ghost es: seq<Entry>, ghost l: Layout)
      returns (r: Hit)
    requires Intact(c, file, es, l) && ReaderOf(rd, l)
    ensures Find(es, key).Some? ==>
              r == if HeldOver(c, l, rd.readBlockMaxBytes, key) then Corrupt else Found(Find(es, key).value)
    ensures Find(es, key).None? ==> !r.Found? && !HeldOver(c, l, rd.readBlockMaxBytes, key)
    ensures r.Corrupt? ==> rd.readBlockMaxBytes > 0
  {
    hide Find, Intact, Reached, Blocked, ReaderOf, HeldOver;
    ghost var i;
    r, i := Get(c, file, rd, key, es, l);
    if HeldOver(c, l, rd.readBlockMaxBytes, key) { OverIsHeld(c, file, es, l, rd.readBlockMaxBytes, key); }
    if Find(es, key).Some? {
      if r.Found? { ReachedIsWithin(c, file, es, l, rd, key, i); }
      if r.Corrupt? { BlockedIsOver(c, es, l, rd, key, i); }
    }
    if r.Corrupt? { BlockedHasLimit(c, es, l, rd, key, i); }
  }

  lemma BlockedHasLimit(c: Codec, es: seq<Entry>, l: Layout, rd: Reader, key: bytes, i: nat)
    requires Blocked(c, es, l, rd, key, i)
    ensures rd.readBlockMaxBytes > 0
  {
    hide Find, Shaped;
  }
}
