/** The table writer: cuts a sorted run into blocks and lays out filter, index and meta. */
module Writer {
  import opened Bytes
  import opened Concat
  import opened Ordering
  import opened Entries
  import opened BlockFormat
  import opened BlockBuilder
  import opened Envelope
  import opened IndexFormat
  import opened TableFile
  import Bloom
  import C = Compaction

  datatype Options = Options(
    blockTargetBytes: int,
    blockMaxBytes: int,
    restartInterval: int,
    restartIntervalAdaptive: bool,
    restartIntervalMin: int,
    restartIntervalMax: int,
    compression: Compression,
    bloomBitsPerKey: int,
    indexPartitionEntries: int,
    filterPartitioned: bool)

  /** By key, then newest first, then tombstones first. */
  predicate WriteOrder(a: Entry, b: Entry)
  {
    if a.key != b.key then Lt(a.key, b.key)
    else if a.seqno != b.seqno then a.seqno > b.seqno
    else if a.tombstone != b.tombstone then a.tombstone
    else false
  }

  /** What the blocks written so far are. */
  ghost predicate Written(c: Codec, x: Compression, file: bytes, index: seq<IndexEntry>, counts: seq<nat>,
                          cuts: seq<Cut>)
  {
    && CutsOk(c, x, file, cuts) && AllShaped(cuts) && index == IndexFor(c, x, cuts)
    && |counts| == |cuts| && forall i :: 0 <= i < |cuts| ==> counts[i] == |cuts[i].es|
  }

  lemma WrittenOne(c: Codec, x: Compression, file: bytes, index: seq<IndexEntry>, counts: seq<nat>, cuts: seq<Cut>,
                   cut: Cut)
    requires Written(c, x, file, index, counts, cuts) && Shaped(cut) && cut.at == |file|
    ensures Written(c, x, file + DataBlock(c, x, cut), index + [EntryFor(c, x, cut)], counts + [|cut.es|], cuts + [cut])
  {
    hide DataBlock, Lies, EntryFor;
    var block := DataBlock(c, x, cut);
    CutsOkStill(c, x, file, file + block, cuts);
    LiesAtEnd(file, block);
    forall i | 0 <= i < |cuts + [cut]| ensures CutOk(c, x, file + block, (cuts + [cut])[i]) {
      if i < |cuts| { assert CutOk(c, x, file + block, cuts[i]); }
    }
  }

  /** Ends the current block: writes it and its index entry, and empties the builder. */
  method FlushBlock(c: Codec, x: Compression, file: bytes, index: seq<IndexEntry>, counts: seq<nat>, builder: Builder,
                    ghost cuts: seq<Cut>)
      returns (file': bytes, index': seq<IndexEntry>, counts': seq<nat>, ghost cuts': seq<Cut>)
    requires builder.Valid() && builder.es != [] && builder.es[0].key != [] && Written(c, x, file, index, counts, cuts)
    modifies builder
    ensures builder.Valid() && builder.es == []
    ensures Written(c, x, file', index', counts', cuts') && |file'| > |file|
    ensures cuts' == cuts + [Cut(old(builder.es), old(builder.ms), |file|)]
    ensures Contents(cuts') == Contents(cuts) + old(builder.es)
  {
    hide Written, Payload, Restarts, Buf;
    ghost var cut := Cut(builder.es, builder.ms, |file|);
    WrittenOne(c, x, file, index, counts, cuts, cut);
    ContentsAppend(cuts, cut);
    var count := builder.entryCount;
    var payload := builder.Finish();
    var block := EncodeBlock(c, CompressPayload(c, payload, x), Data, x, |payload| % UINT32);
    file' := file + block;
    index' := index;
    if builder.first.Some? && builder.first.value != [] {
      index' := index + [IndexEntry(builder.first.value, |file| % UINT64, |block| % UINT32)];
    }
    counts' := counts + [count];
    cuts' := cuts + [cut];
    builder.Reset();
  }

  ghost predicate Covering(hash: Bloom.Hash, filter: Bloom.Filter?, bitsPerKey: int, es: seq<Entry>)
    reads filter, if filter == null then {} else {filter.bits}
  {
    (filter == null <==> bitsPerKey <= 0) && (filter != null ==> Covers(hash, filter.Value(), es))
  }

  /** The bits of a filter over this many keys fit 32 bits. */
  predicate FilterFits(keys: nat, bitsPerKey: int)
  {
    bitsPerKey <= 0 || Bloom.FilterBytes(keys, bitsPerKey) * 8 < UINT32
  }

  lemma FilterSized(keys: nat, bitsPerKey: nat, most: nat)
    requires FilterFits(most, bitsPerKey) && keys <= most && bitsPerKey > 0
    ensures Bloom.Sized(Bloom.FilterBytes(keys, bitsPerKey))
  {
    assert keys * bitsPerKey <= most * bitsPerKey;
  }

  lemma CoversOneMore(hash: Bloom.Hash, f: Bloom.FilterData, g: Bloom.FilterData, es: seq<Entry>, e: Entry)
    requires Covers(hash, f, es) && |g.bits| == |f.bits| && Bloom.May(hash, g, e.key)
    requires forall key: bytes :: Bloom.May(hash, f, key) ==> Bloom.May(hash, g, key)
    ensures Covers(hash, g, es + [e])
  {
    hide Bloom.May, Bloom.Sized;
    forall i | 0 <= i < |es + [e]| ensures Bloom.May(hash, g, (es + [e])[i].key) {
      if i < |es| { assert Bloom.May(hash, f, es[i].key); }
    }
  }

  method AddKey(hash: Bloom.Hash, filter: Bloom.Filter, e: Entry, ghost es: seq<Entry>)
    requires Covers(hash, filter.Value(), es)
    modifies filter.bits
    ensures Covers(hash, filter.Value(), es + [e])
  {
    hide Bloom.May, Bloom.Sized;
    ghost var before := filter.Value();
    filter.Add(hash, e.key);
    CoversOneMore(hash, before, filter.Value(), es, e);
  }

  method NewFilter(hash: Bloom.Hash, keys: nat, bitsPerKey: int) returns (filter: Bloom.Filter?)
    requires keys > 0 && FilterFits(keys, bitsPerKey)
    ensures Covering(hash, filter, bitsPerKey, []) && (filter != null ==> fresh(filter) && fresh(filter.bits))
  {
    if bitsPerKey <= 0 { return null; }
    filter := new Bloom.Filter(keys, bitsPerKey);
    FilterSized(keys, bitsPerKey, keys);
    CoversNothing(hash, filter.Value());
  }

  /** Cuts the run into blocks, in order and without loss; records the extreme sequence
      numbers and fills the filter on the way. */
  method WriteBlocks(c: Codec, o: Options, entries: seq<Entry>)
      returns (file: bytes, index: seq<IndexEntry>, counts: seq<nat>, filter: Bloom.Filter?, seqMin: uint64,
              seqMax: uint64,
               ghost cuts: seq<Cut>)
    requires entries != [] && FilterFits(|entries|, o.bloomBitsPerKey)
    requires forall i :: 0 <= i < |entries| ==> entries[i].key != []
    ensures Written(c, o.compression, file, index, counts, cuts) && Contents(cuts) == entries && file != []
    ensures Covering(c.hash, filter, o.bloomBitsPerKey, entries)
    ensures seqMin == C.MinSeq(entries) && seqMax == C.MaxSeq(entries)
  {
    hide Written, Contents, Covers, Marks, Payload, Builder.Valid, C.MinSeq, C.MaxSeq, SeqsSeen, Bloom.Sized,
         Bloom.FilterBytes, Bloom.ProbeCount, FilterFits;
    seqMin, seqMax := entries[0].seqno, entries[|entries| - 1].seqno;
    var builder := new Builder(o.restartInterval, o.restartIntervalAdaptive, o.restartIntervalMin,
        o.restartIntervalMax);
    file, index, counts, cuts := [], [], [], [];
    NothingWritten(c, o.compression);
    SeqsSeenNone(entries);
    filter := NewFilter(c.hash, |entries|, o.bloomBitsPerKey);
    for i := 0 to |entries|
      invariant builder.Valid() && fresh(builder) && (filter != null ==> fresh(filter) && fresh(filter.bits))
      invariant Written(c, o.compression, file, index, counts, cuts)
      invariant Contents(cuts) + builder.es == entries[..i]
      invariant builder.es == [] && i > 0 ==> file != []
      invariant Covering(c.hash, filter, o.bloomBitsPerKey, entries[..i])
      invariant SeqsSeen(entries, i, seqMin, seqMax)
    {
      var e := entries[i];
      assert entries[..i + 1] == entries[..i] + [e];
      SeqsSeenOneMore(entries, i, seqMin, seqMax);
      if e.seqno < seqMin { seqMin := e.seqno; }
      if e.seqno > seqMax { seqMax := e.seqno; }
      if filter != null { AddKey(c.hash, filter, e, entries[..i]); }
      file, index, counts, cuts := AddEntry(c, o, entries, i, file, index, counts, builder, cuts);
    }
    assert entries[..|entries|] == entries;
    SeqsSeenAll(entries, seqMin, seqMax);
    assert builder.Valid();
    var size := builder.SizeBytes();
    if size > 0 {
      FirstHasKey(entries, Contents(cuts), builder.es, |entries|);
      file, index, counts, cuts := FlushBlock(c, o.compression, file, index, counts, builder, cuts);
    }
  }

  /** Adds one entry to the block under construction, ending blocks at the size limits. */
  method AddEntry(c: Codec, o: Options, entries: seq<Entry>, i: nat, file0: bytes, index0: seq<IndexEntry>,
                  counts0: seq<nat>,
                  builder: Builder, ghost cuts0: seq<Cut>)
      returns (file: bytes, index: seq<IndexEntry>, counts: seq<nat>, ghost cuts: seq<Cut>)
    requires i < |entries| && forall i :: 0 <= i < |entries| ==> entries[i].key != []
    requires builder.Valid() && Written(c, o.compression, file0, index0, counts0, cuts0)
    requires Contents(cuts0) + builder.es == entries[..i]
    modifies builder
    ensures builder.Valid() && Written(c, o.compression, file, index, counts, cuts)
    ensures Contents(cuts) + builder.es == entries[..i + 1]
    ensures builder.es == [] ==> file != []
  {
    hide Written, Contents, Marks, Payload, Builder.Valid;
    var e := entries[i];
    assert entries[..i + 1] == entries[..i] + [e];
    file, index, counts, cuts := file0, index0, counts0, cuts0;
    var size := builder.SizeBytes();
    var next := builder.EstimatedSizeAfter(e);
    if size > 0 && next > o.blockTargetBytes {
      FirstHasKey(entries, Contents(cuts), builder.es, i);
      file, index, counts, cuts := FlushBlock(c, o.compression, file, index, counts, builder, cuts);
    }
    size := builder.SizeBytes();
    next := builder.EstimatedSizeAfter(e);
    builder.Add(e);
    FirstHasKey(entries, Contents(cuts), builder.es, i + 1);
    if size == 0 && next > o.blockMaxBytes {
      file, index, counts, cuts := FlushBlock(c, o.compression, file, index, counts, builder, cuts);
    } else {
      size := builder.SizeBytes();
      if size >= o.blockMaxBytes {
        file, index, counts, cuts := FlushBlock(c, o.compression, file, index, counts, builder, cuts);
      }
    }
  }

  lemma FirstHasKey(entries: seq<Entry>, before: seq<Entry>, es: seq<Entry>, i: nat)
    requires i <= |entries| && before + es == entries[..i] && es != []
    requires forall i :: 0 <= i < |entries| ==> entries[i].key != []
    ensures es[0].key != []
  {
    assert es[0] == entries[..i][|before|] == entries[|before|];
  }

  lemma NothingWritten(c: Codec, x: Compression)
    ensures Written(c, x, [], [], [], []) && Contents([]) == []
  {
  }

  lemma CoversNothing(hash: Bloom.Hash, f: Bloom.FilterData)
    requires Bloom.Sized(|f.bits|)
    ensures Covers(hash, f, [])
  {
  }

  /** The running minimum starts from the first entry and the running maximum from the last. */
  ghost predicate SeqsSeen(entries: seq<Entry>, i: nat, seqMin: uint64, seqMax: uint64)
  {
    && i <= |entries| && entries != []
    && (forall j :: 0 <= j < i ==> seqMin <= entries[j].seqno <= seqMax)
    && (exists j :: 0 <= j < |entries| && entries[j].seqno == seqMin)
    && (exists j :: 0 <= j < |entries| && entries[j].seqno == seqMax)
  }

  lemma SeqsSeenNone(entries: seq<Entry>)
    requires entries != []
    ensures SeqsSeen(entries, 0, entries[0].seqno, entries[|entries| - 1].seqno)
  {
  }

  lemma SeqsSeenOneMore(entries: seq<Entry>, i: nat, seqMin: uint64, seqMax: uint64)
    requires i < |entries| && SeqsSeen(entries, i, seqMin, seqMax)
    ensures var s := entries[i].seqno;
            SeqsSeen(entries, i + 1, if s < seqMin then s else seqMin, if s > seqMax then s else seqMax)
  {
    assert entries[i].seqno == entries[i].seqno;
  }

  lemma SeqsSeenAll(entries: seq<Entry>, seqMin: uint64, seqMax: uint64)
    requires SeqsSeen(entries, |entries|, seqMin, seqMax)
    ensures entries != [] && seqMin == C.MinSeq(entries) && seqMax == C.MaxSeq(entries)
  {
  }

  // ---------- partitions ----------

  lemma PartsStill(c: Codec, x: Compression, file: bytes, longer: bytes, groups: seq<seq<Cut>>, top: seq<IndexEntry>)
    requires PartsOk(c, x, file, groups, top) && file <= longer
    ensures PartsOk(c, x, longer, groups, top)
  {
    hide Stored, IndexBlock;
    forall j | 0 <= j < |groups| ensures PartOk(c, x, longer, groups[j], top[j]) {
      assert PartOk(c, x, file, groups[j], top[j]);
      StoredStill(file, longer, top[j].offset, top[j].length, IndexBlock(c, IndexFor(c, x, groups[j])));
    }
  }

  lemma FiltersStill(c: Codec, file: bytes, longer: bytes, groups: seq<seq<Cut>>, fs: seq<Bloom.FilterData>,
                     top: seq<IndexEntry>)
    requires FiltersOk(c, file, groups, fs, top) && file <= longer
    ensures FiltersOk(c, longer, groups, fs, top)
  {
    hide Stored, FilterBlock, Covers, Contents;
    forall j | 0 <= j < |groups| ensures FilterPartOk(c, longer, groups[j], fs[j], top[j]) {
      assert FilterPartOk(c, file, groups[j], fs[j], top[j]);
      StoredStill(file, longer, top[j].offset, top[j].length, FilterBlock(c, fs[j]));
    }
  }

  lemma StoredAtEnd(file: bytes, b: bytes)
    ensures Stored(file + b, |file| % UINT64, |b| % UINT32, b)
  {
    LiesAtEnd(file, b);
  }

  lemma PartOne(c: Codec, x: Compression, file: bytes, groups: seq<seq<Cut>>, top: seq<IndexEntry>, group: seq<Cut>)
    requires PartsOk(c, x, file, groups, top) && AllShaped(group) && group != []
    ensures var b := IndexBlock(c, IndexFor(c, x, group));
            PartsOk(c, x, file + b, groups + [group],
              top + [IndexEntry(group[0].es[0].key, |file| % UINT64, |b| % UINT32)])
  {
    hide IndexBlock, Stored;
    var b := IndexBlock(c, IndexFor(c, x, group));
    PartsStill(c, x, file, file + b, groups, top);
    StoredAtEnd(file, b);
    assert Shaped(group[0]);
    var e := IndexEntry(group[0].es[0].key, |file| % UINT64, |b| % UINT32);
    forall j | 0 <= j < |groups + [group]| ensures PartOk(c, x, file + b, (groups + [group])[j], (top + [e])[j]) {
      if j < |groups| { assert PartOk(c, x, file + b, groups[j], top[j]); }
    }
  }

  lemma FilterPartOne(c: Codec, file: bytes, groups: seq<seq<Cut>>, fs: seq<Bloom.FilterData>, top: seq<IndexEntry>,
                      group: seq<Cut>, f: Bloom.FilterData)
    requires FiltersOk(c, file, groups, fs, top) && AllShaped(group) && group != []
             && Covers(c.hash, f, Contents(group))
    ensures var b := FilterBlock(c, f);
            FiltersOk(c, file + b, groups + [group], fs + [f],
              top + [IndexEntry(group[0].es[0].key, |file| % UINT64, |b| % UINT32)])
  {
    hide FilterBlock, Stored, Covers, Contents;
    var b := FilterBlock(c, f);
    FiltersStill(c, file, file + b, groups, fs, top);
    StoredAtEnd(file, b);
    assert Shaped(group[0]);
    var e := IndexEntry(group[0].es[0].key, |file| % UINT64, |b| % UINT32);
    forall j | 0 <= j < |groups + [group]|
      ensures FilterPartOk(c, file + b, (groups + [group])[j], (fs + [f])[j], (top + [e])[j])
    {
      if j < |groups| { assert FilterPartOk(c, file + b, groups[j], fs[j], top[j]); }
    }
  }

  lemma SliceShaped(c: Codec, x: Compression, cuts: seq<Cut>, i: nat, end: nat)
    requires AllShaped(cuts) && i <= end <= |cuts|
    ensures AllShaped(cuts[i..end]) && IndexFor(c, x, cuts)[i..end] == IndexFor(c, x, cuts[i..end])
  {
    hide Shaped, EntryFor;
    forall k | 0 <= k < end - i ensures Shaped(cuts[i..end][k]) { assert Shaped(cuts[i + k]); }
  }

  /** Writes the index in partitions of a fixed number of blocks. */
  method WriteIndexPartitions(c: Codec, ghost x: Compression, index: seq<IndexEntry>, size: nat, file0: bytes,
                              ghost cuts: seq<Cut>)
      returns (file: bytes, top: seq<IndexEntry>)
    requires size > 0 && AllShaped(cuts) && index == IndexFor(c, x, cuts)
    ensures file0 <= file && PartsOk(c, x, file, Chunks(cuts, size), top)
  {
    hide IndexBlock, Stored, EntryFor, Chunks, PartsOk, AllShaped;
    file, top := file0, [];
    ghost var done: seq<seq<Cut>> := [];
    var i := 0;
    NoParts(c, x, file);
    assert cuts[0..] == cuts && done + Chunks(cuts, size) == Chunks(cuts, size);
    while i < |index|
      invariant 0 <= i <= |index| && file0 <= file
      invariant PartsOk(c, x, file, done, top) && done + Chunks(cuts[i..], size) == Chunks(cuts, size)
    {
      var end := i + size;
      if end > |index| { end := |index|; }
      var part := index[i..end];
      SliceShaped(c, x, cuts, i, end);
      ChunkStep(cuts, size, i, end, done);
      var payload := EncodeIndex(part);
      var block := EncodeBlock(c, payload, Index, Plain, |payload| % UINT32);
      SealedIndex(c, part);
      PartOne(c, x, file, done, top, cuts[i..end]);
      FirstOfPart(c, x, cuts[i..end]);
      top := top + [IndexEntry(part[0].key, |file| % UINT64, |block| % UINT32)];
      file := file + block;
      done := done + [cuts[i..end]];
      i := end;
    }
    NoChunks(cuts, size);
    assert done + [] == done;
  }

  lemma NoParts(c: Codec, x: Compression, file: bytes)
    ensures PartsOk(c, x, file, [], [])
  {
  }

  lemma NoChunks(cuts: seq<Cut>, size: nat)
    requires size > 0
    ensures Chunks(cuts[|cuts|..], size) == []
  {
  }

  lemma SealedIndex(c: Codec, part: seq<IndexEntry>)
    ensures IndexBlock(c, part) == EncodeBlock(c, IndexBytes(part), Index, Plain, |IndexBytes(part)| % UINT32)
    ensures FilterTopBlock(c, part) == EncodeBlock(c, IndexBytes(part), Filter, Plain, |IndexBytes(part)| % UINT32)
  {
  }

  lemma FirstOfPart(c: Codec, x: Compression, group: seq<Cut>)
    requires AllShaped(group) && group != []
    ensures Shaped(group[0]) && IndexFor(c, x, group)[0].key == group[0].es[0].key
  {
    assert Shaped(group[0]);
  }

  /** One filter over the blocks of one partition. */
  method FilterOf(hash: Bloom.Hash, entries: seq<Entry>, counts: seq<nat>, i: nat, end: nat, entryIdx0: nat,
                  bitsPerKey: int, ghost cuts: seq<Cut>)
      returns (f: Bloom.FilterData, entryIdx: nat)
    requires bitsPerKey > 0 && FilterFits(|entries|, bitsPerKey) && AllShaped(cuts) && Contents(cuts) == entries
    requires |counts| == |cuts| && forall k :: 0 <= k < |cuts| ==> counts[k] == |cuts[k].es|
    requires i < end <= |cuts| && entryIdx0 == Start(Runs(cuts), i)
    ensures Covers(hash, f, Contents(cuts[i..end])) && entryIdx == Start(Runs(cuts), end)
  {
    hide Covers, Flat, Shaped, FilterFits, Bloom.May, Bloom.Sized, Bloom.FilterBytes;
    var partEntries := 0;
    for j := i to end
      invariant Start(Runs(cuts), j) == entryIdx0 + partEntries
    {
      StartNext(Runs(cuts), j);
      partEntries := partEntries + counts[j];
    }
    StartBound(cuts, i, end);
    FilterSized(partEntries, bitsPerKey, |entries|);
    var filter := new Bloom.Filter(partEntries, bitsPerKey);
    CoversNothing(hash, filter.Value());
    entryIdx := entryIdx0;
    assert cuts[i..i] == [];
    NoContents();
    for j := i to end
      invariant fresh(filter) && fresh(filter.bits) && entryIdx == Start(Runs(cuts), j)
      invariant Covers(hash, filter.Value(), Contents(cuts[i..j]))
    {
      ghost var before := Contents(cuts[i..j]);
      assert before + cuts[j].es[..0] == before;
      for k := 0 to counts[j]
        invariant fresh(filter) && fresh(filter.bits) && entryIdx == Start(Runs(cuts), j) + k
        invariant Covers(hash, filter.Value(), before + cuts[j].es[..k])
      {
        FlatAt(Runs(cuts), j, k);
        AddKey(hash, filter, entries[entryIdx], before + cuts[j].es[..k]);
        assert before + cuts[j].es[..k + 1] == before + cuts[j].es[..k] + [entries[entryIdx]];
        entryIdx := entryIdx + 1;
      }
      assert cuts[j].es[..counts[j]] == cuts[j].es;
      assert cuts[i..j + 1] == cuts[i..j] + [cuts[j]];
      ContentsAppend(cuts[i..j], cuts[j]);
      StartNext(Runs(cuts), j);
    }
    f := Bloom.FilterData(filter.bits[..], filter.k);
  }

  lemma NoContents()
    ensures Contents([]) == []
  {
  }

  lemma StartBound(cuts: seq<Cut>, i: nat, end: nat)
    requires AllShaped(cuts) && i < end <= |cuts|
    ensures Start(Runs(cuts), i) < Start(Runs(cuts), end) <= |Contents(cuts)|
  {
    assert Shaped(cuts[i]);
    StartsInOrder(Runs(cuts), i, end);
    if end < |cuts| {
      StartsInOrder(Runs(cuts), end, |cuts|);
    }
    assert Runs(cuts)[..|cuts|] == Runs(cuts);
  }

  /** Writes one filter for each index partition, over exactly the keys of its blocks. */
  method WritePartitionedFilters(c: Codec, ghost x: Compression, entries: seq<Entry>, blocks: seq<IndexEntry>,
                                 counts: seq<nat>,
                                 size: nat, bitsPerKey: int, file0: bytes, ghost cuts: seq<Cut>)
      returns (file: bytes, filterTop: seq<IndexEntry>, ghost filters: seq<Bloom.FilterData>)
    requires size > 0 && bitsPerKey > 0 && FilterFits(|entries|, bitsPerKey)
    requires AllShaped(cuts) && Contents(cuts) == entries && blocks == IndexFor(c, x, cuts)
    requires |counts| == |cuts| && forall k :: 0 <= k < |cuts| ==> counts[k] == |cuts[k].es|
    ensures file0 <= file && FiltersOk(c, file, Chunks(cuts, size), filters, filterTop)
  {
    hide FilterBlock, Stored, EntryFor, Chunks, FiltersOk, AllShaped, Covers, Contents, Flat, FilterFits;
    file, filterTop, filters := file0, [], [];
    ghost var done: seq<seq<Cut>> := [];
    var i, entryIdx := 0, 0;
    NoFilters(c, file);
    assert cuts[0..] == cuts && done + Chunks(cuts, size) == Chunks(cuts, size);
    StartZero(Runs(cuts));
    while i < |counts|
      invariant 0 <= i <= |counts| && file0 <= file && entryIdx == Start(Runs(cuts), i)
      invariant FiltersOk(c, file, done, filters, filterTop) && done + Chunks(cuts[i..], size) == Chunks(cuts, size)
    {
      var end := i + size;
      if end > |counts| { end := |counts|; }
      SliceShaped(c, x, cuts, i, end);
      ChunkStep(cuts, size, i, end, done);
      var f;
      f, entryIdx := FilterOf(c.hash, entries, counts, i, end, entryIdx, bitsPerKey, cuts);
      var payload := Bloom.Encode(f);
      var block := EncodeBlock(c, payload, Filter, Plain, |payload| % UINT32);
      SealedFilter(c, f);
      FilterPartOne(c, file, done, filters, filterTop, cuts[i..end], f);
      FirstOfPart(c, x, cuts[i..end]);
      assert blocks[i] == IndexFor(c, x, cuts)[i..end][0];
      filterTop := filterTop + [IndexEntry(blocks[i].key, |file| % UINT64, |block| % UINT32)];
      file := file + block;
      filters := filters + [f];
      done := done + [cuts[i..end]];
      i := end;
    }
    NoChunks(cuts, size);
    assert done + [] == done;
  }

  lemma NoFilters(c: Codec, file: bytes)
    ensures FiltersOk(c, file, [], [], [])
  {
  }

  lemma SealedFilter(c: Codec, f: Bloom.FilterData)
    ensures FilterBlock(c, f) == EncodeBlock(c, Bloom.Encode(f), Filter, Plain, |Bloom.Encode(f)| % UINT32)
  {
  }

  lemma WriteOrderIsStrictWeak()
    ensures StrictWeak(WriteOrder)
  {
    forall a, b ensures Asymmetric(WriteOrder, a, b) { if Lt(a.key, b.key) { LtAsymmetric(a.key, b.key); } }
    forall a, b, c ensures Between(WriteOrder, a, b, c) {
      LtTrichotomy(a.key, b.key);
      if Lt(a.key, c.key) {
        if Lt(b.key, a.key) { LtTransitive(b.key, a.key, c.key); LtIrreflexive(c.key); }
      }
    }
  }

  /** A run with strictly increasing keys is written as it stands. */
  lemma SortedStays(es: seq<Entry>)
    requires Sorted(es)
    ensures SortSlice(es, WriteOrder) == es
  {
    WriteOrderIsStrictWeak();
    forall i, j | 0 <= i < j < |es| ensures WriteOrder(es[i], es[j]) { LtIrreflexive(es[i].key); }
    SortOfSorted(es, WriteOrder);
  }

  // ---------- the whole file ----------

  /** Where the filter went: the file up to it, and what its offset and length record. */
  datatype Bloomed = Bloomed(file: bytes, offset: uint64, length: uint32, top: seq<IndexEntry>)

  lemma PrefixTrans(a: bytes, b: bytes, c: bytes)
    requires a <= b && b <= c
    ensures a <= c
  {
  }

  /** The filter blocks: one for the table, or one for each index partition. */
  method WriteFilters(c: Codec, o: Options, entries: seq<Entry>, filter: Bloom.Filter?, index: seq<IndexEntry>,
                      counts: seq<nat>,
                      split: bool, file0: bytes, ghost cuts: seq<Cut>)
      returns (b: Bloomed, ghost whole: Option<Bloom.FilterData>, ghost filters: seq<Bloom.FilterData>)
    requires Written(c, o.compression, file0, index, counts, cuts) && Contents(cuts) == entries && file0 != []
    requires Covering(c.hash, filter, o.bloomBitsPerKey, entries) && FilterFits(|entries|, o.bloomBitsPerKey)
    requires split ==> filter != null && o.indexPartitionEntries > 0
    ensures file0 <= b.file
    ensures split ==> whole == None && FiltersOk(c, b.file, Chunks(cuts, o.indexPartitionEntries), filters, b.top)
    ensures !split ==> b.top == [] && filters == []
    ensures !split && filter == null ==> whole == None && b.length == 0
    ensures !split && filter != null ==>
              && whole.Some? && Covers(c.hash, whole.value, entries)
                 && Stored(b.file, b.offset, b.length, FilterBlock(c, whole.value))
              && (|b.file| < UINT64 ==> b.offset > 0)
  {
    hide Covers, Contents, CutsOk, FiltersOk, Stored, FilterBlock, FilterFits, Chunks, Bloom.Encode;
    whole, filters := None, [];
    b := Bloomed(file0, 0, 0, []);
    if filter != null {
      if split {
        var file, filterTop;
        file, filterTop, filters :=
          WritePartitionedFilters(c, o.compression, entries, index, counts, o.indexPartitionEntries,
                                                            o.bloomBitsPerKey, file0, cuts);
        b := Bloomed(file, 0, 0, filterTop);
      } else {
        var f := Bloom.FilterData(filter.bits[..], filter.k);
        var payload := Bloom.Encode(f);
        var block := EncodeBlock(c, payload, Filter, Plain, |payload| % UINT32);
        SealedFilter(c, f);
        StoredAtEnd(file0, block);
        whole := Some(f);
        b := Bloomed(file0 + block, |file0| % UINT64, |block| % UINT32, []);
      }
    }
  }

  /** The index: in one block, or in partitions under a top index. */
  method WriteIndex(c: Codec, o: Options, index: seq<IndexEntry>, partitioned: bool, file0: bytes, ghost cuts: seq<Cut>)
      returns (file: bytes, top: seq<IndexEntry>, offset: uint64, length: uint32)
    requires AllShaped(cuts) && index == IndexFor(c, o.compression, cuts)
             && (partitioned ==> o.indexPartitionEntries > 0)
    ensures file0 <= file && Stored(file, offset, length, IndexBlock(c, top))
    ensures partitioned ==> PartsOk(c, o.compression, file, Chunks(cuts, o.indexPartitionEntries), top)
    ensures !partitioned ==> top == index
  {
    hide Stored, IndexBlock, PartsOk, Chunks, AllShaped, EntryFor;
    file, top := file0, index;
    if partitioned { file, top := WriteIndexPartitions(c, o.compression, index, o.indexPartitionEntries, file0, cuts); }
    ghost var parts := file;
    offset := |file| % UINT64;
    var payload := EncodeIndex(top);
    var block := EncodeBlock(c, payload, Index, Plain, |payload| % UINT32);
    SealedIndex(c, top);
    StoredAtEnd(file, block);
    length := |block| % UINT32;
    file := file + block;
    PrefixTrans(file0, parts, file);
    if partitioned { PartsStill(c, o.compression, parts, file, Chunks(cuts, o.indexPartitionEntries), top); }
  }

  /** The top of a partitioned filter goes after the index. */
  method WriteFilterTop(c: Codec, file0: bytes, split: bool, b: Bloomed)
      returns (file: bytes, offset: uint64, length: uint32)
    requires file0 != []
    ensures file0 <= file
    ensures split && b.top != [] ==>
              Stored(file, offset, length, FilterTopBlock(c, b.top)) && (|file| < UINT64 ==> offset > 0)
    ensures !split ==> file == file0 && offset == b.offset && length == b.length
  {
    hide Stored, FilterTopBlock;
    file, offset, length := file0, b.offset, b.length;
    if split && |b.top| > 0 {
      offset := |file| % UINT64;
      var payload := EncodeIndex(b.top);
      var block := EncodeBlock(c, payload, Filter, Plain, |payload| % UINT32);
      SealedIndex(c, b.top);
      StoredAtEnd(file, block);
      length := |block| % UINT32;
      file := file + block;
    }
  }

  lemma FiltersLength(c: Codec, file: bytes, groups: seq<seq<Cut>>, fs: seq<Bloom.FilterData>, top: seq<IndexEntry>)
    requires FiltersOk(c, file, groups, fs, top)
    ensures |top| == |groups| == |fs|
  {
  }

  /** Writes a whole table: the file holds exactly the entries, in write order. */
  method Flush(c: Codec, o: Options, unsorted: seq<Entry>) returns (r: Option<bytes>, info: TableInfo, ghost l: Layout)
    requires forall i :: 0 <= i < |unsorted| ==> unsorted[i].key != []
    requires FilterFits(|unsorted|, o.bloomBitsPerKey)
    ensures r.None? <==> unsorted == []
    ensures r.Some? ==> FileOf(c, r.value, SortSlice(unsorted, WriteOrder), l) && l.info == info && l.x == o.compression
    ensures r.Some? ==> var es := SortSlice(unsorted, WriteOrder);
                        && es != [] && info.seqMin == C.MinSeq(es) && info.seqMax == C.MaxSeq(es)
                        && info.minKey == es[0].key && info.maxKey == es[|es| - 1].key
                           && info.entryCount == |es| % UINT64
    ensures r.Some? ==> l.partitioned == (0 < o.indexPartitionEntries < |l.cuts|)
    ensures r.Some? ==> l.filterPartitioned == (l.partitioned && o.bloomBitsPerKey > 0 && o.filterPartitioned)
  {
    hide Covers, Contents, CutsOk, FiltersOk, PartsOk, Stored, FilterBlock, IndexBlock, FilterTopBlock, MetaBlock,
         FilterFits, Chunks,
         EncodeMeta, EncodeFooter, C.MinSeq, C.MaxSeq, AllShaped, IndexFor, Flat, SortSlice;
    if |unsorted| == 0 {
      info := TableInfo([], [], 0, 0, 0, Plain, 0, 0, 0, 0);
      l := Layout(Plain, [], false, [], [], None, false, [], [], info, Footer(0, 0, 0, 0, 0));
      return None, info, l;
    }
    var entries := SortSlice(unsorted, WriteOrder);
    SortedNonEmpty(unsorted);
    var data, index, counts, filter, seqMin, seqMax, cuts := WriteBlocks(c, o, entries);
    var partitioned := o.indexPartitionEntries > 0 && |index| > o.indexPartitionEntries;
    var filterPartitioned := partitioned && filter != null && o.filterPartitioned;
    var b, whole, filters := WriteFilters(c, o, entries, filter, index, counts, filterPartitioned, data, cuts);
    var indexed, top, indexOffset, indexLen := WriteIndex(c, o, index, partitioned, b.file, cuts);
    ghost var groups := if partitioned then Chunks(cuts, o.indexPartitionEntries) else [];
    if partitioned { FlatChunks(cuts, o.indexPartitionEntries); }
    if filterPartitioned { FiltersLength(c, b.file, groups, filters, b.top); }
    var file, bloomOffset, bloomLen := WriteFilterTop(c, indexed, filterPartitioned, b);
    ghost var filtered := file;
    var metaOffset := |file| % UINT64;
    info := TableInfo(entries[0].key, entries[|entries| - 1].key, |entries| % UINT64, seqMin, seqMax, o.compression,
                      (if o.bloomBitsPerKey < 0 then UINT16 - (-o.bloomBitsPerKey) % UINT16
                        else o.bloomBitsPerKey) % UINT16,
                      if filter == null then 0 else filter.k, bloomOffset, bloomLen);
    var metaPayload := EncodeMeta(info);
    var metaBlock := EncodeBlock(c, metaPayload, Meta, Plain, |metaPayload| % UINT32);
    SealedMeta(c, info);
    StoredAtEnd(file, metaBlock);
    file := file + metaBlock;
    ghost var described := file;
    var flags := (if partitioned then 1 else 0) + (if filterPartitioned then 2 else 0);
    var footer := Footer(flags, indexOffset, indexLen, metaOffset, |metaBlock| % UINT32);
    LiesAtEnd(file, EncodeFooter(c, footer));
    file := file + EncodeFooter(c, footer);
    l := Layout(o.compression, cuts, partitioned, groups, top,
                whole, filterPartitioned, filters, b.top, info, footer);
    FileIsWhole(c, entries, l, data, b, indexed, filtered, described, file);
    return Some(file), info, l;
  }

  lemma SortedNonEmpty(s: seq<Entry>)
    requires forall i :: 0 <= i < |s| ==> s[i].key != []
    ensures var t := SortSlice(s, WriteOrder); |t| == |s| && forall i :: 0 <= i < |t| ==> t[i].key != []
  {
    SortKeepsMembers(s, WriteOrder);
    var t := SortSlice(s, WriteOrder);
    forall i | 0 <= i < |t| ensures t[i].key != [] { assert t[i] in s; }
  }

  lemma SealedMeta(c: Codec, m: TableInfo)
    ensures MetaBlock(c, m) == EncodeBlock(c, EncodeMeta(m), Meta, Plain, |EncodeMeta(m)| % UINT32)
  {
  }

  /** What was true of the file when each part was written is true of the whole file. */
  lemma FileIsWhole(c: Codec, es: seq<Entry>, l: Layout, data: bytes, b: Bloomed, indexed: bytes, filtered: bytes,
                    described: bytes, file: bytes)
    requires es != [] && es == Contents(l.cuts) && l.info.minKey == es[0].key && l.info.maxKey == es[|es| - 1].key
    requires data <= b.file <= indexed <= filtered <= described <= file && data != []
    requires AllShaped(l.cuts) && CutsOk(c, l.x, data, l.cuts)
    requires Stored(indexed, l.footer.indexOffset, l.footer.indexLen, IndexBlock(c, l.top))
    requires if l.partitioned then
               l.groups != [] && Flat(l.groups) == l.cuts && PartsOk(c, l.x, indexed, l.groups, l.top)
             else l.top == IndexFor(c, l.x, l.cuts)
    requires l.filterPartitioned ==>
               && l.partitioned && l.filter.None? && FiltersOk(c, b.file, l.groups, l.filters, l.filterTop)
               && (|filtered| < UINT64 ==> l.info.bloomOffset > 0)
               && Stored(filtered, l.info.bloomOffset, l.info.bloomLen, FilterTopBlock(c, l.filterTop))
    requires !l.filterPartitioned ==>
               && l.filterTop == [] && (l.filter.None? ==> l.info.bloomLen == 0)
               && (l.filter.Some? ==>
                    Covers(c.hash, l.filter.value, es) && (|b.file| < UINT64 ==> l.info.bloomOffset > 0)
                                      && Stored(b.file, l.info.bloomOffset, l.info.bloomLen,
                                         FilterBlock(c, l.filter.value)))
    requires Stored(described, l.footer.metaOffset, l.footer.metaLen, MetaBlock(c, l.info))
    requires file == described + EncodeFooter(c, l.footer)
    requires l.footer.flags == (if l.partitioned then 1 else 0) + (if l.filterPartitioned then 2 else 0)
    ensures FileOf(c, file, es, l)
  {
    hide Covers, Contents, CutsOk, FiltersOk, PartsOk, Stored, FilterBlock, IndexBlock, FilterTopBlock, MetaBlock,
         EncodeFooter, AllShaped, IndexFor, Flat;
    PrefixTrans(filtered, described, file);
    PrefixTrans(indexed, filtered, file);
    PrefixTrans(b.file, indexed, file);
    PrefixTrans(data, b.file, file);
    CutsOkStill(c, l.x, data, file, l.cuts);
    StoredStill(indexed, file, l.footer.indexOffset, l.footer.indexLen, IndexBlock(c, l.top));
    StoredStill(described, file, l.footer.metaOffset, l.footer.metaLen, MetaBlock(c, l.info));
    if l.partitioned { PartsStill(c, l.x, indexed, file, l.groups, l.top); }
    if l.filterPartitioned {
      FiltersStill(c, b.file, file, l.groups, l.filters, l.filterTop);
      StoredStill(filtered, file, l.info.bloomOffset, l.info.bloomLen, FilterTopBlock(c, l.filterTop));
    } else if l.filter.Some? {
      StoredStill(b.file, file, l.info.bloomOffset, l.info.bloomLen, FilterBlock(c, l.filter.value));
    }
    LiesAtEnd(described, EncodeFooter(c, l.footer));
  }
}
