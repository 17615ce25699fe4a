/** The append path: records grouped into blocks of bounded size, segments rotated by size. */
module WalAppend {
  import opened Bytes
  import opened Concat
  import opened Entries
  import opened WalFormat
  import opened WalReplay

  class Log {
    const crc: Crc
    const blockSize: uint32
    const maxRecord: nat                 // 0 is no limit
    const maxBytes: nat                  // 0 is no rotation
    const createdAt: uint64

    var file: bytes                      // the active segment
    var segments: seq<bytes>             // rotated segments, oldest first
    var segmentID: nat
    var sizeBytes: nat
    var records: seq<Entry>              // the block under construction
    var blockLen: nat

    ghost var blocks: seq<seq<Entry>>            // the blocks of the active segment
    ghost var rotated: seq<seq<seq<Entry>>>      // the blocks of the rotated segments
    ghost var ids: seq<uint64>                   // the ids of the rotated segments

    ghost predicate Valid()
      reads this
    {
      && BlocksOk(crc, blocks, blockSize) && file == SegmentBytes(crc, blocks, blockSize, segmentID % UINT64, createdAt)
         && sizeBytes == |file|
      && |segments| == |rotated| == |ids|
         && (forall i :: 0 <= i < |segments| ==> SegmentOk(segments[i], rotated[i], ids[i]))
      && blockLen == |RecordsBytes(crc, records)| && (records == [] || BlockOk(crc, records, blockSize))
    }

    ghost predicate SegmentOk(data: bytes, bs: seq<seq<Entry>>, id: uint64)
      reads this
    {
      BlocksOk(crc, bs, blockSize) && data == SegmentBytes(crc, bs, blockSize, id, createdAt)
    }

    /** Every entry accepted so far, in order. */
    ghost function Contents(): (es: seq<Entry>)
      reads this
    {
      Written() + records
    }

    /** Those that are in segments. */
    ghost function Written(): (es: seq<Entry>)
      reads this
    {
      Flat(Flats(rotated)) + Flat(blocks)
    }

    constructor (crc: Crc, blockSize: uint32, maxRecord: nat, maxBytes: nat, segmentID: uint64, createdAt: uint64)
      ensures Valid() && Contents() == []
    {
      hide BlockOk, BlocksOk, SegmentBytes, SegmentHeader, Flat, Flats, RecordsBytes;
      this.crc, this.blockSize, this.maxRecord, this.maxBytes, this.createdAt :=
        crc, blockSize, maxRecord, maxBytes, createdAt;
      file, segments, this.segmentID, records, blockLen :=
        SegmentHeader(crc, blockSize, segmentID, createdAt), [], segmentID, [], 0;
      sizeBytes := SEGMENT_HEADER;
      blocks, rotated, ids := [], [], [];
      NothingLogged(crc, blockSize, segmentID, createdAt);
    }

    /** What an entry must be to be logged. */
    predicate Admissible(e: Entry)
    {
      && e.key != [] && (e.value != [] || e.tombstone)
      && |RecordBytes(crc, e)| <= blockSize && (maxRecord > 0 ==> |RecordBytes(crc, e)| <= maxRecord)
    }

    /** Adds a record to the current block, first ending a block it does not fit. */
    method AppendLocked(e: Entry) returns (ok: bool)
      requires Valid()
      modifies this
      ensures Valid() && ok == Admissible(e) && Contents() == if ok then old(Contents()) + [e] else old(Contents())
    {
      hide BlockOk, BlocksOk, SegmentBytes, Flat, RecordBytes, RecordsBytes;
      if !Admissible(e) { return false; }
      var total := |RecordBytes(crc, e)|;
      if blockLen > 0 && blockLen + total > blockSize { FlushBlock(); }
      OneMore(crc, records, e, blockSize, blockLen);
      records := records + [e];
      blockLen := blockLen + total;
      return true;
    }

    /** Writes out the current block, and starts a new segment when this one is full. */
    method FlushBlock()
      requires Valid()
      modifies this
      ensures Valid() && records == [] && blockLen == 0 && Contents() == old(Contents()) && Written() == old(Contents())
    {
      hide BlockOk, BlocksOk, SegmentBytes, Flat, RecordBytes, RecordsBytes;
      NoRecords(crc);
      if blockLen == 0 {
        EmptyBlock(crc, records);
        return;
      }
      var block := BlockBytes(crc, records);
      BlocksOne(crc, blocks, records, blockSize, segmentID % UINT64, createdAt);
      FlatStep(blocks, records);
      blocks := blocks + [records];
      file := file + block;
      sizeBytes := sizeBytes + |block|;
      records, blockLen := [], 0;
      if maxBytes > 0 && sizeBytes >= maxBytes { Rotate(); }
    }

    method Rotate()
      requires Valid()
      modifies this
      ensures Valid() && records == old(records) && blockLen == old(blockLen) && Written() == old(Written())
    {
      hide BlockOk, BlocksOk, Flat, RecordBytes, RecordsBytes;
      NewSegment(crc, rotated, blocks, blockSize, (segmentID + 1) % UINT64, createdAt);
      segments, rotated, ids := segments + [file], rotated + [blocks], ids + [segmentID % UINT64];
      segmentID := segmentID + 1;
      file := SegmentHeader(crc, blockSize, segmentID % UINT64, createdAt);
      sizeBytes := SEGMENT_HEADER;
      blocks := [];
    }

    /** A batch: every admissible entry is logged, in order, and all of it is in segments afterwards. */
    method ProcessBatch(batch: seq<Entry>) returns (oks: seq<bool>)
      requires Valid()
      modifies this
      ensures Valid() && |oks| == |batch| && forall i :: 0 <= i < |batch| ==> oks[i] == Admissible(batch[i])
      ensures records == [] && Written() == old(Contents()) + Accepted(batch)
    {
      hide Admissible, BlockOk, BlocksOk, SegmentBytes, Flat, RecordBytes, RecordsBytes, Accepted, Written;
      NoneAccepted();
      oks := [];
      assert old(Contents()) + Accepted([]) == old(Contents());
      for i := 0 to |batch|
        invariant Valid() && |oks| == i && forall j :: 0 <= j < i ==> oks[j] == Admissible(batch[j])
        invariant Contents() == old(Contents()) + Accepted(batch[..i])
      {
        var ok := AppendLocked(batch[i]);
        oks := oks + [ok];
        AcceptedOne(batch, i);
        assert (old(Contents()) + Accepted(batch[..i])) + [batch[i]] ==
               old(Contents()) + (Accepted(batch[..i]) + [batch[i]]);
      }
      assert batch[..|batch|] == batch;
      FlushBlock();
    }

    lemma NoneAccepted()
      ensures Accepted([]) == []
    {
    }

    lemma AcceptedOne(batch: seq<Entry>, i: nat)
      requires i < |batch|
      ensures Accepted(batch[..i + 1]) == if Admissible(batch[i]) then Accepted(batch[..i]) + [batch[i]]
              else Accepted(batch[..i])
    {
      hide Admissible;
      assert batch[..i + 1][..i] == batch[..i];
      assert Accepted(batch[..i]) + [] == Accepted(batch[..i]);
    }

    ghost function Accepted(batch: seq<Entry>): (es: seq<Entry>)
    {
      if batch == [] then []
      else Accepted(batch[..|batch| - 1]) + (if Admissible(batch[|batch| - 1]) then [batch[|batch| - 1]] else [])
    }

    /** Replay after a crash that cut the active segment: every logged entry of the rotated segments, and
        the whole blocks of the active one; a prefix of what was accepted. */
    method Replay(cut: nat) returns (out: seq<Entry>, corrupt: bool, repaired: nat)
      requires Valid() && SEGMENT_HEADER <= cut <= |file|
      ensures var k := Whole(crc, blocks, cut - SEGMENT_HEADER);
              && out == Flat(Flats(rotated)) + Flat(blocks[..k]) && out <= Written()
              && repaired == SEGMENT_HEADER + |BlocksBytes(crc, blocks[..k])| <= cut && corrupt == (repaired < cut)
    {
      hide BlocksOk, Flat, Whole, ReplayOf, SegmentBytes, Flats, BlockOk;
      out := [];
      FlatsNone();
      for i := 0 to |segments|
        invariant out == Flat(Flats(rotated[..i]))
      {
        assert SegmentOk(segments[i], rotated[i], ids[i]);
        CleanSegment(crc, rotated[i], blockSize, ids[i], createdAt);
        var r := ReplaySegment(crc, segments[i]);
        FlatsOne(rotated[..i], rotated[i]);
        assert rotated[..i + 1] == rotated[..i] + [rotated[i]];
        out := out + r.out;
      }
      assert rotated[..|rotated|] == rotated;
      TornTail(crc, blocks, blockSize, segmentID % UINT64, createdAt, cut);
      var r := ReplaySegment(crc, file[..cut]);
      ghost var k := Whole(crc, blocks, cut - SEGMENT_HEADER);
      assert blocks == blocks[..k] + blocks[k..];
      FlatAppend(blocks[..k], blocks[k..]);
      out, corrupt, repaired := out + r.out, r.corrupt, r.lastGood;
    }
  }

  ghost function Flats(segs: seq<seq<seq<Entry>>>): (r: seq<seq<Entry>>)
    ensures |r| == |segs| && forall i :: 0 <= i < |segs| ==> r[i] == Flat(segs[i])
  {
    seq(|segs|, i requires 0 <= i < |segs| => Flat(segs[i]))
  }

  lemma FlatsNone()
    ensures Flats([]) == [] && Flat(Flats([])) == []
  {
  }

  lemma FlatsOne(segs: seq<seq<seq<Entry>>>, bs: seq<seq<Entry>>)
    ensures Flat(Flats(segs + [bs])) == Flat(Flats(segs)) + Flat(bs)
  {
    assert Flats(segs + [bs]) == Flats(segs) + [Flat(bs)];
    FlatStep(Flats(segs), Flat(bs));
  }

  lemma NewSegment(crc: Crc, rotated: seq<seq<seq<Entry>>>, blocks: seq<seq<Entry>>, blockSize: uint32, id: uint64,
                   createdAt: uint64)
    ensures Flat(Flats(rotated + [blocks])) + Flat<Entry>([]) == Flat(Flats(rotated)) + Flat(blocks)
    ensures BlocksOk(crc, [], blockSize)
            && SegmentBytes(crc, [], blockSize, id, createdAt) == SegmentHeader(crc, blockSize, id, createdAt)
  {
    FlatsOne(rotated, blocks);
    assert Flat<Entry>([]) == [];
  }

  lemma NothingLogged(crc: Crc, blockSize: uint32, id: uint64, createdAt: uint64)
    ensures Flat(Flats([])) + Flat<Entry>([]) == [] && RecordsBytes(crc, []) == [] && BlocksOk(crc, [], blockSize)
    ensures var h := SegmentHeader(crc, blockSize, id, createdAt);
            SegmentBytes(crc, [], blockSize, id, createdAt) == h && |h| == SEGMENT_HEADER
    ensures id % UINT64 == id
  {
    NewSegment(crc, [], [], blockSize, id, createdAt);
    NoRecords(crc);
  }

  lemma NoRecords(crc: Crc)
    ensures RecordsBytes(crc, []) == []
  {
  }

  lemma EmptyBlock(crc: Crc, records: seq<Entry>)
    requires RecordsBytes(crc, records) == []
    ensures records == []
  {
  }

  /** One more record in the block keeps it within its size. */
  lemma OneMore(crc: Crc, records: seq<Entry>, e: Entry, blockSize: uint32, blockLen: nat)
    requires records == [] || BlockOk(crc, records, blockSize)
    requires blockLen == |RecordsBytes(crc, records)| && |RecordBytes(crc, e)| <= blockSize
    requires blockLen == 0 || blockLen + |RecordBytes(crc, e)| <= blockSize
    ensures BlockOk(crc, records + [e], blockSize)
            && |RecordsBytes(crc, records + [e])| == blockLen + |RecordBytes(crc, e)|
  {
    RecordsAppend(crc, records, e);
    if blockLen == 0 { EmptyBlock(crc, records); }
    forall i | 0 <= i < |records + [e]| ensures RecordFits((records + [e])[i]) {
      if i < |records| { assert RecordFits(records[i]); }
    }
  }

  lemma BlocksOne(crc: Crc, blocks: seq<seq<Entry>>, es: seq<Entry>, blockSize: uint32, id: uint64, createdAt: uint64)
    requires BlocksOk(crc, blocks, blockSize) && BlockOk(crc, es, blockSize)
    ensures BlocksOk(crc, blocks + [es], blockSize)
    ensures SegmentBytes(crc, blocks + [es], blockSize, id, createdAt) ==
            SegmentBytes(crc, blocks, blockSize, id, createdAt) + BlockBytes(crc, es)
  {
    hide BlockOk, SegmentHeader;
    forall i | 0 <= i < |blocks + [es]| ensures BlockOk(crc, (blocks + [es])[i], blockSize) {
      if i < |blocks| { assert BlockOk(crc, blocks[i], blockSize); }
    }
    BlocksAppend(crc, blocks, es);
  }

  lemma {:induction false} BlocksAppend(crc: Crc, blocks: seq<seq<Entry>>, es: seq<Entry>)
    ensures BlocksBytes(crc, blocks + [es]) == BlocksBytes(crc, blocks) + BlockBytes(crc, es)
  {
    hide BlockBytes;
    if blocks == [] {
      assert [es][1..] == [] && BlocksBytes(crc, []) == [];
    } else {
      BlocksAppend(crc, blocks[1..], es);
      var all := blocks + [es];
      assert all[1..] == blocks[1..] + [es] && all[0] == blocks[0];
      var first, rest, last := BlockBytes(crc, blocks[0]), BlocksBytes(crc, blocks[1..]), BlockBytes(crc, es);
      assert (first + rest) + last == first + (rest + last);
    }
  }

  /** A segment that was not cut replays in full. */
  lemma CleanSegment(crc: Crc, blocks: seq<seq<Entry>>, blockSize: uint32, id: uint64, createdAt: uint64)
    requires BlocksOk(crc, blocks, blockSize)
    ensures var file := SegmentBytes(crc, blocks, blockSize, id, createdAt);
            ReplayOf(crc, file) == Scan(Flat(blocks), false, |file|, false)
  {
    hide BlocksOk, Flat, ReplayOf, SegmentHeader;
    var file := SegmentBytes(crc, blocks, blockSize, id, createdAt);
    TornTail(crc, blocks, blockSize, id, createdAt, |file|);
    AllWhole(crc, blocks);
    assert blocks[..|blocks|] == blocks && file[..|file|] == file;
  }

  lemma {:induction false} AllWhole(crc: Crc, blocks: seq<seq<Entry>>)
    ensures Whole(crc, blocks, |BlocksBytes(crc, blocks)|) == |blocks|
  {
    hide BlockBytes;
    if blocks != [] { AllWhole(crc, blocks[1..]); }
  }
}
