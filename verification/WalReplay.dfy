/** Replaying a log segment: block by block, searching for the next block after damage; and
    what a torn tail leaves. */
module WalReplay {
  import opened Bytes
  import opened Concat
  import opened Entries
  import opened WalFormat

  // ---------- searching for the next block ----------

  /** Where the first magic at or after a position ends. */
  function FirstMagic(data: bytes, pos: nat): (r: Option<nat>)
    requires pos <= |data|
    ensures r.Some? ==> pos < r.value <= |data|
    decreases |data| - pos
  {
    if |data| - pos < MAGIC_SIZE then None
    else if data[pos..pos + MAGIC_SIZE] == BLOCK_MAGIC then Some(pos + MAGIC_SIZE)
    else FirstMagic(data, pos + 1)
  }

  lemma MagicStep(data: bytes, pos: nat)
    requires pos + MAGIC_SIZE <= |data|
    ensures FirstMagic(data, pos) == if data[pos..pos + MAGIC_SIZE] == BLOCK_MAGIC then Some(pos + MAGIC_SIZE)
            else FirstMagic(data, pos + 1)
  {
  }

  lemma WindowMoves(data: bytes, pos: nat, window: bytes)
    requires |window| <= pos < |data| && window == data[pos - |window|..pos]
    ensures window + [data[pos]] == data[pos - |window|..pos + 1]
    ensures |window| > 0 ==> window[1..] + [data[pos]] == data[pos - |window| + 1..pos + 1]
  {
  }

  lemma NoMagic(data: bytes, pos: nat)
    requires pos <= |data| && |data| - pos < MAGIC_SIZE
    ensures FirstMagic(data, pos) == None
  {
  }

  /** Slides a window over the bytes until it shows the magic. */
  method ResyncBlock(data: bytes, pos0: nat) returns (found: bool, pos: nat)
    requires pos0 <= |data|
    ensures found == FirstMagic(data, pos0).Some?
    ensures pos == if found then FirstMagic(data, pos0).value else |data|
  {
    hide FirstMagic;
    pos := pos0;
    var window: bytes := [];
    while pos < |data|
      invariant pos0 <= pos <= |data|
      invariant |window| <= MAGIC_SIZE && pos0 + |window| <= pos && window == data[pos - |window|..pos]
      invariant |window| < MAGIC_SIZE ==> pos == pos0 + |window|
      invariant |window| < MAGIC_SIZE ==> FirstMagic(data, pos0) == FirstMagic(data, pos - |window|)
      invariant |window| == MAGIC_SIZE ==> FirstMagic(data, pos0) == FirstMagic(data, pos - MAGIC_SIZE + 1)
    {
      var b := data[pos];
      WindowMoves(data, pos, window);
      pos := pos + 1;
      if |window| < MAGIC_SIZE {
        window := window + [b];
      } else {
        window := window[1..] + [b];
      }
      if |window| == MAGIC_SIZE {
        MagicStep(data, pos - MAGIC_SIZE);
        if window == BLOCK_MAGIC { return true, pos; }
      }
    }
    NoMagic(data, if |window| < MAGIC_SIZE then pos - |window| else pos - MAGIC_SIZE + 1);
    return false, |data|;
  }

  datatype Resynced = Nothing | Broken | Next(es: seq<Entry>, pos: nat)

  /** After damage: the next block that decodes. One whose records do not decode ends the replay. */
  function Resync(crc: Crc, data: bytes, pos: nat, blockSize: uint32): (r: Resynced)
    requires pos <= |data|
    ensures r.Next? ==> pos < r.pos <= |data|
    decreases |data| - pos
  {
    match FirstMagic(data, pos)
    case None => Nothing
    case Some(p) =>
      var (d, q) := DecodeAfterMagic(crc, data, p, blockSize);
      if d.Corrupt? then Resync(crc, data, q, blockSize)
      else match RecordsIn(crc, d.payload, 0)
        case None => Broken
        case Some(es) => Next(es, q)
  }

  method ReplayFromResync(crc: Crc, data: bytes, pos0: nat, blockSize: uint32) returns (r: Resynced)
    requires pos0 <= |data|
    ensures r == Resync(crc, data, pos0, blockSize)
  {
    hide RecordsIn, DecodeAfterMagic, FirstMagic;
    var pos := pos0;
    while true
      invariant pos <= |data| && Resync(crc, data, pos0, blockSize) == Resync(crc, data, pos, blockSize)
      decreases |data| - pos
    {
      var found, p := ResyncBlock(data, pos);
      if !found { return Nothing; }
      var (d, q) := DecodeAfterMagic(crc, data, p, blockSize);
      if d.Corrupt? {
        pos := q;
        continue;
      }
      var es := DecodeRecords(crc, d.payload);
      if es.None? { return Broken; }
      return Next(es.value, q);
    }
  }

  // ---------- one segment ----------

  /** What a replay delivers, whether it met damage, the end of the last block it applied, and
      whether it gave up on a block whose records do not decode. */
  datatype Scan = Scan(out: seq<Entry>, corrupt: bool, lastGood: nat, aborted: bool)

  function Before(es: seq<Entry>, corrupt: bool, s: Scan): (r: Scan)
  {
    s.(out := es + s.out, corrupt := corrupt || s.corrupt)
  }

  function ReplayFrom(crc: Crc, data: bytes, pos: nat, blockSize: uint32, lastGood: nat): (r: Scan)
    requires pos <= |data|
    decreases |data| - pos
  {
    var (d, q) := DecodeBlock(crc, data, pos, blockSize);
    if d.Eof? then Scan([], false, lastGood, false)
    else
      var records := if d.Block? then RecordsIn(crc, d.payload, 0) else None;
      match records
      case Some(es) => Before(es, false, ReplayFrom(crc, data, q, blockSize, q))
      case None =>
        match Resync(crc, data, q, blockSize)
        case Nothing => Scan([], true, lastGood, false)
        case Broken => Scan([], true, lastGood, true)
        case Next(es, p) => Before(es, true, ReplayFrom(crc, data, p, blockSize, p))
  }

  function ReplayOf(crc: Crc, data: bytes): (r: Scan)
  {
    match ReadHeader(crc, data)
    case None => Scan([], true, 0, false)
    case Some(blockSize) => ReplayFrom(crc, data, SEGMENT_HEADER, blockSize, SEGMENT_HEADER)
  }

  method ReplaySegment(crc: Crc, data: bytes) returns (r: Scan)
    ensures r == ReplayOf(crc, data)
  {
    hide DecodeBlock, Resync, RecordsIn;
    var header := ReadHeader(crc, data);
    if header.None? { return Scan([], true, 0, false); }
    var blockSize := header.value;
    var pos, lastGood := SEGMENT_HEADER, SEGMENT_HEADER;
    var out: seq<Entry>, corrupt := [], false;
    ghost var all := ReplayFrom(crc, data, pos, blockSize, lastGood);
    assert Before([], false, all) == all;
    while true
      invariant pos <= |data| && all == Before(out, corrupt, ReplayFrom(crc, data, pos, blockSize, lastGood))
      decreases |data| - pos
    {
      ghost var rest := ReplayFrom(crc, data, pos, blockSize, lastGood);
      var (d, q) := DecodeBlock(crc, data, pos, blockSize);
      if d.Eof? {
        assert out + [] == out;
        return Scan(out, corrupt, lastGood, false);
      }
      var records: Option<seq<Entry>> := None;
      if d.Block? { records := DecodeRecords(crc, d.payload); }
      if records.None? {
        var found := ReplayFromResync(crc, data, q, blockSize);
        match found {
          case Nothing =>
            assert out + [] == out;
            return Scan(out, true, lastGood, false);
          case Broken =>
            assert out + [] == out;
            return Scan(out, true, lastGood, true);
          case Next(es, p) =>
            BeforeTwice(out, corrupt, es, true, ReplayFrom(crc, data, p, blockSize, p));
            out, corrupt, pos, lastGood := out + es, true, p, p;
        }
      } else {
        BeforeTwice(out, corrupt, records.value, false, ReplayFrom(crc, data, q, blockSize, q));
        out, pos, lastGood := out + records.value, q, q;
      }
    }
  }

  lemma BeforeTwice(a: seq<Entry>, c: bool, b: seq<Entry>, d: bool, s: Scan)
    ensures Before(a, c, Before(b, d, s)) == Before(a + b, c || d, s)
  {
    assert a + (b + s.out) == a + b + s.out;
  }

  // ---------- torn tails ----------

  function BlocksBytes(crc: Crc, blocks: seq<seq<Entry>>): (b: bytes)
  {
    if blocks == [] then [] else BlockBytes(crc, blocks[0]) + BlocksBytes(crc, blocks[1..])
  }

  /** How many of the blocks lie wholly within the first n bytes. */
  function Whole(crc: Crc, blocks: seq<seq<Entry>>, n: nat): (k: nat)
    ensures k <= |blocks|
  {
    if blocks == [] || n < |BlockBytes(crc, blocks[0])| then 0
      else 1 + Whole(crc, blocks[1..], n - |BlockBytes(crc, blocks[0])|)
  }

  ghost predicate BlocksOk(crc: Crc, blocks: seq<seq<Entry>>, blockSize: uint32)
  {
    forall i :: 0 <= i < |blocks| ==> BlockOk(crc, blocks[i], blockSize)
  }

  /** Replaying the first bytes of some blocks delivers the whole blocks among them, and reports
      damage exactly when the cut is not between blocks. */
  lemma {:induction false} ReplayTorn(crc: Crc, data: bytes, pos: nat, blocks: seq<seq<Entry>>, blockSize: uint32)
    requires pos <= |data| && BlocksOk(crc, blocks, blockSize)
    requires |data| - pos <= |BlocksBytes(crc, blocks)| && data[pos..] == BlocksBytes(crc, blocks)[..|data| - pos]
    ensures var k := Whole(crc, blocks, |data| - pos);
            var end := pos + |BlocksBytes(crc, blocks[..k])|;
            && end <= |data|
            && ReplayFrom(crc, data, pos, blockSize, pos) == Scan(Flat(blocks[..k]), end < |data|, end, false)
    decreases |blocks|
  {
    hide DecodeBlock, RecordsIn, BlockBytes, Flat, ReplayFrom, BlocksBytes;
    var n := |data| - pos;
    if n == 0 {
      NothingLeft(crc, data, pos, blocks, blockSize);
    } else {
      FirstBlock(crc, data, pos, blocks);
      assert BlockOk(crc, blocks[0], blockSize);
      var b := BlockBytes(crc, blocks[0]);
      if n < |b| {
        TornFirst(crc, data, pos, blocks, blockSize);
      } else {
        var q := pos + |b|;
        WholeFirst(crc, data, pos, blocks[0], blockSize);
        assert BlocksOk(crc, blocks[1..], blockSize);
        ReplayTorn(crc, data, q, blocks[1..], blockSize);
        WholeStep(crc, blocks, Whole(crc, blocks[1..], n - |b|));
      }
    }
  }

  /** The bytes left are those of the first block, cut or whole, and of the blocks after it. */
  lemma FirstBlock(crc: Crc, data: bytes, pos: nat, blocks: seq<seq<Entry>>)
    requires pos < |data| && |data| - pos <= |BlocksBytes(crc, blocks)|
             && data[pos..] == BlocksBytes(crc, blocks)[..|data| - pos]
    ensures blocks != []
    ensures var b, n := BlockBytes(crc, blocks[0]), |data| - pos;
            && (n < |b| ==> data[pos..] == b[..n])
            && (n >= |b| ==> data[pos..pos + |b|] == b && n - |b| <= |BlocksBytes(crc, blocks[1..])|
                             && data[pos + |b|..] == BlocksBytes(crc, blocks[1..])[..n - |b|])
  {
    hide BlockBytes;
    assert blocks != [];
    var b, rest := BlockBytes(crc, blocks[0]), BlocksBytes(crc, blocks[1..]);
    assert BlocksBytes(crc, blocks) == b + rest;
    CutOfTwo(data[pos..], b, rest);
    if |data| - pos >= |b| { SplitAt(data, pos, |b|); }
  }

  /** A prefix of two parts lies in the first, or has all of it and a prefix of the second. */
  lemma CutOfTwo(cut: bytes, a: bytes, b: bytes)
    requires |cut| <= |a| + |b| && cut == (a + b)[..|cut|]
    ensures |cut| < |a| ==> cut == a[..|cut|]
    ensures |cut| >= |a| ==> cut[..|a|] == a && cut[|a|..] == b[..|cut| - |a|]
  {
  }

  lemma SplitAt(data: bytes, pos: nat, n: nat)
    requires pos + n <= |data|
    ensures data[pos..][..n] == data[pos..pos + n] && data[pos..][n..] == data[pos + n..]
  {
  }

  lemma TornFirst(crc: Crc, data: bytes, pos: nat, blocks: seq<seq<Entry>>, blockSize: uint32)
    requires blocks != [] && BlockOk(crc, blocks[0], blockSize) && pos < |data| < pos + |BlockBytes(crc, blocks[0])|
    requires data[pos..] == BlockBytes(crc, blocks[0])[..|data| - pos]
    ensures ReplayFrom(crc, data, pos, blockSize, pos) == Scan([], true, pos, false)
    ensures Whole(crc, blocks, |data| - pos) == 0 && BlocksBytes(crc, blocks[..0]) == [] && Flat(blocks[..0]) == []
  {
    hide DecodeBlock, RecordsIn, BlockBytes;
    TornBlock(crc, data, pos, blocks[0], blockSize);
    NoMagicAtEnd(crc, data, blockSize);
  }

  lemma WholeFirst(crc: Crc, data: bytes, pos: nat, es: seq<Entry>, blockSize: uint32)
    requires BlockOk(crc, es, blockSize) && pos + |BlockBytes(crc, es)| <= |data|
    requires data[pos..pos + |BlockBytes(crc, es)|] == BlockBytes(crc, es)
    ensures var q := pos + |BlockBytes(crc, es)|;
            ReplayFrom(crc, data, pos, blockSize, pos) == Before(es, false, ReplayFrom(crc, data, q, blockSize, q))
  {
    hide DecodeBlock, RecordsIn, BlockBytes;
    BlockReadsBack(crc, data, pos, es, blockSize);
  }

  lemma NothingLeft(crc: Crc, data: bytes, pos: nat, blocks: seq<seq<Entry>>, blockSize: uint32)
    requires pos == |data|
    ensures Whole(crc, blocks, 0) == 0 && BlocksBytes(crc, blocks[..0]) == [] && Flat(blocks[..0]) == []
    ensures ReplayFrom(crc, data, pos, blockSize, pos) == Scan([], false, pos, false)
  {
  }

  lemma NoMagicAtEnd(crc: Crc, data: bytes, blockSize: uint32)
    ensures Resync(crc, data, |data|, blockSize) == Nothing
  {
  }

  lemma WholeStep(crc: Crc, blocks: seq<seq<Entry>>, k: nat)
    requires blocks != [] && k < |blocks|
    ensures Flat(blocks[..k + 1]) == blocks[0] + Flat(blocks[1..][..k])
    ensures |BlocksBytes(crc, blocks[..k + 1])| == |BlockBytes(crc, blocks[0])| + |BlocksBytes(crc, blocks[1..][..k])|
  {
    var front := blocks[..k + 1];
    assert front == [blocks[0]] + blocks[1..][..k] && front[1..] == blocks[1..][..k];
    FlatAppend([blocks[0]], blocks[1..][..k]);
    FlatOne(blocks[0]);
  }

  /** A segment: its header and its blocks. */
  function SegmentBytes(crc: Crc, blocks: seq<seq<Entry>>, blockSize: uint32, segmentID: uint64,
                        createdAt: uint64): (b: bytes)
  {
    SegmentHeader(crc, blockSize, segmentID, createdAt) + BlocksBytes(crc, blocks)
  }

  /** For every segment the append path writes and every cut at or past its header: replay delivers
      exactly the records of the blocks wholly before the cut, in order; the last good offset is
      their end; and truncating there makes the replay clean and deliver the same. */
  lemma TornTail(crc: Crc, blocks: seq<seq<Entry>>, blockSize: uint32, segmentID: uint64, createdAt: uint64, cut: nat)
    requires BlocksOk(crc, blocks, blockSize)
             && SEGMENT_HEADER <= cut <= |SegmentBytes(crc, blocks, blockSize, segmentID, createdAt)|
    ensures var file := SegmentBytes(crc, blocks, blockSize, segmentID, createdAt);
            var k := Whole(crc, blocks, cut - SEGMENT_HEADER);
            var end := SEGMENT_HEADER + |BlocksBytes(crc, blocks[..k])|;
            && end <= cut
            && ReplayOf(crc, file[..cut]) == Scan(Flat(blocks[..k]), end < cut, end, false)
            && ReplayOf(crc, file[..end]) == Scan(Flat(blocks[..k]), false, end, false)
  {
    hide BlocksBytes, ReplayFrom, SegmentHeader, Flat, ReadHeader;
    var file := SegmentBytes(crc, blocks, blockSize, segmentID, createdAt);
    var k := Whole(crc, blocks, cut - SEGMENT_HEADER);
    var end := SEGMENT_HEADER + |BlocksBytes(crc, blocks[..k])|;
    ReplayCut(crc, blocks, blockSize, segmentID, createdAt, cut);
    WholeAgain(crc, blocks, cut - SEGMENT_HEADER);
    ReplayCut(crc, blocks, blockSize, segmentID, createdAt, end);
  }

  lemma ReplayCut(crc: Crc, blocks: seq<seq<Entry>>, blockSize: uint32, segmentID: uint64, createdAt: uint64, cut: nat)
    requires BlocksOk(crc, blocks, blockSize)
             && SEGMENT_HEADER <= cut <= |SegmentBytes(crc, blocks, blockSize, segmentID, createdAt)|
    ensures var k := Whole(crc, blocks, cut - SEGMENT_HEADER);
            var end := SEGMENT_HEADER + |BlocksBytes(crc, blocks[..k])|;
            && end <= cut
            && ReplayOf(crc, SegmentBytes(crc, blocks, blockSize, segmentID, createdAt)[..cut]) ==
               Scan(Flat(blocks[..k]), end < cut, end, false)
  {
    hide BlocksBytes, ReplayFrom, SegmentHeader, Flat, ReadHeader, BlocksOk, Whole;
    var data := SegmentBytes(crc, blocks, blockSize, segmentID, createdAt)[..cut];
    assert data[..SEGMENT_HEADER] == SegmentHeader(crc, blockSize, segmentID, createdAt);
    HeaderReadsBack(crc, data, blockSize, segmentID, createdAt);
    assert data[SEGMENT_HEADER..] == BlocksBytes(crc, blocks)[..cut - SEGMENT_HEADER];
    ReplayTorn(crc, data, SEGMENT_HEADER, blocks, blockSize);
  }

  lemma {:induction false} WholeAgain(crc: Crc, blocks: seq<seq<Entry>>, n: nat)
    ensures var k := Whole(crc, blocks, n); Whole(crc, blocks, |BlocksBytes(crc, blocks[..k])|) == k
    decreases |blocks|
  {
    hide BlockBytes;
    if blocks != [] && n >= |BlockBytes(crc, blocks[0])| {
      var m := n - |BlockBytes(crc, blocks[0])|;
      WholeAgain(crc, blocks[1..], m);
      WholeStep(crc, blocks, Whole(crc, blocks[1..], m));
    } else {
      assert blocks[..0] == [];
      if blocks != [] { assert |BlockBytes(crc, blocks[0])| > 0; }
    }
  }
}
