/** The write-ahead log as bytes: records, blocks of records, and segments of blocks. */
module WalFormat {
  import opened Bytes
  import opened Concat
  import opened Entries

  type Crc = bytes -> uint32

  const RECORD_HEADER: nat := 17        // flags, sequence number, key length, value length
  const CRC_SIZE: nat := 4
  const BLOCK_HEADER: nat := 12         // magic, payload length, checksum
  const MAGIC_SIZE: nat := 4
  const BLOCK_MAGIC: bytes := [76, 83, 77, 66]
  const SEGMENT_MAGIC: bytes := [76, 83, 77, 87]
  const SEGMENT_HEADER: nat := 29
  const VERSION: byte := 1

  // ---------- records ----------

  function RecordHeader(e: Entry): (h: bytes)
    ensures |h| == RECORD_HEADER
  {
    [if e.tombstone then 1 else 0] + PutLE(e.seqno, 8) + PutLE(|e.key|, 4) + PutLE(|e.value|, 4)
  }

  function RecordBytes(crc: Crc, e: Entry): (b: bytes)
    ensures |b| == RECORD_HEADER + |e.key| + |e.value| + CRC_SIZE
  {
    var body := RecordHeader(e) + e.key + e.value;
    body + PutLE(crc(body), CRC_SIZE)
  }

  /** The lengths of a record fit its fields. */
  predicate RecordFits(e: Entry)
  {
    |e.key| + |e.value| < UINT32
  }

  function RecordsBytes(crc: Crc, es: seq<Entry>): (b: bytes)
  {
    if es == [] then [] else RecordBytes(crc, es[0]) + RecordsBytes(crc, es[1..])
  }

  /** The record at a position, and the position after it; None when it is cut short or its checksum
      is wrong. The two lengths are added in 32 bits; where that wraps and lets a short record pass,
      the source fails on the slice, which is None here too. */
  function RecordIn(crc: Crc, payload: bytes, pos: nat): (r: Option<(Entry, nat)>)
    requires pos <= |payload|
    ensures r.Some? ==> pos < r.value.1 <= |payload|
  {
    if |payload| - pos < RECORD_HEADER + CRC_SIZE then None
    else
      var keyLen, valLen := GetLE(payload[pos + 9..pos + 13]), GetLE(payload[pos + 13..pos + 17]);
      var at := pos + RECORD_HEADER;
      if |payload| - at < (keyLen + valLen) % UINT32 + CRC_SIZE || |payload| - at < keyLen + valLen + CRC_SIZE then None
      else
        var end := at + keyLen + valLen;
        if GetLE(payload[end..end + CRC_SIZE]) != crc(payload[pos..end]) then None
        else
          GetLEBound(payload[pos + 1..pos + 9]);
          Pow256Values();
          Some((Entry(payload[at..at + keyLen], payload[at + keyLen..end], payload[pos] % 2 ==
            1, GetLE(payload[pos + 1..pos + 9])),
                end + CRC_SIZE))
  }

  /** The records of a payload from a position on. */
  function RecordsIn(crc: Crc, payload: bytes, pos: nat): (r: Option<seq<Entry>>)
    requires pos <= |payload|
    decreases |payload| - pos
  {
    if pos == |payload| then Some([])
    else match RecordIn(crc, payload, pos)
      case None => None
      case Some((e, next)) => Joined([e], RecordsIn(crc, payload, next))
  }

  lemma RecordHeaderParts(e: Entry)
    requires RecordFits(e)
    ensures var h := RecordHeader(e);
            && h[0] == (if e.tombstone then 1 else 0) && GetLE(h[1..9]) == e.seqno
            && GetLE(h[9..13]) == |e.key| && GetLE(h[13..17]) == |e.value|
  {
    hide PutLE, GetLE;
    var h := RecordHeader(e);
    assert h[1..9] == PutLE(e.seqno, 8) && h[9..13] == PutLE(|e.key|, 4) && h[13..17] == PutLE(|e.value|, 4);
    RoundTrip64(e.seqno);
    RoundTrip32(|e.key|);
    RoundTrip32(|e.value|);
  }

  lemma RecordReadsBack(crc: Crc, payload: bytes, pos: nat, e: Entry)
    requires RecordFits(e) && pos + |RecordBytes(crc, e)| <= |payload|
    requires payload[pos..pos + |RecordBytes(crc, e)|] == RecordBytes(crc, e)
    ensures RecordIn(crc, payload, pos) == Some((e, pos + |RecordBytes(crc, e)|))
  {
    hide PutLE, GetLE, RecordHeader;
    var b, h := RecordBytes(crc, e), RecordHeader(e);
    var body := h + e.key + e.value;
    var n := |body|;
    RecordHeaderParts(e);
    RecordParts(h, e.key, e.value, PutLE(crc(body), CRC_SIZE));
    SliceWithin(payload, pos, b, 0, RECORD_HEADER);
    SliceWithin(payload, pos, h, 1, 9);
    SliceWithin(payload, pos, h, 9, 13);
    SliceWithin(payload, pos, h, 13, 17);
    SliceWithin(payload, pos, b, 0, n);
    SliceWithin(payload, pos, b, n, n + CRC_SIZE);
    assert payload[pos] == payload[pos..pos + |b|][0] == h[0];
    RoundTrip32(crc(body));
    var k := RECORD_HEADER + |e.key|;
    SliceWithin(payload, pos, b, RECORD_HEADER, k);
    SliceWithin(payload, pos, b, k, n);
  }

  lemma RecordParts(h: bytes, key: bytes, value: bytes, check: bytes)
    ensures var body := h + key + value;
            var b, n, k := body + check, |body|, |h| + |key|;
            && b[0..|h|] == h && b[|h|..k] == key && b[k..n] == value && b[0..n] == body && b[n..n + |check|] == check
  {
  }

  /** Decoding encoded records gives them back. */
  lemma {:induction false} RecordsReadBack(crc: Crc, before: bytes, es: seq<Entry>)
    requires forall i :: 0 <= i < |es| ==> RecordFits(es[i])
    ensures RecordsIn(crc, before + RecordsBytes(crc, es), |before|) == Some(es)
    decreases |es|
  {
    hide RecordIn, RecordBytes;
    if es != [] {
      var payload, b := before + RecordsBytes(crc, es), RecordBytes(crc, es[0]);
      assert payload == (before + b) + RecordsBytes(crc, es[1..]);
      RecordReadsBack(crc, payload, |before|, es[0]);
      RecordsReadBack(crc, before + b, es[1..]);
      assert es == [es[0]] + es[1..];
    }
  }

  lemma {:induction false} RecordsAppend(crc: Crc, es: seq<Entry>, e: Entry)
    ensures RecordsBytes(crc, es + [e]) == RecordsBytes(crc, es) + RecordBytes(crc, e)
  {
    hide RecordBytes;
    if es == [] {
    } else {
      RecordsAppend(crc, es[1..], e);
      assert (es + [e])[1..] == es[1..] + [e];
    }
  }

  /** The decode loop: fails exactly when a record is cut short or its checksum is wrong. */
  method DecodeRecords(crc: Crc, payload: bytes) returns (r: Option<seq<Entry>>)
    ensures r == RecordsIn(crc, payload, 0)
  {
    hide GetLE, RecordsIn;
    var entries: seq<Entry> := [];
    var offset := 0;
    JoinedNothing(RecordsIn(crc, payload, 0));
    while offset < |payload|
      invariant 0 <= offset <= |payload|
      invariant RecordsIn(crc, payload, 0) == Joined(entries, RecordsIn(crc, payload, offset))
    {
      DecodeStep(crc, payload, offset, entries);
      var start := offset;
      if |payload| - offset < RECORD_HEADER + CRC_SIZE { return None; }
      var flags, seqno := payload[offset], GetLE(payload[offset + 1..offset + 9]);
      var keyLen, valLen := GetLE(payload[offset + 9..offset + 13]), GetLE(payload[offset + 13..offset + 17]);
      GetLEBound(payload[offset + 1..offset + 9]);
      Pow256Values();
      offset := offset + RECORD_HEADER;
      if |payload| - offset < (keyLen + valLen) % UINT32 + CRC_SIZE || |payload| - offset < keyLen + valLen + CRC_SIZE {
        return None;
      }
      var key := payload[offset..offset + keyLen];
      offset := offset + keyLen;
      var val := payload[offset..offset + valLen];
      offset := offset + valLen;
      var sum := GetLE(payload[offset..offset + CRC_SIZE]);
      if sum != crc(payload[start..offset]) { return None; }
      offset := offset + CRC_SIZE;
      entries := entries + [Entry(key, val, flags % 2 == 1, seqno)];
    }
    EndsEmpty(crc, payload);
    assert entries + [] == entries;
    return Some(entries);
  }

  lemma DecodeStep(crc: Crc, payload: bytes, pos: nat, es: seq<Entry>)
    requires pos < |payload|
    ensures match RecordIn(crc, payload, pos)
            case None => Joined(es, RecordsIn(crc, payload, pos)) == None
            case Some((e, next)) =>
              Joined(es, RecordsIn(crc, payload, pos)) ==
              Joined(es + [e], RecordsIn(crc, payload, next))
  {
    hide RecordIn;
    match RecordIn(crc, payload, pos)
    case None =>
    case Some((e, next)) => JoinedTwice(es, e, RecordsIn(crc, payload, next));
  }

  lemma EndsEmpty(crc: Crc, payload: bytes)
    ensures RecordsIn(crc, payload, |payload|) == Some([])
  {
  }

  // ---------- blocks ----------

  function BlockBytes(crc: Crc, es: seq<Entry>): (b: bytes)
    ensures |b| == BLOCK_HEADER + |RecordsBytes(crc, es)|
  {
    var payload := RecordsBytes(crc, es);
    BLOCK_MAGIC + PutLE(|payload|, 4) + PutLE(crc(payload), 4) + payload
  }

  datatype Decoded = Eof | Corrupt | Block(payload: bytes)

  /** Reading a block after its magic, and where the reader then stands. A short read takes all
      that is left. */
  function DecodeAfterMagic(crc: Crc, data: bytes, pos: nat, maxPayload: uint32): (r: (Decoded, nat))
    requires pos <= |data|
    ensures pos <= r.1 <= |data| && (pos < |data| ==> pos < r.1) && !r.0.Eof?
  {
    if |data| - pos < 8 then (Corrupt, |data|)
    else
      var n := GetLE(data[pos..pos + 4]);
      var at := pos + 8;
      if maxPayload > 0 && n > maxPayload then (Corrupt, at)
      else if |data| - at < n then (Corrupt, |data|)
      else if crc(data[at..at + n]) != GetLE(data[pos + 4..at]) then (Corrupt, at + n)
      else (Block(data[at..at + n]), at + n)
  }

  function DecodeBlock(crc: Crc, data: bytes, pos: nat, maxPayload: uint32): (r: (Decoded, nat))
    requires pos <= |data|
    ensures pos <= r.1 <= |data| && (pos < |data| ==> pos < r.1) && (r.0.Eof? <==> pos == |data|)
  {
    if pos == |data| then (Eof, pos)
    else if |data| - pos < MAGIC_SIZE then (Corrupt, |data|)
    else if data[pos..pos + MAGIC_SIZE] != BLOCK_MAGIC then (Corrupt, pos + MAGIC_SIZE)
    else DecodeAfterMagic(crc, data, pos + MAGIC_SIZE, maxPayload)
  }

  /** A block the append path writes: some records, none too long for its fields, no more than fit. */
  ghost predicate BlockOk(crc: Crc, es: seq<Entry>, blockSize: uint32)
  {
    es != [] && (forall i :: 0 <= i < |es| ==> RecordFits(es[i])) && |RecordsBytes(crc, es)| <= blockSize
  }

  lemma BlockParts(crc: Crc, es: seq<Entry>)
    ensures var b, p := BlockBytes(crc, es), RecordsBytes(crc, es);
            && b[0..4] == BLOCK_MAGIC && b[4..8] == PutLE(|p|, 4) && b[8..12] == PutLE(crc(p), 4)
               && b[12..12 + |p|] == p
  {
    hide PutLE;
  }

  /** A whole block reads back as its records. */
  lemma BlockReadsBack(crc: Crc, data: bytes, pos: nat, es: seq<Entry>, blockSize: uint32)
    requires BlockOk(crc, es, blockSize) && pos + |BlockBytes(crc, es)| <= |data|
    requires data[pos..pos + |BlockBytes(crc, es)|] == BlockBytes(crc, es)
    ensures DecodeBlock(crc, data, pos, blockSize) == (Block(RecordsBytes(crc, es)), pos + |BlockBytes(crc, es)|)
    ensures RecordsIn(crc, RecordsBytes(crc, es), 0) == Some(es)
  {
    hide PutLE, GetLE, RecordsIn, RecordsBytes, BlockBytes;
    var b, p := BlockBytes(crc, es), RecordsBytes(crc, es);
    BlockParts(crc, es);
    SliceWithin(data, pos, b, 0, 4);
    SliceWithin(data, pos, b, 4, 8);
    SliceWithin(data, pos, b, 8, 12);
    SliceWithin(data, pos, b, 12, 12 + |p|);
    RoundTrip32(|p|);
    RoundTrip32(crc(p));
    RecordsReadBack(crc, [], es);
    assert [] + p == p;
  }

  /** A block cut short is corrupt, and reading it takes all that is left. */
  lemma TornBlock(crc: Crc, data: bytes, pos: nat, es: seq<Entry>, blockSize: uint32)
    requires BlockOk(crc, es, blockSize) && pos < |data| < pos + |BlockBytes(crc, es)|
    requires data[pos..] == BlockBytes(crc, es)[..|data| - pos]
    ensures DecodeBlock(crc, data, pos, blockSize) == (Corrupt, |data|)
  {
    hide PutLE, GetLE, RecordsBytes, BlockBytes;
    var b, p, n := BlockBytes(crc, es), RecordsBytes(crc, es), |data| - pos;
    BlockParts(crc, es);
    assert data[pos..|data|] == b[..n];
    if n >= MAGIC_SIZE {
      SliceWithin(data, pos, b[..n], 0, 4);
      assert b[..n][0..4] == b[0..4];
      if n >= BLOCK_HEADER {
        SliceWithin(data, pos, b[..n], 4, 8);
        assert b[..n][4..8] == b[4..8];
        RoundTrip32(|p|);
      }
    }
  }

  // ---------- segments ----------

  function HeaderBody(blockSize: uint32, segmentID: uint64, createdAt: uint64): (b: bytes)
    ensures |b| == 21
  {
    [VERSION] + PutLE(blockSize, 4) + PutLE(segmentID, 8) + PutLE(createdAt, 8)
  }

  function SegmentHeader(crc: Crc, blockSize: uint32, segmentID: uint64, createdAt: uint64): (b: bytes)
    ensures |b| == SEGMENT_HEADER
  {
    var body := HeaderBody(blockSize, segmentID, createdAt);
    SEGMENT_MAGIC + body + PutLE(crc(body), 4)
  }

  /** The block size in a segment's header. */
  function ReadHeader(crc: Crc, data: bytes): (r: Option<uint32>)
  {
    if |data| < SEGMENT_HEADER then None
    else if data[0..4] != SEGMENT_MAGIC then None
    else if data[4] != VERSION then None
    else if crc(data[4..25]) != GetLE(data[25..29]) then None
    else
      GetLEBound(data[5..9]);
      Pow256Values();
      Some(GetLE(data[5..9]))
  }

  lemma HeaderReadsBack(crc: Crc, data: bytes, blockSize: uint32, segmentID: uint64, createdAt: uint64)
    requires |data| >= SEGMENT_HEADER && data[..SEGMENT_HEADER] == SegmentHeader(crc, blockSize, segmentID, createdAt)
    ensures ReadHeader(crc, data) == Some(blockSize)
  {
    hide PutLE, GetLE;
    var h, body := SegmentHeader(crc, blockSize, segmentID, createdAt), HeaderBody(blockSize, segmentID, createdAt);
    assert h[0..4] == SEGMENT_MAGIC && h[4..25] == body && h[25..29] == PutLE(crc(body), 4);
    assert h[4] == body[0] && h[5..9] == body[1..5] == PutLE(blockSize, 4);
    SliceWithin(data, 0, h, 0, 4);
    SliceWithin(data, 0, h, 4, 25);
    SliceWithin(data, 0, h, 25, 29);
    SliceWithin(data, 0, h, 5, 9);
    assert data[4] == data[..SEGMENT_HEADER][4];
    RoundTrip32(crc(body));
    RoundTrip32(blockSize);
  }
}
