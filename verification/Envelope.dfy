/** What surrounds every block of a table file: compression, type and checksum;
    and the fixed-size footer and the meta block that describe the file. */
module Envelope {
  import opened Bytes

  /** The checksum, the compressor and the key hash, of which only determinism and
      the compressor's round trip matter. */
  datatype Codec = Codec(
    crc: bytes -> uint32,
    snappy: bytes -> bytes,
    unsnappy: bytes -> Option<bytes>,
    hash: bytes -> (uint64, uint64))

  ghost predicate RoundTrips(c: Codec)
  {
    forall x: bytes :: c.unsnappy(c.snappy(x)) == Some(x)
  }

  const BLOCK_MAGIC: bytes := [76, 83, 77, 66]
  const MAGIC_SIZE: nat := 4
  const HEADER_SIZE: nat := 9           // magic, compression, uncompressed length
  const LEGACY_HEADER_SIZE: nat := 5
  const CRC_SIZE: nat := 4
  const TYPE_SIZE: nat := 1

  datatype Compression = Plain | Snappy
  datatype BlockType = Data | Index | Meta | Filter

  function TypeByte(t: BlockType): (b: byte)
  {
    match t case Data => 0 case Index => 1 case Meta => 2 case Filter => 3
  }

  function CompressionID(x: Compression): (b: byte)
  {
    match x case Plain => 0 case Snappy => 1
  }

  function CompressionFromID(b: byte): (x: Option<Compression>)
    ensures x.Some? ==> CompressionID(x.value) == b
    ensures b <= 1 ==> x.Some?
  {
    if b == 0 then Some(Plain) else if b == 1 then Some(Snappy) else None
  }

  // ---------- blocks ----------

  function CompressPayload(c: Codec, payload: bytes, x: Compression): (s: bytes)
  {
    match x case Plain => payload case Snappy => c.snappy(payload)
  }

  function Decompress(c: Codec, payload: bytes, uncompressedLen: nat): (r: Option<bytes>)
  {
    match c.unsnappy(payload)
    case None => None
    case Some(plain) => if uncompressedLen > 0 && |plain| % UINT32 != uncompressedLen then None else Some(plain)
  }

  /** Header, stored payload and block type: what the checksum covers. */
  function Body(stored: bytes, t: BlockType, x: Compression, uncompressedLen: nat): (b: bytes)
    ensures |b| == HEADER_SIZE + |stored| + TYPE_SIZE
  {
    BLOCK_MAGIC + [CompressionID(x)] + PutLE(uncompressedLen, 4) + stored + [TypeByte(t)]
  }

  function EncodeBlock(c: Codec, stored: bytes, t: BlockType, x: Compression, uncompressedLen: nat): (b: bytes)
    ensures |b| == HEADER_SIZE + |stored| + TYPE_SIZE + CRC_SIZE
  {
    var body := Body(stored, t, x, uncompressedLen);
    body + PutLE(c.crc(body), CRC_SIZE)
  }

  /** The header of a block: its length, the compression and the uncompressed length; blocks
      without the magic are data blocks of the older format, or bare. */
  function ReadHeader(data: bytes, t: BlockType): (r: Option<(nat, Compression, nat)>)
  {
    if |data| >= HEADER_SIZE && data[..MAGIC_SIZE] == BLOCK_MAGIC then
      match CompressionFromID(data[4]) case None => None case Some(x) => Some((HEADER_SIZE, x, GetLE(data[5..9])))
    else if t == Data && |data| >= LEGACY_HEADER_SIZE then
      match CompressionFromID(data[0]) case None => None case Some(x) => Some((LEGACY_HEADER_SIZE, x,
        GetLE(data[1..5])))
    else Some((0, Plain, 0))
  }

  function DecodeBlockPayload(c: Codec, data: bytes, t: BlockType): (r: Option<bytes>)
  {
    if |data| < TYPE_SIZE + CRC_SIZE then None
    else
      var typeAt := |data| - TYPE_SIZE - CRC_SIZE;
      if data[typeAt] != TypeByte(t) then None
      else if c.crc(data[..|data| - CRC_SIZE]) != GetLE(data[|data| - CRC_SIZE..]) then None
      else match ReadHeader(data, t)
        case None => None
        case Some(h) =>
          var (headerLen, x, uncompressedLen) := h;
          if headerLen > typeAt then None
          else
            var stored := data[headerLen..typeAt];
            if x == Plain then
              if headerLen > 0 && uncompressedLen > 0 && |stored| % UINT32 != uncompressedLen then None
                else Some(stored)
            else Decompress(c, stored, uncompressedLen)
  }

  /** A payload as the writer stores it. */
  function Seal(c: Codec, payload: bytes, t: BlockType, x: Compression): (b: bytes)
  {
    EncodeBlock(c, CompressPayload(c, payload, x), t, x, |payload| % UINT32)
  }

  /** A stored block reads back as its payload, and under no other type. */
  lemma SealOpens(c: Codec, payload: bytes, t: BlockType, x: Compression, u: BlockType)
    requires RoundTrips(c)
    ensures DecodeBlockPayload(c, Seal(c, payload, t, x), u) == if t == u then Some(payload) else None
  {
    hide PutLE, GetLE;
    var stored := CompressPayload(c, payload, x);
    var n := |payload| % UINT32;
    var body := Body(stored, t, x, n);
    var b := Seal(c, payload, t, x);
    assert b[..|b| - CRC_SIZE] == body && b[|b| - CRC_SIZE..] == PutLE(c.crc(body), CRC_SIZE);
    assert b[|b| - CRC_SIZE - TYPE_SIZE] == body[|body| - 1] == TypeByte(t);
    RoundTrip32(c.crc(body));
    assert b[..MAGIC_SIZE] == BLOCK_MAGIC && b[4] == CompressionID(x) && b[5..9] == PutLE(n, 4);
    RoundTrip32(n);
    assert b[HEADER_SIZE..|b| - CRC_SIZE - TYPE_SIZE] == stored;
  }

  // ---------- footer ----------

  const FILE_MAGIC: bytes := [76, 83, 77, 49]
  const FILE_VERSION: byte := 1
  const FOOTER_SIZE: nat := 36

  datatype Footer = Footer(flags: byte, indexOffset: uint64, indexLen: uint32, metaOffset: uint64, metaLen: uint32)

  function FooterBody(f: Footer): (b: bytes)
    ensures |b| == 32
  {
    FILE_MAGIC + [FILE_VERSION, f.flags] + PutLE(0, 2) +
    PutLE(f.indexOffset, 8) + PutLE(f.indexLen, 4) + PutLE(f.metaOffset, 8) + PutLE(f.metaLen, 4)
  }

  function EncodeFooter(c: Codec, f: Footer): (b: bytes)
    ensures |b| == FOOTER_SIZE
  {
    FooterBody(f) + PutLE(c.crc(FooterBody(f)), 4)
  }

  function Get16(s: bytes): (x: uint16)
    requires |s| == 2
  {
    GetLEBound(s); Pow256Values(); GetLE(s)
  }

  function Get32(s: bytes): (x: uint32)
    requires |s| == 4
  {
    GetLEBound(s); Pow256Values(); GetLE(s)
  }

  function Get64(s: bytes): (x: uint64)
    requires |s| == 8
  {
    GetLEBound(s); Pow256Values(); GetLE(s)
  }

  function DecodeFooter(c: Codec, b: bytes): (r: Option<Footer>)
  {
    if |b| != FOOTER_SIZE then None
    else if b[..4] != FILE_MAGIC then None
    else if c.crc(b[..32]) != Get32(b[32..36]) then None
    else Some(Footer(b[5], Get64(b[8..16]), Get32(b[16..20]), Get64(b[20..28]), Get32(b[28..32])))
  }

  lemma FooterReadsBack(c: Codec, f: Footer)
    ensures DecodeFooter(c, EncodeFooter(c, f)) == Some(f)
  {
    hide PutLE, GetLE;
    var b := EncodeFooter(c, f);
    assert b[..32] == FooterBody(f) && b[32..36] == PutLE(c.crc(FooterBody(f)), 4);
    assert b[..4] == FILE_MAGIC && b[5] == f.flags;
    assert b[8..16] == PutLE(f.indexOffset, 8) && b[16..20] == PutLE(f.indexLen, 4);
    assert b[20..28] == PutLE(f.metaOffset, 8) && b[28..32] == PutLE(f.metaLen, 4);
    RoundTrip32(c.crc(FooterBody(f)));
    RoundTrip64(f.indexOffset);
    RoundTrip32(f.indexLen);
    RoundTrip64(f.metaOffset);
    RoundTrip32(f.metaLen);
  }

  // ---------- meta ----------

  const META_HEADER_SIZE: nat := 48

  datatype TableInfo = TableInfo(
    minKey: bytes, maxKey: bytes, entryCount: uint64, seqMin: uint64, seqMax: uint64,
    compression: Compression, bloomBits: uint16, bloomK: byte, bloomOffset: uint64, bloomLen: uint32)

  function MetaHeader(m: TableInfo): (h: bytes)
    ensures |h| == META_HEADER_SIZE
  {
    PutLE(|m.minKey|, 4) + PutLE(|m.maxKey|, 4) + PutLE(m.entryCount, 8) + PutLE(m.seqMin, 8) + PutLE(m.seqMax, 8) +
    [CompressionID(m.compression)] + PutLE(m.bloomBits, 2) + [m.bloomK] + PutLE(m.bloomOffset, 8) + PutLE(m.bloomLen, 4)
  }

  function EncodeMeta(m: TableInfo): (b: bytes)
  {
    MetaHeader(m) + m.minKey + m.maxKey
  }

  /** The length check wraps at 32 bits, as the source adds two uint32; where the wrapped check
      passes on a shorter block the source fails on the slice, which is None here too. */
  function DecodeMeta(b: bytes): (r: Option<TableInfo>)
  {
    if |b| < META_HEADER_SIZE then None
    else
      var minLen, maxLen := GetLE(b[0..4]), GetLE(b[4..8]);
      match CompressionFromID(b[32])
      case None => None
      case Some(x) =>
        if |b| - META_HEADER_SIZE < (minLen + maxLen) % UINT32 || |b| - META_HEADER_SIZE < minLen + maxLen then None
        else
          var k := META_HEADER_SIZE + minLen;
          Some(TableInfo(b[META_HEADER_SIZE..k], b[k..k + maxLen], Get64(b[8..16]), Get64(b[16..24]), Get64(b[24..32]),
            x,
                         Get16(b[33..35]), b[35], Get64(b[36..44]), Get32(b[44..48])))
  }

  predicate MetaFits(m: TableInfo)
  {
    |m.minKey| < UINT32 && |m.maxKey| < UINT32
  }

  lemma MetaHeaderParts(m: TableInfo)
    ensures var h := MetaHeader(m);
            && h[0..4] == PutLE(|m.minKey|, 4) && h[4..8] == PutLE(|m.maxKey|, 4)
            && h[8..16] == PutLE(m.entryCount, 8) && h[16..24] == PutLE(m.seqMin, 8) && h[24..32] == PutLE(m.seqMax, 8)
            && h[32] == CompressionID(m.compression) && h[33..35] == PutLE(m.bloomBits, 2) && h[35] == m.bloomK
            && h[36..44] == PutLE(m.bloomOffset, 8) && h[44..48] == PutLE(m.bloomLen, 4)
  {
    hide PutLE;
    var h := MetaHeader(m);
    assert h[36..44] == PutLE(m.bloomOffset, 8);
    assert h[44..48] == PutLE(m.bloomLen, 4);
  }

  lemma MetaReadsBack(m: TableInfo)
    requires MetaFits(m)
    ensures DecodeMeta(EncodeMeta(m)) == Some(m)
  {
    hide PutLE, GetLE, MetaHeader;
    var b, h := EncodeMeta(m), MetaHeader(m);
    MetaHeaderParts(m);
    assert b[..META_HEADER_SIZE] == h;
    forall i: nat, j: nat | i <= j <= META_HEADER_SIZE ensures b[i..j] == h[i..j] { SliceWithin(b, 0, h, i, j); }
    assert b[32] == h[32] && b[35] == h[35];
    RoundTrip32(|m.minKey|);
    RoundTrip32(|m.maxKey|);
    RoundTrip64(m.entryCount);
    RoundTrip64(m.seqMin);
    RoundTrip64(m.seqMax);
    Pow256Values();
    GetPutLE(m.bloomBits, 2);
    RoundTrip64(m.bloomOffset);
    RoundTrip32(m.bloomLen);
    var k := META_HEADER_SIZE + |m.minKey|;
    assert b[META_HEADER_SIZE..k] == m.minKey && b[k..k + |m.maxKey|] == m.maxKey;
  }
}
