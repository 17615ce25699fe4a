/** Damage inside a segment: what the search for the next block recovers. */
module WalDamage {
  import opened Bytes
  import opened Concat
  import opened Entries
  import opened WalFormat
  import opened WalReplay

  predicate MagicAt(data: bytes, i: nat)
  {
    i + MAGIC_SIZE <= |data| && data[i..i + MAGIC_SIZE] == BLOCK_MAGIC
  }

  /** No block magic starts in a stretch of the data. */
  ghost predicate NoMagicIn(data: bytes, low: nat, next: nat)
  {
    forall i: nat :: low <= i < next ==> !MagicAt(data, i)
  }

  lemma {:induction false} MagicIsNext(data: bytes, low: nat, next: nat)
    requires low <= next && MagicAt(data, next) && NoMagicIn(data, low, next)
    ensures FirstMagic(data, low) == Some(next + MAGIC_SIZE)
    decreases next - low
  {
    if low < next {
      assert !MagicAt(data, low);
      MagicIsNext(data, low + 1, next);
    }
  }

  /** After damage the next whole block is delivered, when no magic lies before it. */
  lemma ResyncRecovers(crc: Crc, data: bytes, low: nat, next: nat, es: seq<Entry>, blockSize: uint32)
    requires low <= next && next + |BlockBytes(crc, es)| <= |data| && BlockOk(crc, es, blockSize)
    requires data[next..next + |BlockBytes(crc, es)|] == BlockBytes(crc, es) && NoMagicIn(data, low, next)
    ensures Resync(crc, data, low, blockSize) == Next(es, next + |BlockBytes(crc, es)|)
  {
    hide FirstMagic, RecordsIn, NoMagicIn, DecodeAfterMagic, BlockBytes;
    BlockReadsBack(crc, data, next, es, blockSize);
    StartsWithMagic(crc, data, next, es, blockSize);
    MagicIsNext(data, low, next);
  }

  /** A block starts with the magic, and decoding it is decoding what follows the magic. */
  lemma StartsWithMagic(crc: Crc, data: bytes, at: nat, es: seq<Entry>, blockSize: uint32)
    requires at + |BlockBytes(crc, es)| <= |data| && data[at..at + |BlockBytes(crc, es)|] == BlockBytes(crc, es)
    ensures MagicAt(data, at)
    ensures DecodeBlock(crc, data, at, blockSize) == DecodeAfterMagic(crc, data, at + MAGIC_SIZE, blockSize)
  {
    hide DecodeAfterMagic, RecordsBytes;
    BlockParts(crc, es);
    assert data[at..at + MAGIC_SIZE] == BlockBytes(crc, es)[..MAGIC_SIZE];
  }

  /** Whole blocks are delivered, and the replay goes on behind them. */
  lemma {:induction false} ReplayWhole(crc: Crc, data: bytes, pos: nat, blocks: seq<seq<Entry>>, blockSize: uint32)
    requires BlocksOk(crc, blocks, blockSize) && pos + |BlocksBytes(crc, blocks)| <= |data|
    requires data[pos..pos + |BlocksBytes(crc, blocks)|] == BlocksBytes(crc, blocks)
    ensures var q := pos + |BlocksBytes(crc, blocks)|;
            ReplayFrom(crc, data, pos, blockSize, pos) ==
              Before(Flat(blocks), false, ReplayFrom(crc, data, q, blockSize, q))
    decreases |blocks|
  {
    hide ReplayFrom, BlockBytes, Flat, BlockOk;
    if blocks == [] {
      FlatEmpty();
      assert Before([], false, ReplayFrom(crc, data, pos, blockSize, pos)) ==
             ReplayFrom(crc, data, pos, blockSize, pos);
    } else {
      var b, rest := BlockBytes(crc, blocks[0]), BlocksBytes(crc, blocks[1..]);
      InTwo(data, pos, b, rest);
      assert BlockOk(crc, blocks[0], blockSize) && BlocksOk(crc, blocks[1..], blockSize);
      WholeFirst(crc, data, pos, blocks[0], blockSize);
      ReplayWhole(crc, data, pos + |b|, blocks[1..], blockSize);
      var q := pos + |b| + |rest|;
      BeforeTwice(blocks[0], false, Flat(blocks[1..]), false, ReplayFrom(crc, data, q, blockSize, q));
      FlatAppend([blocks[0]], blocks[1..]);
      FlatOne(blocks[0]);
      assert blocks == [blocks[0]] + blocks[1..];
    }
  }

  lemma InTwo(data: bytes, pos: nat, a: bytes, b: bytes)
    requires pos + |a| + |b| <= |data| && data[pos..pos + |a| + |b|] == a + b
    ensures data[pos..pos + |a|] == a && data[pos + |a|..pos + |a| + |b|] == b
  {
    var all := data[pos..pos + |a| + |b|];
    assert data[pos..pos + |a|] == all[..|a|];
    assert data[pos + |a|..pos + |a| + |b|] == all[|a|..];
  }

  lemma FlatEmpty()
    ensures Flat<Entry>([]) == []
  {
  }

  /** The block at a position does not decode; reading it stopped at the other position. */
  ghost predicate Damaged(crc: Crc, data: bytes, pos: nat, stop: nat, blockSize: uint32)
    requires pos <= |data|
  {
    var (d, q) := DecodeBlock(crc, data, pos, blockSize);
    q == stop && (d.Corrupt? || (d.Block? && RecordsIn(crc, d.payload, 0).None?))
  }

  /** From damage on, replay delivers the next whole block and all later whole ones, when no magic lies
      between the point where reading stopped and that block. */
  lemma DamageIsSkipped(crc: Crc, data: bytes, pos: nat, stop: nat, next: nat, after: seq<seq<Entry>>,
                        blockSize: uint32)
    requires pos <= |data| && Damaged(crc, data, pos, stop, blockSize) && stop <= next && NoMagicIn(data, stop, next)
    requires BlocksOk(crc, after, blockSize) && after != [] && next + |BlockBytes(crc, after[0])| <= |data|
    requires |data| - next <= |BlocksBytes(crc, after)| && data[next..] == BlocksBytes(crc, after)[..|data| - next]
    ensures var k := Whole(crc, after, |data| - next);
            var end := next + |BlocksBytes(crc, after[..k])|;
            && 0 < k && end <= |data|
            && ReplayFrom(crc, data, pos, blockSize, pos) == Scan(Flat(after[..k]), true, end, false)
  {
    hide BlocksBytes, BlockBytes, ReplayFrom, Flat, Damaged, NoMagicIn, Resync, BlockOk;
    FirstBlock(crc, data, next, after);
    assert BlockOk(crc, after[0], blockSize);
    ResyncRecovers(crc, data, stop, next, after[0], blockSize);
    SkipTo(crc, data, pos, stop, after[0], next + |BlockBytes(crc, after[0])|, blockSize);
    WholeFirst(crc, data, next, after[0], blockSize);
    ReplayTorn(crc, data, next, after, blockSize);
  }

  /** Blocks, damage, blocks: both sides of the damage are delivered. */
  lemma BothSidesAreDelivered(crc: Crc, data: bytes, pos: nat, before: seq<seq<Entry>>, stop: nat, next: nat,
                              after: seq<seq<Entry>>, blockSize: uint32)
    requires BlocksOk(crc, before, blockSize) && pos + |BlocksBytes(crc, before)| <= |data|
    requires data[pos..pos + |BlocksBytes(crc, before)|] == BlocksBytes(crc, before)
    requires Damaged(crc, data, pos + |BlocksBytes(crc, before)|, stop, blockSize)
    requires stop <= next && NoMagicIn(data, stop, next)
    requires BlocksOk(crc, after, blockSize) && after != [] && next + |BlockBytes(crc, after[0])| <= |data|
    requires |data| - next <= |BlocksBytes(crc, after)| && data[next..] == BlocksBytes(crc, after)[..|data| - next]
    ensures var k := Whole(crc, after, |data| - next);
            var end := next + |BlocksBytes(crc, after[..k])|;
            && 0 < k && end <= |data|
            && ReplayFrom(crc, data, pos, blockSize, pos) == Scan(Flat(before) + Flat(after[..k]), true, end, false)
  {
    hide BlocksBytes, BlockBytes, ReplayFrom, Flat, Damaged, NoMagicIn, BlocksOk, Whole;
    ReplayWhole(crc, data, pos, before, blockSize);
    DamageIsSkipped(crc, data, pos + |BlocksBytes(crc, before)|, stop, next, after, blockSize);
  }

  lemma SkipTo(crc: Crc, data: bytes, pos: nat, stop: nat, es: seq<Entry>, q: nat, blockSize: uint32)
    requires pos <= |data| && Damaged(crc, data, pos, stop, blockSize) && stop <= |data|
    requires Resync(crc, data, stop, blockSize) == Next(es, q)
    ensures ReplayFrom(crc, data, pos, blockSize, pos) == Before(es, true, ReplayFrom(crc, data, q, blockSize, q))
  {
    hide DecodeBlock, RecordsIn, Resync;
  }
}
