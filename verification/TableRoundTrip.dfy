/** A table that is written, opened and read: the whole path at once. */
module TableRoundTrip {
  import opened Bytes
  import opened Concat
  import opened Entries
  import B = BlockFormat
  import opened BlockReader
  import opened Envelope
  import opened TableFile
  import W = Writer
  import R = Reader
  import S = RangeScan

  /** For every sorted run, every option setting and every key: where sizes fit the recorded fields, a point
      read of the written table is a search of the run, unless the key's block is above the read limit. */
  method WriteThenGet(c: Codec, o: W.Options, readBlockMaxBytes: int, es: seq<Entry>, key: bytes)
      returns (hit: Hit, file: bytes, ghost l: Layout)
    requires RoundTrips(c) && Sorted(es) && es != [] && W.FilterFits(|es|, o.bloomBitsPerKey)
    requires forall i :: 0 <= i < |es| ==> es[i].key != []
    ensures FileOf(c, file, es, l) && l.x == o.compression
    ensures FieldsFit(c, file, l) && S.AllWithin(c, l, readBlockMaxBytes) ==> hit == R.Linear(es, key)
    ensures FieldsFit(c, file, l) && Find(es, key).Some? ==>
              hit == if R.HeldOver(c, l, readBlockMaxBytes, key) then Corrupt else R.Linear(es, key)
  {
    hide FileOf, FieldsFit, RoundTrips, Sorted, R.Blocked, S.AllWithin, R.Reached, R.HeldOver, Find;
    var written, info, layout := W.Flush(c, o, es);
    W.SortedStays(es);
    file, l := written.value, layout;
    var rd := R.Open(c, file, readBlockMaxBytes, es, l);
    if rd.None? { return Corrupt, file, l; }
    ghost var i;
    hit, i := R.Get(c, file, rd.value, key, es, l);
    if S.AllWithin(c, l, rd.value.readBlockMaxBytes) { NeverBlocked(c, es, l, rd.value, key, i); }
    if FieldsFit(c, file, l) && Find(es, key).Some? {
      if hit.Found? { R.ReachedIsWithin(c, file, es, l, rd.value, key, i); }
      if hit.Corrupt? { R.BlockedIsOver(c, es, l, rd.value, key, i); }
    }
  }

  lemma NeverBlocked(c: Codec, es: seq<Entry>, l: Layout, rd: R.Reader, key: bytes, i: nat)
    requires S.AllWithin(c, l, rd.readBlockMaxBytes)
    ensures !R.Blocked(c, es, l, rd, key, i)
  {
    hide Find;
  }

  lemma {:induction false} BufHolds(es: seq<Entry>, ms: seq<bool>, k: nat)
    requires B.Marks(es, ms) && k < |es|
    ensures |B.Buf(es, ms)| >= |es[k].value|
  {
    if k < |es| - 1 { BufHolds(es[..|es| - 1], ms[..|es| - 1], k); }
  }

  lemma BlockIsLonger(c: Codec, cut: Cut, k: nat)
    requires Shaped(cut) && k < |cut.es|
    ensures |DataBlock(c, Plain, cut)| > |cut.es[k].value|
  {
    hide B.Buf;
    BufHolds(cut.es, cut.ms, k);
  }

  /** In a table without compression, an entry whose value is as long as the read limit is above it. */
  lemma LargeIsOver(c: Codec, file: bytes, es: seq<Entry>, l: Layout, readBlockMaxBytes: int, n: nat)
    requires R.Intact(c, file, es, l) && l.x == Plain && n < |es| && 0 < readBlockMaxBytes <= |es[n].value|
    ensures Find(es, es[n].key) == Some(es[n]) && R.HeldOver(c, l, readBlockMaxBytes, es[n].key)
  {
    hide IndexOk, FilterOk, FieldsFit, MetaOk, RoundTrips, Flat, Find, DataBlock;
    var e, runs := es[n], Runs(l.cuts);
    FindAt(es, n);
    FlatMembers(runs, e);
    var j :| 0 <= j < |runs| && e in runs[j];
    FindSound(l.cuts[j].es, e.key);
    var k :| 0 <= k < |runs[j]| && runs[j][k] == e;
    assert l.cuts[j].es[k].key == e.key;
    R.CutParts(c, file, es, l, j);
    BlockIsLonger(c, l.cuts[j], k);
    assert R.TooLarge(c, l, readBlockMaxBytes, j);
  }

  /** The writer writes such an entry, and reading it back fails: for one, a single entry with a value of one
      byte under a limit of one byte. */
  method WriteLargeThenGet(c: Codec, o: W.Options, readBlockMaxBytes: int, es: seq<Entry>, n: nat)
      returns (hit: Hit, file: bytes, ghost l: Layout)
    requires RoundTrips(c) && Sorted(es) && n < |es| && W.FilterFits(|es|, o.bloomBitsPerKey)
    requires forall i :: 0 <= i < |es| ==> es[i].key != []
    requires o.compression == Plain && 0 < readBlockMaxBytes <= |es[n].value|
    ensures FileOf(c, file, es, l)
    ensures FieldsFit(c, file, l) ==> hit == Corrupt
  {
    hide FileOf, FieldsFit, RoundTrips, Find, R.HeldOver, Sorted;
    hit, file, l := WriteThenGet(c, o, readBlockMaxBytes, es, es[n].key);
    if FieldsFit(c, file, l) { LargeIsOver(c, file, es, l, readBlockMaxBytes, n); }
  }
}
