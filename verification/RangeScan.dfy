/** Range scans over a table: the iterator that walks partitions, blocks and entries. */
module RangeScan {
  import opened Bytes
  import opened Concat
  import opened Entries
  import opened BlockFormat
  import opened BlockReader
  import opened Envelope
  import opened IndexFormat
  import opened TableFile
  import opened Reader

  // ---------- what a scan must yield ----------

  /** Empty bounds are open. */
  predicate InRange(key: bytes, start: bytes, end: bytes)
  {
    (start == [] || Le(start, key)) && (end == [] || Lt(key, end))
  }

  function Select(es: seq<Entry>, start: bytes, end: bytes): (r: seq<Entry>)
  {
    if es == [] then []
    else Select(es[..|es| - 1], start, end) + (if InRange(es[|es| - 1].key, start, end) then [es[|es| - 1]] else [])
  }

  /** Position p is the first at or above the start. */
  ghost predicate IsLower(es: seq<Entry>, start: bytes, p: nat)
  {
    && KeysBelow(es, p, start)
    && forall j :: p <= j < |es| ==> Le(start, es[j].key)
  }

  /** From position lo on, position hi is the first at or above the end. */
  ghost predicate IsUpper(es: seq<Entry>, end: bytes, lo: nat, hi: nat)
  {
    && lo <= hi <= |es| && (forall j :: lo <= j < hi ==> end == [] || Lt(es[j].key, end))
    && (hi < |es| ==> end != [] && Le(end, es[hi].key))
  }

  lemma BeyondUpper(es: seq<Entry>, end: bytes, lo: nat, p: nat, j: nat)
    requires Sorted(es) && IsUpper(es, end, lo, p) && p <= j < |es|
    ensures end != [] && Le(end, es[j].key)
  {
    if p < j {
      LeLtTransitive(end, es[p].key, es[j].key);
      LtAsymmetric(end, es[j].key);
    }
  }

  /** In a sorted run the entries in range are one stretch. */
  lemma {:induction false} SelectIsSlice(es: seq<Entry>, start: bytes, end: bytes, lo: nat, hi: nat, n: nat)
    requires Sorted(es) && IsLower(es, start, lo) && IsUpper(es, end, lo, hi) && n <= |es|
    ensures Select(es[..n], start, end) == if n <= lo then [] else if n <= hi then es[lo..n] else es[lo..hi]
  {
    if n > 0 {
      SelectIsSlice(es, start, end, lo, hi, n - 1);
      assert es[..n][..n - 1] == es[..n - 1];
      var e := es[n - 1];
      if n - 1 < lo {
        assert Lt(e.key, start);
        assert start != [];
      } else if n - 1 >= hi {
        BeyondUpper(es, end, lo, hi, n - 1);
      }
    }
  }

  // ---------- the plan ----------

  /** The partitions a scan walks; an unpartitioned index is one partition. */
  ghost function Parts(l: Layout): (gs: seq<seq<Cut>>)
  {
    if l.partitioned then l.groups else [l.cuts]
  }

  /** No block is above the read limit. */
  ghost predicate AllWithin(c: Codec, l: Layout, readBlockMaxBytes: int)
  {
    forall i :: 0 <= i < |l.cuts| && Shaped(l.cuts[i]) ==> !TooLarge(c, l, readBlockMaxBytes, i)
  }

  ghost predicate Scannable(c: Codec, file: bytes, es: seq<Entry>, l: Layout, rd: Reader)
  {
    Intact(c, file, es, l) && ReaderOf(rd, l) && AllWithin(c, l, rd.readBlockMaxBytes)
  }

  /** t partitions have been taken from the plan; the scan is at block blockI of the last. */
  ghost predicate PlanAt(c: Codec, l: Layout, t: nat, part: seq<IndexEntry>, blockI: nat, b: nat)
  {
    var gs := Parts(l);
    && 1 <= t <= |gs| && AllShaped(gs[t - 1]) && part == IndexFor(c, l.x, gs[t - 1])
    && blockI <= |part| && b == Start(gs, t - 1) + blockI
  }

  lemma PartsFacts(c: Codec, file: bytes, es: seq<Entry>, l: Layout, j: nat)
    requires Intact(c, file, es, l) && j < |Parts(l)|
    ensures Flat(Parts(l)) == l.cuts && AllShaped(Parts(l)[j]) && Parts(l)[j] != []
  {
    hide FilterOk, FieldsFit, RoundTrips, Sorted, Stored, IndexBlock, Lies, EncodeFooter, MetaBlock, CutsOk, IndexFor;
    if l.partitioned {
      assert PartOk(c, l.x, file, l.groups[j], l.top[j]);
    } else {
      FlatOne(l.cuts);
      assert Runs([]) == [];
    }
  }

  lemma PlanCut(c: Codec, file: bytes, es: seq<Entry>, l: Layout, t: nat, part: seq<IndexEntry>, blockI: nat, b: nat)
    requires Intact(c, file, es, l) && PlanAt(c, l, t, part, blockI, b) && blockI < |part|
    ensures b < |l.cuts| && Shaped(l.cuts[b]) && part[blockI] == EntryFor(c, l.x, l.cuts[b])
    ensures PlanAt(c, l, t, part, blockI + 1, b + 1)
  {
    hide Intact, Flat, EntryFor;
    PartsFacts(c, file, es, l, t - 1);
    FlatAt(Parts(l), t - 1, blockI);
    assert Shaped(Parts(l)[t - 1][blockI]);
  }

  lemma PlanEnd(c: Codec, file: bytes, es: seq<Entry>, l: Layout, t: nat, part: seq<IndexEntry>, b: nat)
    requires Intact(c, file, es, l) && PlanAt(c, l, t, part, |part|, b)
    ensures 1 <= t <= |Parts(l)| && b == Start(Parts(l), t) && (t == |Parts(l)| ==> b == |l.cuts|)
  {
    hide Intact;
    PartsFacts(c, file, es, l, t - 1);
    var gs := Parts(l);
    assert gs[..t][..t - 1] == gs[..t - 1];
    assert gs[..|gs|] == gs;
  }

  // ---------- where a scan starts ----------

  /** Block b is where the start key falls: everything before it is below the start, and
      everything after it above. */
  ghost predicate StartsIn(es: seq<Entry>, cuts: seq<Cut>, start: bytes, b: nat)
  {
    b < |cuts| && KeysBelow(es, Start(Runs(cuts), b), start) && KeysAbove(es, Start(Runs(cuts), b + 1), start)
  }

  lemma StartBlock(c: Codec, file: bytes, es: seq<Entry>, l: Layout, start: bytes, b: nat)
    requires Intact(c, file, es, l) && b < |l.cuts| && Shaped(l.cuts[b])
    requires b == 0 || Le(l.cuts[b].es[0].key, start)
    requires b + 1 < |l.cuts| ==> Shaped(l.cuts[b + 1]) && Lt(start, l.cuts[b + 1].es[0].key)
    ensures StartsIn(es, l.cuts, start, b)
  {
    hide IndexOk, FilterOk, FieldsFit, MetaOk, RoundTrips, Flat, Lt, Marks;
    var runs := Runs(l.cuts);
    FlatAt(runs, b, 0);
    if b > 0 { BelowUpTo(es, Start(runs, b), start); } else { StartZero(runs); }
    if b + 1 < |l.cuts| {
      FlatAt(runs, b + 1, 0);
      AboveFrom(es, Start(runs, b + 1), start);
    } else {
      StartEnd(runs);
      NoneAbove(es, start);
    }
  }

  function Clip(r: int): (n: nat)
  {
    if r < 0 then 0 else r
  }

  /** The plan's first partition and the block slot in it lead to the start block. */
  lemma StartPlan(c: Codec, file: bytes, es: seq<Entry>, l: Layout, start: bytes, j: int, i: int)
    requires Intact(c, file, es, l)
    requires l.partitioned ==> IsSlot(l.top, start, j)
    requires !l.partitioned ==> j == 0
    requires Clip(j) < |Parts(l)| && AllShaped(Parts(l)[Clip(j)])
    requires IsSlot(IndexFor(c, l.x, Parts(l)[Clip(j)]), start, i)
    ensures Clip(i) < |Parts(l)[Clip(j)]|
    ensures StartsIn(es, l.cuts, start, Start(Parts(l), Clip(j)) + Clip(i))
  {
    hide Intact, Flat, Lt, Marks, DataBlock, StartsIn;
    var gs := Parts(l);
    var g, k := Clip(j), Clip(i);
    IntactParts(c, file, es, l);
    var b := Start(gs, g) + k;
    FlatAt(gs, g, k);
    assert Shaped(gs[g][k]);
    assert l.partitioned ==> FirstKeyed(gs[g], l.top[g]);
    assert b == 0 || Le(l.cuts[b].es[0].key, start) by {
      if j <= 0 { StartZero(gs); }
    }
    SlotAllAbove(IndexFor(c, l.x, gs[g]), start, i);
    if l.partitioned { SlotAllAbove(l.top, start, j); }
    if b + 1 < |l.cuts| { NextAbove(c, l, start, g, k); }
    StartBlock(c, file, es, l, start, b);
  }

  /** Partitions hold whole blocks, and the top index their first keys. */
  ghost predicate PartsGood(l: Layout)
  {
    && Flat(Parts(l)) == l.cuts
    && (forall j :: 0 <= j < |Parts(l)| ==> AllShaped(Parts(l)[j]) && Parts(l)[j] != [])
    && (l.partitioned ==>
          && |l.top| == |l.groups|
          && forall j :: 0 <= j < |l.groups| ==> FirstKeyed(l.groups[j], l.top[j]))
  }

  ghost predicate FirstKeyed(group: seq<Cut>, e: IndexEntry)
  {
    group != [] && Shaped(group[0]) && e.key == group[0].es[0].key
  }

  lemma IntactParts(c: Codec, file: bytes, es: seq<Entry>, l: Layout)
    requires Intact(c, file, es, l)
    ensures PartsGood(l)
  {
    hide FilterOk, FieldsFit, RoundTrips, Sorted, Stored, IndexBlock, MetaOk, CutsOk, Flat, DataBlock, Contents;
    forall j | 0 <= j < |Parts(l)| ensures Flat(Parts(l)) == l.cuts && AllShaped(Parts(l)[j]) && Parts(l)[j] != [] {
      PartsFacts(c, file, es, l, j);
    }
    PlanFacts(c, file, es, l);
    PartsFacts(c, file, es, l, 0);
    if l.partitioned {
      forall j | 0 <= j < |l.groups| ensures FirstKeyed(l.groups[j], l.top[j]) {
        assert PartOk(c, l.x, file, l.groups[j], l.top[j]);
        assert Shaped(l.groups[j][0]);
      }
    }
  }

  ghost predicate AllAbove(entries: seq<IndexEntry>, start: bytes, k: nat)
  {
    forall m :: k < m < |entries| ==> Lt(start, entries[m].key)
  }

  lemma SlotAllAbove(entries: seq<IndexEntry>, start: bytes, r: int)
    requires IsSlot(entries, start, r)
    ensures AllAbove(entries, start, Clip(r))
  {
  }

  /** The block after the slot starts above the start key, also across a partition boundary. */
  lemma NextAbove(c: Codec, l: Layout, start: bytes, g: nat, k: nat)
    requires PartsGood(l) && g < |Parts(l)| && AllShaped(Parts(l)[g]) && k < |Parts(l)[g]|
    requires Start(Parts(l), g) + k + 1 < |l.cuts|
    requires AllAbove(IndexFor(c, l.x, Parts(l)[g]), start, k)
    requires l.partitioned ==> AllAbove(l.top, start, g)
    ensures var b := Start(Parts(l), g) + k + 1; Shaped(l.cuts[b]) && Lt(start, l.cuts[b].es[0].key)
  {
    hide Flat, Lt, Marks, DataBlock;
    var gs := Parts(l);
    if k + 1 < |gs[g]| {
      FlatAt(gs, g, k + 1);
      assert Shaped(gs[g][k + 1]);
      assert Lt(start, IndexFor(c, l.x, gs[g])[k + 1].key);
    } else {
      StartNext(gs, g);
      if g + 1 == |gs| { StartEnd(gs); }
      else {
        FlatAt(gs, g + 1, 0);
        assert FirstKeyed(l.groups[g + 1], l.top[g + 1]);
      }
    }
  }

  // ---------- the iterator ----------

  datatype PlanResult = Part(entries: seq<IndexEntry>) | NoMore | BadPart

  /** The plan's answer is partition t of the index, counting from one. */
  ghost predicate Gives(c: Codec, l: Layout, t: nat, r: PlanResult)
  {
    1 <= t <= |Parts(l)| && AllShaped(Parts(l)[t - 1]) && r == Part(IndexFor(c, l.x, Parts(l)[t - 1]))
  }

  /** How far the walk over the top index has come. */
  datatype Plan = Plan(topIndexI: nat, started: bool, done: bool)

  /** How many partitions have been taken from the plan. */
  ghost function Taken(rd: Reader, plan: Plan): (t: nat)
  {
    if rd.partitioned then plan.topIndexI else if plan.done then 1 else 0
  }

  /** How many the plan can still give. */
  ghost function Left(rd: Reader, plan: Plan): (n: nat)
  {
    if plan.done then 0
      else if rd.partitioned then (if plan.topIndexI < |rd.top| then 1 + |rd.top| - plan.topIndexI else 1) else 1
  }

  /** The plan is done only at its end, and untouched before its first use. */
  ghost predicate PlanOk(rd: Reader, plan: Plan)
  {
    (plan.done && rd.partitioned ==> plan.topIndexI >= |rd.top|)
      && (!plan.started ==> plan.topIndexI == 0 && !plan.done)
  }

  /** The next partition of the plan. */
  method PlanNext(c: Codec, file: bytes, rd: Reader, start: bytes, from: Plan, ghost es: seq<Entry>, ghost l: Layout)
      returns (to: Plan, r: PlanResult)
    requires PlanOk(rd, from)
    ensures PlanOk(rd, to) && Left(rd, to) <= Left(rd, from)
    ensures r.Part? ==> r.entries != [] && Left(rd, to) < Left(rd, from)
    ensures Scannable(c, file, es, l, rd) && from.started && Taken(rd, from) <= |Parts(l)| ==>
              && to.started
              && if Taken(rd, from) == |Parts(l)| then r == NoMore
                 else Taken(rd, to) == Taken(rd, from) + 1 && r.Part? && Gives(c, l, Taken(rd, to), r)
    ensures Scannable(c, file, es, l, rd) && !from.started ==>
              && to.started && r.Part? && Gives(c, l, Taken(rd, to), r)
              && (rd.partitioned && start != [] ==> exists j :: IsSlot(l.top, start, j) && Clip(j) == Taken(rd, to) - 1)
              && (!rd.partitioned || start == [] ==> Taken(rd, to) == 1)
  {
    hide Intact, IndexFor, AllShaped, IsSlot, ReadBlockPayload, IndexIn, IndexBytes, KeysIncrease;
    ghost var good := Scannable(c, file, es, l, rd);
    if good { PlanFacts(c, file, es, l); }
    to := from;
    if from.done { return to, NoMore; }
    if !to.started {
      to := to.(started := true);
      if rd.partitioned && |start| > 0 {
        if good { TopIncreases(c, file, es, l); }
        var idx := FindBlock(rd.top, start);
        if idx < 0 { idx := 0; }
        to := to.(topIndexI := idx);
      }
    }
    if !rd.partitioned {
      to := to.(done := true);
      if |rd.top| == 0 { return to, NoMore; }
      return to, Part(rd.top);
    }
    ghost var first := to.topIndexI;
    while to.topIndexI < |rd.top|
      invariant to.started && !to.done
      invariant Left(rd, to) <= Left(rd, from)
      invariant good ==> to.topIndexI == first
    {
      var e := rd.top[to.topIndexI];
      if good { PartReads(c, file, es, l, to.topIndexI); PartsFacts(c, file, es, l, to.topIndexI); }
      to := to.(topIndexI := to.topIndexI + 1);
      var payload := ReadBlockPayload(c, file, e.offset, e.length, Index);
      if payload.None? { return to, BadPart; }
      var part := DecodeIndex(payload.value);
      if part.None? { return to, BadPart; }
      if |part.value| == 0 { continue; }
      return to, Part(part.value);
    }
    to := to.(done := true);
    return to, NoMore;
  }

  class RangeIterator {
    const c: Codec
    const file: bytes
    const rd: Reader
    const start: bytes
    const end: bytes

    var plan: Plan
    var partIndex: seq<IndexEntry>
    var blockI: nat
    var block: Option<Block>
    var cursor: Cursor?
    var startApplied: bool
    var pending: Entry
    var hasPending: bool
    var curr: Entry
    var err: bool

    ghost var b: nat                     // the block the scan is in, or about to open
    ghost var p: nat                     // the entry the scan is at, once it has started

    constructor (c: Codec, file: bytes, rd: Reader, start: bytes, end: bytes)
      ensures this.c == c && this.file == file && this.rd == rd && this.start == start && this.end == end
      ensures Fresh() && Safe() && !err
    {
      this.c, this.file, this.rd, this.start, this.end := c, file, rd, start, end;
      plan, partIndex, blockI, block, cursor := Plan(0, false, false), [], 0, None, null;
      startApplied, hasPending, err := false, false, false;
      pending, curr := Entry([], [], false, 0), Entry([], [], false, 0);
      b, p := 0, 0;
    }

    ghost predicate Fresh()
      reads this
    {
      plan == Plan(0, false, false) && partIndex == [] && blockI == 0 && block.None? && cursor == null && !startApplied
        && !hasPending
    }

    ghost predicate InPlan(l: Layout)
      reads this
    {
      plan.started && PlanAt(c, l, Taken(rd, plan), partIndex, blockI, b)
    }

    /** The scan is in a block, at entry i of it. */
    ghost predicate InBlockAt(l: Layout, i: nat)
      reads this, cursor
    {
      && b < |l.cuts| && block.Some? && GoodBlock(block.value, l.cuts[b].es, l.cuts[b].ms)
      && cursor != null && cursor.At(l.cuts[b].es, l.cuts[b].ms, i, |l.cuts[b].es|)
      && blockI < |partIndex|
    }

    /** Between blocks: the next entry is the first of block b. */
    ghost predicate Between(l: Layout)
      reads this
    {
      InPlan(l) && block.None? && cursor == null && b <= |l.cuts| && p == Start(Runs(l.cuts), b)
    }

    /** In a block: the next entry is held back, or it is where the cursor stands. */
    ghost predicate PlacedAt(es: seq<Entry>, l: Layout)
      reads this, cursor
    {
      && InPlan(l) && b < |l.cuts|
      && (if hasPending then
            p < |es| && pending == es[p] && (end == [] || Lt(es[p].key, end)) && p + 1 >= Start(Runs(l.cuts), b)
            && InBlockAt(l, p + 1 - Start(Runs(l.cuts), b))
          else p >= Start(Runs(l.cuts), b) && InBlockAt(l, p - Start(Runs(l.cuts), b)))
    }

    ghost predicate Ready(es: seq<Entry>, l: Layout)
      reads this, cursor
    {
      && Scannable(c, file, es, l, rd)
      && (if startApplied then if block.None? then Between(l) else PlacedAt(es, l)
         else Fresh() && IsLower(es, start, p))
    }

    /** Holds whatever the file contains. */
    ghost predicate Safe()
      reads this, cursor
    {
      && PlanOk(rd, plan) && blockI <= |partIndex| && !hasPending
      && (block.Some? ==> blockI < |partIndex| && |block.value.restarts| == |block.value.restartKeys|)
      && (cursor != null ==> block.Some? && cursor.limit <= |cursor.data|)
    }

    method LoadPartition(ghost es: seq<Entry>, ghost l: Layout) returns (ok: bool)
      requires PlanOk(rd, plan) && blockI >= |partIndex|
      modifies `plan, `partIndex, `blockI, `err, `b
      ensures PlanOk(rd, plan)
      ensures ok ==> blockI < |partIndex| && Left(rd, plan) < old(Left(rd, plan))
      ensures !ok ==> partIndex == old(partIndex) && blockI == old(blockI) && Left(rd, plan) <= old(Left(rd, plan))
      ensures Scannable(c, file, es, l, rd) && old(Fresh()) ==>
                ok && err == old(err) && InPlan(l) && (if start == [] then b == 0 else StartsIn(es, l.cuts, start, b))
      ensures Scannable(c, file, es, l, rd) && old(startApplied && InPlan(l) && blockI == |partIndex|) ==>
                err == old(err) && (if ok then InPlan(l) && b == old(b) else old(b) == |l.cuts|)
    {
      hide Scannable, IsSlot, KeysIncrease, StartsIn, PlanAt, Gives, Parts, Start, PutsStart;
      ghost var good := Scannable(c, file, es, l, rd);
      ghost var next := old(startApplied && InPlan(l) && blockI == |partIndex|);
      if good && next { LastBlock(c, file, es, l, rd, Taken(rd, plan), partIndex, b); }
      var r;
      plan, r := PlanNext(c, file, rd, start, plan, es, l);
      match r
      case NoMore => return false;
      case BadPart => err := true; return false;
      case Part(entries) =>
        partIndex := entries;
        blockI := 0;
        if !startApplied && |start| > 0 {
          if good && old(Fresh()) { PartIncreases(c, file, es, l, rd, Taken(rd, plan), entries); }
          var idx := FindBlock(partIndex, start);
          if good && old(Fresh()) { StartFrom(c, file, es, l, rd, start, Taken(rd, plan), entries, idx); }
          blockI := Clip(idx);
        }
        if good && (next || old(Fresh())) {
          b := PlanHere(c, es, l, start, Taken(rd, plan), partIndex, blockI);
        }
        return true;
    }

    /** A block has been opened, and no cursor yet. */
    ghost predicate Opened(es: seq<Entry>, l: Layout)
      reads this
    {
      && Scannable(c, file, es, l, rd) && InPlan(l) && blockI < |partIndex| && b < |l.cuts|
      && block.Some? && GoodBlock(block.value, l.cuts[b].es, l.cuts[b].ms)
      && (if startApplied then p == Start(Runs(l.cuts), b)
          else IsLower(es, start, p) && (if start == [] then b == 0 else StartsIn(es, l.cuts, start, b)))
    }

    /** Opens the next block of the scan, loading a partition when the last one is used up. */
    method OpenBlock(ghost es: seq<Entry>, ghost l: Layout) returns (ok: bool)
      requires Safe() && block.None?
      modifies `plan, `partIndex, `blockI, `err, `b, `block
      ensures Safe() && (ok ==> block.Some?)
      ensures Left(rd, plan) < old(Left(rd, plan))
              || (Left(rd, plan) <= old(Left(rd, plan)) && blockI == old(blockI) && partIndex == old(partIndex))
      ensures old(Ready(es, l)) ==> err == old(err) && if ok then Opened(es, l) else startApplied && p == |es|
    {
      hide Intact, Scannable, StartsIn, PlanAt, IsLower, GoodBlock, Start, BlockOf, Shaped, EntryFor, TooLarge,
           Cursor.At;
      ghost var good := Ready(es, l);
      if blockI >= |partIndex| {
        ok := LoadPartition(es, l);
        if !ok {
          if good && startApplied { ContentsEnd(c, file, es, l, rd); }
          return;
        }
      }
      if good { Within(c, file, es, l, rd, Taken(rd, plan), partIndex, blockI, b); }
      var blk := ReadBlockEntry(c, file, rd, partIndex[blockI], es, l, b);
      if blk.None? {
        err := true;
        return false;
      }
      block := blk;
      return true;
    }

    /** What a step must do: give the next entry below the end, or stop there. */
    ghost predicate HasNext(es: seq<Entry>, p: nat)
    {
      p < |es| && (end == [] || Lt(es[p].key, end))
    }

    /** Seeks the start key in the opened block. */
    method SeekStart(ghost es: seq<Entry>, ghost l: Layout) returns (r: Opening)
      requires Safe() && block.Some? && cursor == null && !startApplied && start != []
      modifies `block, `blockI, `cursor, `startApplied, `pending, `hasPending, `err, `b
      ensures startApplied
      ensures r.Placed? ==>
                cursor != null && fresh(cursor) && cursor.limit <= |cursor.data| && block == old(block)
                  && blockI == old(blockI)
      ensures !r.Placed? ==> Safe() && cursor == null
      ensures r.UsedUp? ==> block.None? && blockI == old(blockI) + 1
      ensures old(Opened(es, l)) ==>
                && err == old(err)
                && match r
                   case Failed => false
                   case UsedUp => Between(l)
                   case PastEnd => !HasNext(es, p)
                   case Placed => PlacedAt(es, l)
    {
      hide Scannable, StartsIn, PlanAt, IsLower, GoodBlock, Start, LayoutOk, Lt, KeysBelow, Cursor.At, Runs;
      ghost var good := Opened(es, l);
      ghost var run, marks := if good then l.cuts[b].es else [], if good then l.cuts[b].ms else [];
      var cur, hit, i := Seek(block.value, start, run, marks);
      startApplied := true;
      match hit
      case Corrupt =>
        err := true;
        return Failed;
      case Absent =>
        if good {
          SeekMissed(es, l, c, file, rd, start, b, p);
          NextBlock(c, file, es, l, rd, Taken(rd, plan), partIndex, blockI, b);
        }
        block, blockI, b := None, blockI + 1, b + 1;
        return UsedUp;
      case Found(entry) =>
        if good { SeekFound(es, l, c, file, rd, start, b, i, p); }
        if |end| > 0 && !Lt(entry.key, end) { return PastEnd; }
        cursor, pending, hasPending := cur, entry, true;
        return Placed;
    }

    /** Puts a cursor on the opened block: at the start key the first time, then at its first entry. */
    method OpenCursor(ghost es: seq<Entry>, ghost l: Layout) returns (r: Opening)
      requires Safe() && block.Some? && cursor == null
      modifies `block, `blockI, `cursor, `startApplied, `pending, `hasPending, `err, `b
      ensures r.Placed? ==>
                cursor != null && fresh(cursor) && cursor.limit <= |cursor.data| && block == old(block)
                  && blockI == old(blockI)
      ensures !r.Placed? ==> Safe() && cursor == null
      ensures r.UsedUp? ==> block.None? && blockI == old(blockI) + 1
      ensures old(Opened(es, l)) ==>
                && err == old(err) && startApplied
                && match r
                   case Failed => false
                   case UsedUp => Between(l)
                   case PastEnd => !HasNext(es, p)
                   case Placed => PlacedAt(es, l)
    {
      hide Scannable, StartsIn, PlanAt, IsLower, GoodBlock, Start, LayoutOk, Lt, Cursor.At, Runs, HasNext;
      if !startApplied && |start| > 0 {
        r := SeekStart(es, l);
        return;
      }
      ghost var good := Opened(es, l);
      if good && !startApplied { OpenStart(es, l, c, file, rd, p); }
      startApplied := true;
      cursor := new Cursor(block.value, 0, |block.value.data|);
      if good { CursorAtStart(block.value, cursor, l.cuts[b].es, l.cuts[b].ms); }
      return Placed;
    }

    /** Takes the entry held back, or the next one from the cursor. */
    method Take(ghost es: seq<Entry>, ghost l: Layout) returns (r: Taking)
      requires PlanOk(rd, plan) && block.Some? && blockI < |partIndex|
               && |block.value.restarts| == |block.value.restartKeys|
      requires cursor != null && cursor.limit <= |cursor.data|
      modifies cursor, `block, `blockI, `cursor, `hasPending, `curr, `err, `b, `p
      ensures Safe() && (cursor == null || cursor == old(cursor))
      ensures r.Spent? ==> block.None? && blockI == old(blockI) + 1
      ensures r.Yield? ==> block.Some?
      ensures startApplied && Scannable(c, file, es, l, rd) && old(PlacedAt(es, l)) ==>
                && err == old(err)
                && match r
                   case Yield => HasNext(es, old(p)) && curr == es[old(p)] && p == old(p) + 1 && PlacedAt(es, l)
                   case Stop => !HasNext(es, old(p))
                   case Spent => p == old(p) && Between(l)
    {
      hide Scannable, PlanAt, GoodBlock, Start, LayoutOk, Lt, ParseEntry, Runs, Offset, Buf;
      if hasPending {
        hasPending := false;
        curr := pending;
        p := p + 1;
        return Yield;
      }
      ghost var good := Scannable(c, file, es, l, rd) && PlacedAt(es, l);
      ghost var i: nat, run, marks := 0, [], [];
      if good {
        i, run, marks := p - Start(Runs(l.cuts), b), l.cuts[b].es, l.cuts[b].ms;
        AtEntry(es, l, c, file, rd, b, i);
      }
      var e := cursor.Advance(run, marks, i, |run|);
      match e
      case Bad =>
        err := true;
        return Stop;
      case End =>
        if good { NextBlock(c, file, es, l, rd, Taken(rd, plan), partIndex, blockI, b); }
        block, cursor, blockI, b := None, null, blockI + 1, b + 1;
        return Spent;
      case Item(entry, _) =>
        if |end| > 0 && !Lt(entry.key, end) { return Stop; }
        curr := entry;
        p := p + 1;
        return Yield;
    }

    /** Yields the next entry of the range, and stops exactly at its end. */
    method Next(ghost es: seq<Entry>, ghost l: Layout) returns (ok: bool)
      requires Safe()
      modifies this, cursor
      ensures Safe() && (cursor == null || cursor == old(cursor) || fresh(cursor))
      ensures old(Ready(es, l)) ==> err == old(err) && ok == HasNext(es, old(p))
      ensures old(Ready(es, l)) && ok ==> curr == es[old(p)] && p == old(p) + 1 && Ready(es, l)
    {
      hide Scannable, IsLower, Opened, PlacedAt, Between, Lt;
      ghost var good := Ready(es, l);
      while true
        invariant Safe() && (cursor == null || cursor == old(cursor) || fresh(cursor))
        invariant good ==> Ready(es, l) && p == old(p) && err == old(err)
        decreases Left(rd, plan), |partIndex| - blockI
      {
        if block.None? {
          var found := OpenBlock(es, l);
          if !found { return false; }
        } else if good && cursor == null {
          PlacedHasCursor(es, l);
        }
        if cursor == null {
          var r := OpenCursor(es, l);
          match r {
            case Failed => return false;
            case PastEnd => return false;
            case UsedUp => continue;
            case Placed =>
          }
        }
        var t := Take(es, l);
        match t {
          case Yield => return true;
          case Stop => return false;
          case Spent =>
        }
      }
    }

    lemma FreshIsReady(es: seq<Entry>, l: Layout)
      requires Scannable(c, file, es, l, rd) && Fresh() && IsLower(es, start, p)
      ensures Ready(es, l) && Safe()
    {
    }

    lemma PlacedHasCursor(es: seq<Entry>, l: Layout)
      requires Ready(es, l) && block.Some?
      ensures cursor != null
    {
    }
  }

  datatype Taking = Yield | Stop | Spent

  datatype Opening = Placed | UsedUp | PastEnd | Failed

  lemma LowerIsUnique(es: seq<Entry>, start: bytes, p: nat, q: nat)
    requires IsLower(es, start, p) && KeysBelow(es, q, start) && (q < |es| ==> Le(start, es[q].key))
    ensures p == q
  {
    hide Lt;
    assert p < |es| ==> es[p] == es[p];
    assert q < |es| ==> es[q] == es[q];
  }

  lemma SeekMissed(es: seq<Entry>, l: Layout, c: Codec, file: bytes, rd: Reader, start: bytes, b: nat, p: nat)
    requires Scannable(c, file, es, l, rd) && StartsIn(es, l.cuts, start, b) && IsLower(es, start, p)
    requires KeysBelow(l.cuts[b].es, |l.cuts[b].es|, start)
    ensures p == Start(Runs(l.cuts), b + 1)
  {
    hide IndexOk, FilterOk, FieldsFit, MetaOk, RoundTrips, Flat, Lt, AllWithin, Sorted, IsLower;
    var runs := Runs(l.cuts);
    var q := Start(runs, b + 1);
    StartNext(runs, b);
    StartWithin(runs, b + 1);
    forall j | 0 <= j < q ensures Lt(es[j].key, start) {
      if j >= Start(runs, b) {
        FlatAt(runs, b, j - Start(runs, b));
        assert Lt(l.cuts[b].es[j - Start(runs, b)].key, start);
      }
    }
    if q < |es| { LtAsymmetric(start, es[q].key); }
    LowerIsUnique(es, start, p, q);
  }

  lemma SeekFound(es: seq<Entry>, l: Layout, c: Codec, file: bytes, rd: Reader, start: bytes, b: nat, i: nat, p: nat)
    requires Scannable(c, file, es, l, rd) && StartsIn(es, l.cuts, start, b) && IsLower(es, start, p)
    requires i < |l.cuts[b].es| && KeysBelow(l.cuts[b].es, i, start) && Le(start, l.cuts[b].es[i].key)
    ensures p == Start(Runs(l.cuts), b) + i && p < |es| && es[p] == l.cuts[b].es[i]
  {
    hide IndexOk, FilterOk, FieldsFit, MetaOk, RoundTrips, Flat, Lt, AllWithin, Sorted, IsLower;
    var runs := Runs(l.cuts);
    var q := Start(runs, b) + i;
    FlatAt(runs, b, i);
    forall j | 0 <= j < q ensures Lt(es[j].key, start) {
      if j >= Start(runs, b) {
        FlatAt(runs, b, j - Start(runs, b));
        assert Lt(l.cuts[b].es[j - Start(runs, b)].key, start);
      }
    }
    LowerIsUnique(es, start, p, q);
  }

  lemma OpenStart(es: seq<Entry>, l: Layout, c: Codec, file: bytes, rd: Reader, p: nat)
    requires Scannable(c, file, es, l, rd) && IsLower(es, [], p)
    ensures p == 0 == Start(Runs(l.cuts), 0)
  {
    hide IndexOk, FilterOk, FieldsFit, MetaOk, RoundTrips, Flat, AllWithin, Sorted;
    assert |es| > 0 ==> !Lt(es[0].key, []);
    StartZero(Runs(l.cuts));
  }

  lemma StartWithin(runs: seq<seq<Entry>>, b: nat)
    requires b <= |runs|
    ensures Start(runs, b) <= |Flat(runs)|
  {
    assert runs == runs[..b] + runs[b..];
    FlatAppend(runs[..b], runs[b..]);
  }

  lemma NextBlock(c: Codec, file: bytes, es: seq<Entry>, l: Layout, rd: Reader, t: nat, part: seq<IndexEntry>,
                  blockI: nat, b: nat)
    requires Scannable(c, file, es, l, rd) && PlanAt(c, l, t, part, blockI, b) && blockI < |part|
    ensures b < |l.cuts| && PlanAt(c, l, t, part, blockI + 1, b + 1)
  {
    hide Intact, PlanAt, Shaped, EntryFor;
    PlanCut(c, file, es, l, t, part, blockI, b);
  }

  /** Entry i of block b, and the start of the next block, by their position in the table. */
  lemma AtEntry(es: seq<Entry>, l: Layout, c: Codec, file: bytes, rd: Reader, b: nat, i: nat)
    requires Scannable(c, file, es, l, rd) && b < |l.cuts| && i <= |l.cuts[b].es|
    ensures var p := Start(Runs(l.cuts), b) + i;
            && (i < |l.cuts[b].es| ==> p < |es| && es[p] == l.cuts[b].es[i])
            && (i == |l.cuts[b].es| ==> p == Start(Runs(l.cuts), b + 1))
  {
    hide IndexOk, FilterOk, FieldsFit, MetaOk, RoundTrips, Flat, AllWithin, Sorted;
    StartNext(Runs(l.cuts), b);
    if i < |l.cuts[b].es| { FlatAt(Runs(l.cuts), b, i); }
  }

  lemma CursorAtStart(blk: Block, cursor: Cursor, es: seq<Entry>, ms: seq<bool>)
    requires GoodBlock(blk, es, ms)
    requires cursor.data == blk.data && cursor.lastKey == []
    requires 0 < |blk.data| ==> cursor.limit == |blk.data|
    requires |blk.data| <= 0 ==> cursor.limit == |blk.data|
    requires cursor.offset == 0
    ensures cursor.At(es, ms, 0, |es|)
  {
    OffsetStep(es, ms, 0);
  }

  lemma ContentsEnd(c: Codec, file: bytes, es: seq<Entry>, l: Layout, rd: Reader)
    requires Scannable(c, file, es, l, rd)
    ensures Start(Runs(l.cuts), |l.cuts|) == |es|
  {
    StartEnd(Runs(l.cuts));
  }

  lemma Within(c: Codec, file: bytes, es: seq<Entry>, l: Layout, rd: Reader, t: nat, part: seq<IndexEntry>, blockI: nat,
               b: nat)
    requires Scannable(c, file, es, l, rd) && PlanAt(c, l, t, part, blockI, b) && blockI < |part|
    ensures Intact(c, file, es, l)
    ensures b < |l.cuts| && Shaped(l.cuts[b]) && part[blockI] == EntryFor(c, l.x, l.cuts[b])
    ensures !TooLarge(c, l, rd.readBlockMaxBytes, b)
  {
    hide Intact, PlanAt, Shaped, EntryFor;
    PlanCut(c, file, es, l, t, part, blockI, b);
  }

  lemma LastBlock(c: Codec, file: bytes, es: seq<Entry>, l: Layout, rd: Reader, t: nat, part: seq<IndexEntry>, b: nat)
    requires Scannable(c, file, es, l, rd) && PlanAt(c, l, t, part, |part|, b)
    ensures 1 <= t <= |Parts(l)| && b == Start(Parts(l), t) && (t == |Parts(l)| ==> b == |l.cuts|)
  {
    hide Intact, PlanAt;
    PlanEnd(c, file, es, l, t, part, b);
  }

  lemma PartIncreases(c: Codec, file: bytes, es: seq<Entry>, l: Layout, rd: Reader, t: nat, entries: seq<IndexEntry>)
    requires Scannable(c, file, es, l, rd) && Gives(c, l, t, Part(entries))
    ensures KeysIncrease(entries)
  {
    hide FilterOk, FieldsFit, RoundTrips, Sorted, Stored, MetaOk, CutsOk, Flat, DataBlock, Contents, KeysIncrease;
    var g := t - 1;
    PartsFacts(c, file, es, l, g);
    CutsIndexed(c, l.x, Parts(l)[g]);
    if l.partitioned {
      GroupsIndexed(c, file, es, l);
      RunIsSorted(GroupRuns(l.groups), g);
    }
    SortedRuns(es, l, g);
    FirstKeysIncrease(IndexFor(c, l.x, Parts(l)[g]), Runs(Parts(l)[g]));
  }

  lemma SortedRuns(es: seq<Entry>, l: Layout, g: nat)
    requires g < |Parts(l)| && Sorted(es) && es == Contents(l.cuts)
    requires l.partitioned ==> Sorted(Contents(l.groups[g]))
    ensures Sorted(Flat(Runs(Parts(l)[g])))
  {
  }

  /** Where the plan and the partition put the scan for a start key. */
  ghost predicate PutsStart(c: Codec, es: seq<Entry>, l: Layout, start: bytes, t: nat, i: nat)
  {
    1 <= t <= |Parts(l)| && i < |Parts(l)[t - 1]| && StartsIn(es, l.cuts, start, Start(Parts(l), t - 1) + i)
  }

  lemma StartFrom(c: Codec, file: bytes, es: seq<Entry>, l: Layout, rd: Reader, start: bytes, t: nat,
                  entries: seq<IndexEntry>, i: int)
    requires Scannable(c, file, es, l, rd) && Gives(c, l, t, Part(entries)) && IsSlot(entries, start, i)
    requires rd.partitioned ==> exists j :: IsSlot(l.top, start, j) && Clip(j) == t - 1
    requires !rd.partitioned ==> t == 1
    ensures Clip(i) < |entries| && PutsStart(c, es, l, start, t, Clip(i))
  {
    hide Intact, IsSlot, StartsIn, AllShaped, Start, Shaped, Lt;
    if l.partitioned {
      var j :| IsSlot(l.top, start, j) && Clip(j) == t - 1;
      StartPlan(c, file, es, l, start, j, i);
    } else {
      StartPlan(c, file, es, l, start, 0, i);
    }
  }

  lemma PlanHere(c: Codec, es: seq<Entry>, l: Layout, start: bytes, t: nat, part: seq<IndexEntry>, blockI: nat)
      returns (b: nat)
    requires Gives(c, l, t, Part(part)) && blockI <= |part|
    ensures PlanAt(c, l, t, part, blockI, b)
    ensures blockI == 0 ==> b == Start(Parts(l), t - 1)
    ensures blockI == 0 && t == 1 ==> b == 0
    ensures PutsStart(c, es, l, start, t, blockI) ==> StartsIn(es, l.cuts, start, b)
  {
    b := Start(Parts(l), t - 1) + blockI;
  }

  lemma PlanFacts(c: Codec, file: bytes, es: seq<Entry>, l: Layout)
    requires Intact(c, file, es, l)
    ensures |Parts(l)| > 0
    ensures l.partitioned ==> |l.top| == |l.groups|
    ensures !l.partitioned ==> AllShaped(l.cuts) && l.top == IndexFor(c, l.x, l.cuts) && l.top != []
  {
    PartsFacts(c, file, es, l, 0);
  }

  lemma LowerExists(es: seq<Entry>, start: bytes) returns (p: nat)
    requires Sorted(es)
    ensures IsLower(es, start, p)
  {
    p := 0;
    while p < |es| && Lt(es[p].key, start)
      invariant p <= |es| && KeysBelow(es, p, start)
    {
      p := p + 1;
    }
    forall j | p <= j < |es| ensures Le(start, es[j].key) {
      if p < j { LeLtTransitive(start, es[p].key, es[j].key); LtAsymmetric(start, es[j].key); }
    }
  }

  /** Driving the iterator until it first stops yields exactly the entries in range, in order. */
  method Scan(c: Codec, file: bytes, rd: Reader, start: bytes, end: bytes, ghost es: seq<Entry>, ghost l: Layout)
      returns (out: seq<Entry>, ok: bool)
    requires Scannable(c, file, es, l, rd)
    ensures ok && out == Select(es, start, end)
  {
    hide Scannable, RangeIterator.Ready, RangeIterator.Safe, IsLower, IsBelow, Lt, Select;
    ScanSorted(c, file, es, l, rd);
    ghost var lo := LowerExists(es, start);
    var it := new RangeIterator(c, file, rd, start, end);
    it.p := lo;
    LowerWithin(es, start, lo);
    it.FreshIsReady(es, l);
    NoneTaken(es, end, lo);
    out := [];
    var more := it.Next(es, l);
    if !more { UpperAt(es, end, lo, lo); } else { BelowStep(es, end, lo, lo); }
    while more
      invariant it.Safe() && it.c == c && it.file == file && it.rd == rd && it.start == start && it.end == end
                && !it.err
      invariant fresh(it) && (it.cursor != null ==> fresh(it.cursor))
      invariant more ==> it.Ready(es, l) && lo < it.p <= |es| && out == es[lo..it.p - 1] && it.curr == es[it.p - 1]
      invariant more ==> IsBelow(es, end, lo, it.p)
      invariant !more ==> IsUpper(es, end, lo, lo + |out|) && out == es[lo..lo + |out|]
      decreases if more then 1 + |es| - it.p else 0
    {
      out := out + [it.curr];
      ghost var at := it.p;
      more := it.Next(es, l);
      if !more { UpperAt(es, end, lo, at); } else { BelowStep(es, end, lo, at); }
    }
    ok := !it.err;
    SelectIsSlice(es, start, end, lo, lo + |out|, |es|);
    assert es[..|es|] == es;
  }

  ghost predicate IsBelow(es: seq<Entry>, end: bytes, lo: nat, hi: nat)
  {
    lo <= hi <= |es| && forall j :: lo <= j < hi ==> end == [] || Lt(es[j].key, end)
  }

  lemma NoneTaken(es: seq<Entry>, end: bytes, lo: nat)
    requires lo <= |es|
    ensures IsBelow(es, end, lo, lo)
  {
  }

  lemma UpperAt(es: seq<Entry>, end: bytes, lo: nat, hi: nat)
    requires IsBelow(es, end, lo, hi) && !(hi < |es| && (end == [] || Lt(es[hi].key, end)))
    ensures IsUpper(es, end, lo, hi)
  {
  }

  lemma BelowStep(es: seq<Entry>, end: bytes, lo: nat, hi: nat)
    requires IsBelow(es, end, lo, hi) && hi < |es| && (end == [] || Lt(es[hi].key, end))
    ensures IsBelow(es, end, lo, hi + 1)
  {
  }

  lemma ScanSorted(c: Codec, file: bytes, es: seq<Entry>, l: Layout, rd: Reader)
    requires Scannable(c, file, es, l, rd)
    ensures Sorted(es)
  {
  }

  lemma LowerWithin(es: seq<Entry>, start: bytes, p: nat)
    requires IsLower(es, start, p)
    ensures p <= |es|
  {
  }
}
