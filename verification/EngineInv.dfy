/** Every run of the engine keeps the log, the memtables and the tables in step. */
module EngineInv {
  import opened Bytes
  import opened Concat
  import opened Entries
  import opened Ordering
  import opened Memtable
  import opened Tables
  import opened Planner
  import opened Compaction
  import opened EngineRun
  import TE = TableEdit
  import TS = TableSet
  import X = Tombstones

  // ---------- log positions ----------

  lemma {:induction false} UptoFacts(wal: seq<Entry>, q: uint64)
    requires WalOk(wal)
    ensures forall i :: 0 <= i < Upto(wal, q) ==> wal[i].seqno <= q
    ensures forall i :: Upto(wal, q) <= i < |wal| ==> wal[i].seqno > q
  {
    if wal != [] && wal[0].seqno <= q {
      UptoFacts(wal[1..], q);
      forall i | 1 <= i < |wal| ensures wal[i] == wal[1..][i - 1] { }
    }
  }

  lemma UptoIs(wal: seq<Entry>, q: uint64, n: nat)
    requires WalOk(wal) && n <= |wal|
    requires n > 0 ==> wal[n - 1].seqno <= q
    requires n < |wal| ==> wal[n].seqno > q
    ensures Upto(wal, q) == n
  {
    UptoFacts(wal, q);
  }

  lemma {:induction false} AboveAll(wal: seq<Entry>, q: uint64)
    requires forall i :: 0 <= i < |wal| ==> wal[i].seqno > q
    ensures Above(wal, q) == wal
  {
    if wal != [] { AboveAll(wal[..|wal| - 1], q); }
  }

  lemma {:induction false} AboveNone(wal: seq<Entry>, q: uint64)
    requires forall i :: 0 <= i < |wal| ==> wal[i].seqno <= q
    ensures Above(wal, q) == []
  {
    if wal != [] { AboveNone(wal[..|wal| - 1], q); }
  }

  lemma {:induction false} AboveConcat(a: seq<Entry>, b: seq<Entry>, q: uint64)
    ensures Above(a + b, q) == Above(a, q) + Above(b, q)
  {
    if b == [] {
      assert a + b == a;
    } else {
      AboveConcat(a, b[..|b| - 1], q);
      assert (a + b)[..|a + b| - 1] == a + b[..|b| - 1];
    }
  }

  /** In a log with increasing sequence numbers, the records above q are a suffix. */
  lemma AboveSlice(wal: seq<Entry>, from: nat, to: nat, q: uint64)
    requires WalOk(wal) && from <= to <= |wal|
    ensures var c := Upto(wal, q);
            Above(wal[from..to], q) == if to <= c then [] else wal[if from < c then c else from..to]
  {
    hide Above, WalOk;
    var c := Upto(wal, q);
    UptoFacts(wal, q);
    if to <= c {
      AboveNone(wal[from..to], q);
    } else {
      var m := if from < c then c else from;
      AboveNone(wal[from..m], q);
      AboveAll(wal[m..to], q);
      AboveConcat(wal[from..m], wal[m..to], q);
      assert wal[from..to] == wal[from..m] + wal[m..to];
    }
  }

  lemma AboveIs(wal: seq<Entry>, q: uint64)
    requires WalOk(wal)
    ensures Above(wal, q) == wal[Upto(wal, q)..]
  {
    AboveSlice(wal, 0, |wal|, q);
    assert wal[0..|wal|] == wal;
  }

  lemma WalSlice(wal: seq<Entry>, i: nat, j: nat)
    requires WalOk(wal) && i <= j <= |wal|
    ensures WalOk(wal[i..j])
  {
  }

  // ---------- memtables ----------

  lemma {:induction false} FlatOfEmpty(ms: seq<seq<Entry>>)
    requires forall j :: 0 <= j < |ms| ==> ms[j] == []
    ensures Flat(ms) == []
  {
    if ms != [] { FlatOfEmpty(ms[..|ms| - 1]); }
  }

  /** A flushed-in-order memtable holds the oldest writes of all. */
  lemma FlatOldest(ms: seq<seq<Entry>>, idx: nat)
    requires OldestFirst(ms, idx)
    ensures Flat(ms) == ms[idx] + Flat(Without(ms, idx))
  {
    hide Flat;
    var a, b := ms[..idx], ms[idx + 1..];
    assert ms == a + ([ms[idx]] + b);
    FlatAppend(a, [ms[idx]] + b);
    FlatAppend([ms[idx]], b);
    FlatOne(ms[idx]);
    FlatOfEmpty(a);
    FlatAppend(a, b);
  }

  lemma FlatWithoutEmpty(ms: seq<seq<Entry>>, idx: nat)
    requires idx < |ms| && ms[idx] == []
    ensures Flat(Without(ms, idx)) == Flat(ms)
  {
    hide Flat;
    var a, b := ms[..idx], ms[idx + 1..];
    assert ms == a + ([ms[idx]] + b);
    FlatAppend(a, [ms[idx]] + b);
    FlatAppend([ms[idx]], b);
    FlatOne(ms[idx]);
    FlatAppend(a, b);
  }

  /** A late write lands in a frozen memtable that only empty ones follow. */
  lemma FlatLateWrite(ms: seq<seq<Entry>>, idx: nat, e: Entry)
    requires idx < |ms| && forall j :: idx < j < |ms| ==> ms[j] == []
    ensures Flat(ms[idx := ms[idx] + [e]]) == Flat(ms) + [e]
  {
    hide Flat;
    var a, b := ms[..idx], ms[idx + 1..];
    var ms' := ms[idx := ms[idx] + [e]];
    FlatOfEmpty(b);
    assert ms == a + [ms[idx]] + b && ms' == a + [ms[idx] + [e]] + b;
    FlatAppend(a + [ms[idx]], b);
    FlatAppend(a + [ms[idx] + [e]], b);
    FlatStep(a, ms[idx]);
    FlatStep(a, ms[idx] + [e]);
  }

  /** Reading memtables newest first finds the last write of the key. */
  lemma {:induction false} ReadMemsIsLast(ms: seq<seq<Entry>>, key: bytes)
    ensures ReadMems(ms, key) == Last(Flat(ms), key)
  {
    if ms != [] {
      var front, m := ms[..|ms| - 1], ms[|ms| - 1];
      ReadMemsIsLast(front, key);
      RunReads(m, key);
      LastConcat(Flat(front), m, key);
    }
  }

  // ---------- flushing a stretch of the log ----------

  lemma RunSeqs(seg: seq<Entry>)
    requires WalOk(seg) && seg != []
    ensures RunOf(seg) != []
    ensures MaxSeq(RunOf(seg)) == seg[|seg| - 1].seqno
    ensures MinSeq(RunOf(seg)) >= seg[0].seqno
  {
    hide RunOf, MaxSeq, MinSeq;
    var run := RunOf(seg);
    RunMembers(seg);
    var e :| e in run && e.seqno == MaxSeq(run);
    LogBounds(seg, e);
    var f :| f in run && f.seqno == MinSeq(run);
    LogBounds(seg, f);
  }

  lemma LogBounds(seg: seq<Entry>, e: Entry)
    requires WalOk(seg) && e in seg
    ensures seg[0].seqno <= e.seqno <= seg[|seg| - 1].seqno
  {
    var i :| 0 <= i < |seg| && seg[i] == e;
  }

  /** Table sequence numbers never exceed the log position the tables stand for. */
  lemma TableSeqs(ts: seq<Table>, wal: seq<Entry>, d: nat, t: Table)
    requires d <= |wal| && WalOk(wal) && Logged(ts, wal, d) && WfTable(t) && t in ts
    ensures d > 0 && t.meta.seqMax <= wal[d - 1].seqno
  {
    hide Sorted;
    var e :| e in t.entries && e.seqno == t.meta.seqMax;
    assert e in wal[..d];
    var i :| 0 <= i < |wal[..d]| && wal[..d][i] == e;
    assert wal[i] == e;
  }

  lemma SegmentTable(ts: seq<Table>, wal: seq<Entry>, d: nat, n: nat, path: bytes, size: uint64, drop: bool)
    requires WalOk(wal) && d < n <= |wal| && TablesAre(ts, wal, d, drop)
    requires forall t :: t in ts ==> t.meta.path != path
    ensures RunOf(wal[d..n]) != []
    ensures var t := NewTable(path, 0, size, RunOf(wal[d..n]));
            NewestTable(ts, t) && t.meta.seqMax == wal[n - 1].seqno
  {
    hide SortedBy, Lookup, Sorted, MinSeq, MaxSeq, RunOf, Compatible, WfTable, Same, Logged, TS.PathsDiffer;
    var seg := wal[d..n];
    WalSlice(wal, d, n);
    RunSeqs(seg);
    RunReads(seg, []);
    NewTableIsWf(path, 0, size, RunOf(seg));
    forall t | t in ts ensures t.meta.seqMax < wal[d].seqno { TableSeqs(ts, wal, d, t); }
  }

  /** Adding one table under a new path keeps paths apart. */
  lemma OneMorePath(ts: seq<Table>, t: Table)
    requires TS.PathsDiffer(ts) && forall u :: u in ts ==> u.meta.path != t.meta.path
    ensures TS.PathsDiffer(Edited(ts, [t], {})) && TS.PathsOf(ts) !! TS.PathsOf([t])
  {
    hide TS.PathsDiffer, Edited;
    TS.SingleDiffers(t);
    TS.EditedFacts(ts, [t], {});
  }

  /** Flushing the next stretch of the log as a new table extends what the tables stand for. */
  lemma FlushSegment(ts: seq<Table>, wal: seq<Entry>, d: nat, n: nat, t: Table, drop: bool)
    requires WalOk(wal) && d < n <= |wal| && TablesAre(ts, wal, d, drop)
    requires NewestTable(ts, t) && t.entries == RunOf(wal[d..n]) && t.meta.seqMax == wal[n - 1].seqno
    ensures TablesAre(Edited(ts, [t], {}), wal, n, drop)
  {
    hide Layered, WfTable, RunOf, Edited, ReadBefore, TS.PathsDiffer, Last, Lookup;
    var ts' := Edited(ts, [t], {});
    FlushKeepsLayers(ts, t);
    EditedMembers(ts, [t], {});
    OneMorePath(ts, t);
    assert wal[..d] + wal[d..n] == wal[..n];
    RunMembers(wal[d..n]);
    forall key ensures Same(drop, Lookup(ts', key), Last(wal[..n], key)) {
      FlushLookup(ts, t, key);
      RunReads(wal[d..n], key);
      FindSound(t.entries, key);
      LastConcat(wal[..d], wal[d..n], key);
    }
  }

  // ---------- steps that leave the tables alone ----------

  lemma EmptyTables(wal: seq<Entry>, drop: bool)
    ensures TablesAre([], wal, 0, drop)
  {
  }

  lemma InitInv(drop: bool)
    ensures Inv(Init(drop))
  {
    hide TablesAre;
    var s := Init(drop);
    EmptyTables(s.wal, drop);
    assert Flat(s.frozen) + s.mem + Pending(s.writer) == [];
    assert s.wal[0..] == [];
  }

  lemma DurableExtends(wal: seq<Entry>, q: uint64, e: Entry)
    requires WalOk(wal + [e]) && (q == 0 || (Upto(wal, q) > 0 && q == wal[Upto(wal, q) - 1].seqno))
    ensures WalOk(wal) && Upto(wal + [e], q) == Upto(wal, q)
  {
    var w := wal + [e];
    forall i | 0 <= i < |wal| ensures wal[i] == w[i] { }
    UptoFacts(wal, q);
    assert w[|wal|] == e;
    if Upto(wal, q) > 0 { assert w[Upto(wal, q) - 1].seqno < e.seqno; }
    UptoIs(w, q, Upto(wal, q));
  }

  lemma TablesExtend(ts: seq<Table>, wal: seq<Entry>, d: nat, e: Entry, drop: bool)
    requires d <= |wal| && TablesAre(ts, wal, d, drop)
    ensures TablesAre(ts, wal + [e], d, drop)
  {
    hide Layered, SortedBy, Lookup, Last, Same, TS.PathsDiffer;
    assert (wal + [e])[..d] == wal[..d];
  }

  lemma LogKeepsInv(s: Engine, e: Entry)
    requires Inv(s) && Enabled(s, Log(e))
    ensures Inv(Step(s, Log(e)))
  {
    hide TablesAre, Layout, Edited, Compacted, PlanOk, CompactionOutput, Upto, NewTable, RunOf;
    var s' := Step(s, Log(e));
    WalAppend(s.wal, e);
    DurableExtends(s.wal, s.manifest.walSeq, e);
    TablesExtend(s.manifest.tables, s.wal, Durable(s), e, s.drop);
    LogLayout(s, e);
  }

  lemma WalAppend(wal: seq<Entry>, e: Entry)
    requires WalOk(wal) && e.seqno > 0 && forall i :: 0 <= i < |wal| ==> wal[i].seqno < e.seqno
    ensures WalOk(wal + [e])
  {
  }

  lemma LogLayout(s: Engine, e: Entry)
    requires Layout(s) && s.writer.NoWrite? && Upto(s.wal + [e], s.manifest.walSeq) == Durable(s)
    ensures Layout(s.(wal := s.wal + [e], writer := Writing(e, |s.frozen|)))
  {
    hide Flat, Upto;
    var s' := s.(wal := s.wal + [e], writer := Writing(e, |s.frozen|));
    var rest := Flat(s.frozen) + s.mem + Pending(s.writer);
    assert Flat(s'.frozen) + s'.mem + Pending(s'.writer) == rest + [e];
    assert s'.wal[|s.wal| - |rest|..] == s.wal[|s.wal| - |rest|..] + [e];
  }

  lemma ApplyLayout(s: Engine)
    requires Layout(s) && WriterOk(s) && FlushOk(s) && Enabled(s, Apply)
    ensures Layout(Step(s, Apply))
  {
    hide Flat, Upto, NewTable, RunOf;
    var s' := Step(s, Apply);
    if s.writer.mem < |s.frozen| { FlatLateWrite(s.frozen, s.writer.mem, s.writer.entry); }
    assert Flat(s'.frozen) + s'.mem + Pending(s'.writer) == Flat(s.frozen) + s.mem + Pending(s.writer);
    assert s.flush.Flushing? ==> s'.frozen[s.flush.idx] == s.frozen[s.flush.idx];
  }

  lemma ApplyFlush(s: Engine)
    requires WriterOk(s) && FlushOk(s) && Enabled(s, Apply)
    ensures FlushOk(Step(s, Apply))
  {
    hide NewTable, RunOf;
    if s.flush.Flushing? { assert s.flush.idx < s.writer.mem; }
  }

  lemma ApplyKeepsInv(s: Engine)
    requires Inv(s) && Enabled(s, Apply)
    ensures Inv(Step(s, Apply))
  {
    hide TablesAre, Layout, FlushOk, Edited, Compacted, PlanOk, CompactionOutput, WalOk, Upto;
    ApplyLayout(s);
    ApplyFlush(s);
  }

  /** Steps that touch neither tables nor edits on their way leave the table set in order. */
  lemma StillLive(s: Engine, s': Engine)
    requires s'.live == s.live && s'.manifest == s.manifest && s'.compact == s.compact && s'.drop == s.drop
    requires (InFlight(s') <==> InFlight(s)) && (InFlight(s) ==> s'.flush.table == s.flush.table)
    ensures LiveOk(s) ==> LiveOk(s')
  {
    hide Edited, Compacted, PlanFits, CompactionOutput;
  }

  lemma FreezeKeepsInv(s: Engine)
    requires Inv(s) && Enabled(s, Freeze)
    ensures Inv(Step(s, Freeze))
  {
    hide TablesAre, Flat, LiveOk, PlanFits, WalOk, NewTable, RunOf, Upto;
    var s' := Step(s, Freeze);
    StillLive(s, s');
    FlatStep(s.frozen, s.mem);
    assert Flat(s'.frozen) + s'.mem + Pending(s'.writer) == Flat(s.frozen) + s.mem + Pending(s.writer);
  }

  lemma DropEmptyFlush(s: Engine, idx: nat)
    requires FlushOk(s) && Enabled(s, DropEmpty(idx))
    ensures FlushOk(Step(s, DropEmpty(idx)))
    ensures s.flush.Flushing? ==>
              Step(s, DropEmpty(idx)).frozen[Step(s, DropEmpty(idx)).flush.idx] == s.frozen[s.flush.idx]
  {
    hide NewTable, RunOf;
    if s.flush.Flushing? { assert s.flush.idx != idx; }
  }

  lemma DropEmptyWriter(s: Engine, idx: nat)
    requires WriterOk(s) && Enabled(s, DropEmpty(idx))
    ensures WriterOk(Step(s, DropEmpty(idx)))
  {
  }

  lemma DropEmptyKeepsInv(s: Engine, idx: nat)
    requires Inv(s) && Enabled(s, DropEmpty(idx))
    ensures Inv(Step(s, DropEmpty(idx)))
  {
    hide TablesAre, Flat, Edited, Compacted, PlanOk, CompactionOutput, WalOk, WriterOk, Upto, NewTable, RunOf,
         OldestFirst;
    FlatWithoutEmpty(s.frozen, idx);
    DropEmptyWriter(s, idx);
    DropEmptyFlush(s, idx);
  }

  lemma FlushWriteKeepsInv(s: Engine, idx: nat, path: bytes, size: uint64)
    requires Inv(s) && Enabled(s, FlushWrite(idx, path, size))
    ensures Inv(Step(s, FlushWrite(idx, path, size)))
  {
    hide TablesAre, Flat, LiveOk, PlanFits, WalOk, RunOf, Upto;
    RunMembers(s.frozen[idx]);
    StillLive(s, Step(s, FlushWrite(idx, path, size)));
  }

  // ---------- flush ----------

  /** The memtable being flushed is the next stretch of the log after the durable prefix. */
  lemma FlushIsNext(s: Engine)
    requires Inv(s) && s.phase.Serving? && s.flush.Flushing? && !s.flush.stage.InManifest?
    ensures var d, m := Durable(s), s.frozen[s.flush.idx];
            d + |m| <= |s.wal| && s.wal[d..d + |m|] == m
  {
    hide TablesAre, Flat, Edited, Compacted, PlanOk, CompactionOutput, WalOk;
    FlatOldest(s.frozen, s.flush.idx);
    var m := s.frozen[s.flush.idx];
    var rest := Flat(s.frozen) + s.mem + Pending(s.writer);
    assert rest == m + (Flat(Without(s.frozen, s.flush.idx)) + s.mem + Pending(s.writer));
    assert rest[..|m|] == m;
  }

  lemma FlushTableIsNewest(s: Engine)
    requires Inv(s) && s.phase.Serving? && s.flush.Flushing? && !s.flush.stage.InManifest?
    ensures NewestTable(s.manifest.tables, s.flush.table)
    ensures var n := Durable(s) + |s.frozen[s.flush.idx]|;
            Durable(s) < n <= |s.wal| && s.flush.table.meta.seqMax == s.wal[n - 1].seqno
              && s.flush.table.entries == RunOf(s.wal[Durable(s)..n])
  {
    hide TablesAre, Layout, Edited, Compacted, PlanOk, CompactionOutput, WalOk, RunOf, NewTable, NewestTable;
    FlushIsNext(s);
    var d, t := Durable(s), s.flush.table;
    SegmentTable(s.manifest.tables, s.wal, d, d + |s.frozen[s.flush.idx]|, t.meta.path, t.meta.sizeBytes, s.drop);
  }

  /** A compaction reads the same with and without a newer table beside its inputs. */
  lemma OutputUnderFlush(ts: seq<Table>, plan: Plan, out: Option<Table>, drop: bool, t: Table)
    requires !Picked(plan, t) && (out.Some? ==> out.value.meta.path != t.meta.path)
    ensures CompactionOutput(ts, plan, out, drop) <==> CompactionOutput(Edited(ts, [t], {}), plan, out, drop)
  {
    hide MergedFrom, WfTable, Edited, PickedOf, Picked;
    EditedMembers(ts, [t], {});
    var es := if out.None? then [] else out.value.entries;
    SameMerge(PickedOf(ts, plan), PickedOf(Edited(ts, [t], {}), plan), es, drop);
  }

  lemma SameMerge(a: seq<Table>, b: seq<Table>, es: seq<Entry>, drop: bool)
    requires forall t :: t in a <==> t in b
    ensures MergedFrom(a, es, drop) <==> MergedFrom(b, es, drop)
  {
    hide Sorted;
    assert forall e :: VersionIn(a, e) <==> VersionIn(b, e);
    assert forall e :: BestIn(a, e) <==> BestIn(b, e);
  }

  lemma PlanUnderFlush(ts: seq<Table>, plan: Plan, t: Table)
    requires PlanOk(Edited(ts, [t], {}), plan) && !Picked(plan, t)
    ensures PlanOk(ts, plan)
  {
    hide Edited, LeftOutOk;
    EditedMembers(ts, [t], {});
    forall m | m in plan.inputs ensures exists u :: u in ts && u.meta == m {
      var u :| u in Edited(ts, [t], {}) && u.meta == m;
      assert u != t;
    }
  }

  /** A flush and a compaction install the same tables in either order, exactly when the compaction does not
      remove the flushed table. */
  lemma InstallsCommuteIff(ts: seq<Table>, plan: Plan, out: Option<Table>, t: Table)
    requires TS.PathsDiffer(ts) && forall u :: u in ts ==> u.meta.path != t.meta.path
    requires out.Some? ==>
               && out.value.meta.path != t.meta.path
               && forall u :: u in ts ==> u.meta.path != out.value.meta.path
    ensures Edited(Compacted(ts, plan, out), [t], {}) == Compacted(Edited(ts, [t], {}), plan, out) <==> !Picked(plan, t)
  {
    hide TS.PathsDiffer, Edited;
    TS.SingleDiffers(t);
    if out.Some? { TS.SingleDiffers(out.value); }
    assert TS.PathsDiffer(AddOf(out)) by { if out.None? { NoTables(); } }
    var a, b := TE.Edit([t], {}), TE.Edit(AddOf(out), Paths(plan.inputs));
    TE.InterleavedEditsAgreeIff(ts, a, b);
    assert t.meta.path in TS.PathsOf([t]);
  }

  lemma NoTables()
    ensures TS.PathsDiffer([])
  {
  }

  /** The table of a flush that is not in the manifest is in no plan made on the manifest's tables. */
  lemma NotPicked(ts: seq<Table>, plan: Plan, t: Table)
    requires PlanOk(ts, plan) && forall u :: u in ts ==> u.meta.path != t.meta.path
    ensures !Picked(plan, t)
  {
    hide LeftOutOk;
    forall m | m in plan.inputs ensures m.path != t.meta.path { var u :| u in ts && u.meta == m; }
  }

  /** The output of an installed compaction is not the table of a flush on its way. */
  lemma OtherPath(s: Engine)
    requires Inv(s) && s.phase.Serving? && s.compact.Installed? && s.compact.out.Some? && s.flush.Flushing?
             && !s.flush.stage.InManifest?
    ensures s.compact.out.value.meta.path != s.flush.table.meta.path
  {
    hide TablesAre, Flat, Edited, PlanOk, WalOk, NewTable, Layout, MergedFrom, WfTable, RunOf, Compacted;
    CompactedMembers(Base(s), s.compact.plan, s.compact.out);
    EditedMembers(s.manifest.tables, [s.flush.table], {});
  }

  lemma FlushOverInstalled(s: Engine)
    requires Inv(s) && Enabled(s, FlushSet) && s.compact.Installed?
    ensures LiveOk(Step(s, FlushSet))
  {
    hide Flat, Edited, Compacted, PlanOk, CompactionOutput, WalOk, NewTable, NewestTable, Layout, WriterOk, RunOf, Upto,
         Picked;
    var ts, plan, out, t := s.manifest.tables, s.compact.plan, s.compact.out, s.flush.table;
    FlushTableIsNewest(s);
    NotPicked(ts, plan, t);
    if out.Some? { OtherPath(s); OutputIsNew(ts, plan, out.value, s.drop); }
    FlushKeepsPlan(ts, plan, t);
    OutputUnderFlush(ts, plan, out, s.drop, t);
    InstallsCommuteIff(ts, plan, out, t);
  }

  lemma OutputIsNew(ts: seq<Table>, plan: Plan, out: Table, drop: bool)
    requires CompactionOutput(ts, plan, Some(out), drop)
    ensures forall u :: u in ts ==> u.meta.path != out.meta.path
  {
  }

  lemma FlushSetKeepsInv(s: Engine)
    requires Inv(s) && Enabled(s, FlushSet)
    ensures Inv(Step(s, FlushSet))
  {
    hide TablesAre, Flat, Edited, Compacted, PlanOk, CompactionOutput, WalOk, NewTable, NewestTable;
    FlushTableIsNewest(s);
    if s.compact.Installed? {
      FlushOverInstalled(s);
    } else if s.compact.Planned? {
      FlushKeepsPlan(s.live, s.compact.plan, s.flush.table);
    }
  }

  lemma FlushManifestKeepsInv(s: Engine)
    requires Inv(s) && Enabled(s, FlushManifest)
    ensures Inv(Step(s, FlushManifest))
  {
    hide TablesAre, Flat, Edited, Compacted, PlanOk, CompactionOutput, WalOk, NewTable, NewestTable, Upto;
    FlushTableIsNewest(s);
    var s', d, n := Step(s, FlushManifest), Durable(s), Durable(s) + |s.frozen[s.flush.idx]|;
    FlushSegment(s.manifest.tables, s.wal, d, n, s.flush.table, s.drop);
    assert n < |s.wal| ==> s.wal[n - 1].seqno < s.wal[n].seqno by { NextIsLarger(s.wal, n); }
    UptoIs(s.wal, s.flush.table.meta.seqMax, n);
  }

  lemma NextIsLarger(wal: seq<Entry>, n: nat)
    requires WalOk(wal) && 0 < n <= |wal|
    ensures n < |wal| ==> wal[n - 1].seqno < wal[n].seqno
    ensures wal[n - 1].seqno > 0
  {
  }

  lemma FlushPopKeepsInv(s: Engine)
    requires Inv(s) && Enabled(s, FlushPop)
    ensures Inv(Step(s, FlushPop))
  {
    hide TablesAre, Flat, Edited, Compacted, PlanFits, CompactionOutput, WalOk, NewTable, RunOf, Upto, WriterOk, Layout;
    PopLayout(s);
    PopWriter(s);
  }

  lemma PopLayout(s: Engine)
    requires Layout(s) && FlushOk(s) && Enabled(s, FlushPop)
    ensures Layout(Step(s, FlushPop))
  {
    hide Flat, NewTable, RunOf, Upto;
    var s', idx, m := Step(s, FlushPop), s.flush.idx, s.frozen[s.flush.idx];
    FlatOldest(s.frozen, idx);
    var rest := Flat(s.frozen) + s.mem + Pending(s.writer);
    var rest' := Flat(s'.frozen) + s'.mem + Pending(s'.writer);
    assert rest == m + rest';
    assert s.wal[|s.wal| - |rest'|..] == rest[|m|..];
  }

  lemma PopWriter(s: Engine)
    requires WriterOk(s) && s.flush.Flushing? && s.flush.idx < |s.frozen| && s.frozen[s.flush.idx] != []
    requires !(s.writer.Writing? && s.writer.mem == s.flush.idx)
    ensures WriterOk(s.(frozen := Without(s.frozen, s.flush.idx), writer := Shift(s.writer, s.flush.idx),
            flush := NoFlush))
  {
    if s.writer.Writing? { assert s.flush.idx < s.writer.mem; }
  }

  // ---------- compaction ----------

  /** How many log records the tables of `Base` stand for. */
  function BaseLen(s: Engine): (n: nat)
  {
    Durable(s) + if InFlight(s) && s.flush.idx < |s.frozen| then |s.frozen[s.flush.idx]| else 0
  }

  lemma BaseTables(s: Engine)
    requires Inv(s)
    ensures BaseLen(s) <= |s.wal| && TablesAre(Base(s), s.wal, BaseLen(s), s.drop)
  {
    hide TablesAre, Flat, Edited, Compacted, PlanOk, CompactionOutput, WalOk, NewTable, NewestTable, Upto, RunOf,
         Layout, WriterOk;
    if InFlight(s) {
      FlushTableIsNewest(s);
      FlushSegment(s.manifest.tables, s.wal, Durable(s), BaseLen(s), s.flush.table, s.drop);
    }
  }

  /** A compaction changes no answer that counts. */
  lemma CompactionSame(ts: seq<Table>, plan: Plan, out: Option<Table>, drop: bool, key: bytes)
    requires Layered(ts) && SortedBy(ts, ReadBefore) && PlanOk(ts, plan) && CompactionOutput(ts, plan, out, drop)
    requires drop ==> forall t :: t in ts ==> t.meta.level <= 1
    ensures Same(drop, Lookup(Compacted(ts, plan, out), key), Lookup(ts, key))
  {
    hide Layered, SortedBy, PlanOk, CompactionOutput, Compacted, Lookup;
    if drop {
      X.TwoLevelDropIsSafe(ts, plan, out, key);
    } else {
      CompactionKeepsReads(ts, plan, out, key);
    }
  }

  lemma CompactedLogged(ts: seq<Table>, plan: Plan, out: Option<Table>, drop: bool, wal: seq<Entry>, n: nat)
    requires n <= |wal| && Logged(ts, wal, n) && CompactionOutput(ts, plan, out, drop)
    ensures Logged(Compacted(ts, plan, out), wal, n)
  {
    hide Compacted, CompactionOutput;
    CompactedMembers(ts, plan, out);
    forall t, e | t in Compacted(ts, plan, out) && e in t.entries ensures e in wal[..n] {
      if out == Some(t) { var u := OutputEntryOrigin(ts, plan, t, drop, e); }
    }
  }

  lemma CompactedPaths(ts: seq<Table>, plan: Plan, out: Option<Table>, drop: bool)
    requires TS.PathsDiffer(ts) && CompactionOutput(ts, plan, out, drop)
    ensures TS.PathsDiffer(Compacted(ts, plan, out))
  {
    hide TS.PathsDiffer, MergedFrom, WfTable, Edited;
    NoTables();
    if out.Some? { TS.SingleDiffers(out.value); }
    TS.EditedFacts(ts, AddOf(out), Paths(plan.inputs));
  }

  /** What tables stand for, they stand for after a compaction. */
  lemma CompactionTables(ts: seq<Table>, plan: Plan, out: Option<Table>, wal: seq<Entry>, n: nat, drop: bool)
    requires n <= |wal| && TablesAre(ts, wal, n, drop) && PlanFits(ts, plan, drop)
             && CompactionOutput(ts, plan, out, drop)
    ensures TablesAre(Compacted(ts, plan, out), wal, n, drop)
  {
    hide Layered, SortedBy, PlanOk, CompactionOutput, Compacted, Lookup, Last, Logged, TS.PathsDiffer;
    CompactionKeepsLayers(ts, plan, out, drop);
    CompactedLogged(ts, plan, out, drop, wal, n);
    CompactedPaths(ts, plan, out, drop);
    if drop { X.TwoLevelDropIsSafe(ts, plan, out, []); }
    forall key ensures Same(drop, Lookup(Compacted(ts, plan, out), key), Last(wal[..n], key)) {
      CompactionSame(ts, plan, out, drop, key);
      assert Same(drop, Lookup(ts, key), Last(wal[..n], key));
    }
  }

  /** The table set stands for the log as far as its tables go, at every moment. */
  lemma LiveTables(s: Engine)
    requires Inv(s)
    ensures BaseLen(s) <= |s.wal| && TablesAre(s.live, s.wal, BaseLen(s), s.drop)
  {
    hide TablesAre, Flat, Edited, Compacted, PlanFits, CompactionOutput, WalOk, NewTable, Upto, RunOf, Layout, WriterOk,
         FlushOk;
    BaseTables(s);
    if s.compact.Installed? { CompactionTables(Base(s), s.compact.plan, s.compact.out, s.wal, BaseLen(s), s.drop); }
  }

  lemma LayeredTables(ts: seq<Table>, wal: seq<Entry>, n: nat, drop: bool)
    requires n <= |wal| && TablesAre(ts, wal, n, drop)
    ensures Layered(ts) && SortedBy(ts, ReadBefore)
  {
  }

  /** With size-based planning off every plan is for level 1. */
  lemma PlansLevelOne(p: StrictLevelledPlanner, metas: seq<TableMeta>)
    requires LevelToCompact(p, metas).Some?
    ensures p.levelBaseBytes == 0 ==> PlanAt(metas, LevelToCompact(p, metas).value).outputLevel == 1
  {
    hide AtLevel, Deduped, Overlapping;
  }

  lemma MakePlanKeepsInv(s: Engine, p: StrictLevelledPlanner)
    requires Inv(s) && Enabled(s, MakePlan(p))
    ensures Inv(Step(s, MakePlan(p)))
  {
    hide Flat, Edited, Compacted, PlanOk, CompactionOutput, WalOk, NewTable, TablesAre, Upto, Layered, RunOf,
         LevelToCompact, PlanAt, Metas;
    LiveTables(s);
    LayeredTables(s.live, s.wal, BaseLen(s), s.drop);
    PlanningOk(s.live, LevelToCompact(p, Metas(s.live)).value);
    PlansLevelOne(p, Metas(s.live));
  }

  lemma CompactSetKeepsInv(s: Engine, out: Option<Table>)
    requires Inv(s) && Enabled(s, CompactSet(out))
    ensures Inv(Step(s, CompactSet(out)))
  {
    hide Flat, Edited, Compacted, PlanOk, CompactionOutput, WalOk, NewTable, TablesAre, NewestTable, Upto;
    CompactedMembers(s.live, s.compact.plan, out);
  }

  /** A compaction that leaves the flushed table alone may reach the manifest first. */
  lemma ManifestBeforeFlush(s: Engine)
    requires s.phase.Serving? && InFlight(s) && s.compact.Installed? && !Picked(s.compact.plan, s.flush.table) && Inv(s)
    ensures var ts, plan, out, t := s.manifest.tables, s.compact.plan, s.compact.out, s.flush.table;
            && PlanFits(ts, plan, s.drop) && CompactionOutput(ts, plan, out, s.drop)
            && s.live == Edited(Compacted(ts, plan, out), [t], {})
  {
    hide Flat, Edited, Compacted, PlanOk, CompactionOutput, WalOk, NewTable, NewestTable, Layout, WriterOk, RunOf, Upto,
         Picked;
    var ts, plan, out, t := s.manifest.tables, s.compact.plan, s.compact.out, s.flush.table;
    if out.Some? { OtherPath(s); OutputIsNew(Base(s), plan, out.value, s.drop); EditedMembers(ts, [t], {}); }
    PlanUnderFlush(ts, plan, t);
    OutputUnderFlush(ts, plan, out, s.drop, t);
    InstallsCommuteIff(ts, plan, out, t);
  }

  lemma CompactManifestKeepsInv(s: Engine)
    requires Inv(s) && Enabled(s, CompactManifest)
    ensures Inv(Step(s, CompactManifest))
  {
    hide Flat, Edited, Compacted, PlanFits, CompactionOutput, NewTable, TablesAre, WalOk, Upto, RunOf;
    if InFlight(s) { ManifestBeforeFlush(s); }
    CompactionTables(s.manifest.tables, s.compact.plan, s.compact.out, s.wal, Durable(s), s.drop);
    CompactedMembers(s.manifest.tables, s.compact.plan, s.compact.out);
    if s.compact.out.Some? && s.flush.Flushing? && !s.flush.stage.InManifest? { OtherPath(s); }
  }

  // ---------- crash and replay ----------

  lemma CrashKeepsInv(s: Engine)
    requires Inv(s)
    ensures Inv(Step(s, Crash))
  {
    hide TablesAre, WalOk, Upto, Layout, WriterOk, FlushOk, Edited, Compacted, PlanOk, CompactionOutput;
  }

  /** Replaying some records keeps exactly those above the checkpoint, in order. */
  lemma ReplayKeptIs(wal: seq<Entry>, from: nat, to: nat, checkpoint: uint64)
    requires WalOk(wal) && from <= to <= |wal|
    ensures var c := Upto(wal, checkpoint);
            ReplayKept(wal, from, to, checkpoint) == if to <= c then [] else wal[if from < c then c else from..to]
  {
    AboveSlice(wal, from, to, checkpoint);
  }

  lemma ReplayKeepsInv(s: Engine, n: nat)
    requires Inv(s) && Enabled(s, Replay(n))
    ensures Inv(Step(s, Replay(n)))
  {
    hide TablesAre, WalOk, Upto, ReplayKept, Layout, WriterOk, FlushOk, Edited, Compacted, PlanOk, CompactionOutput;
    ReplayKeptIs(s.wal, s.phase.pos, s.phase.pos + n, s.phase.checkpoint);
  }

  lemma ReplayFlushKeepsInv(s: Engine, path: bytes, size: uint64)
    requires Inv(s) && Enabled(s, ReplayFlush(path, size))
    ensures Inv(Step(s, ReplayFlush(path, size)))
  {
    hide TablesAre, WalOk, Upto, RunOf, NewTable, NewestTable, Edited, Layout, WriterOk, FlushOk, Compacted, PlanOk,
         CompactionOutput;
    var s', d, n := Step(s, ReplayFlush(path, size)), Durable(s), s.phase.pos;
    RunMembers(s.mem);
    SegmentTable(s.manifest.tables, s.wal, d, n, path, size, s.drop);
    var t := NewTable(path, 0, size, RunOf(s.mem));
    assert t.entries == RunOf(s.mem) by { NewTableEntries(path, 0, size, RunOf(s.mem)); }
    FlushSegment(s.manifest.tables, s.wal, d, n, t, s.drop);
    NextIsLarger(s.wal, n);
    UptoIs(s.wal, t.meta.seqMax, n);
  }

  lemma NewTableEntries(path: bytes, level: nat, size: uint64, es: seq<Entry>)
    requires es != []
    ensures NewTable(path, level, size, es).entries == es
  {
  }

  lemma ReplayDoneKeepsInv(s: Engine)
    requires Inv(s) && Enabled(s, ReplayDone)
    ensures Inv(Step(s, ReplayDone))
  {
    hide TablesAre, WalOk, Upto, Edited, Compacted, PlanOk, CompactionOutput, NewTable, RunOf;
    assert Flat(s.frozen) + s.mem + Pending(s.writer) == s.mem;
  }

  lemma StepKeepsInv(s: Engine, ev: Event)
    requires Inv(s) && Enabled(s, ev)
    ensures Inv(Step(s, ev))
  {
    hide Inv, Enabled, Step;
    match ev
    case Log(e) => LogKeepsInv(s, e);
    case Apply => ApplyKeepsInv(s);
    case Freeze => FreezeKeepsInv(s);
    case DropEmpty(idx) => DropEmptyKeepsInv(s, idx);
    case FlushWrite(idx, path, size) => FlushWriteKeepsInv(s, idx, path, size);
    case FlushSet => FlushSetKeepsInv(s);
    case FlushManifest => FlushManifestKeepsInv(s);
    case FlushPop => FlushPopKeepsInv(s);
    case MakePlan(p) => MakePlanKeepsInv(s, p);
    case CompactSet(out) => CompactSetKeepsInv(s, out);
    case CompactManifest => CompactManifestKeepsInv(s);
    case Crash => CrashKeepsInv(s);
    case Replay(n) => ReplayKeepsInv(s, n);
    case ReplayFlush(path, size) => ReplayFlushKeepsInv(s, path, size);
    case ReplayDone => ReplayDoneKeepsInv(s);
  }
}
