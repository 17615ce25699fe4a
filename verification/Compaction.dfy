/** What flush and compaction installs do to the set of live tables. */
module Compaction {
  import opened Bytes
  import opened Entries
  import opened Ordering
  import opened Tables
  import opened Planner
  import M = MergeRunner

  // ---------- tables as the writer and the table set build them ----------

  function MinSeq(es: seq<Entry>): (m: uint64)
    requires es != []
    ensures (forall e :: e in es ==> m <= e.seqno) && exists e :: e in es && e.seqno == m
  {
    if |es| == 1 then es[0].seqno
    else
      var front, last := es[..|es| - 1], es[|es| - 1];
      var m := MinSeq(front);
      assert forall e :: e in es <==> e in front || e == last by { assert es == front + [last]; }
      if last.seqno < m then last.seqno else m
  }

  function MaxSeq(es: seq<Entry>): (m: uint64)
    requires es != []
    ensures (forall e :: e in es ==> e.seqno <= m) && exists e :: e in es && e.seqno == m
  {
    if |es| == 1 then es[0].seqno
    else
      var front, last := es[..|es| - 1], es[|es| - 1];
      var m := MaxSeq(front);
      assert forall e :: e in es <==> e in front || e == last by { assert es == front + [last]; }
      if last.seqno > m then last.seqno else m
  }

  /** The table a flush of these entries produces, as the table set records it. */
  function NewTable(path: bytes, level: nat, size: uint64, es: seq<Entry>): (t: Table)
    requires es != []
  {
    Table(TableMeta(path, level, es[0].key, es[|es| - 1].key, MinSeq(es), MaxSeq(es), size), es)
  }

  lemma NewTableIsWf(path: bytes, level: nat, size: uint64, es: seq<Entry>)
    requires es != [] && Sorted(es)
    ensures WfTable(NewTable(path, level, size, es))
  {
  }

  /** The tables that stay when these paths are removed. */
  function Keep(ts: seq<Table>, remove: set<bytes>): (r: seq<Table>)
    ensures forall t :: t in r <==> t in ts && t.meta.path !in remove
  {
    if ts == [] then []
    else
      var rest := Keep(ts[1..], remove);
      assert ts == [ts[0]] + ts[1..];
      if ts[0].meta.path in remove then rest else [ts[0]] + rest
  }

  /** The live tables, in read order, after a table edit. */
  function Edited(ts: seq<Table>, add: seq<Table>, remove: set<bytes>): (r: seq<Table>)
  {
    SortSlice(Keep(ts, remove) + add, ReadBefore)
  }

  lemma EditedMembers(ts: seq<Table>, add: seq<Table>, remove: set<bytes>)
    ensures SortedBy(Edited(ts, add, remove), ReadBefore)
    ensures forall t :: t in Edited(ts, add, remove) <==> (t in ts && t.meta.path !in remove) || t in add
  {
    ReadBeforeIsStrictWeak();
    SortSorts(Keep(ts, remove) + add, ReadBefore);
    SortKeepsMembers(Keep(ts, remove) + add, ReadBefore);
  }

  function Metas(ts: seq<Table>): (r: seq<TableMeta>)
    ensures |r| == |ts| && forall i :: 0 <= i < |ts| ==> r[i] == ts[i].meta
  {
    seq(|ts|, i requires 0 <= i < |ts| => ts[i].meta)
  }

  lemma MetasMembers(ts: seq<Table>)
    ensures forall m :: m in Metas(ts) <==> exists t :: t in ts && t.meta == m
  {
    forall t | t in ts
      ensures t.meta in Metas(ts)
    {
      var i :| 0 <= i < |ts| && ts[i] == t;
      assert Metas(ts)[i] == t.meta;
    }
  }

  // ---------- flush ----------

  /** A level-0 table above everything installed so far. */
  ghost predicate NewestTable(ts: seq<Table>, t: Table)
  {
    && WfTable(t) && t.meta.level == 0
    && forall u :: u in ts ==> SeqAbove(t, u) && u.meta.path != t.meta.path
  }

  lemma FlushKeepsLayers(ts: seq<Table>, t: Table)
    requires Layered(ts) && NewestTable(ts, t)
    ensures Layered(Edited(ts, [t], {}))
  {
    hide WfTable, KeysDisjoint, Edited;
    EditedMembers(ts, [t], {});
  }

  /** After an in-order flush, the flushed table answers for its keys and nothing else changes. */
  lemma FlushLookup(ts: seq<Table>, t: Table, key: bytes)
    requires Layered(ts) && SortedBy(ts, ReadBefore) && NewestTable(ts, t)
    ensures Lookup(Edited(ts, [t], {}), key) == if Holds(t, key) then Find(t.entries, key) else Lookup(ts, key)
  {
    var ts' := Edited(ts, [t], {});
    EditedMembers(ts, [t], {});
    FlushKeepsLayers(ts, t);
    FindSound(t.entries, key);
    if Holds(t, key) {
      var e := Find(t.entries, key).value;
      assert IsVersion(ts', key, e);
      forall f | IsVersion(ts', key, f) ensures f == e || f.seqno < e.seqno {
        var u := VersionIsHeld(ts', key, f);
        if u == t { OneVersionPerTable(t, e, f); } else { assert SeqAbove(t, u); }
      }
      LookupIs(ts', key, e);
    } else {
      SameVersions(ts, ts', key, t);
      SameLookup(ts, ts', key);
    }
  }

  lemma SameVersions(ts: seq<Table>, ts': seq<Table>, key: bytes, t: Table)
    requires !Holds(t, key) && forall u :: u in ts' <==> u in ts || u == t
    ensures forall e :: IsVersion(ts, key, e) <==> IsVersion(ts', key, e)
  {
    forall e ensures IsVersion(ts, key, e) <==> IsVersion(ts', key, e) {
      if IsVersion(ts', key, e) { var u := VersionIsHeld(ts', key, e); }
      if IsVersion(ts, key, e) { var u := VersionIsHeld(ts, key, e); }
    }
  }

  /** Two layered sets with the same versions of a key read it the same. */
  lemma SameLookup(ts: seq<Table>, ts': seq<Table>, key: bytes)
    requires Layered(ts) && SortedBy(ts, ReadBefore) && Layered(ts') && SortedBy(ts', ReadBefore)
    requires forall e :: IsVersion(ts, key, e) <==> IsVersion(ts', key, e)
    ensures Lookup(ts, key) == Lookup(ts', key)
  {
    FirstHitIsNewest(ts, key);
    FirstHitIsNewest(ts', key);
  }

  // ---------- compaction ----------

  predicate Picked(plan: Plan, t: Table)
  {
    t.meta.path in Paths(plan.inputs)
  }

  /** What still holds of a plan when it is executed, however many flushes happened since. */
  ghost predicate PlanOk(ts: seq<Table>, plan: Plan)
  {
    && plan.outputLevel > 0
    && (forall m :: m in plan.inputs ==> exists t :: t in ts && t.meta == m)
    && (forall t :: t in ts && Picked(plan, t) ==>
         t.meta.level == plan.outputLevel - 1 || t.meta.level == plan.outputLevel)
    && (forall t, u :: t in ts && u in ts && !Picked(plan, t) && Picked(plan, u) ==> LeftOutOk(plan, t, u))
  }

  /** How a table left out of the plan relates to one in it. */
  ghost predicate LeftOutOk(plan: Plan, t: Table, u: Table)
    requires plan.outputLevel > 0
  {
    && (t.meta.level == plan.outputLevel - 1 ==> t.meta.level == 0 && SeqAbove(t, u))
    && (t.meta.level == plan.outputLevel && u.meta.level == plan.outputLevel - 1 ==> KeysDisjoint(t, u))
  }

  lemma LayeredPathsIdentify(ts: seq<Table>)
    requires Layered(ts)
    ensures PathsIdentify(Metas(ts))
  {
    hide WfTable, Compatible;
    MetasMembers(ts);
    forall m, n | m in Metas(ts) && n in Metas(ts) && m.path == n.path ensures m == n {
      var t :| t in ts && t.meta == m;
      var u :| u in ts && u.meta == n;
    }
  }

  lemma PickedIffMeta(ts: seq<Table>, plan: Plan, t: Table)
    requires Layered(ts) && t in ts && forall m :: m in plan.inputs ==> exists u :: u in ts && u.meta == m
    ensures Picked(plan, t) <==> t.meta in plan.inputs
  {
    hide WfTable, Compatible;
    if Picked(plan, t) {
      var m :| m in plan.inputs && m.path == t.meta.path;
      var u :| u in ts && u.meta == m;
      assert u == t;
    }
  }

  /** A fresh plan is executable. */
  lemma PlanningOk(ts: seq<Table>, level: nat)
    requires Layered(ts)
    ensures PlanOk(ts, PlanAt(Metas(ts), level))
  {
    var metas, plan := Metas(ts), PlanAt(Metas(ts), level);
    LayeredPathsIdentify(ts);
    MetasMembers(ts);
    PlanShape(metas, level);
    forall t | t in ts ensures Picked(plan, t) <==> t.meta in plan.inputs { PickedIffMeta(ts, plan, t); }
    forall t, u | t in ts && u in ts && !Picked(plan, t) && Picked(plan, u) ensures LeftOutOk(plan, t, u) {
      assert t.meta in metas && u.meta in metas;
      if t.meta.level == level + 1 && u.meta.level == level {
        assert !MeetsLevel(metas, level, t.meta);
        NoOverlapNoSharedKey(u, t);
      }
    }
  }

  /** Flushes that happen while a plan is pending do not disturb it. */
  lemma FlushKeepsPlan(ts: seq<Table>, plan: Plan, t: Table)
    requires PlanOk(ts, plan) && NewestTable(ts, t)
    ensures PlanOk(Edited(ts, [t], {}), plan)
  {
    EditedMembers(ts, [t], {});
    forall m | m in plan.inputs ensures m.path != t.meta.path { var u :| u in ts && u.meta == m; }
    assert !Picked(plan, t);
  }

  // ---------- what the runner returns ----------

  ghost predicate VersionIn(ins: seq<Table>, e: Entry)
  {
    exists t :: t in ins && e in t.entries
  }

  ghost predicate BestIn(ins: seq<Table>, e: Entry)
  {
    VersionIn(ins, e) && forall f :: VersionIn(ins, f) && f.key == e.key ==> !M.Newer(f, e)
  }

  /** The merge of some tables: one best entry per key; with `drop`, keys whose best entry is a tombstone are
      left out. */
  ghost predicate MergedFrom(ins: seq<Table>, out: seq<Entry>, drop: bool)
  {
    && Sorted(out)
    && (forall e :: e in out ==> BestIn(ins, e) && !(drop && e.tombstone))
    && (forall f :: VersionIn(ins, f) ==>
          (exists e :: e in out && e.key == f.key)
            || (drop && exists g :: BestIn(ins, g) && g.key == f.key && g.tombstone))
  }

  /** The tables of a plan, as a predicate-defined list. */
  function PickedOf(ts: seq<Table>, plan: Plan): (r: seq<Table>)
    ensures forall t :: t in r <==> t in ts && Picked(plan, t)
  {
    if ts == [] then []
    else
      var rest := PickedOf(ts[1..], plan);
      assert ts == [ts[0]] + ts[1..];
      if Picked(plan, ts[0]) then [ts[0]] + rest else rest
  }

  /** The output of a compaction: no table when nothing survives the merge. */
  ghost predicate CompactionOutput(ts: seq<Table>, plan: Plan, out: Option<Table>, drop: bool)
  {
    match out
    case None => MergedFrom(PickedOf(ts, plan), [], drop)
    case Some(t) =>
      && WfTable(t) && t.meta.level == plan.outputLevel
      && MergedFrom(PickedOf(ts, plan), t.entries, drop)
      && forall u :: u in ts ==> u.meta.path != t.meta.path
  }

  function AddOf(out: Option<Table>): (r: seq<Table>)
  {
    if out.None? then [] else [out.value]
  }

  function Compacted(ts: seq<Table>, plan: Plan, out: Option<Table>): (r: seq<Table>)
  {
    Edited(ts, AddOf(out), Paths(plan.inputs))
  }

  lemma CompactedMembers(ts: seq<Table>, plan: Plan, out: Option<Table>)
    ensures SortedBy(Compacted(ts, plan, out), ReadBefore)
    ensures forall t :: t in Compacted(ts, plan, out) <==> (t in ts && !Picked(plan, t)) || out == Some(t)
  {
    EditedMembers(ts, AddOf(out), Paths(plan.inputs));
  }

  lemma OutputEntryOrigin(ts: seq<Table>, plan: Plan, out: Table, drop: bool, e: Entry) returns (u: Table)
    requires CompactionOutput(ts, plan, Some(out), drop) && e in out.entries
    ensures u in ts && Picked(plan, u) && e in u.entries
  {
    hide WfTable, Sorted;
    assert BestIn(PickedOf(ts, plan), e);
    u :| u in PickedOf(ts, plan) && e in u.entries;
  }

  lemma OutputKeyOrigin(ts: seq<Table>, plan: Plan, out: Table, drop: bool, key: bytes) returns (u: Table)
    requires CompactionOutput(ts, plan, Some(out), drop) && Holds(out, key)
    ensures u in ts && Picked(plan, u) && Holds(u, key)
  {
    hide WfTable, MergedFrom;
    var i :| 0 <= i < |out.entries| && out.entries[i].key == key;
    u := OutputEntryOrigin(ts, plan, out, drop, out.entries[i]);
    var j :| 0 <= j < |u.entries| && u.entries[j] == out.entries[i];
    assert u.entries[j].key == key;
  }

  lemma OutputCompatible(ts: seq<Table>, plan: Plan, out: Table, drop: bool, t: Table)
    requires Layered(ts) && PlanOk(ts, plan) && CompactionOutput(ts, plan, Some(out), drop)
    requires t in ts && !Picked(plan, t)
    ensures Compatible(out, t)
  {
    hide MergedFrom, Picked;
    if t.meta.level == plan.outputLevel {
      forall key ensures !(Holds(out, key) && Holds(t, key)) {
        if Holds(out, key) {
          var u := OutputKeyOrigin(ts, plan, out, drop, key);
          assert Compatible(t, u) && LeftOutOk(plan, t, u);
        }
      }
    } else if t.meta.level < plan.outputLevel {
      var e :| e in out.entries && e.seqno == out.meta.seqMax;
      var u := OutputEntryOrigin(ts, plan, out, drop, e);
      assert Compatible(t, u) && LeftOutOk(plan, t, u);
    } else {
      var e :| e in out.entries && e.seqno == out.meta.seqMin;
      var u := OutputEntryOrigin(ts, plan, out, drop, e);
      assert Compatible(t, u);
    }
  }

  /** Installing a compaction keeps the levelled invariant, with or without dropped tombstones. */
  lemma CompactionKeepsLayers(ts: seq<Table>, plan: Plan, out: Option<Table>, drop: bool)
    requires Layered(ts) && PlanOk(ts, plan) && CompactionOutput(ts, plan, out, drop)
    ensures Layered(Compacted(ts, plan, out)) && SortedBy(Compacted(ts, plan, out), ReadBefore)
  {
    hide WfTable, Compatible, MergedFrom, PlanOk, Compacted;
    var ts' := Compacted(ts, plan, out);
    CompactedMembers(ts, plan, out);
    forall t, u | t in ts' && u in ts' && t != u ensures t.meta.path != u.meta.path && Compatible(t, u) {
      if out.Some? && t == out.value {
        OutputCompatible(ts, plan, t, drop, u);
      } else if out.Some? && u == out.value {
        OutputCompatible(ts, plan, u, drop, t);
        CompatibleSymmetric(u, t);
      }
    }
  }

  lemma CompatibleSymmetric(t: Table, u: Table)
    requires Compatible(t, u)
    ensures Compatible(u, t)
  {
    if t.meta.level == u.meta.level != 0 { assert KeysDisjoint(u, t); }
  }

  /** In a layered set the newest version of a key is its best entry among any tables that contain it. */
  lemma NewestIsBest(ts: seq<Table>, ins: seq<Table>, e: Entry, b: Entry)
    requires Layered(ts) && (forall t :: t in ins ==> t in ts)
    requires IsNewest(ts, e.key, e) && VersionIn(ins, e) && BestIn(ins, b) && b.key == e.key
    ensures b == e
  {
    var u :| u in ins && b in u.entries;
    assert IsVersion(ts, e.key, b);
    assert !M.Newer(e, b);
  }

  /** The versions a compaction leaves for a key: those of the tables it did not touch, and its output's. */
  lemma CompactedVersions(ts: seq<Table>, plan: Plan, out: Option<Table>, key: bytes, f: Entry)
    ensures IsVersion(Compacted(ts, plan, out), key, f) <==>
              f.key == key
                && ((exists t :: t in ts && !Picked(plan, t) && f in t.entries)
                   || (out.Some? && f in out.value.entries))
  {
    EditedMembers(ts, AddOf(out), Paths(plan.inputs));
  }

  /** Every version left after a compaction was there before. */
  lemma CompactedIsOlder(ts: seq<Table>, plan: Plan, out: Option<Table>, drop: bool, key: bytes, f: Entry)
    requires CompactionOutput(ts, plan, out, drop) && IsVersion(Compacted(ts, plan, out), key, f)
    ensures IsVersion(ts, key, f)
  {
    hide WfTable, MergedFrom;
    CompactedVersions(ts, plan, out, key, f);
    if out.Some? && f in out.value.entries { var u := OutputEntryOrigin(ts, plan, out.value, drop, f); }
  }

  /** Keeping tombstones, a compaction never changes what a read returns. */
  lemma CompactionKeepsReads(ts: seq<Table>, plan: Plan, out: Option<Table>, key: bytes)
    requires Layered(ts) && SortedBy(ts, ReadBefore) && PlanOk(ts, plan) && CompactionOutput(ts, plan, out, false)
    ensures Lookup(Compacted(ts, plan, out), key) == Lookup(ts, key)
  {
    hide Layered, PlanOk, CompactionOutput, Compacted;
    var ts' := Compacted(ts, plan, out);
    CompactionKeepsLayers(ts, plan, out, false);
    FirstHitIsNewest(ts, key);
    FirstHitIsNewest(ts', key);
    if Lookup(ts, key).None? {
      if Lookup(ts', key).Some? { CompactedIsOlder(ts, plan, out, false, key, Lookup(ts', key).value); }
    } else {
      var e := Lookup(ts, key).value;
      NewestSurvives(ts, plan, out, false, e);
      forall f | IsVersion(ts', key, f)
        ensures f == e || f.seqno < e.seqno
      {
        CompactedIsOlder(ts, plan, out, false, key, f);
      }
      LookupIs(ts', key, e);
    }
  }

  /** The newest version of a key survives unless it is a tombstone that the merge dropped. */
  lemma NewestSurvives(ts: seq<Table>, plan: Plan, out: Option<Table>, drop: bool, e: Entry)
    requires Layered(ts) && CompactionOutput(ts, plan, out, drop) && IsNewest(ts, e.key, e)
    requires !(drop && e.tombstone)
    ensures IsVersion(Compacted(ts, plan, out), e.key, e)
  {
    hide WfTable, Compatible, Compacted, BestIn, Layered;
    var ins := PickedOf(ts, plan);
    CompactedVersions(ts, plan, out, e.key, e);
    var t := VersionIsHeld(ts, e.key, e);
    if Picked(plan, t) {
      assert VersionIn(ins, e);
      if drop && exists g :: BestIn(ins, g) && g.key == e.key && g.tombstone {
        var g :| BestIn(ins, g) && g.key == e.key && g.tombstone;
        NewestIsBest(ts, ins, e, g);
      }
      assert out.Some?;
      var b :| b in out.value.entries && b.key == e.key;
      NewestIsBest(ts, ins, e, b);
    }
  }
}
