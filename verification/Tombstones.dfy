/** When a compaction that drops tombstones keeps every visible value. The design
    notes promise "drop when safe"; the runner drops whenever the option is on. */
module Tombstones {
  import opened Bytes
  import opened Entries
  import opened Ordering
  import opened Tables
  import opened Planner
  import opened Compaction

  /** What a user sees of a read: tombstones read as absent. */
  function Live(r: Option<Entry>): (v: Option<Entry>)
  {
    if r.Some? && !r.value.tombstone then r else None
  }

  function Visible(ts: seq<Table>, key: bytes): (v: Option<Entry>)
  {
    Live(Lookup(ts, key))
  }

  /** The tables a plan leaves alone. */
  function Outside(ts: seq<Table>, plan: Plan): (r: seq<Table>)
  {
    Keep(ts, Paths(plan.inputs))
  }

  /** The key is deleted, and a read that skips the plan's tables would still find a live value. */
  predicate Uncovered(ts: seq<Table>, plan: Plan, key: bytes)
  {
    Lookup(ts, key).Some? && Lookup(ts, key).value.tombstone && Visible(Outside(ts, plan), key).Some?
  }

  lemma {:induction false} KeepSorted(ts: seq<Table>, remove: set<bytes>)
    requires SortedBy(ts, ReadBefore)
    ensures SortedBy(Keep(ts, remove), ReadBefore)
  {
    if ts != [] {
      KeepSorted(ts[1..], remove);
      var rest := Keep(ts[1..], remove);
      forall t | t in rest ensures !ReadBefore(t, ts[0]) {
        var i :| 0 <= i < |ts[1..]| && ts[1..][i] == t;
        assert ts[i + 1] == t;
      }
    }
  }

  lemma OutsideIsLayered(ts: seq<Table>, plan: Plan)
    requires Layered(ts) && SortedBy(ts, ReadBefore)
    ensures Layered(Outside(ts, plan)) && SortedBy(Outside(ts, plan), ReadBefore)
  {
    hide WfTable, Compatible;
    KeepSorted(ts, Paths(plan.inputs));
  }

  /** With its newest version a tombstone, a key leaves no trace in the output. */
  lemma DroppedFromOutput(ts: seq<Table>, plan: Plan, out: Table, e: Entry)
    requires Layered(ts) && CompactionOutput(ts, plan, Some(out), true)
    requires IsNewest(ts, e.key, e) && e.tombstone && VersionIn(PickedOf(ts, plan), e)
    ensures !Holds(out, e.key)
  {
    hide WfTable, Compatible, Layered;
    if Holds(out, e.key) {
      var i :| 0 <= i < |out.entries| && out.entries[i].key == e.key;
      var b := out.entries[i];
      assert BestIn(PickedOf(ts, plan), b) && !b.tombstone;
      NewestIsBest(ts, PickedOf(ts, plan), e, b);
    }
  }

  /** For a deleted key, the compacted set reads exactly like the tables outside the plan. */
  lemma DeletedReadsOutside(ts: seq<Table>, plan: Plan, out: Option<Table>, key: bytes)
    requires Layered(ts) && SortedBy(ts, ReadBefore) && PlanOk(ts, plan) && CompactionOutput(ts, plan, out, true)
    requires Lookup(ts, key).Some? && Lookup(ts, key).value.tombstone
    ensures Lookup(Compacted(ts, plan, out), key) == Lookup(Outside(ts, plan), key)
  {
    hide Layered, PlanOk, CompactionOutput, Compacted, IsNewest, Find, Outside;
    var ts', rest, e := Compacted(ts, plan, out), Outside(ts, plan), Lookup(ts, key).value;
    CompactionKeepsLayers(ts, plan, out, true);
    OutsideIsLayered(ts, plan);
    FirstHitIsNewest(ts, key);
    NewestVersion(ts, key, e);
    var t := VersionIsHeld(ts, key, e);
    if Picked(plan, t) {
      SameVersionsOutside(ts, plan, out, e, t);
      SameLookup(ts', rest, key);
    } else {
      NewestOutside(ts, plan, out, e, t);
      LookupIs(ts', key, e);
      LookupIs(rest, key, e);
    }
  }

  lemma NewestVersion(ts: seq<Table>, key: bytes, e: Entry)
    requires IsNewest(ts, key, e)
    ensures IsVersion(ts, key, e) && e.key == key
  {
  }

  lemma SameVersionsOutside(ts: seq<Table>, plan: Plan, out: Option<Table>, e: Entry, t: Table)
    requires Layered(ts) && CompactionOutput(ts, plan, out, true)
    requires IsNewest(ts, e.key, e) && e.tombstone && t in ts && Picked(plan, t) && e in t.entries
    ensures forall f :: IsVersion(Compacted(ts, plan, out), e.key, f) <==> IsVersion(Outside(ts, plan), e.key, f)
  {
    hide Layered, Compacted, MergedFrom, WfTable;
    assert t in PickedOf(ts, plan);
    assert VersionIn(PickedOf(ts, plan), e);
    if out.Some? { DroppedFromOutput(ts, plan, out.value, e); }
    forall f ensures IsVersion(Compacted(ts, plan, out), e.key, f) <==> IsVersion(Outside(ts, plan), e.key, f) {
      CompactedVersions(ts, plan, out, e.key, f);
    }
  }

  lemma NewestOutside(ts: seq<Table>, plan: Plan, out: Option<Table>, e: Entry, t: Table)
    requires CompactionOutput(ts, plan, out, true)
    requires IsNewest(ts, e.key, e) && t in ts && !Picked(plan, t) && e in t.entries
    ensures IsNewest(Compacted(ts, plan, out), e.key, e) && IsNewest(Outside(ts, plan), e.key, e)
  {
    hide CompactionOutput, Compacted;
    CompactedVersions(ts, plan, out, e.key, e);
    assert t in Outside(ts, plan);
    forall f | IsVersion(Compacted(ts, plan, out), e.key, f) ensures f == e || f.seqno < e.seqno {
      CompactedIsOlder(ts, plan, out, true, e.key, f);
    }
    forall f | IsVersion(Outside(ts, plan), e.key, f) ensures f == e || f.seqno < e.seqno {
      var u := VersionIsHeld(Outside(ts, plan), e.key, f);
      assert IsVersion(ts, e.key, f);
    }
  }

  /** A compaction that drops tombstones keeps the visible value of a key if and only if the key is not uncovered. */
  lemma DropKeepsVisibleIff(ts: seq<Table>, plan: Plan, out: Option<Table>, key: bytes)
    requires Layered(ts) && SortedBy(ts, ReadBefore) && PlanOk(ts, plan) && CompactionOutput(ts, plan, out, true)
    ensures Visible(Compacted(ts, plan, out), key) == Visible(ts, key) <==> !Uncovered(ts, plan, key)
  {
    hide Layered, PlanOk, CompactionOutput, Compacted, Find, Outside;
    var ts' := Compacted(ts, plan, out);
    CompactionKeepsLayers(ts, plan, out, true);
    FirstHitIsNewest(ts, key);
    FirstHitIsNewest(ts', key);
    if Lookup(ts, key).None? {
      if Lookup(ts', key).Some? { CompactedIsOlder(ts, plan, out, true, key, Lookup(ts', key).value); }
    } else if Lookup(ts, key).value.tombstone {
      DeletedReadsOutside(ts, plan, out, key);
    } else {
      var e := Lookup(ts, key).value;
      NewestSurvives(ts, plan, out, true, e);
      forall f | IsVersion(ts', key, f)
        ensures f == e || f.seqno < e.seqno
      {
        CompactedIsOlder(ts, plan, out, true, key, f);
      }
      LookupIs(ts', key, e);
    }
  }

  /** No table below the output level holds the key: the tombstone covers everything it hides. */
  ghost predicate NothingDeeper(ts: seq<Table>, plan: Plan, key: bytes)
  {
    forall t :: t in ts && t.meta.level > plan.outputLevel ==> !Holds(t, key)
  }

  lemma CoveredWhenNothingDeeper(ts: seq<Table>, plan: Plan, key: bytes)
    requires Layered(ts) && SortedBy(ts, ReadBefore) && PlanOk(ts, plan) && NothingDeeper(ts, plan, key)
    ensures !Uncovered(ts, plan, key)
  {
    hide WfTable, Compatible, LeftOutOk, Find, Sorted;
    if Uncovered(ts, plan, key) {
      var e, f := Lookup(ts, key).value, Lookup(Outside(ts, plan), key).value;
      FirstHitIsNewest(ts, key);
      LookupSound(Outside(ts, plan), key);
      var t := VersionIsHeld(ts, key, e);
      var u := VersionIsHeld(Outside(ts, plan), key, f);
      if Picked(plan, t) {
        PickedReachesDeeper(ts, plan, key, t, u, e, f);
      } else {
        OutsideHit(ts, plan, key, t, e, f);
      }
    }
  }

  /** A version outside the plan that is older than the newest one in it lies below the output level. */
  lemma PickedReachesDeeper(ts: seq<Table>, plan: Plan, key: bytes, t: Table, u: Table, e: Entry, f: Entry)
    requires Layered(ts) && PlanOk(ts, plan) && IsNewest(ts, key, e)
    requires t in ts && Picked(plan, t) && e in t.entries && Holds(t, key)
    requires u in ts && !Picked(plan, u) && f in u.entries && f.key == key && Holds(u, key)
    ensures u.meta.level > plan.outputLevel
  {
    hide Holds, Picked;
    assert IsVersion(ts, key, f);
    assert WfTable(t) && WfTable(u) && Compatible(t, u) && LeftOutOk(plan, u, t);
    assert e != f ==> f.seqno < e.seqno;
  }

  /** A newest version outside the plan is also what a read outside the plan finds. */
  lemma OutsideHit(ts: seq<Table>, plan: Plan, key: bytes, t: Table, e: Entry, f: Entry)
    requires Layered(ts) && SortedBy(ts, ReadBefore) && IsNewest(ts, key, e)
    requires t in ts && !Picked(plan, t) && e in t.entries && Lookup(Outside(ts, plan), key) == Some(f)
    ensures e == f
  {
    hide WfTable, Compatible;
    OutsideIsLayered(ts, plan);
    assert t in Outside(ts, plan);
    forall g | IsVersion(Outside(ts, plan), key, g) ensures g == e || g.seqno < e.seqno {
      var u := VersionIsHeld(Outside(ts, plan), key, g);
      assert IsVersion(ts, key, g);
    }
    LookupIs(Outside(ts, plan), key, e);
  }

  /** With size-based planning off only levels 0 and 1 exist, and dropping is always safe. */
  lemma TwoLevelDropIsSafe(ts: seq<Table>, plan: Plan, out: Option<Table>, key: bytes)
    requires Layered(ts) && SortedBy(ts, ReadBefore) && PlanOk(ts, plan) && CompactionOutput(ts, plan, out, true)
    requires forall t :: t in ts ==> t.meta.level <= 1
    ensures Visible(Compacted(ts, plan, out), key) == Visible(ts, key)
    ensures forall t :: t in Compacted(ts, plan, out) && plan.outputLevel == 1 ==> t.meta.level <= 1
  {
    hide WfTable, Compatible, MergedFrom, LeftOutOk, Visible, Compacted;
    CoveredWhenNothingDeeper(ts, plan, key);
    DropKeepsVisibleIff(ts, plan, out, key);
    CompactedMembers(ts, plan, out);
  }

  const KEY: bytes := [7]
  const DEAD := Entry(KEY, [], true, 3)
  const ALIVE := Entry(KEY, [1], false, 1)
  const TOP := Table(TableMeta([0], 0, KEY, KEY, 3, 3, 1), [DEAD])
  const DEEP := Table(TableMeta([2], 2, KEY, KEY, 1, 1, 1), [ALIVE])
  const BOTH := [TOP, DEEP]

  lemma BothIsLayered()
    ensures Layered(BOTH) && SortedBy(BOTH, ReadBefore)
  {
    hide WfTable, KeysDisjoint;
    OneEntryIsWf(TOP, DEAD);
    OneEntryIsWf(DEEP, ALIVE);
    forall t | t in BOTH ensures t == TOP || t == DEEP { }
  }

  lemma BothPlan(plan: Plan)
    requires plan == PlanAt(Metas(BOTH), 0)
    ensures plan.inputs == [TOP.meta] && Paths(plan.inputs) == {[0]}
    ensures Outside(BOTH, plan) == [DEEP] && PickedOf(BOTH, plan) == [TOP]
  {
    var metas := Metas(BOTH);
    assert metas[1..] == [DEEP.meta] && metas[1..][1..] == [];
    assert AtLevel(metas, 0) == [TOP.meta] + AtLevel(metas[1..], 0);
    assert AtLevel(metas, 1) == AtLevel(metas[1..], 1) == [];
    assert Deduped([TOP.meta] + []) == [TOP.meta];
    assert BOTH[1..] == [DEEP] && BOTH[1..][1..] == [];
    assert Keep(BOTH[1..], {[0]}) == [DEEP];
    assert PickedOf(BOTH[1..], plan) == [];
  }

  lemma TopMerges()
    ensures MergedFrom([TOP], [], true)
  {
    assert TOP in [TOP] && DEAD in TOP.entries;
    assert VersionIn([TOP], DEAD);
    assert forall f :: VersionIn([TOP], f) ==> f == DEAD;
    assert BestIn([TOP], DEAD);
  }

  /** A level-0 tombstone over a level-2 value: the planned compaction to level 1 brings the deleted value back. */
  lemma DropCanResurrect(plan: Plan)
    requires plan == PlanAt(Metas(BOTH), 0)
    ensures Layered(BOTH) && SortedBy(BOTH, ReadBefore) && PlanOk(BOTH, plan)
            && CompactionOutput(BOTH, plan, None, true)
    ensures Visible(BOTH, KEY) == None && Visible(Compacted(BOTH, plan, None), KEY) == Some(ALIVE)
  {
    hide Layered, PlanOk, MergedFrom, Compacted, PickedOf, Keep;
    BothIsLayered();
    PlanningOk(BOTH, 0);
    BothPlan(plan);
    TopMerges();
    assert Lookup(BOTH, KEY) == Some(DEAD);
    assert Lookup([DEEP], KEY) == Some(ALIVE);
    DeletedReadsOutside(BOTH, plan, None, KEY);
  }
}
