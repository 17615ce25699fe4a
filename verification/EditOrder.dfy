/** A flush and a compaction on their way to the manifest at the same time: in which order they may arrive. */
module EditOrder {
  import opened Bytes
  import opened Entries
  import opened Ordering
  import opened Memtable
  import opened Tables
  import opened Planner
  import opened Compaction
  import opened EngineRun
  import opened EngineInv
  import TS = TableSet

  /** Both edits are in the table set, and neither is in the manifest. */
  predicate BothInFlight(s: Engine)
  {
    s.phase.Serving? && s.compact.Installed? && InFlight(s)
  }

  /** The flush first: whatever the compaction removed, the manifest ends as the table set. */
  lemma FlushFirstAgrees(s: Engine)
    requires BothInFlight(s) && Inv(s)
    ensures var t := CompactionRecorded(FlushRecorded(s)); t.manifest.tables == t.live
  {
    hide Inv, Edited, Compacted, PlanFits, CompactionOutput;
    InvIsLive(s);
  }

  lemma InvIsLive(s: Engine)
    requires BothInFlight(s) && Inv(s)
    ensures LiveOk(s) && TS.PathsDiffer(s.manifest.tables)
    ensures forall u :: u in s.manifest.tables ==> u.meta.path != s.flush.table.meta.path
  {
    hide LiveOk, Layout, WriterOk, Layered, SortedBy, Logged, WalOk;
  }

  /** The compaction first: the manifest ends as the table set if and only if the compaction did not remove
      the flushed table. If it did, the manifest lists a table that the set has let go. */
  lemma CompactionFirstAgreesIff(s: Engine)
    requires BothInFlight(s) && Inv(s)
    ensures var t := FlushRecorded(CompactionRecorded(s));
            && (t.manifest.tables == t.live <==> !Picked(s.compact.plan, s.flush.table))
            && (Picked(s.compact.plan, s.flush.table) ==>
                 s.flush.table in t.manifest.tables && s.flush.table !in t.live)
  {
    hide Inv, Edited, Compacted, Picked, PlanFits, CompactionOutput;
    var ts, plan, out, f := s.manifest.tables, s.compact.plan, s.compact.out, s.flush.table;
    InvIsLive(s);
    EditedMembers(ts, [f], {});
    if out.Some? { OutputIsNew(Base(s), plan, out.value, s.drop); }
    InstallsCommuteIff(ts, plan, out, f);
    CompactedMembers(Base(s), plan, out);
    EditedMembers(Compacted(ts, plan, out), [f], {});
  }

  // ---------- a run in which the compaction overtakes the flush ----------

  const WRITE := Entry([1], [], false, 1)
  const FLUSHED := Table(TableMeta([0], 0, [1], [1], 1, 1, 1), [WRITE])
  const MERGED := Table(TableMeta([1], 1, [1], [1], 1, 1, 1), [WRITE])
  const PLANNER := StrictLevelledPlanner(1, 0, 0)
  const PLAN := Plan([FLUSHED.meta], 1)

  const EMPTY := Init(false)
  const LOGGED := EMPTY.(wal := [WRITE], writer := Writing(WRITE, 0))
  const APPLIED := LOGGED.(mem := [WRITE], writer := NoWrite)
  const FROZEN := APPLIED.(mem := [], frozen := [[WRITE]])
  const WRITTEN := FROZEN.(flush := Flushing(FLUSHED, 0, Written))
  const INSET := WRITTEN.(flush := Flushing(FLUSHED, 0, InSet), live := [FLUSHED])
  const PLANNED := INSET.(compact := Planned(PLAN))
  const INSTALLED := PLANNED.(compact := Installed(PLAN, Some(MERGED)), live := [MERGED])

  /** One step that the source lets happen. */
  ghost predicate Goes(s: Engine, ev: Event, t: Engine)
  {
    Possible(s, ev) && Step(s, ev) == t
  }

  lemma Writes()
    ensures Goes(EMPTY, Log(WRITE), LOGGED)
    ensures Goes(LOGGED, Apply, APPLIED)
    ensures Goes(APPLIED, Freeze, FROZEN)
  {
  }

  lemma RunOfOne()
    ensures RunOf([WRITE]) == [WRITE] && NewTable([0], 0, 1, [WRITE]) == FLUSHED
  {
    assert [WRITE][..0] == [];
    assert MinSeq([WRITE]) == 1 && MaxSeq([WRITE]) == 1;
  }

  /** An edit that keeps nothing and adds one table. */
  lemma AddsOne(ts: seq<Table>, t: Table, remove: set<bytes>)
    requires Keep(ts, remove) == []
    ensures Edited(ts, [t], remove) == [t]
  {
    assert [] + [t] == [t] && [t][1..] == [];
    assert SortSlice([t], ReadBefore) == [t];
  }

  lemma Flushes()
    ensures Goes(FROZEN, FlushWrite(0, [0], 1), WRITTEN)
    ensures Goes(WRITTEN, FlushSet, INSET)
  {
    hide RunOf, NewTable, Edited;
    RunOfOne();
    AddsOne([], FLUSHED, {});
  }

  lemma Plans()
    ensures Goes(INSET, MakePlan(PLANNER), PLANNED)
  {
    hide PlanAt, AtLevel;
    assert Metas([FLUSHED]) == [FLUSHED.meta];
    PlanOfOne(FLUSHED.meta);
  }

  /** The plan for a single level-0 table. */
  lemma PlanOfOne(m: TableMeta)
    requires m.level == 0
    ensures AtLevel([m], 0) == [m] && PlanAt([m], 0) == Plan([m], 1)
  {
    hide AtLevel, Deduped;
    AtLevelOfOne(m, 0);
    AtLevelOfOne(m, 1);
    DedupedOne(m);
    assert [m] + [] == [m];
  }

  lemma AtLevelOfOne(m: TableMeta, level: nat)
    ensures AtLevel([m], level) == if m.level == level then [m] else []
  {
    assert [m][1..] == [];
  }

  lemma DedupedOne(m: TableMeta)
    ensures Deduped([m]) == [m]
  {
    assert [m][..0] == [];
  }

  lemma Merges()
    ensures CompactionOutput([FLUSHED], PLAN, Some(MERGED), false) && Picked(PLAN, FLUSHED)
  {
    hide PickedOf;
    assert PLAN.inputs[0] == FLUSHED.meta && FLUSHED.meta in PLAN.inputs;
    var ins := PickedOf([FLUSHED], PLAN);
    assert FLUSHED in [FLUSHED] && FLUSHED in ins && WRITE in FLUSHED.entries && WRITE in MERGED.entries;
    OneEntryIsWf(MERGED, WRITE);
    assert forall f :: VersionIn(ins, f) <==> f == WRITE;
    assert BestIn(ins, WRITE);
  }

  lemma Compacts()
    ensures Goes(PLANNED, CompactSet(Some(MERGED)), INSTALLED)
  {
    hide CompactionOutput, Edited;
    Merges();
    assert [FLUSHED][1..] == [];
    assert Keep([FLUSHED], Paths(PLAN.inputs)) == [];
    AddsOne([FLUSHED], MERGED, Paths(PLAN.inputs));
  }

  /** One write, flushed and compacted at once: the source lets the compaction reach the manifest first, and
      the manifest then lists the flushed table, which the table set has released. */
  lemma OvertakenFlush()
    ensures Goes(EMPTY, Log(WRITE), LOGGED) && Goes(LOGGED, Apply, APPLIED) && Goes(APPLIED, Freeze, FROZEN)
    ensures Goes(FROZEN, FlushWrite(0, [0], 1), WRITTEN) && Goes(WRITTEN, FlushSet, INSET)
    ensures Goes(INSET, MakePlan(PLANNER), PLANNED) && Goes(PLANNED, CompactSet(Some(MERGED)), INSTALLED)
    ensures var s := CompactionRecorded(INSTALLED);
            var t := FlushRecorded(s);
            && Goes(INSTALLED, CompactManifest, s) && Overtakes(INSTALLED, CompactManifest) && Goes(s, FlushManifest, t)
            && FLUSHED in t.manifest.tables && FLUSHED !in t.live
  {
    hide Edited, Compacted, CompactionOutput, Goes;
    Writes();
    Flushes();
    Plans();
    Compacts();
    Overtaking();
  }

  lemma Overtaking()
    ensures var s := CompactionRecorded(INSTALLED);
            var t := FlushRecorded(s);
            && Goes(INSTALLED, CompactManifest, s) && Overtakes(INSTALLED, CompactManifest) && Goes(s, FlushManifest, t)
            && FLUSHED in t.manifest.tables && FLUSHED !in t.live
  {
    hide Edited, Compacted, CompactionOutput;
    Merges();
    EditedMembers(Compacted([], PLAN, Some(MERGED)), [FLUSHED], {});
  }
}
