/** Key ranges inside a level: compaction keeps the keys of a level's tables apart, not their ranges. */
module LevelRanges {
  import opened Bytes
  import opened Entries
  import opened Ordering
  import opened Tables
  import opened Planner
  import opened Compaction

  ghost predicate Meets(t: Table, u: Table)
  {
    RangesOverlap(t.meta.minKey, t.meta.maxKey, u.meta.minKey, u.meta.maxKey)
  }

  ghost predicate LiesBelow(t: Table, u: Table)
  {
    Lt(t.meta.maxKey, u.meta.minKey)
  }

  ghost predicate NonEmptyKeys(t: Table)
  {
    forall e :: e in t.entries ==> e.key != []
  }

  lemma EntryInRange(t: Table, e: Entry)
    requires WfTable(t) && e in t.entries
    ensures Le(t.meta.minKey, e.key) && Le(e.key, t.meta.maxKey)
  {
    var i :| 0 <= i < |t.entries| && t.entries[i] == e;
    assert Holds(t, e.key);
    KeyWithinRange(t, e.key);
  }

  /** Some input reaches as far down as the output, and some as far up. */
  lemma OutputEnds(ts: seq<Table>, plan: Plan, out: Table) returns (low: Table, high: Table)
    requires CompactionOutput(ts, plan, Some(out), false) && forall t :: t in ts ==> WfTable(t) && NonEmptyKeys(t)
    ensures out.meta.minKey != [] && out.meta.maxKey != []
    ensures low in ts && Picked(plan, low) && Le(low.meta.minKey, out.meta.minKey)
    ensures high in ts && Picked(plan, high) && Le(out.meta.maxKey, high.meta.maxKey)
  {
    hide MergedFrom, Lt, WfTable;
    FirstAndLast(out);
    low := OutputEntryOrigin(ts, plan, out, false, out.entries[0]);
    EntryInRange(low, out.entries[0]);
    high := OutputEntryOrigin(ts, plan, out, false, out.entries[|out.entries| - 1]);
    EntryInRange(high, out.entries[|out.entries| - 1]);
  }

  lemma FirstAndLast(t: Table)
    requires WfTable(t)
    ensures |t.entries| > 0 && t.entries[0].key == t.meta.minKey && t.entries[|t.entries| - 1].key == t.meta.maxKey
    ensures t.entries[0] in t.entries && t.entries[|t.entries| - 1] in t.entries
  {
  }

  lemma RangeOk(t: Table)
    requires WfTable(t) && NonEmptyKeys(t)
    ensures t.meta.minKey != [] && t.meta.maxKey != [] && Le(t.meta.minKey, t.meta.maxKey)
  {
    hide Lt, WfTable;
    FirstAndLast(t);
    EntryInRange(t, t.entries[0]);
  }

  /** The output's range covers every input's. */
  lemma OutputCovers(ts: seq<Table>, plan: Plan, out: Table, t: Table)
    requires CompactionOutput(ts, plan, Some(out), false) && t in ts && Picked(plan, t) && WfTable(t)
    ensures Le(out.meta.minKey, t.meta.minKey) && Le(t.meta.maxKey, out.meta.maxKey)
  {
    hide Lt, WfTable;
    FirstAndLast(t);
    KeyReaches(ts, plan, out, t, t.entries[0]);
    KeyReaches(ts, plan, out, t, t.entries[|t.entries| - 1]);
  }

  lemma KeyReaches(ts: seq<Table>, plan: Plan, out: Table, t: Table, f: Entry)
    requires CompactionOutput(ts, plan, Some(out), false) && t in ts && Picked(plan, t) && f in t.entries
    ensures Le(out.meta.minKey, f.key) && Le(f.key, out.meta.maxKey)
  {
    hide Lt, WfTable, PickedOf, BestIn, Sorted;
    var ins := PickedOf(ts, plan);
    assert t in ins && f in t.entries;
    assert VersionIn(ins, f);
    var e :| e in out.entries && e.key == f.key;
    EntryInRange(out, e);
  }

  /** The output meets a table that stays at its level exactly when an input did, or when there are
      inputs on both sides of that table: the output then spans it. */
  lemma OutputMeetsIff(ts: seq<Table>, plan: Plan, out: Table, u: Table)
    requires CompactionOutput(ts, plan, Some(out), false) && u in ts
    requires forall t :: t in ts ==> WfTable(t) && NonEmptyKeys(t)
    ensures Meets(out, u) <==>
              || (exists t :: t in ts && Picked(plan, t) && Meets(t, u))
              || (exists t, v ::
                    t in ts && Picked(plan, t) && LiesBelow(t, u) && v in ts && Picked(plan, v) && LiesBelow(u, v))
  {
    hide Lt, WfTable, CompactionOutput;
    OrderFacts();
    var low, high := OutputEnds(ts, plan, out);
    forall t | t in ts
      ensures t.meta.minKey != [] && t.meta.maxKey != [] && Le(t.meta.minKey, t.meta.maxKey)
    {
      RangeOk(t);
    }
    forall t | t in ts && Picked(plan, t)
      ensures Le(out.meta.minKey, t.meta.minKey) && Le(t.meta.maxKey, out.meta.maxKey)
    {
      OutputCovers(ts, plan, out, t);
    }
    if Meets(out, u) && !Meets(low, u) && !Meets(high, u) {
      assert LiesBelow(low, u);
      assert LiesBelow(u, high);
    }
  }

  // ---------- a planned compaction that spans a table ----------

  const FIRST := Entry([1], [], false, 5)
  const MIDDLE := Entry([2], [], false, 1)
  const FINAL := Entry([3], [], false, 6)
  const LEFT := Table(TableMeta([0], 0, [1], [1], 5, 5, 1), [FIRST])
  const RIGHT := Table(TableMeta([1], 0, [3], [3], 6, 6, 1), [FINAL])
  const INSIDE := Table(TableMeta([2], 1, [2], [2], 1, 1, 1), [MIDDLE])
  const THREE := [RIGHT, LEFT, INSIDE]
  const SPANNING := Table(TableMeta([3], 1, [1], [3], 5, 6, 1), [FIRST, FINAL])

  lemma ThreeIsLayered()
    ensures Layered(THREE) && SortedBy(THREE, ReadBefore)
  {
    hide WfTable, KeysDisjoint;
    OneEntryIsWf(LEFT, FIRST);
    OneEntryIsWf(RIGHT, FINAL);
    OneEntryIsWf(INSIDE, MIDDLE);
    forall t | t in THREE ensures t == RIGHT || t == LEFT || t == INSIDE { }
  }

  lemma ThreePlan(plan: Plan)
    requires plan == PlanAt(Metas(THREE), 0)
    ensures plan.inputs == [RIGHT.meta, LEFT.meta] && plan.outputLevel == 1
  {
    hide AtLevel, Deduped, Overlapping, Metas;
    var from := [RIGHT.meta, LEFT.meta];
    ThreeMetas();
    ThreeAtLevel(0);
    ThreeAtLevel(1);
    NoneOverlaps();
    DedupedTwo();
    assert from + [] == from;
  }

  lemma ThreeMetas()
    ensures Metas(THREE) == [RIGHT.meta, LEFT.meta, INSIDE.meta]
  {
  }

  lemma AtLevelCons(m: TableMeta, rest: seq<TableMeta>, level: nat)
    ensures AtLevel([m] + rest, level) == (if m.level == level then [m] else []) + AtLevel(rest, level)
  {
    assert ([m] + rest)[1..] == rest;
  }

  lemma ThreeAtLevel(level: nat)
    ensures AtLevel([RIGHT.meta, LEFT.meta, INSIDE.meta], level) ==
              if level == 0 then [RIGHT.meta, LEFT.meta] else if level == 1 then [INSIDE.meta] else []
  {
    var two, one := [LEFT.meta, INSIDE.meta], [INSIDE.meta];
    assert [RIGHT.meta, LEFT.meta, INSIDE.meta] == [RIGHT.meta] + two && two == [LEFT.meta] + one && one == one + [];
    AtLevelCons(RIGHT.meta, two, level);
    AtLevelCons(LEFT.meta, one, level);
    AtLevelCons(INSIDE.meta, [], level);
  }

  lemma NoneOverlaps()
    ensures Overlapping([INSIDE.meta], [RIGHT.meta, LEFT.meta]) == []
  {
    assert [INSIDE.meta][..0] == [];
    assert !Overlaps(INSIDE.meta, [RIGHT.meta, LEFT.meta]);
  }

  lemma DedupedTwo()
    ensures Deduped([RIGHT.meta, LEFT.meta]) == [RIGHT.meta, LEFT.meta]
  {
    hide Deduped;
    NothingDeduped();
    var two := [RIGHT.meta, LEFT.meta];
    assert two[..0] == [] && two[..2] == two;
    DedupeOne(two, 0);
    DedupeOne(two, 1);
  }

  lemma SpanningMerges(ins: seq<Table>)
    requires forall t :: t in ins <==> t == RIGHT || t == LEFT
    ensures MergedFrom(ins, [FIRST, FINAL], false)
  {
    assert RIGHT in ins && LEFT in ins;
    assert FIRST in LEFT.entries && FINAL in RIGHT.entries;
    assert VersionIn(ins, FIRST) && VersionIn(ins, FINAL);
    assert forall f :: VersionIn(ins, f) ==> f == FIRST || f == FINAL;
    assert BestIn(ins, FIRST) && BestIn(ins, FINAL);
    assert FIRST in [FIRST, FINAL] && FINAL in [FIRST, FINAL];
  }

  lemma SpanningIsOutput(plan: Plan)
    requires plan.inputs == [RIGHT.meta, LEFT.meta] && plan.outputLevel == 1
    ensures CompactionOutput(THREE, plan, Some(SPANNING), false) && !Picked(plan, INSIDE)
  {
    hide MergedFrom, PickedOf;
    assert Paths(plan.inputs) == {[1], [0]};
    forall t | t in THREE ensures t == RIGHT || t == LEFT || t == INSIDE { }
    assert SPANNING.entries[0] == FIRST && SPANNING.entries[1] == FINAL;
    SpanningMerges(PickedOf(THREE, plan));
  }

  /** Two level-0 tables on either side of a level-1 table: the planner leaves that table out, and the
      output's range covers it although they share no key. */
  lemma RangesOfALevelCanMeet(plan: Plan)
    requires plan == PlanAt(Metas(THREE), 0)
    ensures Layered(THREE) && SortedBy(THREE, ReadBefore) && PlanOk(THREE, plan)
            && CompactionOutput(THREE, plan, Some(SPANNING), false)
    ensures var after := Compacted(THREE, plan, Some(SPANNING));
            && Layered(after) && INSIDE in after && SPANNING in after && INSIDE.meta.level == SPANNING.meta.level == 1
            && Meets(SPANNING, INSIDE)
  {
    hide Layered, PlanOk, CompactionOutput, Compacted, Picked;
    ThreeIsLayered();
    PlanningOk(THREE, 0);
    ThreePlan(plan);
    SpanningIsOutput(plan);
    CompactionKeepsLayers(THREE, plan, Some(SPANNING), false);
    CompactedMembers(THREE, plan, Some(SPANNING));
  }
}
