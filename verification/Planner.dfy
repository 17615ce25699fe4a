/** Strict levelled compaction planning over table metadata. */
module Planner {
  import opened Bytes
  import opened Tables
  import opened Ordering

  datatype Level = Level(level: nat, tables: seq<TableMeta>)
  datatype Plan = Plan(inputs: seq<TableMeta>, outputLevel: nat)
  datatype StrictLevelledPlanner = StrictLevelledPlanner(
    l0FileThreshold: int, levelBaseBytes: uint64, levelMultiplier: int)

  // ---------- specification ----------

  function AtLevel(metas: seq<TableMeta>, level: nat): (r: seq<TableMeta>)
  {
    if metas == [] then []
    else (if metas[0].level == level then [metas[0]] else []) + AtLevel(metas[1..], level)
  }

  function MaxLevel(metas: seq<TableMeta>): (m: nat)
    ensures forall t :: t in metas ==> t.level <= m
  {
    if metas == [] then 0
    else var m := MaxLevel(metas[1..]); if metas[0].level > m then metas[0].level else m
  }

  /** Sum of the table sizes, in 64-bit arithmetic. */
  function SizeOf(tables: seq<TableMeta>): (n: uint64)
  {
    if tables == [] then 0
    else (SizeOf(tables[..|tables| - 1]) + tables[|tables| - 1].sizeBytes) % UINT64
  }

  /** base * multiplier^(level-1), in 64-bit arithmetic. */
  function TargetOf(base: uint64, multiplier: nat, level: nat): (n: uint64)
    requires level > 0
  {
    if level == 1 then base else (TargetOf(base, multiplier, level - 1) * multiplier) % UINT64
  }

  predicate RangesOverlap(aMin: bytes, aMax: bytes, bMin: bytes, bMax: bytes)
  {
    aMin == [] || aMax == [] || bMin == [] || bMax == [] || !(Lt(aMax, bMin) || Lt(bMax, aMin))
  }

  predicate Overlaps(t: TableMeta, inputs: seq<TableMeta>)
  {
    exists i :: 0 <= i < |inputs| && RangesOverlap(inputs[i].minKey, inputs[i].maxKey, t.minKey, t.maxKey)
  }

  function Overlapping(tables: seq<TableMeta>, inputs: seq<TableMeta>): (r: seq<TableMeta>)
  {
    if tables == [] then []
    else
      var last := tables[|tables| - 1];
      Overlapping(tables[..|tables| - 1], inputs) + (if Overlaps(last, inputs) then [last] else [])
  }

  function Paths(tables: seq<TableMeta>): (r: set<bytes>)
  {
    set t | t in tables :: t.path
  }

  function Deduped(tables: seq<TableMeta>): (r: seq<TableMeta>)
  {
    if tables == [] then []
    else
      var last := tables[|tables| - 1];
      var front := tables[..|tables| - 1];
      Deduped(front) + (if last.path in Paths(front) then [] else [last])
  }

  function Multiplier(p: StrictLevelledPlanner): (m: nat)
  {
    if p.levelMultiplier <= 0 then 10 else p.levelMultiplier
  }

  predicate OverTarget(p: StrictLevelledPlanner, metas: seq<TableMeta>, level: nat)
    requires level > 0
  {
    var limit := TargetOf(p.levelBaseBytes, Multiplier(p), level);
    limit != 0 && SizeOf(AtLevel(metas, level)) > limit
  }

  /** The first level from `level` on that is over its size target; the search
      stops at the first level that has no table. */
  function FirstOver(p: StrictLevelledPlanner, metas: seq<TableMeta>, level: nat): (r: Option<nat>)
    requires level > 0
    decreases MaxLevel(metas) + 1 - level
  {
    if AtLevel(metas, level) == [] then None
    else if OverTarget(p, metas, level) then Some(level)
    else
      AtLevelMembers(metas, level);
      var t := AtLevel(metas, level)[0];
      assert t in metas && t.level == level;
      FirstOver(p, metas, level + 1)
  }

  /** The level whose tables the planner decides to push down, if any. */
  function LevelToCompact(p: StrictLevelledPlanner, metas: seq<TableMeta>): (r: Option<nat>)
  {
    if p.l0FileThreshold > 0 && |AtLevel(metas, 0)| >= p.l0FileThreshold then Some(0)
    else if p.levelBaseBytes == 0 then None
    else FirstOver(p, metas, 1)
  }

  /** All of one level, plus the tables of the next level whose range meets one of theirs. */
  function PlanAt(metas: seq<TableMeta>, level: nat): (plan: Plan)
  {
    var from := AtLevel(metas, level);
    Plan(Deduped(from + Overlapping(AtLevel(metas, level + 1), from)), level + 1)
  }

  lemma {:induction false} AtLevelMembers(metas: seq<TableMeta>, level: nat)
    ensures forall t :: t in AtLevel(metas, level) <==> t in metas && t.level == level
    ensures AtLevel(metas, level) == [] <==> forall t :: t in metas ==> t.level != level
  {
    if metas != [] {
      AtLevelMembers(metas[1..], level);
      assert metas == [metas[0]] + metas[1..];
      if AtLevel(metas, level) != [] { assert AtLevel(metas, level)[0] in AtLevel(metas, level); }
    }
  }

  lemma {:induction false} AtLevelAppend(metas: seq<TableMeta>, t: TableMeta, level: nat)
    ensures AtLevel(metas + [t], level) == AtLevel(metas, level) + (if t.level == level then [t] else [])
  {
    if metas != [] {
      AtLevelAppend(metas[1..], t, level);
      assert (metas + [t])[1..] == metas[1..] + [t];
    }
  }

  lemma {:induction false} OverlappingMembers(tables: seq<TableMeta>, inputs: seq<TableMeta>)
    ensures forall t :: t in Overlapping(tables, inputs) <==> t in tables && Overlaps(t, inputs)
  {
    if tables != [] {
      OverlappingMembers(tables[..|tables| - 1], inputs);
      assert tables == tables[..|tables| - 1] + [tables[|tables| - 1]];
    }
  }

  ghost predicate PathsIdentify(tables: seq<TableMeta>)
  {
    forall t, u :: t in tables && u in tables && t.path == u.path ==> t == u
  }

  lemma {:induction false} DedupedMembers(tables: seq<TableMeta>)
    requires PathsIdentify(tables)
    ensures forall t :: t in Deduped(tables) <==> t in tables
    ensures forall i, j :: 0 <= i < j < |Deduped(tables)| ==> Deduped(tables)[i].path != Deduped(tables)[j].path
  {
    if tables != [] {
      var front, last := tables[..|tables| - 1], tables[|tables| - 1];
      assert tables == front + [last];
      DedupedMembers(front);
      if last.path in Paths(front) {
        assert exists t :: t in front && t.path == last.path;
      }
    }
  }

  /** Some table of the level has a range that meets this table's. */
  ghost predicate MeetsLevel(metas: seq<TableMeta>, level: nat, t: TableMeta)
  {
    exists u :: u in metas && u.level == level && RangesOverlap(u.minKey, u.maxKey, t.minKey, t.maxKey)
  }

  /** The planner's inputs, without repetition: every table of one level and
      exactly the tables of the next level that meet one of their ranges. */
  lemma PlanShape(metas: seq<TableMeta>, level: nat)
    requires PathsIdentify(metas)
    ensures PlanAt(metas, level).outputLevel == level + 1
    ensures forall t :: t in PlanAt(metas, level).inputs <==>
              && t in metas
              && (|| t.level == level
                  || (t.level == level + 1 && MeetsLevel(metas, level, t)))
    ensures var ins := PlanAt(metas, level).inputs;
            forall i, j :: 0 <= i < j < |ins| ==> ins[i].path != ins[j].path
  {
    var from, next := AtLevel(metas, level), AtLevel(metas, level + 1);
    AtLevelMembers(metas, level);
    AtLevelMembers(metas, level + 1);
    OverlappingMembers(next, from);
    DedupedMembers(from + Overlapping(next, from));
    forall t ensures Overlaps(t, from) <==> MeetsLevel(metas, level, t) {
      if u :| u in metas && u.level == level && RangesOverlap(u.minKey, u.maxKey, t.minKey, t.maxKey) {
        assert u in from;
        var i :| 0 <= i < |from| && from[i] == u;
        assert Overlaps(t, from);
      }
      if Overlaps(t, from) {
        var i :| 0 <= i < |from| && RangesOverlap(from[i].minKey, from[i].maxKey, t.minKey, t.maxKey);
        assert from[i] in metas;
      }
    }
  }

  /** Tables left out because no range meets theirs share no key with the inputs. */
  lemma NoOverlapNoSharedKey(t: Table, u: Table)
    requires WfTable(t) && WfTable(u)
    requires !RangesOverlap(t.meta.minKey, t.meta.maxKey, u.meta.minKey, u.meta.maxKey)
    ensures KeysDisjoint(t, u)
  {
    forall key ensures !(Holds(t, key) && Holds(u, key)) {
      KeyWithinRange(t, key);
      KeyWithinRange(u, key);
      OrderFacts();
    }
  }

  /** A key that a table holds lies in its range. */
  lemma KeyWithinRange(t: Table, key: bytes)
    requires WfTable(t)
    ensures Holds(t, key) ==> Le(t.meta.minKey, key) && Le(key, t.meta.maxKey)
  {
    if Holds(t, key) {
      var i :| 0 <= i < |t.entries| && t.entries[i].key == key;
      LtIrreflexive(key);
      if i > 0 { LtAsymmetric(t.meta.minKey, key); }
      if i < |t.entries| - 1 { LtAsymmetric(key, t.meta.maxKey); }
    }
  }

  // ---------- implementation ----------

  method GroupByLevel(metas: seq<TableMeta>) returns (groups: map<nat, seq<TableMeta>>)
    ensures forall id :: id in groups ==> groups[id] == AtLevel(metas, id) != []
    ensures forall t :: t in metas ==> t.level in groups
  {
    hide AtLevel;
    groups := map[];
    for n := 0 to |metas|
      invariant forall id :: id in groups ==> groups[id] == AtLevel(metas[..n], id) != []
      invariant forall t :: t in metas[..n] ==> t.level in groups
    {
      var t := metas[n];
      GroupStep(metas[..n], t, groups);
      assert metas[..n + 1] == metas[..n] + [t];
      groups := groups[t.level := (if t.level in groups then groups[t.level] else []) + [t]];
    }
    assert metas[..|metas|] == metas;
  }

  lemma GroupStep(metas: seq<TableMeta>, t: TableMeta, groups: map<nat, seq<TableMeta>>)
    requires forall id :: id in groups ==> groups[id] == AtLevel(metas, id) != []
    requires forall t :: t in metas ==> t.level in groups
    ensures forall id :: id in groups || id == t.level ==>
              AtLevel(metas + [t], id) ==
                (if id in groups then groups[id] else []) + (if id == t.level then [t] else [])
  {
    forall id | id in groups || id == t.level
      ensures AtLevel(metas + [t], id) ==
              (if id in groups then groups[id] else []) + (if id == t.level then [t] else [])
    {
      AtLevelAppend(metas, t, id);
      AtLevelMembers(metas, id);
    }
  }

  method ListGroups(groups: map<nat, seq<TableMeta>>) returns (list: seq<Level>)
    ensures forall i :: 0 <= i < |list| ==> list[i].level in groups && list[i].tables == groups[list[i].level]
    ensures forall i, j :: 0 <= i < j < |list| ==> list[i].level != list[j].level
    ensures forall id :: id in groups ==> Level(id, groups[id]) in list
  {
    list := [];
    var ids := groups.Keys;
    while ids != {}
      invariant ids <= groups.Keys
      invariant forall i :: 0 <= i < |list| ==>
                  list[i].level in groups && list[i].level !in ids && list[i].tables == groups[list[i].level]
      invariant forall i, j :: 0 <= i < j < |list| ==> list[i].level != list[j].level
      invariant forall id :: id in groups ==> id in ids || Level(id, groups[id]) in list
    {
      var id :| id in ids;
      ids := ids - {id};
      list := list + [Level(id, groups[id])];
    }
  }

  method StateFromMetas(metas: seq<TableMeta>) returns (levels: seq<Level>)
    ensures forall i, j :: 0 <= i < j < |levels| ==> levels[i].level < levels[j].level
    ensures Describes(levels, metas)
  {
    var groups := GroupByLevel(metas);
    var list := ListGroups(groups);
    levels := SortLevels(list);
    assert forall i :: 0 <= i < |levels| ==> levels[i] in list;
    forall t | t in metas ensures exists i :: 0 <= i < |levels| && levels[i].level == t.level {
      assert Level(t.level, groups[t.level]) in levels;
    }
  }

  method SortLevels(list: seq<Level>) returns (levels: seq<Level>)
    requires forall i, j :: 0 <= i < j < |list| ==> list[i].level != list[j].level
    ensures forall i, j :: 0 <= i < j < |levels| ==> levels[i].level < levels[j].level
    ensures forall x :: x in levels <==> x in list
  {
    var less := (a: Level, b: Level) => a.level < b.level;
    forall a, b ensures Asymmetric(less, a, b) { }
    forall a, b, c ensures Between(less, a, b, c) { }
    levels := SortSlice(list, less);
    SortSorts(list, less);
    SortKeepsMembers(list, less);
    SortKeepsDistinct(list, less);
    forall i, j | 0 <= i < j < |levels| ensures levels[i].level < levels[j].level {
      assert levels[i] in list && levels[j] in list;
      var a :| 0 <= a < |list| && list[a] == levels[i];
      var b :| 0 <= b < |list| && list[b] == levels[j];
      assert a != b;
    }
  }

  method LevelByID(levels: seq<Level>, id: nat) returns (r: Option<Level>)
    ensures r.Some? ==> r.value in levels && r.value.level == id
    ensures r.None? ==> forall i :: 0 <= i < |levels| ==> levels[i].level != id
  {
    for i := 0 to |levels|
      invariant forall k :: 0 <= k < i ==> levels[k].level != id
    {
      if levels[i].level == id { return Some(levels[i]); }
    }
    return None;
  }

  method LevelSizeBytes(tables: seq<TableMeta>) returns (total: uint64)
    ensures total == SizeOf(tables)
  {
    total := 0;
    for i := 0 to |tables|
      invariant total == SizeOf(tables[..i])
    {
      assert tables[..i + 1][..i] == tables[..i];
      total := (total + tables[i].sizeBytes) % UINT64;
    }
    assert tables[..|tables|] == tables;
  }

  method LevelTargetBytes(base: uint64, multiplier: nat, level: nat) returns (target: uint64)
    ensures target == if base == 0 || level == 0 then 0 else TargetOf(base, multiplier, level)
  {
    if base == 0 || level == 0 { return 0; }
    target := base;
    for i := 1 to level
      invariant target == TargetOf(base, multiplier, i)
    {
      target := (target * multiplier) % UINT64;
    }
  }

  method OverlapTables(level: Option<Level>, inputs: seq<TableMeta>) returns (out: seq<TableMeta>)
    ensures out == if level.None? then [] else Overlapping(level.value.tables, inputs)
  {
    out := [];
    if level.None? { return; }
    var tables := level.value.tables;
    for i := 0 to |tables|
      invariant out == Overlapping(tables[..i], inputs)
    {
      var table := tables[i];
      assert tables[..i + 1][..i] == tables[..i];
      ghost var before := out;
      for j := 0 to |inputs|
        invariant out == before
        invariant forall k :: 0 <= k < j ==>
                    !RangesOverlap(inputs[k].minKey, inputs[k].maxKey, table.minKey, table.maxKey)
      {
        if RangesOverlap(inputs[j].minKey, inputs[j].maxKey, table.minKey, table.maxKey) {
          assert Overlaps(table, inputs);
          out := out + [table];
          break;
        }
      }
    }
    assert tables[..|tables|] == tables;
  }

  lemma DedupeOne(tables: seq<TableMeta>, i: nat)
    requires i < |tables|
    ensures Paths(tables[..i + 1]) == Paths(tables[..i]) + {tables[i].path}
    ensures Deduped(tables[..i + 1]) == Deduped(tables[..i]) + if tables[i].path in Paths(tables[..i]) then []
            else [tables[i]]
  {
    hide Paths;
    assert tables[..i + 1][..i] == tables[..i];
    PathsOneMore(tables[..i], tables[i]);
    assert tables[..i + 1] == tables[..i] + [tables[i]];
  }

  lemma PathsOneMore(tables: seq<TableMeta>, t: TableMeta)
    ensures Paths(tables + [t]) == Paths(tables) + {t.path}
  {
  }

  method Dedupe(tables: seq<TableMeta>) returns (out: seq<TableMeta>)
    ensures out == Deduped(tables)
  {
    hide Paths, Deduped;
    NothingDeduped();
    var seen: set<bytes> := {};
    out := [];
    for i := 0 to |tables|
      invariant seen == Paths(tables[..i]) && out == Deduped(tables[..i])
    {
      DedupeOne(tables, i);
      if tables[i].path !in seen {
        seen := seen + {tables[i].path};
        out := out + [tables[i]];
      } else {
        assert seen + {tables[i].path} == seen;
      }
    }
    assert tables[..|tables|] == tables;
  }

  lemma NothingDeduped()
    ensures Paths([]) == {} && Deduped([]) == []
  {
  }

  /** The levels list describes exactly these tables. */
  ghost predicate Describes(levels: seq<Level>, metas: seq<TableMeta>)
  {
    && (forall i :: 0 <= i < |levels| ==> levels[i].tables == AtLevel(metas, levels[i].level) != [])
    && (forall t :: t in metas ==> exists i :: 0 <= i < |levels| && levels[i].level == t.level)
  }

  lemma LevelPresence(levels: seq<Level>, metas: seq<TableMeta>, id: nat)
    requires Describes(levels, metas)
    ensures AtLevel(metas, id) != [] <==> exists i :: 0 <= i < |levels| && levels[i].level == id
  {
    AtLevelMembers(metas, id);
    if AtLevel(metas, id) != [] {
      var t := AtLevel(metas, id)[0];
      assert t in metas && t.level == id;
    }
  }

  method PlanLevel(levels: seq<Level>, level: nat, tables: seq<TableMeta>, ghost metas: seq<TableMeta>)
      returns (plan: Plan)
    requires Describes(levels, metas) && tables == AtLevel(metas, level)
    ensures plan == PlanAt(metas, level)
  {
    var next := LevelByID(levels, level + 1);
    LevelPresence(levels, metas, level + 1);
    var overlap := OverlapTables(next, tables);
    var inputs := Dedupe(tables + overlap);
    plan := Plan(inputs, level + 1);
  }

  method Next(p: StrictLevelledPlanner, levels: seq<Level>, ghost metas: seq<TableMeta>) returns (plan: Option<Plan>)
    requires Describes(levels, metas)
    ensures match LevelToCompact(p, metas)
            case None => plan == None
            case Some(level) => plan == Some(PlanAt(metas, level))
  {
    var l0 := LevelByID(levels, 0);
    LevelPresence(levels, metas, 0);
    if l0.Some? && p.l0FileThreshold > 0 && |l0.value.tables| >= p.l0FileThreshold {
      var r := PlanLevel(levels, 0, l0.value.tables, metas);
      return Some(r);
    }
    if p.levelBaseBytes == 0 { return None; }
    plan := NextOversized(p, levels, metas);
  }

  method OverLimit(p: StrictLevelledPlanner, level: nat, tables: seq<TableMeta>) returns (over: bool)
    requires p.levelBaseBytes != 0 && level > 0
    ensures over ==
            (var limit := TargetOf(p.levelBaseBytes, Multiplier(p), level); limit != 0 && SizeOf(tables) > limit)
  {
    var multiplier := p.levelMultiplier;
    if multiplier <= 0 { multiplier := 10; }
    var limit := LevelTargetBytes(p.levelBaseBytes, multiplier, level);
    if limit == 0 { return false; }
    var size := LevelSizeBytes(tables);
    return size > limit;
  }

  method NextOversized(p: StrictLevelledPlanner, levels: seq<Level>, ghost metas: seq<TableMeta>)
      returns (plan: Option<Plan>)
    requires Describes(levels, metas) && p.levelBaseBytes != 0
    ensures match FirstOver(p, metas, 1)
            case None => plan == None
            case Some(level) => plan == Some(PlanAt(metas, level))
  {
    var level: nat := 1;
    while true
      invariant level > 0 && FirstOver(p, metas, 1) == FirstOver(p, metas, level)
      decreases MaxLevel(metas) + 1 - level
    {
      var lvl := LevelByID(levels, level);
      LevelPresence(levels, metas, level);
      if lvl.None? { return None; }
      AtLevelMembers(metas, level);
      var over := OverLimit(p, level, lvl.value.tables);
      if over {
        var r := PlanLevel(levels, level, lvl.value.tables, metas);
        return Some(r);
      }
      level := level + 1;
    }
    return None;
  }
}
