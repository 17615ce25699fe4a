/** One compaction cycle: plan, resolve, merge, apply. */
module Controller {
  import opened Bytes
  import opened Entries
  import opened Tables
  import opened Planner
  import opened Compaction
  import opened TableSet
  import TE = TableEdit
  import R = Runner

  datatype Outcome = NoPlan | Failed | Stepped(plan: Plan, out: Option<Table>)

  /** The resolved tables are those the plan picks. */
  lemma ResolvedArePicked(ts: seq<Table>, plan: Plan, inputs: seq<Table>)
    requires PathsDiffer(ts) && |inputs| == |plan.inputs|
    requires forall i :: 0 <= i < |inputs| ==> inputs[i] in ts && inputs[i].meta.path == plan.inputs[i].path
    ensures forall t :: t in inputs <==> t in PickedOf(ts, plan)
  {
    forall t | t in inputs ensures t in PickedOf(ts, plan) {
      var i :| 0 <= i < |inputs| && inputs[i] == t;
      assert plan.inputs[i] in plan.inputs;
    }
    forall t | t in PickedOf(ts, plan) ensures t in inputs {
      var m :| m in plan.inputs && m.path == t.meta.path;
      var i :| 0 <= i < |plan.inputs| && plan.inputs[i] == m;
      assert inputs[i] in ts && inputs[i].meta.path == t.meta.path;
      var j :| 0 <= j < |ts| && ts[j] == t;
      var k :| 0 <= k < |ts| && ts[k] == inputs[i];
      assert j == k;
    }
  }

  lemma MergedSame(a: seq<Table>, b: seq<Table>, out: seq<Entry>, drop: bool)
    requires MergedFrom(a, out, drop) && forall t :: t in a <==> t in b
    ensures MergedFrom(b, out, drop)
  {
    assert forall e :: VersionIn(a, e) <==> VersionIn(b, e);
    assert forall e :: BestIn(a, e) <==> BestIn(b, e);
  }

  /** Merging the resolved tables gives what an install asks for. */
  lemma OutputOfPlan(ts: seq<Table>, plan: Plan, inputs: seq<Table>, out: Option<Table>, drop: bool, path: bytes)
    requires (forall t :: t in inputs <==> t in PickedOf(ts, plan)) && (forall t :: t in ts ==> t.meta.path != path)
    requires MergedFrom(inputs, if out.None? then [] else out.value.entries, drop)
    requires out.Some? ==> WfTable(out.value) && out.value.meta.level == plan.outputLevel && out.value.meta.path == path
    ensures CompactionOutput(ts, plan, out, drop)
  {
    hide WfTable, MergedFrom;
    MergedSame(inputs, PickedOf(ts, plan), if out.None? then [] else out.value.entries, drop);
  }

  lemma NothingMerged(ts: seq<Table>, plan: Plan, drop: bool)
    requires plan.inputs == []
    ensures CompactionOutput(ts, plan, None, drop)
  {
    assert forall t :: t !in PickedOf(ts, plan);
  }

  lemma OutsideLive(ts: seq<Table>, path: bytes)
    requires path !in PathsOf(ts)
    ensures forall t :: t in ts ==> t.meta.path != path
  {
  }

  /** Resolves a plan in the live set and merges its tables; None when a table is gone or cannot be read. */
  method Merge(tables: Set, plan: Plan, drop: bool, fails: Table -> bool, path: bytes, size: uint64)
      returns (r: Option<Option<Table>>)
    requires tables.Valid() && path !in tables.added && forall t :: t in tables.Live() ==> WfTable(t)
    ensures r.Some? ==> CompactionOutput(tables.Live(), plan, r.value, drop)
    ensures r.Some? && r.value.Some? ==> r.value.value.meta.path == path
    ensures r.None? <==> || (exists m :: m in plan.inputs && m.path !in PathsOf(tables.Live()))
                         || (exists t :: t in PickedOf(tables.Live(), plan) && fails(t))
  {
    hide CompactionOutput, MergedFrom, WfTable, PathsDiffer, Conserved, PinsOk, PendingOk, IndexOk, PickedOf;
    tables.LiveFacts();
    ghost var ts := tables.Live();
    var inputs := tables.Resolve(plan.inputs);
    if inputs.None? {
      ghost var i :| 0 <= i < |plan.inputs| && !exists t :: t in ts && t.meta.path == plan.inputs[i].path;
      assert plan.inputs[i] in plan.inputs && plan.inputs[i].path !in PathsOf(ts);
      return None;
    }
    AllLive(ts, plan, inputs.value);
    ResolvedArePicked(ts, plan, inputs.value);
    var result := R.Run(plan, inputs.value, drop, fails, path, size);
    if result.Failed? { return None; }
    if result.Nothing? {
      NothingMerged(ts, plan, drop);
      return Some(None);
    }
    OutsideLive(ts, path);
    OutputOfPlan(ts, plan, inputs.value, result.output, drop, path);
    return Some(result.output);
  }

  lemma AllLive(ts: seq<Table>, plan: Plan, inputs: seq<Table>)
    requires |inputs| == |plan.inputs|
    requires forall i :: 0 <= i < |inputs| ==> inputs[i] in ts && inputs[i].meta.path == plan.inputs[i].path
    ensures forall m :: m in plan.inputs ==> m.path in PathsOf(ts)
  {
    forall m | m in plan.inputs ensures m.path in PathsOf(ts) {
      var i :| 0 <= i < |plan.inputs| && plan.inputs[i] == m;
      assert inputs[i] in ts && inputs[i].meta.path == m.path;
    }
  }

  /** Plans on the levels of some snapshot, resolves and merges what is live now, and installs the output. */
  method Step(service: TE.Service, p: StrictLevelledPlanner, levels: seq<Level>, ghost metas: seq<TableMeta>,
              drop: bool, fails: Table -> bool, path: bytes, size: uint64, saved: bool) returns (r: Outcome)
    requires service.Valid() && service.FilesOk() && Describes(levels, metas)
    requires path !in service.tables.added && forall t :: t in service.tables.Live() ==> WfTable(t)
    modifies service, service.tables, service.tables.tables
    ensures service.Valid() && service.FilesOk()
    ensures r.NoPlan? <==> LevelToCompact(p, metas) == None
    ensures !r.Stepped? ==> service.manifest == old(service.manifest)
    ensures r.NoPlan? || (r.Failed? && saved) ==> service.tables.Live() == old(service.tables.Live())
    ensures r.Stepped? ==>
              saved && LevelToCompact(p, metas).Some? && r.plan == PlanAt(metas, LevelToCompact(p, metas).value)
    ensures r.Stepped? ==> CompactionOutput(old(service.tables.Live()), r.plan, r.out, drop)
    ensures r.Stepped? ==> service.tables.Live() == Compacted(old(service.tables.Live()), r.plan, r.out)
    ensures r.Stepped? && old(service.Mirrors()) ==> service.Mirrors()
  {
    hide CompactionOutput, WfTable, Edited, PathsDiffer, Set.Valid, LevelToCompact, PlanAt;
    var planned := Next(p, levels, metas);
    if planned.None? { return NoPlan; }
    var plan := planned.value;
    var merged := Merge(service.tables, plan, drop, fails, path, size);
    if merged.None? { return Failed; }
    var out := merged.value;
    AddsOne(out, path, service.tables.added);
    service.files := service.files + PathsOf(AddOf(out));
    var ok := service.Apply(AddOf(out), Planner.Paths(plan.inputs), 0, saved);
    if !ok { return Failed; }
    return Stepped(plan, out);
  }

  lemma AddsOne(out: Option<Table>, path: bytes, added: set<bytes>)
    requires path !in added && (out.Some? ==> out.value.meta.path == path)
    ensures PathsDiffer(AddOf(out)) && PathsOf(AddOf(out)) !! added
  {
  }
}
