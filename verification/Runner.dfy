/** SimpleRunner.Run: from a plan and its resolved tables to the output table. */
module Runner {
  import opened Bytes
  import opened Entries
  import opened Ordering
  import opened Tables
  import opened Planner
  import opened Compaction
  import opened MergeRunner
  import opened MergeHeads

  datatype RunResult =
    | Nothing                                                  // empty plan
    | Failed                                                   // no input tables, or a read error
    | Done(output: Option<Table>, obsolete: seq<TableMeta>)

  predicate NewerTable(t: Table, u: Table)
  {
    t.meta.seqMax > u.meta.seqMax
  }

  lemma NewerTableIsStrictWeak()
    ensures StrictWeak(NewerTable)
  {
    forall t, u ensures Asymmetric(NewerTable, t, u) { }
    forall t, u, v ensures Between(NewerTable, t, u, v) { }
  }

  function SourcesOf(ts: seq<Table>, fails: Table -> bool): (r: seq<Source>)
    ensures |r| == |ts| && forall i :: 0 <= i < |ts| ==> r[i] == Source(ts[i].entries, fails(ts[i]))
  {
    seq(|ts|, i requires 0 <= i < |ts| => Source(ts[i].entries, fails(ts[i])))
  }

  lemma SourcesAreInputs(ts: seq<Table>, fails: Table -> bool)
    requires forall t :: t in ts ==> Sorted(t.entries)
    ensures Inputs(SourcesOf(ts, fails))
  {
    forall s | 0 <= s < |ts| ensures NewestFirst(ts[s].entries) { assert ts[s] in ts; }
  }

  lemma TakenIsVersion(ins: seq<Table>, ts: seq<Table>, fails: Table -> bool, e: Entry)
    requires forall t :: t in ts <==> t in ins
    ensures Taken(SourcesOf(ts, fails), Ends(SourcesOf(ts, fails)), e) <==> VersionIn(ins, e)
  {
    var src := SourcesOf(ts, fails);
    if Taken(src, Ends(src), e) {
      var s, i :| 0 <= s < |src| && 0 <= i < Ends(src)[s] && src[s].entries[i] == e;
      assert ts[s] in ins;
    }
    if VersionIn(ins, e) {
      var t :| t in ins && e in t.entries;
      assert t in ts;
      var s :| 0 <= s < |ts| && ts[s] == t;
      var i :| 0 <= i < |t.entries| && t.entries[i] == e;
      assert src[s].entries[i] == e;
    }
  }

  lemma MergeOfTables(ins: seq<Table>, ts: seq<Table>, fails: Table -> bool, out: seq<Entry>, drop: bool)
    requires (forall t :: t in ts <==> t in ins) && MergeOf(SourcesOf(ts, fails), out, drop)
    ensures MergedFrom(ins, out, drop)
  {
    var src := SourcesOf(ts, fails);
    var ends := Ends(src);
    forall e ensures Taken(src, ends, e) <==> VersionIn(ins, e) { TakenIsVersion(ins, ts, fails, e); }
    forall e ensures Best(src, ends, e) <==> BestIn(ins, e) { BestAgrees(src, ends, ins, e); }
    forall f | VersionIn(ins, f)
      ensures (exists e :: e in out && e.key == f.key)
              || (drop && exists g :: BestIn(ins, g) && g.key == f.key && g.tombstone)
    {
      assert Covered(src, ends, out, drop, f.key);
    }
  }

  lemma BestAgrees(src: seq<Source>, ends: seq<nat>, ins: seq<Table>, e: Entry)
    requires Progress(src, ends) && forall f :: Taken(src, ends, f) <==> VersionIn(ins, f)
    ensures Best(src, ends, e) <==> BestIn(ins, e)
  {
    hide Taken, VersionIn;
  }

  /** Merges the resolved tables of a plan; every plan input becomes obsolete. */
  method Run(plan: Plan, inputs: seq<Table>, drop: bool, fails: Table -> bool, path: bytes, size: uint64)
    returns (r: RunResult)
    requires forall t :: t in inputs ==> WfTable(t)
    ensures r.Nothing? <==> plan.inputs == []
    ensures r.Failed? <==> plan.inputs != [] && (inputs == [] || exists t :: t in inputs && fails(t))
    ensures r.Done? ==> r.obsolete == plan.inputs
    ensures r.Done? && r.output.None? ==> MergedFrom(inputs, [], drop)
    ensures r.Done? && r.output.Some? ==>
              var t := r.output.value;
              WfTable(t) && t.meta.level == plan.outputLevel && t.meta.path == path
                && MergedFrom(inputs, t.entries, drop)
  {
    hide SortSlice, MergeOf, MergedFrom, Sorted, Inputs;
    if plan.inputs == [] { return Nothing; }
    if inputs == [] { return Failed; }
    NewerTableIsStrictWeak();
    var sorted := SortSlice(inputs, NewerTable);
    SortKeepsMembers(inputs, NewerTable);
    var sources := SourcesOf(sorted, fails);
    SourcesAreInputs(sorted, fails);
    var merged := MergeEntries(sources, drop);
    SomeFails(inputs, sorted, fails);
    if merged.Err? { return Failed; }
    MergeOfTables(inputs, sorted, fails, merged.entries, drop);
    if merged.entries == [] { return Done(None, plan.inputs); }
    NewTableIsWf(path, plan.outputLevel, size, merged.entries);
    return Done(Some(NewTable(path, plan.outputLevel, size, merged.entries)), plan.inputs);
  }

  lemma SomeFails(ins: seq<Table>, ts: seq<Table>, fails: Table -> bool)
    requires forall t :: t in ts <==> t in ins
    ensures (exists s :: 0 <= s < |SourcesOf(ts, fails)| && SourcesOf(ts, fails)[s].fails) <==>
              exists t :: t in ins && fails(t)
  {
    var src := SourcesOf(ts, fails);
    if t :| t in ins && fails(t) {
      assert t in ts;
      var s :| 0 <= s < |ts| && ts[s] == t;
      assert src[s].fails;
    }
    if s :| 0 <= s < |src| && src[s].fails { assert ts[s] in ins; }
  }
}
