/** The table set: the live tables in read order, and tables that are removed but still pinned. */
module TableSet {
  import opened Bytes
  import opened Ordering
  import opened Tables
  import opened Compaction

  // ---------- lists of tables by path ----------

  ghost predicate PathsDiffer(ts: seq<Table>)
  {
    forall i, j :: 0 <= i < j < |ts| ==> ts[i].meta.path != ts[j].meta.path
  }

  function PathsOf(ts: seq<Table>): (s: set<bytes>)
  {
    set t | t in ts :: t.meta.path
  }

  /** The tables whose path is in the set, or those whose path is not. */
  function Where(ts: seq<Table>, paths: set<bytes>, inside: bool): (r: seq<Table>)
  {
    if ts == [] then []
    else
      var rest := Where(ts[1..], paths, inside);
      if (ts[0].meta.path in paths) == inside then [ts[0]] + rest else rest
  }

  lemma {:induction false} WhereMembers(ts: seq<Table>, paths: set<bytes>, inside: bool)
    ensures forall t :: t in Where(ts, paths, inside) <==> t in ts && (t.meta.path in paths) == inside
  {
    if ts != [] {
      WhereMembers(ts[1..], paths, inside);
      assert ts == [ts[0]] + ts[1..];
    }
  }

  lemma {:induction false} KeepIsWhere(ts: seq<Table>, remove: set<bytes>)
    ensures Keep(ts, remove) == Where(ts, remove, false)
  {
    if ts != [] { KeepIsWhere(ts[1..], remove); }
  }

  lemma {:induction false} WhereOne(ts: seq<Table>, t: Table, paths: set<bytes>, inside: bool)
    ensures Where(ts + [t], paths, inside) ==
            Where(ts, paths, inside) + (if (t.meta.path in paths) == inside then [t] else [])
  {
    if ts == [] {
      assert Where([t][1..], paths, inside) == [];
    } else {
      assert (ts + [t])[1..] == ts[1..] + [t];
      WhereOne(ts[1..], t, paths, inside);
    }
  }

  lemma {:induction false} WhereDiffers(ts: seq<Table>, paths: set<bytes>, inside: bool)
    requires PathsDiffer(ts)
    ensures PathsDiffer(Where(ts, paths, inside)) && |Where(ts, paths, inside)| <= |ts|
  {
    if ts != [] {
      assert PathsDiffer(ts[1..]);
      WhereDiffers(ts[1..], paths, inside);
      WhereMembers(ts[1..], paths, inside);
      var rest := Where(ts[1..], paths, inside);
      forall i | 0 <= i < |rest| ensures rest[i].meta.path != ts[0].meta.path {
        assert rest[i] in rest && rest[i] in ts[1..];
        var k :| 0 <= k < |ts[1..]| && ts[1..][k] == rest[i];
        assert ts[k + 1] == rest[i];
      }
    }
  }

  lemma WherePaths(ts: seq<Table>, paths: set<bytes>, inside: bool)
    ensures PathsOf(Where(ts, paths, inside)) == if inside then PathsOf(ts) * paths else PathsOf(ts) - paths
  {
    hide Where;
    WhereMembers(ts, paths, inside);
    forall p ensures p in PathsOf(Where(ts, paths, inside)) <==> p in PathsOf(ts) && (p in paths) == inside {
      if p in PathsOf(ts) && (p in paths) == inside {
        var t :| t in ts && t.meta.path == p;
        assert t in Where(ts, paths, inside);
      }
    }
  }

  lemma PathsAppend(a: seq<Table>, b: seq<Table>)
    ensures PathsOf(a + b) == PathsOf(a) + PathsOf(b)
  {
    assert forall t :: t in a + b <==> t in a || t in b;
  }

  lemma DifferAppend(a: seq<Table>, b: seq<Table>)
    requires PathsDiffer(a) && PathsDiffer(b) && PathsOf(a) !! PathsOf(b)
    ensures PathsDiffer(a + b)
  {
    var s := a + b;
    forall i, j | 0 <= i < j < |s| ensures s[i].meta.path != s[j].meta.path {
      if i < |a| <= j { assert a[i].meta.path in PathsOf(a) && b[j - |a|].meta.path in PathsOf(b); }
    }
  }

  /** Sorting keeps paths apart. */
  lemma SortDiffers(ts: seq<Table>)
    requires PathsDiffer(ts)
    ensures PathsDiffer(SortSlice(ts, ReadBefore))
  {
    var r := SortSlice(ts, ReadBefore);
    SortKeepsMembers(ts, ReadBefore);
    SortKeepsDistinct(ts, ReadBefore);
    forall i, j | 0 <= i < j < |r| ensures r[i].meta.path != r[j].meta.path {
      assert r[i] in r && r[j] in r;
      var a :| 0 <= a < |ts| && ts[a] == r[i];
      var b :| 0 <= b < |ts| && ts[b] == r[j];
    }
  }

  lemma EditedFacts(ts: seq<Table>, add: seq<Table>, remove: set<bytes>)
    requires PathsDiffer(ts) && PathsDiffer(add) && PathsOf(ts) !! PathsOf(add)
    ensures PathsDiffer(Edited(ts, add, remove))
            && PathsOf(Edited(ts, add, remove)) == (PathsOf(ts) - remove) + PathsOf(add)
  {
    hide PathsDiffer, Where, Keep;
    var k := Keep(ts, remove);
    KeepIsWhere(ts, remove);
    WhereDiffers(ts, remove, false);
    WherePaths(ts, remove, false);
    DifferAppend(k, add);
    PathsAppend(k, add);
    SortDiffers(k + add);
    SortKeepsMembers(k + add, ReadBefore);
  }

  function ByPath(ts: seq<Table>): (m: map<bytes, Table>)
  {
    if ts == [] then map[] else ByPath(ts[..|ts| - 1])[ts[|ts| - 1].meta.path := ts[|ts| - 1]]
  }

  lemma {:induction false} ByPathIs(ts: seq<Table>)
    ensures ByPath(ts).Keys == PathsOf(ts) && forall p :: p in ByPath(ts) ==> ByPath(ts)[p].meta.path == p
  {
    if ts != [] {
      var n := |ts| - 1;
      ByPathIs(ts[..n]);
      assert ts == ts[..n] + [ts[n]];
      PathsAppend(ts[..n], [ts[n]]);
      assert PathsOf([ts[n]]) == {ts[n].meta.path};
    }
  }

  /** Filters the first n tables in place, writing behind the reading position. */
  method FilterInPlace(a: array<Table>, n: nat, remove: set<bytes>) returns (m: nat, out: seq<Table>)
    requires n <= a.Length
    modifies a
    ensures m <= n && a[..m] == Where(old(a[..n]), remove, false) && out == Where(old(a[..n]), remove, true)
  {
    hide Where;
    ghost var before := a[..n];
    ghost var kept: seq<Table> := [];
    m, out := 0, [];
    FilterNone(before, remove);
    for i := 0 to n
      invariant m <= i && m == |kept| && kept == Where(before[..i], remove, false)
                && out == Where(before[..i], remove, true)
      invariant forall k :: 0 <= k < m ==> a[k] == kept[k]
      invariant forall k :: i <= k < n ==> a[k] == before[k]
    {
      var t := a[i];
      assert before[..i + 1] == before[..i] + [t];
      WhereOne(before[..i], t, remove, false);
      WhereOne(before[..i], t, remove, true);
      if t.meta.path in remove {
        out := out + [t];
      } else {
        a[m] := t;
        m := m + 1;
        kept := kept + [t];
      }
    }
    assert before[..n] == before;
    assert a[..m] == kept;
  }

  lemma FilterNone(ts: seq<Table>, remove: set<bytes>)
    ensures Where(ts[..0], remove, false) == [] && Where(ts[..0], remove, true) == []
  {
  }

  // ---------- the parts of the invariant ----------

  ghost predicate IndexOk(index: map<bytes, nat>, live: seq<Table>)
  {
    && (forall p :: p in index ==> index[p] < |live| && live[index[p]].meta.path == p)
    && (forall i :: 0 <= i < |live| ==> live[i].meta.path in index && index[live[i].meta.path] == i)
  }

  /** The pin counts are the pins held. */
  ghost predicate PinsOk(pinned: map<bytes, nat>, holds: multiset<bytes>)
  {
    forall p :: (p in pinned <==> p in holds) && (p in pinned ==> pinned[p] == holds[p])
  }

  ghost predicate PendingOk(pending: map<bytes, Table>, holds: multiset<bytes>)
  {
    forall p :: p in pending ==> pending[p].meta.path == p && p in holds
  }

  /** Every table ever added is live, pending or released: in exactly one of these, and released once. */
  ghost predicate Conserved(live: seq<Table>, pending: map<bytes, Table>, released: seq<Table>, added: set<bytes>)
  {
    && PathsDiffer(live) && PathsDiffer(released)
    && PathsOf(live) !! pending.Keys && PathsOf(live) !! PathsOf(released) && pending.Keys !! PathsOf(released)
    && added == PathsOf(live) + pending.Keys + PathsOf(released)
  }

  lemma PinOne(pinned: map<bytes, nat>, holds: multiset<bytes>, path: bytes)
    requires PinsOk(pinned, holds)
    ensures PinsOk(pinned[path := (if path in pinned then pinned[path] else 0) + 1], holds + multiset{path})
  {
  }

  lemma UnpinOne(pinned: map<bytes, nat>, holds: multiset<bytes>, path: bytes)
    requires PinsOk(pinned, holds) && path in holds
    ensures path in pinned && pinned[path] >= 1
    ensures PinsOk(if pinned[path] <= 1 then pinned - {path}
            else pinned[path := pinned[path] - 1], holds - multiset{path})
    ensures pinned[path] <= 1 <==> path !in holds - multiset{path}
  {
    var after := if pinned[path] <= 1 then pinned - {path} else pinned[path := pinned[path] - 1];
    var held := holds - multiset{path};
    forall p ensures (p in after <==> p in held) && (p in after ==> after[p] == held[p]) {
      assert held[p] == if p == path then holds[p] - 1 else holds[p];
    }
  }

  lemma ThreePlaces(live: set<bytes>, remove: set<bytes>, pins: set<bytes>, pending: set<bytes>, released: set<bytes>,
                    add: set<bytes>)
    requires live !! pending && live !! released && pending !! released && add !! (live + pending + released)
    ensures var l, g, z :=
            (live - remove) + add, pending + ((live * remove) * pins), released + ((live * remove) - pins);
            l !! g && l !! z && g !! z && l + g + z == (live + pending + released) + add
  {
  }

  /** What an edit does to the three places a table can be in. */
  lemma AfterEdit(live: seq<Table>, add: seq<Table>, remove: set<bytes>, pinned: map<bytes, nat>, pending: map<bytes,
                  Table>,
                  released: seq<Table>, added: set<bytes>, holds: multiset<bytes>)
    requires Conserved(live, pending, released, added) && PinsOk(pinned, holds) && PendingOk(pending, holds)
    requires PathsDiffer(add) && PathsOf(add) !! added
    ensures var out := Where(live, remove, true);
            var more, removed := ByPath(Where(out, pinned.Keys, true)), Where(out, pinned.Keys, false);
            && Conserved(Edited(live, add, remove), pending + more, released + removed, added + PathsOf(add))
            && PendingOk(pending + more, holds) && PathsDiffer(Edited(live, add, remove))
            && PathsOf(removed) == (PathsOf(live) * remove) - pinned.Keys
               && more.Keys == (PathsOf(live) * remove) * pinned.Keys
  {
    hide Edited, PathsDiffer, PathsOf, Where, ByPath;
    var out := Where(live, remove, true);
    var held, removed := Where(out, pinned.Keys, true), Where(out, pinned.Keys, false);
    WhereDiffers(live, remove, true);
    WherePaths(live, remove, true);
    WhereDiffers(out, pinned.Keys, false);
    WherePaths(out, pinned.Keys, false);
    WherePaths(out, pinned.Keys, true);
    ByPathIs(held);
    EditedFacts(live, add, remove);
    PathsAppend(released, removed);
    DifferAppend(released, removed);
    ThreePlaces(PathsOf(live), remove, pinned.Keys, pending.Keys, PathsOf(released), PathsOf(add));
    assert (pending + ByPath(held)).Keys == pending.Keys + ByPath(held).Keys;
  }

  lemma ReleaseOne(live: seq<Table>, pending: map<bytes, Table>, released: seq<Table>, added: set<bytes>, path: bytes)
    requires Conserved(live, pending, released, added) && path in pending && pending[path].meta.path == path
    ensures Conserved(live, pending - {path}, released + [pending[path]], added)
  {
    hide PathsDiffer;
    var t := pending[path];
    PathsAppend(released, [t]);
    assert PathsOf([t]) == {path};
    SingleDiffers(t);
    DifferAppend(released, [t]);
  }

  lemma SingleDiffers(t: Table)
    ensures PathsDiffer([t])
  {
  }

  method BuildIndex(ts: seq<Table>) returns (index: map<bytes, nat>)
    requires PathsDiffer(ts)
    ensures IndexOk(index, ts)
  {
    index := map[];
    for i := 0 to |ts|
      invariant forall p :: p in index ==> index[p] < i && ts[index[p]].meta.path == p
      invariant forall j :: 0 <= j < i ==> ts[j].meta.path in index && index[ts[j].meta.path] == j
    {
      index := index[ts[i].meta.path := i];
    }
  }

  // ---------- the set ----------

  class Set {
    var tables: array<Table>
    var n: nat
    var index: map<bytes, nat>
    var pinned: map<bytes, nat>
    var pending: map<bytes, Table>

    ghost var holds: multiset<bytes>     // the pins that holders have not given back
    ghost var released: seq<Table>       // what was handed out for deletion, in order
    ghost var added: set<bytes>          // every path ever added

    ghost function Live(): (ts: seq<Table>)
      requires n <= tables.Length
      reads this, tables
    {
      tables[..n]
    }

    ghost predicate Valid()
      reads this, tables
    {
      && n <= tables.Length && SortedBy(Live(), ReadBefore) && IndexOk(index, Live())
      && PinsOk(pinned, holds) && PendingOk(pending, holds) && Conserved(Live(), pending, released, added)
    }

    constructor ()
      ensures Valid() && fresh(tables) && Live() == [] && added == {} && holds == multiset{}
    {
      tables := new Table[0];
      n, index, pinned, pending := 0, map[], map[], map[];
      holds, released, added := multiset{}, [], {};
    }

    /** Applies an edit: the live list is the edited one; what leaves it is pending while pinned, and
        released otherwise. */
    method Apply(add: seq<Table>, remove: set<bytes>) returns (removed: seq<Table>)
      requires Valid() && PathsDiffer(add) && PathsOf(add) !! added
      modifies this, tables
      ensures Valid() && fresh(tables) && Live() == Edited(old(Live()), add, remove)
      ensures holds == old(holds) && added == old(added) + PathsOf(add) && released == old(released) + removed
      ensures PathsOf(removed) == (PathsOf(old(Live())) * remove) - old(pinned).Keys
      ensures pending.Keys == old(pending).Keys + ((PathsOf(old(Live())) * remove) * old(pinned).Keys)
    {
      hide SortedBy, IndexOk, PinsOk, PendingOk, Conserved, ReadBefore, Keep, Edited, Where, ByPath, PathsOf,
           PathsDiffer;
      ghost var live := Live();
      AfterEdit(live, add, remove, pinned, pending, released, added, holds);
      EditedIs(live, add, remove);
      var m, out := FilterInPlace(tables, n, remove);
      removed := Where(out, pinned.Keys, false);
      pending := pending + ByPath(Where(out, pinned.Keys, true));
      released := released + removed;
      added := added + PathsOf(add);
      var sorted := SortSlice(tables[..m] + add, ReadBefore);
      index := BuildIndex(sorted);
      tables := Filled(sorted);
      n := |sorted|;
    }

    /** Hands out the live tables and pins each of them. */
    method SnapshotAndPin() returns (out: seq<Table>)
      requires Valid()
      modifies `pinned, `holds
      ensures Valid() && out == Live() && holds == old(holds) + multiset(Paths(out))
    {
      hide SortedBy, IndexOk, Conserved, ReadBefore, PinsOk;
      out := tables[..n];
      ghost var now;
      pinned, now := PinAll(pinned, Paths(out), holds);
      StillPending(pending, holds, now);
      holds := now;
    }

    /** Gives one pin back; the last pin of a pending table releases it. */
    method UnpinPath(path: bytes) returns (ready: seq<Table>)
      requires Valid() && path in holds
      modifies `pinned, `pending, `holds, `released
      ensures Valid() && holds == old(holds) - multiset{path} && released == old(released) + ready
      ensures ready == Ready(old(pending), holds, path) && pending == Waiting(old(pending), holds, path)
    {
      hide SortedBy, IndexOk, ReadBefore, Conserved, PinsOk;
      UnpinOne(pinned, holds, path);
      ready := [];
      var count := if path in pinned then pinned[path] else 0;
      ghost var held := holds - multiset{path};
      if count <= 1 {
        pinned := pinned - {path};
        if path in pending {
          ReleaseOne(Live(), pending, released, added, path);
          ready := [pending[path]];
          released := released + ready;
          pending := pending - {path};
        }
        assert pending == old(pending) - {path};
      } else {
        pinned := pinned[path := count - 1];
      }
      LessHeld(pending, holds, path);
      holds := held;
    }

    /** Gives pins back, one by one. */
    method Unpin(paths: seq<bytes>) returns (ready: seq<Table>)
      requires Valid() && multiset(paths) <= holds
      modifies `pinned, `pending, `holds, `released
      ensures Valid() && holds == old(holds) - multiset(paths) && released == old(released) + ready
      ensures forall t :: t in ready ==> t.meta.path in old(pending) && t.meta.path !in holds
      ensures pending.Keys == set p | p in old(pending) && (p in holds || p !in multiset(paths))
    {
      hide SortedBy, IndexOk, ReadBefore, Conserved, PinsOk, PendingOk, GivenBack, Ready, Waiting, Set.Valid;
      ready := [];
      ghost var held0, pending0, released0 := holds, pending, released;
      ghost var given: multiset<bytes> := multiset{};
      NothingGiven(pending0, held0);
      assert multiset(paths[..0]) == given;
      for i := 0 to |paths|
        invariant Valid() && given == multiset(paths[..i]) && holds == held0 - given && released == released0 + ready
        invariant GivenBack(pending0, pending, ready, holds, given)
      {
        Remaining(paths, i, held0, given);
        PendingKnown();
        ghost var before, held := pending, holds;
        var more := UnpinPath(paths[i]);
        OneGiven(pending0, before, ready, held, given, paths[i], more);
        Regroup(released0, ready, more);
        ready := ready + more;
        given := given + multiset{paths[i]};
      }
      assert paths[..|paths|] == paths;
      AllGiven(pending0, pending, ready, holds, given);
    }

    lemma LiveFacts()
      requires Valid()
      ensures PathsDiffer(Live()) && PathsOf(Live()) <= added && PathsOf(Live()) !! pending.Keys
    {
      hide SortedBy, IndexOk, ReadBefore, PinsOk, PendingOk, PathsDiffer, PathsOf;
    }

    lemma PendingKnown()
      requires Valid()
      ensures forall p :: p in pending ==> pending[p].meta.path == p
    {
      hide SortedBy, IndexOk, ReadBefore, Conserved, PinsOk;
    }

    /** The tables named by metadata; fails exactly when one is not live. */
    method Resolve(metas: seq<TableMeta>) returns (r: Option<seq<Table>>)
      requires Valid()
      ensures r.Some? <==> forall i :: 0 <= i < |metas| ==> exists t :: t in Live() && t.meta.path == metas[i].path
      ensures r.Some? ==>
                && |r.value| == |metas|
                && forall i :: 0 <= i < |metas| ==> r.value[i] in Live() && r.value[i].meta.path == metas[i].path
    {
      hide SortedBy, PinsOk, PendingOk, Conserved, ReadBefore;
      var out: seq<Table> := [];
      for i := 0 to |metas|
        invariant |out| == i && forall j :: 0 <= j < i ==> out[j] in Live() && out[j].meta.path == metas[j].path
      {
        if metas[i].path !in index { return None; }
        var t := tables[index[metas[i].path]];
        assert t == Live()[index[metas[i].path]];
        out := out + [t];
      }
      return Some(out);
    }
  }

  /** What a returned pin releases, and what still waits. */
  ghost function Ready(pending: map<bytes, Table>, holds: multiset<bytes>, path: bytes): (ready: seq<Table>)
  {
    if path in pending && path !in holds then [pending[path]] else []
  }

  ghost function Waiting(pending: map<bytes, Table>, holds: multiset<bytes>, path: bytes): (still: map<bytes, Table>)
  {
    if path in holds then pending else pending - {path}
  }

  lemma Regroup(a: seq<Table>, b: seq<Table>, c: seq<Table>)
    ensures (a + b) + c == a + (b + c)
  {
  }

  /** What is ready, and what is still pending, once the pins given were given back. */
  ghost predicate GivenBack(before: map<bytes, Table>, pending: map<bytes, Table>, ready: seq<Table>,
                            holds: multiset<bytes>, given: multiset<bytes>)
  {
    && (forall t :: t in ready ==> t.meta.path in before && t.meta.path !in holds)
    && (forall p :: p in pending <==> p in before && (p in holds || p !in given))
    && (forall p :: p in pending ==> pending[p] == before[p])
  }

  lemma NothingGiven(pending: map<bytes, Table>, holds: multiset<bytes>)
    ensures GivenBack(pending, pending, [], holds, multiset{})
  {
  }

  lemma OneGiven(before: map<bytes, Table>, pending: map<bytes, Table>, ready: seq<Table>, holds: multiset<bytes>,
                 given: multiset<bytes>, path: bytes, more: seq<Table>)
    requires GivenBack(before, pending, ready, holds, given) && path in holds
    requires forall p :: p in pending ==> pending[p].meta.path == p
    requires more == Ready(pending, holds - multiset{path}, path)
    ensures GivenBack(before, Waiting(pending, holds - multiset{path}, path), ready + more, holds - multiset{path},
            given + multiset{path})
  {
    var held, paths := holds - multiset{path}, given + multiset{path};
    assert forall p :: p in held <==> p in holds && (p != path || path in held);
    assert forall p :: p in paths <==> p in given || p == path;
    assert forall t :: t in ready + more <==> t in ready || t in more;
  }

  lemma AllGiven(before: map<bytes, Table>, pending: map<bytes, Table>, ready: seq<Table>, holds: multiset<bytes>,
                 given: multiset<bytes>)
    requires GivenBack(before, pending, ready, holds, given)
    ensures forall t :: t in ready ==> t.meta.path in before && t.meta.path !in holds
    ensures pending.Keys == set p | p in before && (p in holds || p !in given)
  {
  }

  method Filled(ts: seq<Table>) returns (a: array<Table>)
    ensures fresh(a) && a.Length == |ts| && a[..|ts|] == ts
  {
    a := new Table[|ts|](i requires 0 <= i < |ts| => ts[i]);
  }

  function Paths(ts: seq<Table>): (r: seq<bytes>)
    ensures |r| == |ts| && forall i :: 0 <= i < |ts| ==> r[i] == ts[i].meta.path
  {
    seq(|ts|, i requires 0 <= i < |ts| => ts[i].meta.path)
  }

  method PinAll(pinned: map<bytes, nat>, paths: seq<bytes>, ghost holds: multiset<bytes>)
      returns (counts: map<bytes, nat>, ghost now: multiset<bytes>)
    requires PinsOk(pinned, holds)
    ensures PinsOk(counts, now) && now == holds + multiset(paths)
  {
    hide PinsOk;
    counts, now := pinned, holds;
    for i := 0 to |paths|
      invariant PinsOk(counts, now) && now == holds + multiset(paths[..i])
    {
      PinOne(counts, now, paths[i]);
      counts := counts[paths[i] := (if paths[i] in counts then counts[paths[i]] else 0) + 1];
      now := now + multiset{paths[i]};
      assert paths[..i + 1] == paths[..i] + [paths[i]];
    }
    assert paths[..|paths|] == paths;
  }

  lemma StillPending(pending: map<bytes, Table>, holds: multiset<bytes>, more: multiset<bytes>)
    requires PendingOk(pending, holds) && holds <= more
    ensures PendingOk(pending, more)
  {
  }

  lemma LessHeld(pending: map<bytes, Table>, holds: multiset<bytes>, path: bytes)
    requires PendingOk(pending, holds) && (path in pending ==> path in holds - multiset{path})
    ensures PendingOk(pending, holds - multiset{path})
  {
    forall p | p in pending
      ensures p in holds - multiset{path}
    {
      assert (holds - multiset{path})[p] == if p == path then holds[p] - 1 else holds[p];
    }
  }

  lemma Remaining(paths: seq<bytes>, i: nat, holds: multiset<bytes>, given: multiset<bytes>)
    requires i < |paths| && multiset(paths) <= holds && given == multiset(paths[..i])
    ensures paths[i] in holds - given
    ensures (holds - given) - multiset{paths[i]} == holds - (given + multiset{paths[i]})
    ensures multiset(paths[..i + 1]) == given + multiset{paths[i]}
  {
    assert paths == paths[..i] + [paths[i]] + paths[i + 1..];
    assert multiset(paths) == given + multiset{paths[i]} + multiset(paths[i + 1..]);
    assert paths[..i + 1] == paths[..i] + [paths[i]];
  }

  lemma EditedIs(live: seq<Table>, add: seq<Table>, remove: set<bytes>)
    ensures SortSlice(Where(live, remove, false) + add, ReadBefore) == Edited(live, add, remove)
    ensures SortedBy(Edited(live, add, remove), ReadBefore)
  {
    KeepIsWhere(live, remove);
    EditedMembers(live, add, remove);
  }
}
