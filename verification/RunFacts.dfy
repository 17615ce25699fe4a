/** Facts about runs that the memtables built on hashing share: their size, the part of the writes
    that a shard sees, and when two runs are the same. */
module RunFacts {
  import opened Bytes
  import opened Entries
  import opened Ordering
  import opened Memtable
  import S = RangeScan

  function EntrySize(e: Entry): (n: nat)
  {
    |e.key| + |e.value|
  }

  function Size(es: seq<Entry>): (n: nat)
  {
    if es == [] then 0 else EntrySize(es[0]) + Size(es[1..])
  }

  function SizeOf(e: Option<Entry>): (n: nat)
  {
    match e case None => 0 case Some(x) => EntrySize(x)
  }

  /** What a write adds to the size: its own, less what it replaces. */
  lemma {:induction false} PutSize(es: seq<Entry>, e: Entry)
    requires Sorted(es)
    ensures Size(Put(es, e)) == Size(es) + EntrySize(e) - SizeOf(Find(es, e.key))
  {
    if es == [] {
    } else if Lt(e.key, es[0].key) {
      assert ([e] + es)[1..] == es;
      NotBelow(es, e.key);
    } else if es[0].key == e.key {
      assert ([e] + es[1..])[1..] == es[1..];
    } else {
      PutSize(es[1..], e);
      assert ([es[0]] + Put(es[1..], e))[1..] == Put(es[1..], e);
    }
  }

  /** A key below a sorted run is not in it. */
  lemma NotBelow(es: seq<Entry>, key: bytes)
    requires Sorted(es) && es != [] && Lt(key, es[0].key)
    ensures Find(es, key) == None
  {
    FindSound(es, key);
    LtIrreflexive(key);
    forall i | 0 <= i < |es| ensures es[i].key != key { if i > 0 { LtTransitive(key, es[0].key, es[i].key); } }
  }

  predicate KeyBefore(a: Entry, b: Entry)
  {
    Lt(a.key, b.key)
  }

  /** Two sorted runs with the same members are the same run. */
  lemma SameMembers(a: seq<Entry>, b: seq<Entry>)
    requires Sorted(a) && Sorted(b) && forall e :: e in a <==> e in b
    ensures a == b
  {
    hide Sorted;
    OneKeyOrder(a);
    OneKeyOrder(b);
    SortedUnique(a, b, KeyBefore);
  }

  lemma OneKeyOrder(es: seq<Entry>)
    requires Sorted(es)
    ensures SortedBy(es, KeyBefore) && Distinct(es)
    ensures forall d, e :: d in es && e in es && d != e ==> KeyBefore(d, e) || KeyBefore(e, d)
  {
    hide Lt;
    forall i, j | 0 <= i < j < |es| ensures !KeyBefore(es[j], es[i]) && es[i] != es[j] {
      LtAsymmetric(es[i].key, es[j].key);
      LtIrreflexive(es[i].key);
    }
  }

  /** What is in a run: the last write of each key. */
  lemma RunHas(writes: seq<Entry>, e: Entry)
    ensures Sorted(RunOf(writes))
    ensures e in RunOf(writes) <==> Last(writes, e.key) == Some(e)
  {
    var run := RunOf(writes);
    RunReads(writes, e.key);
    FindSound(run, e.key);
    if e in run {
      var i :| 0 <= i < |run| && run[i] == e;
      FindAt(run, i);
    }
  }

  lemma SameRuns(a: seq<Entry>, b: seq<Entry>)
    requires forall key: bytes :: Last(a, key) == Last(b, key)
    ensures RunOf(a) == RunOf(b)
  {
    RunReads(a, []);
    RunReads(b, []);
    forall e ensures e in RunOf(a) <==> e in RunOf(b) { RunHas(a, e); RunHas(b, e); }
    SameMembers(RunOf(a), RunOf(b));
  }

  lemma {:induction false} SelectHas(es: seq<Entry>, start: bytes, end: bytes)
    ensures forall e :: e in S.Select(es, start, end) <==> e in es && S.InRange(e.key, start, end)
  {
    hide S.InRange;
    if es != [] {
      SelectHas(es[..|es| - 1], start, end);
      assert es == es[..|es| - 1] + [es[|es| - 1]];
    }
  }

  lemma {:induction false} SelectSorted(es: seq<Entry>, start: bytes, end: bytes)
    requires Sorted(es)
    ensures Sorted(S.Select(es, start, end))
  {
    hide S.InRange;
    if es != [] {
      var front, e := es[..|es| - 1], es[|es| - 1];
      SelectSorted(front, start, end);
      SelectHas(front, start, end);
      var r := S.Select(front, start, end);
      if r != [] { assert r[|r| - 1] in front; }
      SortedAppend(r, e);
    }
  }

  /** A sorted list that holds the last writes in range, and nothing else, is the run's range. */
  lemma IsRange(writes: seq<Entry>, start: bytes, end: bytes, out: seq<Entry>)
    requires Sorted(out) && forall e :: e in out <==> Last(writes, e.key) == Some(e) && S.InRange(e.key, start, end)
    ensures out == S.Select(RunOf(writes), start, end)
  {
    RunReads(writes, []);
    SelectSorted(RunOf(writes), start, end);
    SelectHas(RunOf(writes), start, end);
    forall e ensures e in out <==> e in S.Select(RunOf(writes), start, end) { RunHas(writes, e); }
    SameMembers(out, S.Select(RunOf(writes), start, end));
  }

  lemma EmptyRange(es: seq<Entry>, start: bytes, end: bytes)
    requires start != [] && end != [] && !Lt(start, end)
    ensures S.Select(es, start, end) == []
  {
    SelectHas(es, start, end);
    var r := S.Select(es, start, end);
    if r != [] {
      assert r[0] in r;
      LeLtTransitive(start, r[0].key, end);
    }
  }

  lemma {:induction false} WholeRange(es: seq<Entry>)
    ensures S.Select(es, [], []) == es
  {
    if es != [] { WholeRange(es[..|es| - 1]); }
  }

  // ---------- what one shard sees ----------

  /** The writes whose key belongs to shard i. */
  function Part(writes: seq<Entry>, pick: bytes -> nat, i: nat): (r: seq<Entry>)
  {
    if writes == [] then []
    else
      Part(writes[..|writes| - 1], pick, i)
      + (if pick(writes[|writes| - 1].key) == i then [writes[|writes| - 1]] else [])
  }

  lemma {:induction false} PartAppend(a: seq<Entry>, b: seq<Entry>, pick: bytes -> nat, i: nat)
    ensures Part(a + b, pick, i) == Part(a, pick, i) + Part(b, pick, i)
  {
    if b == [] {
      assert a + b == a;
    } else {
      PartAppend(a, b[..|b| - 1], pick, i);
      assert (a + b)[..|a + b| - 1] == a + b[..|b| - 1];
    }
  }

  lemma {:induction false} PartLast(writes: seq<Entry>, pick: bytes -> nat, i: nat, key: bytes)
    ensures Last(Part(writes, pick, i), key) == if pick(key) == i then Last(writes, key) else None
  {
    if writes != [] {
      var front, e := writes[..|writes| - 1], writes[|writes| - 1];
      PartLast(front, pick, i, key);
      var p := Part(front, pick, i);
      assert (p + [e])[..|p|] == p;
      assert p + [] == p;
    }
  }

  /** Writes that look the same to every shard leave the same run. */
  lemma SameParts(a: seq<Entry>, b: seq<Entry>, pick: bytes -> nat)
    requires forall key: bytes :: Part(a, pick, pick(key)) == Part(b, pick, pick(key))
    ensures RunOf(a) == RunOf(b)
  {
    forall key: bytes ensures Last(a, key) == Last(b, key) {
      PartLast(a, pick, pick(key), key);
      PartLast(b, pick, pick(key), key);
    }
    SameRuns(a, b);
  }
}
