/** The abstract memtable: a key-sorted run in which the last applied entry of a
    key wins. The skiplist, the sharded table and the map table all refine it. */
module Memtable {
  import opened Bytes
  import opened Entries

  /** Inserts an entry at its place, or replaces the entry under its key. */
  function Put(es: seq<Entry>, e: Entry): (r: seq<Entry>)
  {
    if es == [] || Lt(e.key, es[0].key) then [e] + es
    else if es[0].key == e.key then [e] + es[1..]
    else [es[0]] + Put(es[1..], e)
  }

  /** The run that a sequence of writes leaves behind. */
  function RunOf(writes: seq<Entry>): (r: seq<Entry>)
  {
    if writes == [] then [] else Put(RunOf(writes[..|writes| - 1]), writes[|writes| - 1])
  }

  /** The last write to a key. */
  function Last(writes: seq<Entry>, key: bytes): (r: Option<Entry>)
  {
    if writes == [] then None
    else if writes[|writes| - 1].key == key then Some(writes[|writes| - 1])
    else Last(writes[..|writes| - 1], key)
  }

  lemma {:induction false} PutMembers(es: seq<Entry>, e: Entry)
    ensures forall x :: x in Put(es, e) ==> x == e || x in es
    ensures Put(es, e) != [] && e in Put(es, e)
  {
    if es != [] && !Lt(e.key, es[0].key) && es[0].key != e.key { PutMembers(es[1..], e); }
  }

  lemma {:induction false} PutSorted(es: seq<Entry>, e: Entry)
    requires Sorted(es)
    ensures Sorted(Put(es, e))
  {
    if es == [] {
    } else if Lt(e.key, es[0].key) {
      forall i | 0 <= i < |es| ensures Lt(e.key, es[i].key) { if i > 0 { LtTransitive(e.key, es[0].key, es[i].key); } }
    } else if es[0].key != e.key {
      LtTrichotomy(e.key, es[0].key);
      PutSorted(es[1..], e);
      PutMembers(es[1..], e);
      var t := Put(es[1..], e);
      forall x | x in t ensures Lt(es[0].key, x.key) {
        if x in es[1..] { var i :| 0 <= i < |es[1..]| && es[1..][i] == x; assert es[i + 1] == x; }
      }
    }
  }

  lemma {:induction false} PutFind(es: seq<Entry>, e: Entry, key: bytes)
    requires Sorted(es)
    ensures Find(Put(es, e), key) == if key == e.key then Some(e) else Find(es, key)
  {
    if es == [] || Lt(e.key, es[0].key) {
      assert ([e] + es)[1..] == es;
    } else if es[0].key == e.key {
      assert ([e] + es[1..])[1..] == es[1..];
    } else {
      PutFind(es[1..], e, key);
      assert ([es[0]] + Put(es[1..], e))[1..] == Put(es[1..], e);
    }
  }

  lemma {:induction false} PutLength(es: seq<Entry>, e: Entry)
    requires Sorted(es)
    ensures |Put(es, e)| == if HasKey(es, e.key) then |es| else |es| + 1
  {
    if es == [] {
    } else if Lt(e.key, es[0].key) {
      forall i | 0 <= i < |es| ensures es[i].key != e.key {
        LtIrreflexive(e.key);
        if i > 0 { LtTransitive(e.key, es[0].key, es[i].key); }
      }
    } else if es[0].key == e.key {
    } else {
      PutLength(es[1..], e);
      assert HasKey(es, e.key) <==> HasKey(es[1..], e.key) by {
        if HasKey(es, e.key) { var i :| 0 <= i < |es| && es[i].key == e.key; assert es[1..][i - 1].key == e.key; }
        if HasKey(es[1..], e.key) {
          var i :| 0 <= i < |es[1..]| && es[1..][i].key == e.key;
          assert es[i + 1].key == e.key;
        }
      }
    }
  }

  /** A run is sorted, and reads back the last write of every key. */
  lemma {:induction false} RunReads(writes: seq<Entry>, key: bytes)
    ensures Sorted(RunOf(writes))
    ensures Find(RunOf(writes), key) == Last(writes, key)
  {
    if writes != [] {
      var front, e := writes[..|writes| - 1], writes[|writes| - 1];
      RunReads(front, key);
      PutSorted(RunOf(front), e);
      PutFind(RunOf(front), e, key);
    }
  }

  lemma {:induction false} RunMembers(writes: seq<Entry>)
    ensures forall x :: x in RunOf(writes) ==> x in writes
    ensures writes != [] ==> RunOf(writes) != [] && writes[|writes| - 1] in RunOf(writes)
  {
    if writes != [] {
      var front, e := writes[..|writes| - 1], writes[|writes| - 1];
      RunMembers(front);
      PutMembers(RunOf(front), e);
      assert writes == front + [e];
    }
  }

  lemma {:induction false} LastConcat(a: seq<Entry>, b: seq<Entry>, key: bytes)
    ensures Last(a + b, key) == if Last(b, key).Some? then Last(b, key) else Last(a, key)
  {
    if b == [] {
      assert a + b == a;
    } else {
      LastConcat(a, b[..|b| - 1], key);
      assert (a + b)[..|a + b| - 1] == a + b[..|b| - 1];
    }
  }

  lemma {:induction false} LastSound(writes: seq<Entry>, key: bytes)
    ensures Last(writes, key).Some? <==> HasKey(writes, key)
    ensures Last(writes, key).Some? ==> Last(writes, key).value in writes && Last(writes, key).value.key == key
  {
    if writes != [] {
      var front, e := writes[..|writes| - 1], writes[|writes| - 1];
      LastSound(front, key);
      assert writes == front + [e];
      if HasKey(front, key) { var i :| 0 <= i < |front| && front[i].key == key; assert writes[i].key == key; }
      if HasKey(writes, key) && e.key != key {
        var i :| 0 <= i < |writes| && writes[i].key == key;
        assert front[i].key == key;
      }
    }
  }
}
