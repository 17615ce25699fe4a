/** Versioned entries, key-sorted runs of them, and the plain linear search that
    every index structure in this project is compared with. */
module Entries {
  import opened Bytes

  datatype Entry = Entry(key: bytes, value: bytes, tombstone: bool, seqno: uint64)

  /** Strictly increasing keys: what memtables and compaction hand to the writer. */
  ghost predicate Sorted(es: seq<Entry>)
  {
    forall i, j :: 0 <= i < j < |es| ==> Lt(es[i].key, es[j].key)
  }

  function Find(es: seq<Entry>, key: bytes): (r: Option<Entry>)
  {
    if es == [] then None
    else if es[0].key == key then Some(es[0])
    else Find(es[1..], key)
  }

  predicate HasKey(es: seq<Entry>, key: bytes)
  {
    exists i :: 0 <= i < |es| && es[i].key == key
  }

  lemma {:induction false} FindSound(es: seq<Entry>, key: bytes)
    ensures Find(es, key).Some? <==> HasKey(es, key)
    ensures Find(es, key).Some? ==> Find(es, key).value in es && Find(es, key).value.key == key
  {
    if es != [] && es[0].key != key {
      FindSound(es[1..], key);
      assert forall i :: 1 <= i < |es| ==> es[i] == es[1..][i - 1];
      if HasKey(es, key) {
        var i :| 0 <= i < |es| && es[i].key == key;
        assert es[1..][i - 1].key == key;
      }
    }
  }

  lemma SortedIsInjective(es: seq<Entry>, i: nat, j: nat)
    requires Sorted(es) && i < |es| && j < |es| && es[i].key == es[j].key
    ensures i == j
  {
    LtIrreflexive(es[i].key);
  }

  /** In a sorted run, the entry at any index is the one found under its key. */
  lemma FindAt(es: seq<Entry>, i: nat)
    requires Sorted(es) && i < |es|
    ensures Find(es, es[i].key) == Some(es[i])
  {
    FindSound(es, es[i].key);
    assert HasKey(es, es[i].key);
    var e := Find(es, es[i].key).value;
    var j: nat :| j < |es| && es[j] == e;
    SortedIsInjective(es, i, j);
  }

  lemma SortedAppend(es: seq<Entry>, e: Entry)
    requires Sorted(es)
    requires es != [] ==> Lt(es[|es| - 1].key, e.key)
    ensures Sorted(es + [e])
  {
    forall i | 0 <= i < |es| ensures Lt(es[i].key, e.key) {
      if i < |es| - 1 { LtTransitive(es[i].key, es[|es| - 1].key, e.key); }
    }
  }

  lemma {:induction false} FindAfter(out: seq<Entry>, e: Entry, key: bytes)
    ensures Find(out + [e], key) == if Find(out, key).Some? then Find(out, key) else if e.key == key then Some(e)
            else None
  {
    if out == [] {
      assert ([e])[1..] == [];
    } else {
      assert (out + [e])[1..] == out[1..] + [e];
      FindAfter(out[1..], e, key);
    }
  }
}
