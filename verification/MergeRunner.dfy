/** The compaction runner: a k-way merge that keeps the newest version per key. */
module MergeRunner {
  import opened Bytes
  import opened Entries
  import opened Ordering
  import opened MergeHeads

  datatype Result = Ok(entries: seq<Entry>) | Err

  // ---------- specification ----------

  /** e wins over f under the same key: higher sequence, then tombstone. */
  predicate Newer(e: Entry, f: Entry)
  {
    e.seqno > f.seqno || (e.seqno == f.seqno && e.tombstone && !f.tombstone)
  }

  /** Sorted by key and, under one key, newest first: the order in which a table is written. */
  ghost predicate NewestFirst(es: seq<Entry>)
  {
    forall i, j :: 0 <= i < j < |es| ==>
      Lt(es[i].key, es[j].key) || (es[i].key == es[j].key && !Newer(es[j], es[i]))
  }

  ghost predicate Inputs(ins: seq<Source>)
  {
    forall s :: 0 <= s < |ins| ==> NewestFirst(ins[s].entries)
  }

  ghost predicate Best(ins: seq<Source>, next: seq<nat>, e: Entry)
    requires Progress(ins, next)
  {
    Taken(ins, next, e) && forall f :: Taken(ins, next, f) && f.key == e.key ==> !Newer(f, e)
  }

  /** `out` is the merge of what has been consumed so far: strictly increasing keys,
      each with a best entry; a key is missing only if its best entry is a dropped tombstone. */
  ghost predicate MergeOfTaken(ins: seq<Source>, next: seq<nat>, out: seq<Entry>, drop: bool)
    requires Progress(ins, next)
  {
    && Sorted(out)
    && (forall e :: e in out ==> Best(ins, next, e) && !(drop && e.tombstone))
    && (forall f :: Taken(ins, next, f) ==> Covered(ins, next, out, drop, f.key))
  }

  ghost predicate Covered(ins: seq<Source>, next: seq<nat>, out: seq<Entry>, drop: bool, key: bytes)
    requires Progress(ins, next)
  {
    || (exists e :: e in out && e.key == key)
    || (drop && exists g :: Best(ins, next, g) && g.key == key && g.tombstone)
  }

  ghost predicate MergeOf(ins: seq<Source>, out: seq<Entry>, drop: bool)
  {
    MergeOfTaken(ins, Ends(ins), out, drop)
  }

  /** `best` is a head with this key, and no head with this key wins over it. */
  ghost predicate BestHead(ins: seq<Source>, next: seq<nat>, key: bytes, best: Entry)
    requires Progress(ins, next)
  {
    && (exists s :: 0 <= s < |ins| && next[s] < |ins[s].entries| && ins[s].entries[next[s]] == best && best.key == key)
    && (forall s :: 0 <= s < |ins| && next[s] < |ins[s].entries| && ins[s].entries[next[s]].key == key
          ==> !Newer(ins[s].entries[next[s]], best))
  }

  lemma RoundBest(ins: seq<Source>, next: seq<nat>, next': seq<nat>, key: bytes, best: Entry)
    requires Inputs(ins) && Progress(ins, next) && Progress(ins, next')
    requires Frontier(ins, next) && Round(ins, next, next', key) && BestHead(ins, next, key, best)
    ensures Best(ins, next', best)
  {
    var b :| 0 <= b < |ins| && next[b] < |ins[b].entries| && ins[b].entries[next[b]] == best && best.key == key;
    LtIrreflexive(key);
    assert next[b] < next'[b];
    assert Taken(ins, next', best);
    forall f | Taken(ins, next', f) && f.key == key ensures !Newer(f, best) {
      var s, i :| 0 <= s < |ins| && 0 <= i < next'[s] && ins[s].entries[i] == f;
      if i < next[s] {
        assert Taken(ins, next, f);
        KeyIsNew(ins, next, key, f);
        assert false;
      } else if i > next[s] {
        assert ins[s].entries[next[s]].key == key;
        assert !Newer(f, ins[s].entries[next[s]]);
      }
    }
  }

  /** Best entries of earlier rounds stay best: later rounds bring other keys. */
  lemma BestPersists(ins: seq<Source>, next: seq<nat>, next': seq<nat>, key: bytes, best: Entry, e: Entry)
    requires Progress(ins, next) && Progress(ins, next')
    requires Frontier(ins, next) && Round(ins, next, next', key) && BestHead(ins, next, key, best)
    requires Best(ins, next, e)
    ensures Best(ins, next', e)
  {
    TakenSplit(ins, next, next', key, e);
    KeyIsNew(ins, next, key, e);
    forall f | Taken(ins, next', f) && f.key == e.key ensures !Newer(f, e) {
      TakenSplit(ins, next, next', key, f);
    }
  }

  lemma RoundSorted(ins: seq<Source>, next: seq<nat>, key: bytes, best: Entry, out: seq<Entry>)
    requires Progress(ins, next) && Frontier(ins, next) && BestHead(ins, next, key, best)
    requires Sorted(out) && forall e :: e in out ==> Taken(ins, next, e)
    ensures Sorted(out + [best])
  {
    assert best.key == key;
    if out != [] {
      assert out[|out| - 1] in out;
      KeyIsNew(ins, next, key, out[|out| - 1]);
    }
    SortedAppend(out, best);
  }

  /** A round extends the merge by its best entry, unless that is a dropped tombstone. */
  lemma RoundMerges(ins: seq<Source>, next: seq<nat>, next': seq<nat>, key: bytes, best: Entry,
                    out: seq<Entry>, drop: bool)
    requires Inputs(ins) && Progress(ins, next) && Progress(ins, next')
    requires Frontier(ins, next) && Round(ins, next, next', key) && BestHead(ins, next, key, best)
    requires MergeOfTaken(ins, next, out, drop)
    ensures MergeOfTaken(ins, next', if best.tombstone && drop then out else out + [best], drop)
  {
    var out' := if best.tombstone && drop then out else out + [best];
    RoundSorted(ins, next, key, best, out);
    RoundBest(ins, next, next', key, best);
    forall e | e in out' ensures Best(ins, next', e) && !(drop && e.tombstone) {
      if e in out { BestPersists(ins, next, next', key, best, e); }
    }
    forall f | Taken(ins, next', f) ensures Covered(ins, next', out', drop, f.key) {
      RoundCovers(ins, next, next', key, best, out, out', drop, f);
    }
  }

  lemma RoundCovers(ins: seq<Source>, next: seq<nat>, next': seq<nat>, key: bytes, best: Entry,
                    out: seq<Entry>, out': seq<Entry>, drop: bool, f: Entry)
    requires Progress(ins, next) && Progress(ins, next')
    requires Frontier(ins, next) && Round(ins, next, next', key) && BestHead(ins, next, key, best)
    requires MergeOfTaken(ins, next, out, drop) && Best(ins, next', best)
    requires out' == if best.tombstone && drop then out else out + [best]
    requires Taken(ins, next', f)
    ensures Covered(ins, next', out', drop, f.key)
  {
    TakenSplit(ins, next, next', key, f);
    if Taken(ins, next, f) {
      CoveredPersists(ins, next, next', key, best, out, out', drop, f.key);
    } else {
      assert f.key == best.key;
      if !(best.tombstone && drop) { assert out'[|out|] == best; }
    }
  }

  lemma CoveredPersists(ins: seq<Source>, next: seq<nat>, next': seq<nat>, key: bytes, best: Entry,
                        out: seq<Entry>, out': seq<Entry>, drop: bool, k: bytes)
    requires Progress(ins, next) && Progress(ins, next')
    requires Frontier(ins, next) && Round(ins, next, next', key) && BestHead(ins, next, key, best)
    requires Covered(ins, next, out, drop, k) && out <= out'
    ensures Covered(ins, next', out', drop, k)
  {
    if e :| e in out && e.key == k {
      var i :| 0 <= i < |out| && out[i] == e;
      assert out'[i] == e;
    } else {
      var g :| Best(ins, next, g) && g.key == k && g.tombstone;
      BestPersists(ins, next, next', key, best, g);
    }
  }

  // ---------- implementation ----------

  /** mergeHeap.Less: by key, then newest first. */
  predicate ItemLess(a: MergeItem, b: MergeItem)
  {
    Lt(a.entry.key, b.entry.key) || (a.entry.key == b.entry.key && Newer(a.entry, b.entry))
  }

  lemma ItemLessIsStrictWeak()
    ensures StrictWeak(ItemLess) && KeyFirst(ItemLess)
  {
    OrderFacts();
    forall a, b ensures Asymmetric(ItemLess, a, b) { }
    forall a, b, c ensures Between(ItemLess, a, b, c) { }
    forall a, b ensures ComesFirst(ItemLess, a, b) { }
  }

  /** The newest entry of the group; on a tie of sequence numbers a tombstone wins. */
  method BestOf(group: seq<MergeItem>) returns (best: Entry)
    requires group != []
    ensures exists it :: it in group && it.entry == best
    ensures forall it :: it in group ==> !Newer(it.entry, best)
  {
    best := group[0].entry;
    for i := 1 to |group|
      invariant exists k :: 0 <= k < |group| && group[k].entry == best
      invariant forall k :: 0 <= k < i ==> !Newer(group[k].entry, best)
    {
      var g := group[i].entry;
      if g.seqno > best.seqno {
        best := g;
      } else if g.seqno == best.seqno && g.tombstone && !best.tombstone {
        best := g;
      }
    }
  }

  /** Moves past the remaining entries under the key: the next head, or the end of
      the input with its error flag. */
  method AdvanceIterator(ins: seq<Source>, item: MergeItem, key: bytes) returns (idx: nat)
    requires item.src < |ins| && item.idx < |ins[item.src].entries|
    ensures item.idx < idx <= |ins[item.src].entries|
    ensures forall k :: item.idx < k < idx ==> ins[item.src].entries[k].key == key
    ensures idx < |ins[item.src].entries| ==> ins[item.src].entries[idx].key != key
  {
    idx := item.idx + 1;
    while idx < |ins[item.src].entries| && ins[item.src].entries[idx].key == key
      invariant item.idx < idx <= |ins[item.src].entries|
      invariant forall k :: item.idx < k < idx ==> ins[item.src].entries[k].key == key
    {
      idx := idx + 1;
    }
  }

  /** Advances one iterator and, unless it ended, puts its next head back. */
  method AdvanceItem(ins: seq<Source>, g: MergeItem, h0: seq<MergeItem>, key: bytes, ghost next0: seq<nat>,
                     ghost live: set<nat>)
    returns (ok: bool, h: seq<MergeItem>, ghost next: seq<nat>)
    requires Progress(ins, next0) && HeapOrdered(h0, ItemLess) && HeapHolds(h0, ins, next0, live)
    requires IsHead(ins, next0, g) && g.entry.key == key && g.src !in live
    ensures !ok ==> exists s :: 0 <= s < |ins| && ins[s].fails
    ensures ok ==> Progress(ins, next) && HeapOrdered(h, ItemLess)
    ensures ok ==> next == next0[g.src := next[g.src]] && Advanced(ins, g.src, next0, next, key)
    ensures ok ==> HeapHolds(h, ins, next, if next[g.src] < |ins[g.src].entries| then live + {g.src} else live)
    ensures ok ==> next[g.src] < |ins[g.src].entries| || !ins[g.src].fails
  {
    ItemLessIsStrictWeak();
    var idx := AdvanceIterator(ins, g, key);
    next := next0[g.src := idx];
    h := h0;
    StillHolds(h, ins, next0, next, live, g.src);
    if idx < |ins[g.src].entries| {
      var it := Head(ins, g.src, idx);
      h := HeapPush(h, it, ItemLess);
      AddHead(h0, h, it, ins, next, live);
    } else if ins[g.src].fails {
      return false, [], next;
    }
    ok := true;
  }

  /** Advances every iterator of the group and puts the live ones back. */
  method AdvanceGroup(ins: seq<Source>, group: seq<MergeItem>, h0: seq<MergeItem>, key: bytes,
                      ghost next0: seq<nat>, ghost live0: set<nat>)
    returns (ok: bool, h: seq<MergeItem>, ghost next: seq<nat>)
    requires Progress(ins, next0) && HeapOrdered(h0, ItemLess) && HeapHolds(h0, ins, next0, live0)
    requires Group(ins, next0, group, key) && live0 !! Sources(group)
    ensures !ok ==> exists s :: 0 <= s < |ins| && ins[s].fails
    ensures ok ==> Progress(ins, next) && HeapOrdered(h, ItemLess)
    ensures ok ==> HeapHolds(h, ins, next, live0 + (Sources(group) * Pending(ins, next)))
    ensures ok ==> AllAdvanced(ins, Sources(group), next0, next, key)
  {
    hide HeapHolds, HeapOrdered, Group, ItemLess, AllAdvanced;
    h := h0;
    next := next0;
    ghost var done: set<nat> := {};
    NoneAdvanced(ins, next0, key);
    assert live0 + (done * Pending(ins, next)) == live0;
    for n := 0 to |group|
      invariant Progress(ins, next) && HeapOrdered(h, ItemLess)
      invariant HeapHolds(h, ins, next, live0 + (done * Pending(ins, next)))
      invariant done == Sources(group[..n])
      invariant AllAdvanced(ins, done, next0, next, key)
    {
      var g := group[n];
      assert group[..n + 1] == group[..n] + [g];
      assert Sources(group[..n + 1]) == done + {g.src};
      HeadStill(ins, group, next0, next, key, live0, done, n);
      ghost var was, live := next, live0 + (done * Pending(ins, next));
      ok, h, next := AdvanceItem(ins, g, h, key, next, live);
      if !ok { return; }
      AdvancedFrom(ins, g.src, next0, was, next, key);
      AdvanceOne(ins, done, next0, was, next, key, g.src);
      LiveAfter(ins, was, next, live0, done, g.src);
      done := done + {g.src};
    }
    assert group[..|group|] == group;
    ok := true;
  }

  lemma NoneAdvanced(ins: seq<Source>, next: seq<nat>, key: bytes)
    requires |next| == |ins|
    ensures AllAdvanced(ins, {}, next, next, key)
  {
  }

  lemma HeadStill(ins: seq<Source>, group: seq<MergeItem>, next0: seq<nat>, next: seq<nat>, key: bytes, live: set<nat>,
                  done: set<nat>, n: nat)
    requires Progress(ins, next0) && |next| == |ins| && n < |group| && Group(ins, next0, group, key)
             && live !! Sources(group)
    requires done == Sources(group[..n]) && AllAdvanced(ins, done, next0, next, key)
    ensures var g := group[n];
            g.src < |ins| && g.src !in done && g.src !in live && IsHead(ins, next, g) && g.entry.key == key
              && next[g.src] == next0[g.src]
  {
    NotYet(group, n);
    assert group[n] in group;
  }

  lemma AdvancedFrom(ins: seq<Source>, s: nat, next0: seq<nat>, was: seq<nat>, next: seq<nat>, key: bytes)
    requires |next0| == |ins| == |was| == |next| && s < |ins| && was[s] == next0[s] && Advanced(ins, s, was, next, key)
    ensures Advanced(ins, s, next0, next, key)
  {
  }

  lemma LiveAfter(ins: seq<Source>, was: seq<nat>, next: seq<nat>, live0: set<nat>, done: set<nat>, s: nat)
    requires |was| == |ins| == |next| && s < |ins| && next == was[s := next[s]] && s !in done && s !in live0
    ensures live0 + ((done + {s}) * Pending(ins, next)) ==
              if next[s] < |ins[s].entries| then live0 + (done * Pending(ins, was)) + {s}
                else live0 + (done * Pending(ins, was))
  {
    forall t | t in done ensures t in Pending(ins, next) <==> t in Pending(ins, was) { }
  }

  lemma NotYet(group: seq<MergeItem>, n: nat)
    requires n < |group| && forall i, j :: 0 <= i < j < |group| ==> group[i].src != group[j].src
    ensures group[n].src !in Sources(group[..n]) && group[n].src in Sources(group)
  {
  }

  /** These inputs, and no others, have been moved past the key, and none of them ran into its error. */
  ghost predicate AllAdvanced(ins: seq<Source>, done: set<nat>, next0: seq<nat>, next: seq<nat>, key: bytes)
    requires |next0| == |ins| == |next|
  {
    forall s :: 0 <= s < |ins| ==>
      if s in done then Advanced(ins, s, next0, next, key) && (next[s] < |ins[s].entries| || !ins[s].fails)
      else next[s] == next0[s]
  }

  lemma AdvanceOne(ins: seq<Source>, done: set<nat>, next0: seq<nat>, was: seq<nat>, next: seq<nat>, key: bytes, s: nat)
    requires |next0| == |ins| == |next| == |was| && s < |ins| && s !in done
    requires AllAdvanced(ins, done, next0, was, key) && next == was[s := next[s]]
    requires Advanced(ins, s, next0, next, key)
    ensures next[s] < |ins[s].entries| || !ins[s].fails ==> AllAdvanced(ins, done + {s}, next0, next, key)
  {
    forall t | 0 <= t < |ins| && t in done ensures Advanced(ins, t, next0, next, key) {
      assert Advanced(ins, t, next0, was, key);
    }
  }

  ghost predicate Advanced(ins: seq<Source>, s: nat, next0: seq<nat>, next: seq<nat>, key: bytes)
    requires |next0| == |ins| == |next|
  {
    && s < |ins| && next0[s] < next[s] <= |ins[s].entries|
    && (forall k :: next0[s] <= k < next[s] ==> ins[s].entries[k].key == key)
    && (next[s] < |ins[s].entries| ==> ins[s].entries[next[s]].key != key)
  }

  /** An advanced input has only larger keys left. */
  lemma AdvancedIsRound(ins: seq<Source>, s: nat, next0: seq<nat>, next: seq<nat>, key: bytes, i: nat)
    requires Inputs(ins) && |next0| == |ins| == |next| && Advanced(ins, s, next0, next, key)
    requires next[s] <= i < |ins[s].entries|
    ensures Lt(key, ins[s].entries[i].key)
  {
    var es := ins[s].entries;
    assert es[next0[s]].key == key;
    assert Lt(key, es[next[s]].key);
    if i > next[s] && es[i].key != es[next[s]].key { LtTransitive(key, es[next[s]].key, es[i].key); }
  }

  /** An input whose head is above the key has only larger keys left. */
  lemma AboveIsRound(es: seq<Entry>, n: nat, key: bytes, i: nat)
    requires NewestFirst(es) && n <= i < |es| && Lt(key, es[n].key)
    ensures Lt(key, es[i].key)
  {
    if i > n && es[i].key != es[n].key { LtTransitive(key, es[n].key, es[i].key); }
  }

  lemma GroupRound(ins: seq<Source>, group: seq<MergeItem>, next: seq<nat>, next': seq<nat>, key: bytes, live: set<nat>)
    requires Inputs(ins) && Progress(ins, next) && Progress(ins, next')
    requires Pending(ins, next) == live + Sources(group)
    requires forall s :: s in live ==> s < |ins| && next[s] < |ins[s].entries| && Lt(key, ins[s].entries[next[s]].key)
    requires AllAdvanced(ins, Sources(group), next, next', key)
    ensures Round(ins, next, next', key)
  {
    forall s, i | 0 <= s < |ins| && next'[s] <= i < |ins[s].entries| ensures Lt(key, ins[s].entries[i].key) {
      if s in Sources(group) {
        AdvancedIsRound(ins, s, next, next', key, i);
      } else {
        assert s in Pending(ins, next);
        AboveIsRound(ins[s].entries, next[s], key, i);
      }
    }
    forall s | 0 <= s < |ins|
      ensures next[s] <= next'[s] && forall i :: next[s] <= i < next'[s] ==> ins[s].entries[i].key == key
    {
      if s in Sources(group) { assert Advanced(ins, s, next, next', key); }
    }
  }

  lemma GroupBest(ins: seq<Source>, group: seq<MergeItem>, next: seq<nat>, key: bytes, best: Entry, live: set<nat>)
    requires Progress(ins, next) && Group(ins, next, group, key)
    requires Pending(ins, next) == live + Sources(group)
    requires forall s :: s in live ==> s < |ins| && next[s] < |ins[s].entries| && Lt(key, ins[s].entries[next[s]].key)
    requires exists it :: it in group && it.entry == best
    requires forall it :: it in group ==> !Newer(it.entry, best)
    ensures BestHead(ins, next, key, best)
  {
    var b :| b in group && b.entry == best;
    assert IsHead(ins, next, b);
    LtIrreflexive(key);
    forall s | 0 <= s < |ins| && next[s] < |ins[s].entries| && ins[s].entries[next[s]].key == key
      ensures !Newer(ins[s].entries[next[s]], best)
    {
      assert s in Pending(ins, next) && s !in live;
      var it :| it in group && it.src == s;
      assert IsHead(ins, next, it);
    }
  }

  /** mergeEntries: fails exactly when some input fails, and otherwise returns the merge of all inputs. */
  method MergeEntries(ins: seq<Source>, dropTombstones: bool) returns (r: Result)
    requires Inputs(ins)
    ensures r.Err? <==> exists s :: 0 <= s < |ins| && ins[s].fails
    ensures r.Ok? ==> MergeOf(ins, r.entries, dropTombstones)
  {
    ItemLessIsStrictWeak();
    var ok, h := OpenAll(ins, ItemLess);
    if !ok { return Err; }
    ghost var next: seq<nat> := seq(|ins|, _ => 0);
    var out: seq<Entry> := [];
    while h != []
      invariant Progress(ins, next) && HeapOrdered(h, ItemLess) && HeapHolds(h, ins, next, Pending(ins, next))
      invariant Frontier(ins, next) && MergeOfTaken(ins, next, out, dropTombstones)
      invariant forall s :: 0 <= s < |ins| && ins[s].fails ==> s in Pending(ins, next)
      decreases Remaining(ins, next, |ins|)
    {
      var group;
      ghost var live;
      group, h, live := PopGroup(h, ins, ItemLess, next, Pending(ins, next));
      var key := group[0].entry.key;
      var best := BestOf(group);
      GroupBest(ins, group, next, key, best, live);
      ghost var next';
      ok, h, next' := AdvanceGroup(ins, group, h, key, next, live);
      if !ok { return Err; }
      GroupRound(ins, group, next, next', key, live);
      PendingAfter(ins, group, next, next', key, live);
      RoundFrontier(ins, next, next', key);
      RoundMerges(ins, next, next', key, best, out, dropTombstones);
      assert group[0] in group && group[0].src in Sources(group);
      assert Advanced(ins, group[0].src, next, next', key);
      RemainingShrinks(ins, next, next', |ins|, group[0].src);
      next := next';
      if best.tombstone && dropTombstones { continue; }
      out := out + [best];
    }
    NothingPending(h, ins, next);
    r := Ok(out);
  }

  lemma PendingAfter(ins: seq<Source>, group: seq<MergeItem>, next: seq<nat>, next': seq<nat>, key: bytes,
                     live: set<nat>)
    requires Progress(ins, next) && Progress(ins, next')
    requires Pending(ins, next) == live + Sources(group) && live !! Sources(group)
    requires AllAdvanced(ins, Sources(group), next, next', key)
    ensures Pending(ins, next') == live + (Sources(group) * Pending(ins, next'))
  {
    forall s | s in Pending(ins, next') && s !in Sources(group) ensures s in live { assert s in Pending(ins, next); }
    forall s | s in live ensures s in Pending(ins, next') { assert s in Pending(ins, next) && s !in Sources(group); }
  }
}
