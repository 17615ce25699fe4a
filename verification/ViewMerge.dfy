/** A snapshot's range scan: merging memtables and tables, the first source that holds a key
    deciding it, as a point read does. */
module ViewMerge {
  import opened Bytes
  import opened Entries
  import opened Ordering
  import opened MergeHeads
  import S = RangeScan

  // ---------- what a snapshot shows ----------

  /** A point read: the first source that holds the key. */
  function FirstHit(ins: seq<Source>, key: bytes): (r: Option<Entry>)
  {
    if ins == [] then None
    else if Find(ins[0].entries, key).Some? then Find(ins[0].entries, key)
    else FirstHit(ins[1..], key)
  }

  /** A deleted key is not shown. */
  function Visible(ins: seq<Source>, key: bytes): (r: Option<Entry>)
  {
    match FirstHit(ins, key) case None => None case Some(e) => if e.tombstone then None else Some(e)
  }

  lemma {:induction false} FirstHitIs(ins: seq<Source>, key: bytes, s: nat, e: Entry)
    requires s < |ins| && Find(ins[s].entries, key) == Some(e)
             && forall t :: 0 <= t < s ==> Find(ins[t].entries, key) == None
    ensures FirstHit(ins, key) == Some(e)
  {
    hide Find;
    if s > 0 {
      assert ins[0] == ins[0];
      FirstHitIs(ins[1..], key, s - 1, e);
    }
  }

  lemma {:induction false} NoHit(ins: seq<Source>, key: bytes)
    requires forall t :: 0 <= t < |ins| ==> Find(ins[t].entries, key) == None
    ensures FirstHit(ins, key) == None
  {
    hide Find;
    if ins != [] { NoHit(ins[1..], key); }
  }

  // ---------- the heap order ----------

  predicate ViewLess(a: MergeItem, b: MergeItem)
  {
    if a.entry.key != b.entry.key then Lt(a.entry.key, b.entry.key) else a.src < b.src
  }

  lemma ViewLessIsKeyFirst()
    ensures StrictWeak(ViewLess) && KeyFirst(ViewLess)
  {
    OrderFacts();
    forall a, b ensures Asymmetric(ViewLess, a, b) { }
    forall a, b, c ensures Between(ViewLess, a, b, c) { }
    forall a, b ensures ComesFirst(ViewLess, a, b) { }
  }

  // ---------- rounds ----------

  /** The head with the least source number is the first hit for its key. */
  lemma GroupDecides(ins: seq<Source>, next: seq<nat>, group: seq<MergeItem>, key: bytes, live: set<nat>,
                     best: MergeItem)
    requires Strict(ins) && Progress(ins, next) && Frontier(ins, next) && Group(ins, next, group, key) && best in group
    requires Pending(ins, next) == live + Sources(group)
    requires forall s :: s in live ==> s < |ins| && next[s] < |ins[s].entries| && Lt(key, ins[s].entries[next[s]].key)
    requires forall it :: it in group ==> best.src <= it.src
    ensures FirstHit(ins, key) == Some(best.entry)
  {
    hide Lt, Find, FirstHit;
    assert IsHead(ins, next, best);
    FindAt(ins[best.src].entries, next[best.src]);
    forall t | 0 <= t < best.src ensures Find(ins[t].entries, key) == None {
      FindSound(ins[t].entries, key);
      if HasKey(ins[t].entries, key) {
        var i :| 0 <= i < |ins[t].entries| && ins[t].entries[i].key == key;
        KeyAtHead(ins, next, group, key, live, t, i, best);
      }
    }
    FirstHitIs(ins, key, best.src, best.entry);
  }

  /** A source that holds the least key holds it at its head, so it is in the group. */
  lemma KeyAtHead(ins: seq<Source>, next: seq<nat>, group: seq<MergeItem>, key: bytes, live: set<nat>, t: nat, i: nat,
                  best: MergeItem)
    requires Strict(ins) && Progress(ins, next) && Frontier(ins, next) && Group(ins, next, group, key) && best in group
    requires Pending(ins, next) == live + Sources(group)
    requires forall s :: s in live ==> s < |ins| && next[s] < |ins[s].entries| && Lt(key, ins[s].entries[next[s]].key)
    requires t < |ins| && i < |ins[t].entries| && ins[t].entries[i].key == key
    ensures t in Sources(group)
  {
    hide Lt;
    LtIrreflexive(key);
    assert IsHead(ins, next, best);
    TakenAt(ins, next, t, i);
    if i >= next[t] {
      assert t in Pending(ins, next);
      if t in live && i > next[t] { LtTransitive(key, ins[t].entries[next[t]].key, ins[t].entries[i].key); }
    }
  }

  // ---------- what has been yielded ----------

  ghost predicate KeyTaken(ins: seq<Source>, next: seq<nat>, key: bytes)
    requires Progress(ins, next)
  {
    exists e :: Taken(ins, next, e) && e.key == key
  }

  /** The entries yielded so far are those shown under the keys taken so far. */
  ghost predicate Yielded(ins: seq<Source>, next: seq<nat>, out: seq<Entry>)
    requires Progress(ins, next)
  {
    && Sorted(out)
    && (forall key: bytes :: KeyTaken(ins, next, key) ==> Find(out, key) == Visible(ins, key))
    && (forall i :: 0 <= i < |out| ==> KeyTaken(ins, next, out[i].key))
  }

  /** A round yields the entry that decides its key, or nothing for a deleted key. */
  lemma RoundYields(ins: seq<Source>, next: seq<nat>, next': seq<nat>, key: bytes, best: Entry, out: seq<Entry>)
    requires Progress(ins, next) && Progress(ins, next') && Frontier(ins, next) && Round(ins, next, next', key)
             && HeadKey(ins, next, key)
    requires FirstHit(ins, key) == Some(best) && best.key == key && Yielded(ins, next, out) && KeyTaken(ins, next', key)
    ensures Yielded(ins, next', if best.tombstone then out else out + [best])
  {
    hide Find, FirstHit, Lt, Frontier, Round, HeadKey;
    var out' := if best.tombstone then out else out + [best];
    forall i | 0 <= i < |out| ensures Lt(out[i].key, key) && KeyTaken(ins, next', out[i].key) && out[i].key != key {
      assert KeyTaken(ins, next, out[i].key);
      var e :| Taken(ins, next, e) && e.key == out[i].key;
      KeyIsNew(ins, next, key, e);
      TakenSplit(ins, next, next', key, e);
    }
    if out != [] { assert Lt(out[|out| - 1].key, key); }
    SortedAppend(out, best);
    forall k: bytes | KeyTaken(ins, next', k) ensures Find(out', k) == Visible(ins, k) {
      var e :| Taken(ins, next', e) && e.key == k;
      TakenSplit(ins, next, next', key, e);
      FindAfter(out, best, k);
      FindSound(out, key);
      if k != key { assert KeyTaken(ins, next, k); }
    }
    forall i | 0 <= i < |out'| ensures KeyTaken(ins, next', out'[i].key) { if i == |out| { assert out'[i] == best; } }
  }

  lemma RoundTakes(ins: seq<Source>, next: seq<nat>, next': seq<nat>, group: seq<MergeItem>, key: bytes)
    requires Progress(ins, next) && Progress(ins, next') && next' == Stepped(next, group) && group != []
             && Group(ins, next, group, key)
    ensures KeyTaken(ins, next', key)
  {
    var it := group[0];
    assert it in group && IsHead(ins, next, it);
    assert Taken(ins, next', it.entry);
  }

  /** When every source is used up, what was yielded is what is shown. */
  lemma AllYielded(ins: seq<Source>, out: seq<Entry>, key: bytes)
    requires Yielded(ins, Ends(ins), out)
    ensures Sorted(out) && Find(out, key) == Visible(ins, key)
  {
    hide Find, FirstHit, KeyTaken;
    FindSound(out, key);
    YieldedIsTaken(ins, out, key);
    if !KeyTaken(ins, Ends(ins), key) {
      forall t | 0 <= t < |ins| ensures Find(ins[t].entries, key) == None {
        FindSound(ins[t].entries, key);
        HeldIsTaken(ins, t, key);
      }
      NoHit(ins, key);
    }
  }

  lemma YieldedIsTaken(ins: seq<Source>, out: seq<Entry>, key: bytes)
    requires Yielded(ins, Ends(ins), out)
    ensures HasKey(out, key) ==> KeyTaken(ins, Ends(ins), key)
  {
  }

  lemma HeldIsTaken(ins: seq<Source>, t: nat, key: bytes)
    requires t < |ins|
    ensures HasKey(ins[t].entries, key) ==> KeyTaken(ins, Ends(ins), key)
  {
    if HasKey(ins[t].entries, key) {
      var i :| 0 <= i < |ins[t].entries| && ins[t].entries[i].key == key;
      TakenAt(ins, Ends(ins), t, i);
    }
  }

  // ---------- the iterator ----------

  /** The group waiting to be advanced: heads that were taken, of different sources. */
  ghost predicate Waiting(ins: seq<Source>, next: seq<nat>, pending: seq<MergeItem>)
    requires Progress(ins, next)
  {
    && (forall it :: it in pending ==> it.src < |ins| && next[it.src] == it.idx + 1)
    && (forall i, j :: 0 <= i < j < |pending| ==> pending[i].src != pending[j].src)
  }

  class ViewMerge {
    const ins: seq<Source>
    var h: seq<MergeItem>
    var pending: seq<MergeItem>
    var lastKey: bytes
    var cur: Entry
    var err: bool
    ghost var next: seq<nat>             // how many entries of each source have been taken

    ghost predicate Valid()
      reads this
    {
      && Strict(ins) && Progress(ins, next) && Frontier(ins, next) && Waiting(ins, next, pending)
      && HeapOrdered(h, ViewLess) && HeapHolds(h, ins, next, Pending(ins, next) - Sources(pending))
      && (lastKey == [] || KeyTaken(ins, next, lastKey))
      && (forall s :: 0 <= s < |ins| && ins[s].fails ==> s in Pending(ins, next) || s in Sources(pending))
    }

    /** Opens every source; one that fails at once makes the whole scan fail. */
    constructor (ins: seq<Source>)
      requires Strict(ins)
      ensures this.ins == ins && (!err ==> Valid() && Yielded(ins, next, []))
              && (err ==> exists s :: 0 <= s < |ins| && ins[s].fails)
    {
      hide HeapHolds, HeapOrdered, Sorted;
      this.ins := ins;
      ViewLessIsKeyFirst();
      var ok, heads := OpenAll(ins, ViewLess);
      h, pending, lastKey, cur, err := heads, [], [], Entry([], [], false, 0), !ok;
      next := seq(|ins|, _ => 0);
      new;
      assert Pending(ins, next) - Sources([]) == Pending(ins, next);
      assert forall e :: !Taken(ins, next, e);
      assert Sorted([]) by { NothingIsSorted(); }
    }

    /** Moves on every source of the last group. */
    method AdvancePending() returns (ok: bool)
      requires Valid()
      modifies `h, `pending, `err
      ensures ok ==> Valid() && pending == [] && err == old(err)
      ensures !ok ==> err && exists s :: 0 <= s < |ins| && ins[s].fails
    {
      hide HeapHolds, HeapOrdered, Strict, Frontier, KeyTaken, ViewLess;
      if |pending| == 0 { return true; }
      ghost var live := Pending(ins, next) - Sources(pending);
      var heap;
      ok, heap := PushNext(ins, pending, h, next, live);
      if !ok {
        err := true;
        return;
      }
      assert live + (Sources(pending) * Pending(ins, next)) == Pending(ins, next) - Sources([]);
      h, pending := heap, [];
    }

    /** Takes the next group of equal keys; afterwards its sources wait to be moved on. */
    method TakeGroup(ghost out: seq<Entry>) returns (shown: bool)
      requires Valid() && pending == [] && h != [] && Yielded(ins, next, out)
      modifies `h, `pending, `lastKey, `cur, `next
      ensures Valid() && Remaining(ins, next, |ins|) < old(Remaining(ins, next, |ins|))
      ensures Yielded(ins, next, if shown then out + [cur] else out)
    {
      hide HeapHolds, HeapOrdered, ViewLess, Yielded, Frontier, KeyTaken, Remaining, Strict, Waiting, Stepped, Group,
           Lt;
      ViewLessIsKeyFirst();
      assert Pending(ins, next) - Sources([]) == Pending(ins, next);
      var group, heap, live := PopGroup(h, ins, ViewLess, next, Pending(ins, next));
      var key := group[0].entry.key;
      var best := LeastSource(group);
      RoundDone(ins, next, group, key, heap, live, best, out);
      NotSeen(ins, next, key, lastKey);
      var duplicate := |lastKey| > 0 && lastKey == key;
      shown := !duplicate && !best.entry.tombstone;
      if shown { cur := best.entry; }
      h, pending, lastKey, next := heap, group, key, Stepped(next, group);
    }

    /** The next key that is shown, with the entry of the first source that holds it. */
    method Next(ghost out: seq<Entry>) returns (ok: bool)
      requires Valid() && !err && Yielded(ins, next, out)
      modifies this
      ensures err ==> !ok && exists s :: 0 <= s < |ins| && ins[s].fails
      ensures !err ==> Valid() && Progress(ins, next) && Yielded(ins, next, if ok then out + [cur] else out)
      ensures ok ==> Remaining(ins, next, |ins|) < old(Remaining(ins, next, |ins|))
      ensures !ok && !err ==> next == Ends(ins) && forall s :: 0 <= s < |ins| ==> !ins[s].fails
    {
      hide HeapHolds, HeapOrdered, Yielded, Frontier, KeyTaken, Remaining, Strict;
      ok := AdvancePending();
      if !ok { return false; }
      while h != []
        invariant Valid() && !err && pending == [] && Yielded(ins, next, out)
        invariant Remaining(ins, next, |ins|) <= old(Remaining(ins, next, |ins|))
        decreases Remaining(ins, next, |ins|)
      {
        var shown := TakeGroup(out);
        if shown { return true; }
        ok := AdvancePending();
        if !ok { return false; }
      }
      assert Pending(ins, next) - Sources([]) == Pending(ins, next);
      NothingPending(h, ins, next);
      return false;
    }
  }

  /** All that taking a group does. */
  lemma RoundDone(ins: seq<Source>, next: seq<nat>, group: seq<MergeItem>, key: bytes, heap: seq<MergeItem>,
                  live: set<nat>, best: MergeItem, out: seq<Entry>)
    requires Strict(ins) && Progress(ins, next) && Frontier(ins, next) && Group(ins, next, group, key) && group != []
    requires HeapHolds(heap, ins, next, live) && Pending(ins, next) == live + Sources(group) && live !! Sources(group)
    requires forall s :: s in live ==> s < |ins| && next[s] < |ins[s].entries| && Lt(key, ins[s].entries[next[s]].key)
    requires best in group && (forall it :: it in group ==> best.src <= it.src) && Yielded(ins, next, out)
    ensures HeadKey(ins, next, key)
    ensures var next' := Stepped(next, group);
            && Progress(ins, next') && Frontier(ins, next') && Waiting(ins, next', group) && KeyTaken(ins, next', key)
            && HeapHolds(heap, ins, next', Pending(ins, next') - Sources(group))
            && Yielded(ins, next', if best.entry.tombstone then out else out + [best.entry])
            && Remaining(ins, next', |ins|) < Remaining(ins, next, |ins|)
            && forall s :: s in Pending(ins, next) ==> s in Pending(ins, next') || s in Sources(group)
  {
    hide HeapHolds, Yielded, Frontier, KeyTaken, Remaining, Round, Lt, Strict, Waiting;
    var next' := Stepped(next, group);
    SteppedRound(ins, next, group, key, live);
    GroupDecides(ins, next, group, key, live, best);
    RoundTakes(ins, next, next', group, key);
    RoundYields(ins, next, next', key, best.entry, out);
    RoundFrontier(ins, next, next', key);
    GroupWaits(ins, next, group, key);
    StepHolds(ins, next, group, key, heap, live);
    assert group[0] in group && IsHead(ins, next, group[0]);
    RemainingShrinks(ins, next, next', |ins|, group[0].src);
  }

  method LeastSource(group: seq<MergeItem>) returns (best: MergeItem)
    requires group != []
    ensures best in group && forall it :: it in group ==> best.src <= it.src
  {
    best := group[0];
    for i := 1 to |group|
      invariant best in group && forall j :: 0 <= j < i ==> best.src <= group[j].src
    {
      if group[i].src < best.src { best := group[i]; }
    }
  }

  lemma GroupWaits(ins: seq<Source>, next: seq<nat>, group: seq<MergeItem>, key: bytes)
    requires Progress(ins, next) && Group(ins, next, group, key) && Progress(ins, Stepped(next, group))
    ensures Waiting(ins, Stepped(next, group), group)
  {
    forall it | it in group
      ensures it.src < |ins| && Stepped(next, group)[it.src] == it.idx + 1
    {
      assert IsHead(ins, next, it);
    }
  }

  lemma StepHolds(ins: seq<Source>, next: seq<nat>, group: seq<MergeItem>, key: bytes, h: seq<MergeItem>,
                  live: set<nat>)
    requires Progress(ins, next) && Group(ins, next, group, key) && Progress(ins, Stepped(next, group))
    requires HeapHolds(h, ins, next, live) && Pending(ins, next) == live + Sources(group) && live !! Sources(group)
    ensures var next' := Stepped(next, group);
            && HeapHolds(h, ins, next', Pending(ins, next') - Sources(group))
            && forall s :: s in Pending(ins, next) ==> s in Pending(ins, next') || s in Sources(group)
  {
    var next' := Stepped(next, group);
    forall s | s in Pending(ins, next') - Sources(group) ensures s in live { assert s in Pending(ins, next); }
    forall s | s in live ensures s in Pending(ins, next') - Sources(group) { assert s in Pending(ins, next); }
    assert Pending(ins, next') - Sources(group) == live;
    forall it: MergeItem ensures it.src in live ==> (IsHead(ins, next', it) <==> IsHead(ins, next, it)) { }
  }

  /** A key still to come was not yielded before. */
  lemma NotSeen(ins: seq<Source>, next: seq<nat>, key: bytes, lastKey: bytes)
    requires Progress(ins, next) && Frontier(ins, next) && HeadKey(ins, next, key)
             && (lastKey == [] || KeyTaken(ins, next, lastKey))
    ensures lastKey == [] || lastKey != key
  {
    if lastKey != [] {
      var e :| Taken(ins, next, e) && e.key == lastKey;
      KeyIsNew(ins, next, key, e);
    }
  }

  /** Driving the merge to its end: strictly increasing keys, and under each key what a point read of the
      snapshot shows; it fails exactly when a source fails. */
  method Range(ins: seq<Source>) returns (out: seq<Entry>, ok: bool)
    requires Strict(ins)
    ensures ok <==> forall s :: 0 <= s < |ins| ==> !ins[s].fails
    ensures ok ==> Sorted(out) && forall key: bytes :: Find(out, key) == Visible(ins, key)
  {
    hide Find, FirstHit, HeapHolds, HeapOrdered, Yielded, Frontier, KeyTaken, Remaining, Strict, Sorted,
         ViewMerge.Valid;
    out := [];
    var it := new ViewMerge(ins);
    if it.err { return [], false; }
    ValidProgress(it);
    var more := it.Next(out);
    while more
      invariant fresh(it) && it.ins == ins && (it.err ==> !more && exists s :: 0 <= s < |ins| && ins[s].fails)
      invariant !it.err ==>
                  it.Valid() && Progress(ins, it.next) && Yielded(ins, it.next, if more then out + [it.cur] else out)
      invariant !more && !it.err ==> it.next == Ends(ins) && forall s :: 0 <= s < |ins| ==> !ins[s].fails
      decreases if more && Progress(ins, it.next) then 1 + Remaining(ins, it.next, |ins|) else 0
    {
      out := out + [it.cur];
      more := it.Next(out);
    }
    ok := !it.err;
    if ok {
      AllYielded(ins, out, []);
      forall key: bytes ensures Find(out, key) == Visible(ins, key) { AllYielded(ins, out, key); }
    }
  }

  lemma ValidProgress(it: ViewMerge)
    requires it.Valid()
    ensures Progress(it.ins, it.next)
  {
  }

  /** Puts the next head of every waiting source into the heap; fails on one that ends with an error. */
  method PushNext(ins: seq<Source>, items: seq<MergeItem>, h: seq<MergeItem>, ghost next: seq<nat>,
                  ghost live: set<nat>)
      returns (ok: bool, heap: seq<MergeItem>)
    requires Progress(ins, next) && Waiting(ins, next, items) && HeapOrdered(h, ViewLess)
             && HeapHolds(h, ins, next, live)
    requires live !! Sources(items)
    ensures ok ==>
              HeapOrdered(heap, ViewLess) && HeapHolds(heap, ins, next, live + (Sources(items) * Pending(ins, next)))
    ensures ok ==> forall s :: s in Sources(items) ==> s < |ins| && (ins[s].fails ==> s in Pending(ins, next))
    ensures !ok ==> exists s :: 0 <= s < |ins| && ins[s].fails
  {
    hide HeapHolds, HeapOrdered, ViewLess;
    ViewLessIsKeyFirst();
    ghost var added: set<nat> := {};
    assert live + added == live;
    heap := h;
    for n := 0 to |items|
      invariant HeapOrdered(heap, ViewLess) && HeapHolds(heap, ins, next, live + added)
      invariant added == Sources(items[..n]) * Pending(ins, next)
      invariant forall s :: s in Sources(items[..n]) ==> s < |ins| && (ins[s].fails ==> s in Pending(ins, next))
    {
      var g := items[n];
      assert g in items && items[..n + 1] == items[..n] + [g];
      assert Sources(items[..n + 1]) == Sources(items[..n]) + {g.src};
      NewSource(items, n);
      if g.idx + 1 < |ins[g.src].entries| {
        var it := Head(ins, g.src, g.idx + 1);
        ghost var was := heap;
        heap := HeapPush(heap, it, ViewLess);
        AddHead(was, heap, it, ins, next, live + added);
        assert live + added + {g.src} == live + (added + {g.src});
        added := added + {g.src};
      } else if ins[g.src].fails {
        return false, [];
      }
    }
    assert items[..|items|] == items;
    ok := true;
  }

  lemma NothingIsSorted()
    ensures Sorted([])
  {
  }

  lemma NewSource(pending: seq<MergeItem>, n: nat)
    requires n < |pending| && forall i, j :: 0 <= i < j < |pending| ==> pending[i].src != pending[j].src
    ensures pending[n].src !in Sources(pending[..n]) && pending[n].src in Sources(pending)
  {
  }

  // ---------- ranges and point reads ----------

  lemma {:induction false} FindSelect(es: seq<Entry>, start: bytes, end: bytes, key: bytes)
    ensures Find(S.Select(es, start, end), key) == if S.InRange(key, start, end) then Find(es, key) else None
  {
    hide Find, S.InRange;
    if es == [] {
      FindSound([], key);
    } else {
      var front, e := es[..|es| - 1], es[|es| - 1];
      FindSelect(front, start, end, key);
      assert es == front + [e];
      FindAfter(front, e, key);
      FindAfter(S.Select(front, start, end), e, key);
      assert S.Select(front, start, end) + [] == S.Select(front, start, end);
    }
  }

  /** The sources of a range scan: each source cut to the range. */
  function Cut(all: seq<Source>, start: bytes, end: bytes): (ins: seq<Source>)
    ensures |ins| == |all|
  {
    seq(|all|, s requires 0 <= s < |all| => Source(S.Select(all[s].entries, start, end), all[s].fails))
  }

  /** A range scan shows under every key in range what a point read shows, and nothing else. */
  lemma {:induction false} RangeAgreesWithGet(all: seq<Source>, start: bytes, end: bytes, key: bytes)
    ensures FirstHit(Cut(all, start, end), key) == if S.InRange(key, start, end) then FirstHit(all, key) else None
    ensures Visible(Cut(all, start, end), key) == if S.InRange(key, start, end) then Visible(all, key) else None
  {
    hide Find, S.InRange, S.Select;
    if all != [] {
      FindSelect(all[0].entries, start, end, key);
      RangeAgreesWithGet(all[1..], start, end, key);
      assert Cut(all, start, end)[1..] == Cut(all[1..], start, end);
    }
  }
}
