/** Merging sorted inputs through a heap of their heads: what the compaction runner and the
    snapshot's range scan share. */
module MergeHeads {
  import opened Bytes
  import opened Entries
  import opened Ordering

  /** An input iterator: the entries it will yield, and whether it then reports
      an error instead of a clean end. */
  datatype Source = Source(entries: seq<Entry>, fails: bool)

  /** The head of one iterator, waiting in the heap. */
  datatype MergeItem = MergeItem(src: nat, idx: nat, entry: Entry)

  /** How far each input has been consumed. */
  ghost predicate Progress(ins: seq<Source>, next: seq<nat>)
  {
    |next| == |ins| && forall s :: 0 <= s < |ins| ==> next[s] <= |ins[s].entries|
  }

  /** An order on heads that looks at the key first. */
  ghost predicate KeyFirst(less: (MergeItem, MergeItem) -> bool)
  {
    StrictWeak(less) && forall a, b :: ComesFirst(less, a, b)
  }

  ghost predicate ComesFirst(less: (MergeItem, MergeItem) -> bool, a: MergeItem, b: MergeItem)
  {
    Lt(a.entry.key, b.entry.key) ==> less(a, b)
  }

  function Head(ins: seq<Source>, s: nat, i: nat): (it: MergeItem)
    requires s < |ins| && i < |ins[s].entries|
  {
    MergeItem(s, i, ins[s].entries[i])
  }

  ghost predicate IsHead(ins: seq<Source>, next: seq<nat>, it: MergeItem)
    requires |next| == |ins|
  {
    it.src < |ins| && next[it.src] < |ins[it.src].entries| && it == Head(ins, it.src, next[it.src])
  }

  /** The heap holds the head of every input in `live`, each once, and nothing else. */
  ghost predicate HeapHolds(h: seq<MergeItem>, ins: seq<Source>, next: seq<nat>, live: set<nat>)
    requires |next| == |ins|
  {
    && (forall it :: multiset(h)[it] == if it.src in live && IsHead(ins, next, it) then 1 else 0)
    && (forall s :: s in live ==> s < |ins| && next[s] < |ins[s].entries|)
  }

  lemma HeapMembers(h: seq<MergeItem>, ins: seq<Source>, next: seq<nat>, live: set<nat>)
    requires |next| == |ins| && HeapHolds(h, ins, next, live)
    ensures forall it :: it in h <==> it.src in live && IsHead(ins, next, it)
  {
    forall it ensures it in h <==> it.src in live && IsHead(ins, next, it) {
      assert it in h <==> multiset(h)[it] > 0;
    }
  }

  /** The inputs that still have something to yield. */
  ghost function Pending(ins: seq<Source>, next: seq<nat>): (live: set<nat>)
    requires |next| == |ins|
  {
    set s | 0 <= s < |ins| && next[s] < |ins[s].entries|
  }

  /** Opens every iterator; an iterator that is empty because of an error ends the merge. */
  method OpenAll(ins: seq<Source>, less: (MergeItem, MergeItem) -> bool) returns (ok: bool, h: seq<MergeItem>)
    requires KeyFirst(less)
    ensures !ok ==> exists s :: 0 <= s < |ins| && ins[s].fails
    ensures ok ==> HeapOrdered(h, less)
    ensures ok ==> HeapHolds(h, ins, seq(|ins|, _ => 0), Pending(ins, seq(|ins|, _ => 0)))
    ensures ok ==> forall s :: 0 <= s < |ins| && ins[s].fails ==> ins[s].entries != []
  {
    ghost var zero: seq<nat> := seq(|ins|, _ => 0);
    ghost var live: set<nat> := {};
    h := [];
    for s := 0 to |ins|
      invariant HeapHolds(h, ins, zero, live)
      invariant live == set t | 0 <= t < s && ins[t].entries != []
      invariant forall t :: 0 <= t < s && ins[t].fails ==> ins[t].entries != []
    {
      if ins[s].entries != [] {
        h := h + [Head(ins, s, 0)];
        live := live + {s};
      } else if ins[s].fails {
        return false, [];
      }
    }
    assert live == Pending(ins, zero);
    h := HeapInit(h, less);
    ok := true;
  }

  ghost function Sources(group: seq<MergeItem>): (r: set<nat>)
  {
    set it | it in group :: it.src
  }

  /** The group: heads of different inputs, all under one key. */
  ghost predicate Group(ins: seq<Source>, next: seq<nat>, group: seq<MergeItem>, key: bytes)
    requires |next| == |ins|
  {
    && (forall it :: it in group ==> IsHead(ins, next, it) && it.entry.key == key)
    && (forall i, j :: 0 <= i < j < |group| ==> group[i].src != group[j].src)
  }

  lemma GroupAppend(ins: seq<Source>, next: seq<nat>, group: seq<MergeItem>, key: bytes, it: MergeItem)
    requires |next| == |ins| && Group(ins, next, group, key)
    requires IsHead(ins, next, it) && it.entry.key == key && it.src !in Sources(group)
    ensures Group(ins, next, group + [it], key) && Sources(group + [it]) == Sources(group) + {it.src}
  {
    forall i | 0 <= i < |group| ensures group[i].src != it.src { assert group[i] in group; }
  }

  /** Pops the least item and every further item with its key. */
  method PopGroup(h0: seq<MergeItem>, ins: seq<Source>, less: (MergeItem, MergeItem) -> bool, ghost next: seq<nat>,
                  ghost live0: set<nat>)
    returns (group: seq<MergeItem>, h: seq<MergeItem>, ghost live: set<nat>)
    requires KeyFirst(less) && h0 != [] && HeapOrdered(h0, less) && |next| == |ins| && HeapHolds(h0, ins, next, live0)
    ensures HeapOrdered(h, less) && HeapHolds(h, ins, next, live)
    ensures group != [] && Group(ins, next, group, group[0].entry.key)
    ensures live0 == live + Sources(group) && live !! Sources(group)
    ensures forall s :: s in live ==> Lt(group[0].entry.key, ins[s].entries[next[s]].key)
  {
    var item: MergeItem;
    item, h := HeapPop(h0, less);
    RemoveHead(h0, h, item, ins, next, live0);
    live := live0 - {item.src};
    group := [item];
    assert Sources(group) == {item.src};
    while h != [] && h[0].entry.key == item.entry.key
      invariant HeapOrdered(h, less) && HeapHolds(h, ins, next, live)
      invariant group != [] && group[0] == item && Group(ins, next, group, item.entry.key)
      invariant live0 == live + Sources(group) && live !! Sources(group)
      decreases |h|
    {
      ghost var was := h;
      var n: MergeItem;
      n, h := HeapPop(h, less);
      RemoveHead(was, h, n, ins, next, live);
      GroupAppend(ins, next, group, item.entry.key, n);
      live := live - {n.src};
      group := group + [n];
    }
    GroupIsLeast(h0, h, item, ins, less, next, live0, live);
  }

  lemma RemoveHead(h0: seq<MergeItem>, h: seq<MergeItem>, x: MergeItem, ins: seq<Source>, next: seq<nat>,
                   live: set<nat>)
    requires |next| == |ins| && HeapHolds(h0, ins, next, live) && multiset(h0) == multiset(h) + multiset{x}
    ensures x.src in live && IsHead(ins, next, x) && HeapHolds(h, ins, next, live - {x.src})
  {
    assert multiset(h0)[x] >= 1;
    forall it ensures multiset(h)[it] == if it.src in live - {x.src} && IsHead(ins, next, it) then 1 else 0 {
      assert multiset(h0)[it] == multiset(h)[it] + multiset{x}[it];
    }
  }

  /** What is left in the heap lies strictly above the popped key, and nothing lay below it. */
  lemma GroupIsLeast(h0: seq<MergeItem>, h: seq<MergeItem>, item: MergeItem, ins: seq<Source>,
                     less: (MergeItem, MergeItem) -> bool, next: seq<nat>,
                     live0: set<nat>, live: set<nat>)
    requires KeyFirst(less) && |next| == |ins| && HeapHolds(h0, ins, next, live0) && HeapHolds(h, ins, next, live)
             && live <= live0
    requires HeapOrdered(h, less) && forall y :: y in h0 ==> !less(y, item)
    requires h != [] ==> h[0].entry.key != item.entry.key
    ensures forall s :: s in live ==> Lt(item.entry.key, ins[s].entries[next[s]].key)
  {
    HeapMembers(h0, ins, next, live0);
    HeapMembers(h, ins, next, live);
    OrderFacts();
    forall s | s in live ensures Lt(item.entry.key, ins[s].entries[next[s]].key) {
      var it := Head(ins, s, next[s]);
      assert it in h;
      var k :| 0 <= k < |h| && h[k] == it;
      HeapRootIsLeast(h, less, k);
      assert h[0] in h && h[0] in h0;
      assert ComesFirst(less, it, h[0]) && ComesFirst(less, h[0], item);
      LtTrichotomy(item.entry.key, h[0].entry.key);
      LtLeTransitive(item.entry.key, h[0].entry.key, it.entry.key);
    }
  }

  lemma StillHolds(h: seq<MergeItem>, ins: seq<Source>, next: seq<nat>, next': seq<nat>, live: set<nat>, s: nat)
    requires |next| == |ins| == |next'| && s < |ins| && s !in live && HeapHolds(h, ins, next, live)
    requires next' == next[s := next'[s]]
    ensures HeapHolds(h, ins, next', live)
  {
    forall it: MergeItem ensures it.src in live ==> (IsHead(ins, next', it) <==> IsHead(ins, next, it)) { }
  }

  lemma AddHead(h0: seq<MergeItem>, h: seq<MergeItem>, x: MergeItem, ins: seq<Source>, next: seq<nat>, live: set<nat>)
    requires |next| == |ins| && HeapHolds(h0, ins, next, live) && x.src !in live && IsHead(ins, next, x)
    requires multiset(h) == multiset(h0) + multiset{x}
    ensures HeapHolds(h, ins, next, live + {x.src})
  {
    forall it ensures multiset(h)[it] == if it.src in live + {x.src} && IsHead(ins, next, it) then 1 else 0 {
      assert multiset(h)[it] == multiset(h0)[it] + multiset{x}[it];
    }
  }

  // ---------- rounds ----------

  ghost predicate Taken(ins: seq<Source>, next: seq<nat>, e: Entry)
    requires Progress(ins, next)
  {
    exists s, i :: 0 <= s < |ins| && 0 <= i < next[s] && ins[s].entries[i] == e
  }

  ghost function Ends(ins: seq<Source>): (r: seq<nat>)
    ensures Progress(ins, r) && forall s :: 0 <= s < |ins| ==> r[s] == |ins[s].entries|
  {
    seq(|ins|, s requires 0 <= s < |ins| => |ins[s].entries|)
  }

  /** Every consumed key lies below every key still to come. */
  ghost predicate Frontier(ins: seq<Source>, next: seq<nat>)
    requires Progress(ins, next)
  {
    forall e, t, j :: Taken(ins, next, e) && 0 <= t < |ins| && next[t] <= j < |ins[t].entries|
      ==> Lt(e.key, ins[t].entries[j].key)
  }

  /** One round: the entries under `key` are consumed from every input that has it at its head. */
  ghost predicate Round(ins: seq<Source>, next: seq<nat>, next': seq<nat>, key: bytes)
    requires Progress(ins, next) && Progress(ins, next')
  {
    && (forall s :: 0 <= s < |ins| ==> next[s] <= next'[s])
    && (forall s, i :: 0 <= s < |ins| && next[s] <= i < next'[s] ==> ins[s].entries[i].key == key)
    && (forall s, i :: 0 <= s < |ins| && next'[s] <= i < |ins[s].entries| ==> Lt(key, ins[s].entries[i].key))
  }

  ghost predicate HeadKey(ins: seq<Source>, next: seq<nat>, key: bytes)
    requires Progress(ins, next)
  {
    exists s :: 0 <= s < |ins| && next[s] < |ins[s].entries| && ins[s].entries[next[s]].key == key
  }

  lemma TakenSplit(ins: seq<Source>, next: seq<nat>, next': seq<nat>, key: bytes, e: Entry)
    requires Progress(ins, next) && Progress(ins, next') && Round(ins, next, next', key)
    ensures Taken(ins, next, e) ==> Taken(ins, next', e)
    ensures Taken(ins, next', e) ==> Taken(ins, next, e) || e.key == key
  {
    if Taken(ins, next, e) {
      var s, i :| 0 <= s < |ins| && 0 <= i < next[s] && ins[s].entries[i] == e;
      assert i < next'[s];
    }
    if Taken(ins, next', e) {
      var s, i :| 0 <= s < |ins| && 0 <= i < next'[s] && ins[s].entries[i] == e;
      if i < next[s] { assert Taken(ins, next, e); }
    }
  }

  /** The new key is above everything consumed before the round. */
  lemma KeyIsNew(ins: seq<Source>, next: seq<nat>, key: bytes, e: Entry)
    requires Progress(ins, next) && Frontier(ins, next) && HeadKey(ins, next, key) && Taken(ins, next, e)
    ensures Lt(e.key, key) && e.key != key
  {
    var s :| 0 <= s < |ins| && next[s] < |ins[s].entries| && ins[s].entries[next[s]].key == key;
    LtIrreflexive(key);
  }

  lemma RoundFrontier(ins: seq<Source>, next: seq<nat>, next': seq<nat>, key: bytes)
    requires Progress(ins, next) && Progress(ins, next')
    requires Frontier(ins, next) && Round(ins, next, next', key) && HeadKey(ins, next, key)
    ensures Frontier(ins, next')
  {
    forall e, t, j | Taken(ins, next', e) && 0 <= t < |ins| && next'[t] <= j < |ins[t].entries|
      ensures Lt(e.key, ins[t].entries[j].key)
    {
      TakenSplit(ins, next, next', key, e);
      if Taken(ins, next, e) {
        KeyIsNew(ins, next, key, e);
        LtTransitive(e.key, key, ins[t].entries[j].key);
      }
    }
  }

  ghost function Remaining(ins: seq<Source>, next: seq<nat>, n: nat): (r: nat)
    requires Progress(ins, next) && n <= |ins|
  {
    if n == 0 then 0 else Remaining(ins, next, n - 1) + |ins[n - 1].entries| - next[n - 1]
  }

  lemma {:induction false} RemainingShrinks(ins: seq<Source>, next: seq<nat>, next': seq<nat>, n: nat, s: nat)
    requires Progress(ins, next) && Progress(ins, next') && n <= |ins|
    requires forall t :: 0 <= t < |ins| ==> next[t] <= next'[t]
    requires s < |ins| && next[s] < next'[s]
    ensures Remaining(ins, next', n) <= Remaining(ins, next, n)
    ensures s < n ==> Remaining(ins, next', n) < Remaining(ins, next, n)
  {
    if n > 0 { RemainingShrinks(ins, next, next', n - 1, s); }
  }

  lemma HeadInHeap(h: seq<MergeItem>, ins: seq<Source>, next: seq<nat>, s: nat)
    requires Progress(ins, next) && HeapHolds(h, ins, next, Pending(ins, next)) && s < |ins|
    ensures h != [] || next[s] == |ins[s].entries|
  {
    if next[s] < |ins[s].entries| {
      HeapMembers(h, ins, next, Pending(ins, next));
      assert Head(ins, s, next[s]) in h;
    }
  }

  lemma NothingPending(h: seq<MergeItem>, ins: seq<Source>, next: seq<nat>)
    requires Progress(ins, next) && h == [] && HeapHolds(h, ins, next, Pending(ins, next))
    ensures Pending(ins, next) == {} && next == Ends(ins)
  {
    forall s | 0 <= s < |ins| ensures next[s] == |ins[s].entries| { HeadInHeap(h, ins, next, s); }
  }

  ghost predicate Strict(ins: seq<Source>)
  {
    forall s :: 0 <= s < |ins| ==> Sorted(ins[s].entries)
  }

  /** The positions after the heads of a group were taken. */
  ghost function Stepped(next: seq<nat>, group: seq<MergeItem>): (r: seq<nat>)
    ensures |r| == |next|
            && forall s :: 0 <= s < |next| ==> r[s] == if s in Sources(group) then next[s] + 1 else next[s]
  {
    seq(|next|, s requires 0 <= s < |next| => if s in Sources(group) then next[s] + 1 else next[s])
  }

  lemma SteppedRound(ins: seq<Source>, next: seq<nat>, group: seq<MergeItem>, key: bytes, live: set<nat>)
    requires Strict(ins) && Progress(ins, next) && Group(ins, next, group, key) && group != []
    requires Pending(ins, next) == live + Sources(group)
    requires forall s :: s in live ==> s < |ins| && next[s] < |ins[s].entries| && Lt(key, ins[s].entries[next[s]].key)
    ensures Progress(ins, Stepped(next, group)) && Round(ins, next, Stepped(next, group), key)
            && HeadKey(ins, next, key)
  {
    hide Lt;
    var next' := Stepped(next, group);
    forall s | 0 <= s < |ins| && s in Sources(group)
      ensures next[s] < |ins[s].entries| && ins[s].entries[next[s]].key == key
    {
      var it :| it in group && it.src == s;
      assert IsHead(ins, next, it);
    }
    forall s, i | 0 <= s < |ins| && next'[s] <= i < |ins[s].entries| ensures Lt(key, ins[s].entries[i].key) {
      if s !in Sources(group) {
        assert s in Pending(ins, next);
        if i > next[s] { LtTransitive(key, ins[s].entries[next[s]].key, ins[s].entries[i].key); }
      }
    }
    assert group[0] in group && IsHead(ins, next, group[0]);
  }

  lemma TakenAt(ins: seq<Source>, next: seq<nat>, t: nat, i: nat)
    requires Progress(ins, next) && t < |ins| && i < |ins[t].entries|
    ensures i < next[t] ==> Taken(ins, next, ins[t].entries[i])
  {
  }
}
