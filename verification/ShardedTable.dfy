/** The sharded memtable: keys hashed over skiplists, ranges merged through a heap. */
module ShardedTable {
  import opened Bytes
  import opened Entries
  import opened Memtable
  import opened MergeHeads
  import opened Ordering
  import opened RunFacts
  import L = SkipList
  import S = RangeScan

  // ---------- the lists ----------

  ghost predicate Apart(lists: seq<L.SkipList>)
    reads lists
  {
    forall i, j :: 0 <= i < |lists| && 0 <= j < |lists| && i != j ==>
        lists[i] != lists[j] && Disjoint(lists[i].all, lists[j].all)
  }

  ghost predicate Disjoint(a: seq<L.Node>, b: seq<L.Node>)
  {
    forall x :: x in a ==> x !in b
  }

  ghost predicate Within(l: L.SkipList, nodes: set<L.Node>)
    reads l
  {
    forall x :: x in l.all ==> x in nodes
  }

  /** Sound lists that share no node, all nodes being in the given set. */
  ghost predicate ListsOk(lists: seq<L.SkipList>, nodes: set<L.Node>)
    reads lists, nodes
  {
    Apart(lists) && (forall k :: 0 <= k < |lists| ==> Within(lists[k], nodes))
      && forall k :: 0 <= k < |lists| ==> lists[k].Valid()
  }

  twostate lemma Framed(l: L.SkipList)
    requires old(l.Valid()) && unchanged(l) && forall x :: x in l.all ==> unchanged(x)
    ensures l.Valid() && l.Contents() == old(l.Contents())
  {
    forall i | 0 <= i < |l.all| ensures l.all[i].entry == old(l.all[i].entry) && l.all[i].next == old(l.all[i].next) {
      assert l.all[i] in l.all;
    }
  }

  /** What the lists hold. */
  ghost predicate Shows(lists: seq<L.SkipList>, nodes: set<L.Node>, runs: seq<seq<Entry>>)
    requires ListsOk(lists, nodes)
    reads lists, nodes
  {
    |runs| == |lists| && forall k :: 0 <= k < |lists| ==> lists[k].Contents() == runs[k]
  }

  /** A write to one list leaves the others alone. */
  method UpsertAt(lists: seq<L.SkipList>, i: nat, e: Entry, ghost nodes: set<L.Node>, ghost runs: seq<seq<Entry>>)
    returns (inserted: bool, prev: Option<Entry>, ghost now: set<L.Node>)
    requires i < |lists| && ListsOk(lists, nodes) && Shows(lists, nodes, runs)
    modifies lists[i], lists[i].all
    ensures ListsOk(lists, now) && Shows(lists, now, runs[i := Put(runs[i], e)])
            && forall x :: x in now ==> x in nodes || fresh(x)
    ensures prev == Find(runs[i], e.key) && inserted == prev.None?
  {
    hide L.HeightsOk, L.AllDiffer, L.KeysOk, L.EntriesOk, L.NextsOk, L.LinksOk, L.SkipList.Contents, L.EntriesOf, Put,
         Find;
    ghost var before := lists[i].all;
    inserted, prev := lists[i].Upsert(e);
    now := nodes + set x | x in lists[i].all;
    forall k | 0 <= k < |lists| && k != i
      ensures lists[k].all == old(lists[k].all) && lists[k].Valid() && lists[k].Contents() == old(lists[k].Contents())
    {
      assert old(lists[k].Valid());
      assert lists[k] != lists[i] && Disjoint(before, old(lists[k].all));
      assert unchanged(lists[k]);
      forall x | x in lists[k].all ensures unchanged(x) { assert x !in before; }
      Framed(lists[k]);
    }
  }

  // ---------- picking a shard ----------

  /** The bits two numbers share. */
  function And(a: nat, b: nat): (r: nat)
    ensures r <= b
  {
    if a == 0 || b == 0 then 0 else 2 * And(a / 2, b / 2) + (a % 2) * (b % 2)
  }

  function Pow2(k: nat): (r: nat)
    ensures r > 0
  {
    if k == 0 then 1 else 2 * Pow2(k - 1)
  }

  /** Masking with a power of two less one is the remainder, so every shard can be picked. */
  lemma {:induction false} MaskIsRemainder(h: nat, k: nat)
    ensures And(h, Pow2(k) - 1) == h % Pow2(k)
  {
    if k == 0 {
    } else if h == 0 {
    } else {
      var n := Pow2(k - 1);
      MaskIsRemainder(h / 2, k - 1);
      assert (2 * n - 1) / 2 == n - 1 && (2 * n - 1) % 2 == 1;
      HalfRemainder(h, n);
    }
  }

  lemma HalfRemainder(h: nat, n: nat)
    requires n > 0
    ensures 2 * ((h / 2) % n) + h % 2 == h % (2 * n)
  {
    var q, r := (h / 2) / n, (h / 2) % n;
    assert h / 2 == n * q + r;
    assert h == 2 * n * q + (2 * r + h % 2);
    RemainderIs(h, 2 * n, q, 2 * r + h % 2);
  }

  lemma RemainderIs(h: nat, d: nat, q: nat, r: nat)
    requires d > 0 && h == d * q + r && r < d
    ensures h % d == r
  {
    var q', r' := h / d, h % d;
    assert h == d * q' + r';
    OneRemainder(d, q, r, q', r');
    OneRemainder(d, q', r', q, r);
  }

  lemma OneRemainder(d: nat, q: int, r: nat, q': int, r': nat)
    requires d * q + r == d * q' + r' && r < d && r' < d
    ensures q <= q' && (q == q' ==> r == r')
  {
    if q > q' { Times(d, q' + 1, q); }
  }

  lemma Times(d: nat, a: int, b: int)
    requires a <= b
    ensures d * a <= d * b && d * (b - 1) == d * b - d && d * (a - 1) == d * a - d
  {
    var c := b - a;
    assert d * c >= 0;
    assert d * b == d * a + d * c;
  }

  method NextPow2(v: int) returns (n: nat, ghost k: nat)
    ensures n == Pow2(k) && v <= n && (v <= 1 ==> n == 1) && (v > 1 ==> n < 2 * v)
  {
    k := 0;
    n := 1;
    if v <= 1 { return; }
    while n < v
      invariant n == Pow2(k) && n < 2 * v
      decreases v - n
    {
      n := 2 * n;
      k := k + 1;
    }
  }

  // ---------- merging ----------

  predicate ByKey(a: MergeItem, b: MergeItem)
  {
    Lt(a.entry.key, b.entry.key)
  }

  lemma ByKeyIsKeyFirst()
    ensures KeyFirst(ByKey)
  {
    OrderFacts();
    forall a, b ensures Asymmetric(ByKey, a, b) { }
    forall a, b, c ensures Between(ByKey, a, b, c) { }
    forall a, b ensures ComesFirst(ByKey, a, b) { }
  }

  /** No key is in two segments. */
  ghost predicate KeysApart(ins: seq<Source>)
  {
    forall s, t, i, j :: 0 <= s < |ins| && 0 <= t < |ins| && s != t && 0 <= i < |ins[s].entries|
      && 0 <= j < |ins[t].entries|
      ==> ins[s].entries[i].key != ins[t].entries[j].key
  }

  /** The entries taken so far, in key order. */
  ghost predicate Merged(ins: seq<Source>, next: seq<nat>, out: seq<Entry>)
    requires Progress(ins, next)
  {
    Sorted(out) && forall e :: e in out <==> Taken(ins, next, e)
  }

  function Sourced(segments: seq<seq<Entry>>): (ins: seq<Source>)
    ensures |ins| == |segments| && forall s :: 0 <= s < |ins| ==> ins[s] == Source(segments[s], false)
  {
    seq(|segments|, s requires 0 <= s < |segments| => Source(segments[s], false))
  }

  ghost predicate Among(segments: seq<seq<Entry>>, e: Entry)
  {
    exists s :: 0 <= s < |segments| && e in segments[s]
  }

  lemma NothingMerged(ins: seq<Source>, next: seq<nat>)
    requires next == seq(|ins|, _ => 0)
    ensures Progress(ins, next) && Frontier(ins, next) && Merged(ins, next, [])
  {
    assert forall e :: !Taken(ins, next, e);
  }

  /** The heads that are left are above the least one: no other segment has its key. */
  lemma LeastHead(ins: seq<Source>, next: seq<nat>, h0: seq<MergeItem>, h: seq<MergeItem>, item: MergeItem)
    requires KeysApart(ins) && Progress(ins, next) && HeapHolds(h0, ins, next, Pending(ins, next))
             && HeapOrdered(h, ByKey)
    requires multiset(h0) == multiset(h) + multiset{item} && forall y :: y in h0 ==> !ByKey(y, item)
    ensures IsHead(ins, next, item) && item.src in Pending(ins, next)
            && HeapHolds(h, ins, next, Pending(ins, next) - {item.src})
    ensures forall s :: s in Pending(ins, next) - {item.src} ==> Lt(item.entry.key, ins[s].entries[next[s]].key)
  {
    hide HeapHolds, HeapOrdered, Pending, Lt, KeysApart;
    ByKeyIsKeyFirst();
    RemoveHead(h0, h, item, ins, next, Pending(ins, next));
    HeapMembers(h, ins, next, Pending(ins, next) - {item.src});
    if h != [] {
      assert h[0] in h;
      HeadsDiffer(ins, next, h[0], item);
    }
    GroupIsLeast(h0, h, item, ins, ByKey, next, Pending(ins, next), Pending(ins, next) - {item.src});
  }

  lemma HeadsDiffer(ins: seq<Source>, next: seq<nat>, a: MergeItem, b: MergeItem)
    requires KeysApart(ins) && Progress(ins, next) && IsHead(ins, next, a) && IsHead(ins, next, b) && a.src != b.src
    ensures a.entry.key != b.entry.key
  {
  }

  /** Taking the least head: what it does to the positions and to what is merged. */
  lemma OneTaken(ins: seq<Source>, next: seq<nat>, item: MergeItem, out: seq<Entry>)
    requires Strict(ins) && Progress(ins, next) && Frontier(ins, next) && Merged(ins, next, out)
    requires IsHead(ins, next, item)
    requires forall s :: s in Pending(ins, next) - {item.src} ==> Lt(item.entry.key, ins[s].entries[next[s]].key)
    ensures var next' := next[item.src := item.idx + 1];
            && Progress(ins, next') && Frontier(ins, next') && Merged(ins, next', out + [item.entry])
            && Remaining(ins, next', |ins|) < Remaining(ins, next, |ins|)
  {
    hide Lt, Frontier, Strict, Remaining, Round, HeadKey;
    var key, next' := item.entry.key, next[item.src := item.idx + 1];
    assert item.src in Pending(ins, next);
    assert Sources([item]) == {item.src};
    assert Pending(ins, next) == (Pending(ins, next) - {item.src}) + Sources([item]);
    SteppedRound(ins, next, [item], key, Pending(ins, next) - {item.src});
    assert Stepped(next, [item]) == next';
    RoundFrontier(ins, next, next', key);
    RemainingShrinks(ins, next, next', |ins|, item.src);
    forall e ensures e in out + [item.entry] <==> Taken(ins, next', e) { TakenOneMore(ins, next, item, e); }
    if out != [] {
      assert out[|out| - 1] in out;
      KeyIsNew(ins, next, key, out[|out| - 1]);
    }
    SortedAppend(out, item.entry);
  }

  lemma TakenOneMore(ins: seq<Source>, next: seq<nat>, item: MergeItem, e: Entry)
    requires Progress(ins, next) && IsHead(ins, next, item)
    ensures var next' := next[item.src := item.idx + 1];
            Progress(ins, next') && (Taken(ins, next', e) <==> Taken(ins, next, e) || e == item.entry)
  {
    var next' := next[item.src := item.idx + 1];
    if Taken(ins, next, e) {
      var s, i :| 0 <= s < |ins| && 0 <= i < next[s] && ins[s].entries[i] == e;
      assert i < next'[s];
    }
    TakenAt(ins, next', item.src, item.idx);
    if Taken(ins, next', e) {
      var s, i :| 0 <= s < |ins| && 0 <= i < next'[s] && ins[s].entries[i] == e;
      TakenAt(ins, next, s, i);
    }
  }

  /** The heap after the head was taken, and after its successor, if there is one, went in. */
  lemma HeapMovedOn(h: seq<MergeItem>, ins: seq<Source>, next: seq<nat>, item: MergeItem)
    requires Progress(ins, next) && IsHead(ins, next, item) && HeapHolds(h, ins, next, Pending(ins, next) - {item.src})
    ensures var next' := next[item.src := item.idx + 1];
            HeapHolds(h, ins, next', Pending(ins, next') - {item.src})
  {
    hide HeapHolds;
    var next' := next[item.src := item.idx + 1];
    assert Pending(ins, next') - {item.src} == Pending(ins, next) - {item.src};
    StillHolds(h, ins, next, next', Pending(ins, next) - {item.src}, item.src);
  }

  lemma PushedBack(h0: seq<MergeItem>, h: seq<MergeItem>, ins: seq<Source>, next: seq<nat>, s: nat)
    requires Progress(ins, next) && HeapHolds(h0, ins, next, Pending(ins, next) - {s}) && s < |ins|
    requires next[s] < |ins[s].entries| ==> multiset(h) == multiset(h0) + multiset{Head(ins, s, next[s])}
    requires next[s] >= |ins[s].entries| ==> h == h0
    ensures HeapHolds(h, ins, next, Pending(ins, next))
  {
    hide HeapHolds;
    if next[s] < |ins[s].entries| {
      AddHead(h0, h, Head(ins, s, next[s]), ins, next, Pending(ins, next) - {s});
      assert (Pending(ins, next) - {s}) + {s} == Pending(ins, next);
    } else {
      assert Pending(ins, next) - {s} == Pending(ins, next);
    }
  }

  lemma AllMerged(segments: seq<seq<Entry>>, out: seq<Entry>)
    requires Merged(Sourced(segments), Ends(Sourced(segments)), out)
    ensures Sorted(out) && forall e :: e in out <==> Among(segments, e)
  {
    var ins := Sourced(segments);
    forall e ensures Taken(ins, Ends(ins), e) <==> Among(segments, e) {
      if Taken(ins, Ends(ins), e) {
        var s, i :| 0 <= s < |ins| && 0 <= i < Ends(ins)[s] && ins[s].entries[i] == e;
        assert e in segments[s];
      }
      if Among(segments, e) {
        var s :| 0 <= s < |segments| && e in segments[s];
        var i :| 0 <= i < |segments[s]| && segments[s][i] == e;
        TakenAt(ins, Ends(ins), s, i);
      }
    }
  }

  method MergeEntries(segments: seq<seq<Entry>>) returns (out: seq<Entry>)
    requires forall s :: 0 <= s < |segments| ==> Sorted(segments[s]) && segments[s] != []
    requires KeysApart(Sourced(segments))
    ensures Sorted(out) && forall e :: e in out <==> Among(segments, e)
  {
    hide HeapHolds, HeapOrdered, ByKey, Merged, Frontier, Remaining, Pending, Taken, KeysApart;
    ByKeyIsKeyFirst();
    var ins := Sourced(segments);
    var fine, h := OpenAll(ins, ByKey);
    ghost var next: seq<nat> := seq(|ins|, _ => 0);
    out := [];
    NothingMerged(ins, next);
    while h != []
      invariant Progress(ins, next) && Frontier(ins, next) && Merged(ins, next, out)
      invariant HeapOrdered(h, ByKey) && HeapHolds(h, ins, next, Pending(ins, next))
      decreases Remaining(ins, next, |ins|)
    {
      ghost var h0 := h;
      var item;
      item, h := HeapPop(h, ByKey);
      LeastHead(ins, next, h0, h, item);
      OneTaken(ins, next, item, out);
      HeapMovedOn(h, ins, next, item);
      out := out + [item.entry];
      next := next[item.src := item.idx + 1];
      ghost var h1 := h;
      if item.idx + 1 < |segments[item.src]| {
        h := HeapPush(h, Head(ins, item.src, item.idx + 1), ByKey);
      }
      PushedBack(h1, h, ins, next, item.src);
    }
    NothingPending(h, ins, next);
    AllMerged(segments, out);
  }

  // ---------- the table ----------

  datatype Stats = Stats(entries: nat, bytes: int)

  function PickOf(hash: bytes -> nat, mask: nat): (pick: bytes -> nat)
  {
    key => And(hash(key), mask)
  }

  /** Every shard holds the run of its part of the writes, and the counters say what is held. */
  ghost predicate Sharded(runs: seq<seq<Entry>>, stats: seq<Stats>, size: int, writes: seq<Entry>, pick: bytes -> nat)
  {
    && |stats| == |runs| && size == Size(RunOf(writes)) && (forall key: bytes :: pick(key) < |runs|)
    && forall i :: 0 <= i < |runs| ==>
         runs[i] == RunOf(Part(writes, pick, i)) && stats[i] == Stats(|runs[i]|, Size(runs[i]))
  }

  function Counted(st: Stats, e: Entry, prev: Option<Entry>): (r: Stats)
  {
    if prev.None? then Stats(st.entries + 1, st.bytes + EntrySize(e))
      else Stats(st.entries, st.bytes + EntrySize(e) - EntrySize(prev.value))
  }

  lemma PartOne(writes: seq<Entry>, e: Entry, pick: bytes -> nat, i: nat)
    ensures Part(writes + [e], pick, i) == if pick(e.key) == i then Part(writes, pick, i) + [e]
            else Part(writes, pick, i)
    ensures pick(e.key) == i ==> RunOf(Part(writes + [e], pick, i)) == Put(RunOf(Part(writes, pick, i)), e)
  {
    var p := Part(writes, pick, i);
    assert (writes + [e])[..|writes|] == writes;
    assert p + [] == p;
    assert (p + [e])[..|p|] == p;
  }

  /** The entry a shard replaces is the one the whole table would replace. */
  lemma SamePrevious(writes: seq<Entry>, pick: bytes -> nat, key: bytes)
    ensures Find(RunOf(Part(writes, pick, pick(key))), key) == Last(writes, key) == Find(RunOf(writes), key)
  {
    PartLast(writes, pick, pick(key), key);
    RunReads(Part(writes, pick, pick(key)), key);
    RunReads(writes, key);
  }

  lemma ShardedStep(runs: seq<seq<Entry>>, stats: seq<Stats>, size: int, writes: seq<Entry>, pick: bytes -> nat,
                    e: Entry)
    requires Sharded(runs, stats, size, writes, pick)
    ensures var i := pick(e.key);
            var prev := Find(runs[i], e.key);
            Sharded(runs[i := Put(runs[i], e)], stats[i := Counted(stats[i], e, prev)],
              size + EntrySize(e) - SizeOf(prev), writes + [e], pick)
  {
    hide Put, Size, Part, RunOf, Find, Last;
    var i := pick(e.key);
    var prev := Find(runs[i], e.key);
    SamePrevious(writes, pick, e.key);
    RunReads(writes, e.key);
    RunReads(Part(writes, pick, i), e.key);
    PutSize(RunOf(writes), e);
    PutSize(runs[i], e);
    PutLength(runs[i], e);
    FindSound(runs[i], e.key);
    RunOfOne(writes, e);
    forall k | 0 <= k < |runs|
      ensures k != i ==> Part(writes + [e], pick, k) == Part(writes, pick, k)
    {
      PartOne(writes, e, pick, k);
    }
    PartOne(writes, e, pick, i);
  }

  lemma RunOfOne(writes: seq<Entry>, e: Entry)
    ensures RunOf(writes + [e]) == Put(RunOf(writes), e)
  {
    assert (writes + [e])[..|writes|] == writes;
  }

  /** Splits a batch over the shards, keeping the order inside each. */
  method Distribute(entries: seq<Entry>, hash: bytes -> nat, mask: nat) returns (sharded: seq<seq<Entry>>, maxSeq: nat)
    requires entries != []
    ensures |sharded| == mask + 1 && forall i :: 0 <= i <= mask ==> sharded[i] == Part(entries, PickOf(hash, mask), i)
    ensures (forall e :: e in entries ==> e.seqno as nat <= maxSeq)
            && exists e :: e in entries && e.seqno as nat == maxSeq
  {
    hide Part;
    maxSeq := entries[0].seqno as nat;
    sharded := seq(mask + 1, _ => []);
    NoPart(PickOf(hash, mask));
    assert entries[..0] == [];
    for n := 0 to |entries|
      invariant |sharded| == mask + 1
                && forall i :: 0 <= i <= mask ==> sharded[i] == Part(entries[..n], PickOf(hash, mask), i)
      invariant forall k :: 0 <= k < n ==> entries[k].seqno as nat <= maxSeq
      invariant exists e :: e in entries && e.seqno as nat == maxSeq
    {
      var e := entries[n];
      if e.seqno as nat > maxSeq { maxSeq := e.seqno as nat; }
      var i := And(hash(e.key), mask);
      assert entries[..n + 1] == entries[..n] + [e];
      forall k | 0 <= k <= mask
        ensures Part(entries[..n + 1], PickOf(hash, mask), k) ==
                Part(entries[..n], PickOf(hash, mask), k) + (if k == i then [e] else [])
      {
        PartOne(entries[..n], e, PickOf(hash, mask), k);
      }
      sharded := sharded[i := sharded[i] + [e]];
    }
    assert entries[..|entries|] == entries;
  }

  lemma NoPart(pick: bytes -> nat)
    ensures forall i :: Part([], pick, i) == []
  {
  }

  class Table {
    const hash: bytes -> nat
    const mask: nat
    var lists: seq<L.SkipList>
    var stats: seq<Stats>
    var seqno: nat
    var sizeBytes: int

    ghost var nodes: set<L.Node>
    ghost var runs: seq<seq<Entry>>      // what each list holds
    ghost var writes: seq<Entry>         // every write since the table was last cleared

    ghost predicate Valid()
      reads this, lists, nodes
    {
      ListsOk(lists, nodes) && |lists| == |runs| == mask + 1 && Shows(lists, nodes, runs)
        && Sharded(runs, stats, sizeBytes, writes, PickOf(hash, mask))
    }

    /** The locked section of one shard. */
    method ApplyAt(i: nat, e: Entry)
      requires Valid() && i == PickOf(hash, mask)(e.key)
      modifies `stats, `sizeBytes, `nodes, `runs, `writes, lists, nodes
      ensures Valid() && writes == old(writes) + [e] && forall x :: x in nodes ==> x in old(nodes) || fresh(x)
    {
      hide Sharded, Shows, And, ListsOk;
      InBounds(runs, stats, sizeBytes, writes, PickOf(hash, mask), i, e.key);
      ShardedStep(runs, stats, sizeBytes, writes, PickOf(hash, mask), e);
      ListIsWithin(lists, nodes, i);
      var inserted, prev, now := UpsertAt(lists, i, e, nodes, runs);
      stats := stats[i := Counted(stats[i], e, prev)];
      sizeBytes := sizeBytes + EntrySize(e) - SizeOf(prev);
      nodes, runs, writes := now, runs[i := Put(runs[i], e)], writes + [e];
    }

    constructor (hash: bytes -> nat, shards: nat)
      requires shards > 0
      ensures Valid() && fresh(nodes) && fresh(lists) && writes == [] && seqno == 0 && this.hash == hash
              && mask == shards - 1
    {
      hide Sharded, Shows, ListsOk, And;
      this.hash, mask, seqno, sizeBytes := hash, shards - 1, 0, 0;
      var made, held := NewLists(shards);
      lists, stats, nodes := made, seq(shards, _ => Stats(0, 0)), held;
      runs, writes := seq(shards, _ => []), [];
      new;
      NothingSharded(hash, mask);
    }

    method BumpSeq(s: nat)
      modifies `seqno
      ensures seqno == if s <= old(seqno) then old(seqno) else s
    {
      if s > seqno { seqno := s; }
    }

    /** One write: it is the last write of its key from now on. */
    method ApplyOwned(e: Entry)
      requires Valid()
      modifies `seqno, `stats, `sizeBytes, `nodes, `runs, `writes, lists, nodes
      ensures Valid() && writes == old(writes) + [e] && forall x :: x in nodes ==> x in old(nodes) || fresh(x)
      ensures seqno == if e.seqno as nat <= old(seqno) then old(seqno) else e.seqno as nat
    {
      hide Sharded, Shows, And, ListsOk;
      BumpSeq(e.seqno as nat);
      ApplyAt(And(hash(e.key), mask), e);
    }

    method ApplyShard(i: nat, es: seq<Entry>)
      requires Valid() && forall e :: e in es ==> PickOf(hash, mask)(e.key) == i
      modifies `stats, `sizeBytes, `nodes, `runs, `writes, lists, nodes
      ensures Valid() && writes == old(writes) + es && forall x :: x in nodes ==> x in old(nodes) || fresh(x)
    {
      hide Sharded, Shows, And, ListsOk, PickOf;
      ghost var before := writes;
      for j := 0 to |es|
        invariant Valid() && writes == before + es[..j] && forall x :: x in nodes ==> x in old(nodes) || fresh(x)
      {
        assert es[j] in es;
        ApplyAt(i, es[j]);
        assert es[..j + 1] == es[..j] + [es[j]];
      }
      assert es[..|es|] == es;
    }

    /** A batch, shard by shard, ends where its entries applied one by one would end. */
    method ApplyBatchOwned(entries: seq<Entry>)
      requires Valid()
      modifies `seqno, `stats, `sizeBytes, `nodes, `runs, `writes, lists, nodes
      ensures Valid() && writes == old(writes) + entries && forall x :: x in nodes ==> x in old(nodes) || fresh(x)
      ensures old(seqno) <= seqno && (forall e :: e in entries ==> e.seqno as nat <= seqno)
      ensures seqno == old(seqno) || exists e :: e in entries && e.seqno as nat == seqno
    {
      hide Sharded, Shows, And, ListsOk, PickOf, Part;
      if |entries| == 0 { return; }
      ghost var pick, before, done: seq<Entry> := PickOf(hash, mask), writes, [];
      var sharded, maxSeq := Distribute(entries, hash, mask);
      BumpSeq(maxSeq);
      ghost var top := seqno;
      NoPart(pick);
      for i := 0 to |sharded|
        invariant Valid() && seqno == top && writes == before + done
                  && (forall x :: x in nodes ==> x in old(nodes) || fresh(x))
        invariant forall k :: 0 <= k <= mask ==> Part(done, pick, k) == if k < i then sharded[k] else []
      {
        PartIsPicked(entries, pick, i);
        ApplyShard(i, sharded[i]);
        assert before + (done + sharded[i]) == (before + done) + sharded[i];
        forall k | 0 <= k <= mask ensures Part(done + sharded[i], pick, k) == if k < i + 1 then sharded[k] else [] {
          PartAppend(done, sharded[i], pick, k);
          PartOfPicked(sharded[i], pick, i, k);
        }
        done := done + sharded[i];
      }
      SameSharded(runs, stats, sizeBytes, before, done, entries, pick);
      writes := before + entries;
    }

    method Get(key: bytes) returns (r: Option<Entry>)
      requires Valid()
      ensures r == Find(RunOf(writes), key) == Last(writes, key)
    {
      hide And, Find, RunOf, Part;
      SamePrevious(writes, PickOf(hash, mask), key);
      var i := And(hash(key), mask);
      r := lists[i].Get(key);
    }

    method Size() returns (n: int)
      requires Valid()
      ensures n == RunFacts.Size(RunOf(writes))
    {
      n := sizeBytes;
    }

    /** The entries of every shard in range, merged: the range of the whole run. */
    method Range(start: bytes, end: bytes) returns (out: seq<Entry>)
      requires Valid()
      ensures out == S.Select(RunOf(writes), start, end)
    {
      hide And, Shows, ListsOk, Sharded, PickOf, Part, RunOf;
      if |start| > 0 && |end| > 0 && !Lt(start, end) {
        EmptyRange(RunOf(writes), start, end);
        return [];
      }
      out := SnapshotRange(start, end);
    }

    method SnapshotRange(start: bytes, end: bytes) returns (out: seq<Entry>)
      requires Valid()
      ensures out == S.Select(RunOf(writes), start, end)
    {
      hide And, Shows, ListsOk, Sharded, PickOf, Part, RunOf, KeysApart, Gathered;
      var segments, from := GatherSegments(lists, start, end, nodes, runs);
      GatheredApart(runs, stats, sizeBytes, writes, PickOf(hash, mask), start, end, segments, from);
      out := MergeSegments(segments);
      GatheredIsRange(runs, stats, sizeBytes, writes, PickOf(hash, mask), start, end, segments, from, out);
    }

    /** Hands out everything in key order and starts over. */
    method Drain() returns (out: seq<Entry>)
      requires Valid()
      modifies this
      ensures Valid() && fresh(nodes) && fresh(lists) && out == old(RunOf(writes)) && writes == []
              && seqno == old(seqno)
    {
      hide And, Shows, ListsOk, Sharded, PickOf, Part, RunOf;
      out := Range([], []);
      WholeRange(RunOf(writes));
      Clear();
    }

    method Clear()
      requires Valid()
      modifies `lists, `stats, `sizeBytes, `nodes, `runs, `writes
      ensures Valid() && fresh(nodes) && fresh(lists) && writes == []
    {
      hide And, Shows, ListsOk, Sharded, PickOf;
      NothingSharded(hash, mask);
      var made, held := NewLists(mask + 1);
      lists, stats, sizeBytes := made, seq(mask + 1, _ => Stats(0, 0)), 0;
      nodes, runs, writes := held, seq(mask + 1, _ => []), [];
    }
  }

  method NewLists(n: nat) returns (lists: seq<L.SkipList>, ghost nodes: set<L.Node>)
    ensures |lists| == n && fresh(lists) && fresh(nodes) && ListsOk(lists, nodes)
            && Shows(lists, nodes, seq(n, _ => []))
  {
    hide ListsOk, Shows, L.SkipList.Valid, L.SkipList.Contents;
    lists, nodes := [], {};
    NoLists();
    for i := 0 to n
      invariant |lists| == i && fresh(lists) && fresh(nodes) && ListsOk(lists, nodes)
                && Shows(lists, nodes, seq(i, _ => []))
    {
      var l := new L.SkipList();
      AddList(lists, nodes, i, l);
      lists := lists + [l];
      nodes := nodes + set x | x in l.all;
    }
  }

  lemma NoLists()
    ensures ListsOk([], {}) && Shows([], {}, seq(0, _ => []))
  {
  }

  lemma AddList(lists: seq<L.SkipList>, nodes: set<L.Node>, n: nat, l: L.SkipList)
    requires ListsOk(lists, nodes) && |lists| == n && Shows(lists, nodes, seq(n, _ => []))
    requires l.Valid() && l.Contents() == [] && l !in lists && forall x :: x in l.all ==> x !in nodes
    ensures var all := nodes + set x | x in l.all;
            ListsOk(lists + [l], all) && Shows(lists + [l], all, seq(n + 1, _ => []))
  {
    hide L.HeightsOk, L.AllDiffer, L.KeysOk, L.EntriesOk, L.NextsOk, L.LinksOk, L.SkipList.Contents, L.EntriesOf;
    forall k | 0 <= k < n
      ensures Disjoint(lists[k].all, l.all) && Disjoint(l.all, lists[k].all)
    {
      assert Within(lists[k], nodes);
    }
  }

  lemma NothingSharded(hash: bytes -> nat, mask: nat)
    ensures Sharded(seq(mask + 1, _ => []), seq(mask + 1, _ => Stats(0, 0)), 0, [], PickOf(hash, mask))
  {
    hide And;
    forall key: bytes ensures PickOf(hash, mask)(key) < mask + 1 { assert And(hash(key), mask) <= mask; }
  }

  lemma {:induction false} PartIsPicked(es: seq<Entry>, pick: bytes -> nat, i: nat)
    ensures forall e :: e in Part(es, pick, i) ==> pick(e.key) == i
  {
    if es != [] { PartIsPicked(es[..|es| - 1], pick, i); }
  }

  lemma {:induction false} PartOfPicked(es: seq<Entry>, pick: bytes -> nat, i: nat, k: nat)
    requires forall e :: e in es ==> pick(e.key) == i
    ensures Part(es, pick, k) == if k == i then es else []
  {
    if es != [] {
      assert es == es[..|es| - 1] + [es[|es| - 1]];
      PartOfPicked(es[..|es| - 1], pick, i, k);
    }
  }

  /** Writes in another order, the same for every shard, leave the same table. */
  lemma SameSharded(runs: seq<seq<Entry>>, stats: seq<Stats>, size: int, before: seq<Entry>, done: seq<Entry>,
                    entries: seq<Entry>, pick: bytes -> nat)
    requires Sharded(runs, stats, size, before + done, pick)
    requires forall k :: 0 <= k < |runs| ==> Part(done, pick, k) == Part(entries, pick, k)
    ensures Sharded(runs, stats, size, before + entries, pick)
  {
    hide Part, RunOf, Size;
    forall k | 0 <= k < |runs| ensures Part(before + done, pick, k) == Part(before + entries, pick, k) {
      PartAppend(before, done, pick, k);
      PartAppend(before, entries, pick, k);
    }
    SameParts(before + done, before + entries, pick);
  }

  lemma ListIsSound(lists: seq<L.SkipList>, nodes: set<L.Node>, runs: seq<seq<Entry>>, i: nat)
    requires ListsOk(lists, nodes) && Shows(lists, nodes, runs) && i < |lists|
    ensures lists[i].Valid() && lists[i].Contents() == runs[i]
  {
  }

  /** Reads on until the end key, or the end of the list. */
  method WalkUntil(l: L.SkipList, it: L.Iter, end: bytes) returns (out: seq<Entry>)
    requires it.At(l)
    modifies it
    ensures var p, es := old(it.k), l.Contents();
            p + |out| <= |es| && out == es[p..p + |out|] && S.IsUpper(es, end, p, p + |out|)
  {
    hide Lt, L.NextAt, L.EntriesOf, L.HeightsOk, L.AllDiffer, L.KeysOk, L.EntriesOk, L.NextsOk, L.LinksOk;
    ghost var p, es := it.k, l.Contents();
    out := [];
    var more := it.Next(l);
    while more && (|end| == 0 || Lt(it.curr.entry.key, end))
      invariant it.At(l) && es == l.Contents() && p + |out| <= |es|
      invariant if more then it.k == p + |out| + 1 else p + |out| == |es|
      invariant forall j :: 0 <= j < |out| ==> out[j] == es[p + j] && (end == [] || Lt(out[j].key, end))
      decreases |l.all| - it.k, more
    {
      assert it.curr.entry == es[it.k - 1];
      out := out + [it.curr.entry];
      more := it.Next(l);
    }
    assert more ==> it.curr.entry == es[p + |out|];
    forall j | p <= j < p + |out| ensures end == [] || Lt(es[j].key, end) { assert out[j - p] == es[j]; }
  }

  /** Walks a list from the start key, and stops at the end key. */
  method CollectShardEntries(l: L.SkipList, start: bytes, end: bytes) returns (out: seq<Entry>)
    requires l.Valid()
    ensures out == S.Select(l.Contents(), start, end)
  {
    hide Lt, L.NextAt, L.EntriesOf, L.HeightsOk, L.AllDiffer, L.KeysOk, L.EntriesOk, L.NextsOk, L.LinksOk, S.Select,
         S.IsLower, S.IsUpper;
    var it := l.IterFrom(start);
    ghost var p, es := it.k, l.Contents();
    l.BelowAll(p, start);
    l.AboveAll(p, start);
    l.ContentsSorted();
    LowerIs(es, start, p);
    out := WalkUntil(l, it, end);
    S.SelectIsSlice(es, start, end, p, p + |out|, |es|);
    SliceEnds(es, p, p + |out|);
  }

  lemma SliceEnds(es: seq<Entry>, lo: nat, hi: nat)
    requires lo <= hi <= |es|
    ensures es[..|es|] == es && (lo == |es| ==> es[lo..hi] == []) && (hi == |es| ==> es[lo..] == es[lo..hi])
  {
  }

  lemma LowerIs(es: seq<Entry>, start: bytes, p: nat)
    requires p <= |es| && (forall i :: 0 <= i < p ==> Lt(es[i].key, start))
             && forall i :: p <= i < |es| ==> Le(start, es[i].key)
    ensures S.IsLower(es, start, p)
  {
  }

  // ---------- what the shards hold in range ----------

  /** The segments are the non-empty ranges of the first n shards, in order. */
  ghost predicate Gathered(runs: seq<seq<Entry>>, start: bytes, end: bytes, n: nat, segments: seq<seq<Entry>>,
                           from: seq<nat>)
  {
    && n <= |runs| && |from| == |segments|
    && (forall s :: 0 <= s < |from| ==>
         from[s] < n && segments[s] != [] && segments[s] == S.Select(runs[from[s]], start, end))
    && (forall s, t :: 0 <= s < t < |from| ==> from[s] < from[t])
    && (forall i :: 0 <= i < n ==> S.Select(runs[i], start, end) == [] || i in from)
  }

  method GatherSegments(lists: seq<L.SkipList>, start: bytes, end: bytes, ghost nodes: set<L.Node>,
                        ghost runs: seq<seq<Entry>>)
    returns (segments: seq<seq<Entry>>, ghost from: seq<nat>)
    requires ListsOk(lists, nodes) && Shows(lists, nodes, runs) && |runs| == |lists|
    ensures Gathered(runs, start, end, |runs|, segments, from)
  {
    hide Shows, ListsOk, Gathered, L.SkipList.Valid, L.SkipList.Contents, S.Select;
    segments, from := [], [];
    NothingGathered(runs, start, end);
    for i := 0 to |lists|
      invariant Gathered(runs, start, end, i, segments, from)
    {
      ListIsSound(lists, nodes, runs, i);
      var entries := CollectShardEntries(lists[i], start, end);
      GatherOne(runs, start, end, i, segments, from);
      if |entries| > 0 { segments, from := segments + [entries], from + [i]; }
    }
  }

  /** Nothing to merge, nothing to compare with, or the heap. */
  method MergeSegments(segments: seq<seq<Entry>>) returns (out: seq<Entry>)
    requires forall s :: 0 <= s < |segments| ==> Sorted(segments[s]) && segments[s] != []
    requires KeysApart(Sourced(segments))
    ensures Sorted(out) && forall e :: e in out <==> Among(segments, e)
  {
    hide KeysApart;
    if |segments| == 0 {
      out := [];
    } else if |segments| == 1 {
      out := segments[0];
    } else {
      out := MergeEntries(segments);
    }
  }

  lemma NothingGathered(runs: seq<seq<Entry>>, start: bytes, end: bytes)
    ensures Gathered(runs, start, end, 0, [], [])
  {
  }

  lemma GatherOne(runs: seq<seq<Entry>>, start: bytes, end: bytes, n: nat, segments: seq<seq<Entry>>, from: seq<nat>)
    requires Gathered(runs, start, end, n, segments, from) && n < |runs|
    ensures var r := S.Select(runs[n], start, end);
            if r == [] then Gathered(runs, start, end, n + 1, segments, from)
              else Gathered(runs, start, end, n + 1, segments + [r], from + [n])
  {
    hide S.Select;
  }

  /** An entry in range of shard i is the last write of its key, and that key belongs to i. */
  lemma ShardHas(runs: seq<seq<Entry>>, stats: seq<Stats>, size: int, writes: seq<Entry>, pick: bytes -> nat,
                 start: bytes, end: bytes, i: nat, e: Entry)
    requires Sharded(runs, stats, size, writes, pick) && i < |runs|
    ensures Sorted(S.Select(runs[i], start, end))
    ensures e in S.Select(runs[i], start, end) <==>
              pick(e.key) == i && Last(writes, e.key) == Some(e) && S.InRange(e.key, start, end)
  {
    hide Part, RunOf, S.Select, S.InRange, Last, Size;
    RunHas(Part(writes, pick, i), e);
    PartLast(writes, pick, i, e.key);
    SelectHas(runs[i], start, end);
    SelectSorted(runs[i], start, end);
  }

  lemma GatheredApart(runs: seq<seq<Entry>>, stats: seq<Stats>, size: int, writes: seq<Entry>, pick: bytes -> nat,
                      start: bytes, end: bytes,
                      segments: seq<seq<Entry>>, from: seq<nat>)
    requires Sharded(runs, stats, size, writes, pick) && Gathered(runs, start, end, |runs|, segments, from)
    ensures forall s :: 0 <= s < |segments| ==> Sorted(segments[s]) && segments[s] != []
    ensures KeysApart(Sourced(segments))
  {
    hide S.Select, S.InRange, Last, Sharded, Sorted;
    var ins := Sourced(segments);
    forall s, i | 0 <= s < |ins| && 0 <= i < |ins[s].entries| ensures pick(ins[s].entries[i].key) == from[s] {
      ShardHas(runs, stats, size, writes, pick, start, end, from[s], ins[s].entries[i]);
    }
    forall s | 0 <= s < |segments| ensures Sorted(segments[s]) {
      ShardHas(runs, stats, size, writes, pick, start, end, from[s], segments[s][0]);
    }
  }

  lemma GatheredIsRange(runs: seq<seq<Entry>>, stats: seq<Stats>, size: int, writes: seq<Entry>, pick: bytes -> nat,
                        start: bytes, end: bytes,
                        segments: seq<seq<Entry>>, from: seq<nat>, out: seq<Entry>)
    requires Sharded(runs, stats, size, writes, pick) && Gathered(runs, start, end, |runs|, segments, from)
    requires Sorted(out) && forall e :: e in out <==> Among(segments, e)
    ensures out == S.Select(RunOf(writes), start, end)
  {
    hide S.Select, S.InRange, Last, Sorted, RunOf;
    forall e ensures e in out <==> Last(writes, e.key) == Some(e) && S.InRange(e.key, start, end) {
      AmongIs(runs, stats, size, writes, pick, start, end, segments, from, e);
    }
    IsRange(writes, start, end, out);
  }

  lemma AmongIs(runs: seq<seq<Entry>>, stats: seq<Stats>, size: int, writes: seq<Entry>, pick: bytes -> nat,
                start: bytes, end: bytes,
                segments: seq<seq<Entry>>, from: seq<nat>, e: Entry)
    requires Sharded(runs, stats, size, writes, pick) && Gathered(runs, start, end, |runs|, segments, from)
    ensures Among(segments, e) <==> Last(writes, e.key) == Some(e) && S.InRange(e.key, start, end)
  {
    hide S.Select, S.InRange, Last, Sorted;
    var i := pick(e.key);
    ShardHas(runs, stats, size, writes, pick, start, end, i, e);
    if Among(segments, e) {
      var s :| 0 <= s < |segments| && e in segments[s];
      ShardHas(runs, stats, size, writes, pick, start, end, from[s], e);
    }
    if e in S.Select(runs[i], start, end) {
      assert i in from;
      var s :| 0 <= s < |from| && from[s] == i;
      assert e in segments[s];
    }
  }

  lemma ListIsWithin(lists: seq<L.SkipList>, nodes: set<L.Node>, i: nat)
    requires ListsOk(lists, nodes) && i < |lists|
    ensures forall x :: x in lists[i].all ==> x in nodes
  {
    assert Within(lists[i], nodes);
  }

  lemma InBounds(runs: seq<seq<Entry>>, stats: seq<Stats>, size: int, writes: seq<Entry>, pick: bytes -> nat, i: nat,
                 key: bytes)
    requires Sharded(runs, stats, size, writes, pick) && i == pick(key)
    ensures i < |runs| == |stats|
  {
  }
}
