/** The skiplist: linked nodes of several heights, refining a key-sorted run. */
module SkipList {
  import opened Bytes
  import opened Entries
  import opened Memtable

  const MAX_LEVEL: nat := 18

  // ---------- which node each link leads to ----------

  /** The first position after k that is higher than level i, or the end. */
  function NextAt(h: seq<nat>, k: nat, i: nat): (r: nat)
    requires k < |h|
    ensures k < r <= |h| && (r < |h| ==> h[r] > i) && forall m :: k < m < r ==> h[m] <= i
    decreases |h| - k
  {
    if k + 1 == |h| then |h| else if h[k + 1] > i then k + 1 else NextAt(h, k + 1, i)
  }

  lemma NextIs(h: seq<nat>, k: nat, i: nat, r: nat)
    requires k < r <= |h| && (r < |h| ==> h[r] > i) && forall m :: k < m < r ==> h[m] <= i
    ensures NextAt(h, k, i) == r
  {
    var s := NextAt(h, k, i);
    var a, b := if s < |h| then h[s] else 0, if r < |h| then h[r] else 0;
  }

  /** The positions that the level-i links visit from k on. */
  function Walk(h: seq<nat>, k: nat, i: nat): (r: seq<nat>)
    requires k < |h|
    decreases |h| - k
  {
    var n := NextAt(h, k, i);
    if n == |h| then [] else [n] + Walk(h, n, i)
  }

  /** The links of a level visit every later node of its height, once and in order. */
  lemma {:induction false} WalkVisits(h: seq<nat>, k: nat, i: nat)
    requires k < |h|
    ensures forall a, b :: 0 <= a < b < |Walk(h, k, i)| ==> Walk(h, k, i)[a] < Walk(h, k, i)[b]
    ensures forall m :: m in Walk(h, k, i) <==> k < m < |h| && h[m] > i
    decreases |h| - k
  {
    hide NextAt;
    var n := NextAt(h, k, i);
    if n < |h| {
      WalkVisits(h, n, i);
      var r, t := Walk(h, k, i), Walk(h, n, i);
      forall a, b | 0 <= a < b < |r| ensures r[a] < r[b] { if a == 0 { assert t[b - 1] in t; } }
      forall m ensures m in r <==> k < m < |h| && h[m] > i { assert m in r <==> m == n || m in t; }
    }
  }

  /** Each level is a sublist of the level below. */
  lemma LevelsNest(h: seq<nat>, k: nat, i: nat)
    requires k < |h|
    ensures forall m :: m in Walk(h, k, i + 1) ==> m in Walk(h, k, i)
  {
    WalkVisits(h, k, i);
    WalkVisits(h, k, i + 1);
  }

  /** Position q, and the heights after a node of height lvl was put there. */
  function Inserted<T>(s: seq<T>, q: nat, x: T): (r: seq<T>)
    requires q <= |s|
    ensures |r| == |s| + 1 && r[q] == x
    ensures forall k {:trigger r[k]} :: 0 <= k < q ==> r[k] == s[k]
    ensures forall k {:trigger r[k]} :: q < k <= |s| ==> r[k] == s[k - 1]
  {
    s[..q] + [x] + s[q..]
  }

  /** Before the new node: a link over it turns to it, if it is high enough, and the others keep their target. */
  lemma NextBefore(h: seq<nat>, q: nat, lvl: nat, k: nat, i: nat)
    requires k < q <= |h|
    ensures var r := NextAt(h, k, i);
            NextAt(Inserted(h, q, lvl), k, i) == if r < q then r else if lvl > i then q else r + 1
  {
    var r := NextAt(h, k, i);
    NextIs(Inserted(h, q, lvl), k, i, if r < q then r else if lvl > i then q else r + 1);
  }

  lemma NextAfter(h: seq<nat>, q: nat, lvl: nat, k: nat, i: nat)
    requires q <= k < |h|
    ensures NextAt(Inserted(h, q, lvl), k + 1, i) == NextAt(h, k, i) + 1
  {
    NextIs(Inserted(h, q, lvl), k + 1, i, NextAt(h, k, i) + 1);
  }

  /** The new node's own links are those it was put under. */
  lemma NextOfNew(h: seq<nat>, q: nat, lvl: nat, u: nat, i: nat)
    requires u < q <= |h| && NextAt(h, u, i) >= q
    ensures NextAt(Inserted(h, q, lvl), q, i) == NextAt(h, u, i) + 1
  {
    NextIs(Inserted(h, q, lvl), q, i, NextAt(h, u, i) + 1);
  }

  /** Only one node before q has a level-i link that passes q. */
  lemma OnePasses(h: seq<nat>, q: nat, u: nat, k: nat, i: nat)
    requires u < q <= |h| && k < q && h[u] > i && h[k] > i && NextAt(h, u, i) >= q && NextAt(h, k, i) >= q
    ensures u == k
  {
  }

  // ---------- the list ----------

  class Node {
    const key: bytes
    var entry: Entry
    var next: seq<Node?>

    constructor (key: bytes, entry: Entry, next: seq<Node?>)
      ensures this.key == key && this.entry == entry && this.next == next
    {
      this.key, this.entry, this.next := key, entry, next;
    }
  }

  ghost predicate HeightsOk(h: seq<nat>, level: nat)
  {
    |h| > 0 && h[0] == MAX_LEVEL && 1 <= level <= MAX_LEVEL && forall k :: 0 < k < |h| ==> 1 <= h[k] <= level
  }

  ghost predicate AllDiffer(all: seq<Node>)
  {
    forall j, k :: 0 <= j < k < |all| ==> all[j] != all[k]
  }

  /** Keys increase after the head. */
  ghost predicate KeysOk(all: seq<Node>)
  {
    forall j, k :: 0 < j < k < |all| ==> Lt(all[j].key, all[k].key)
  }

  ghost predicate EntriesOk(all: seq<Node>)
    reads all`entry
  {
    forall k :: 0 < k < |all| ==> all[k].entry.key == all[k].key
  }

  ghost predicate NextsOk(all: seq<Node>, h: seq<nat>)
    reads all`next
  {
    |all| == |h| && forall k :: 0 <= k < |all| ==> |all[k].next| == h[k]
  }

  /** Every link leads to the next node of its height. */
  ghost predicate LinksOk(all: seq<Node>, h: seq<nat>)
    requires NextsOk(all, h)
    reads all`next
  {
    forall k, i :: 0 <= k < |all| && 0 <= i < h[k] ==> all[k].next[i] == NodeIn(all, NextAt(h, k, i))
  }

  /** The node at a position, or null at the end. */
  ghost function NodeIn(all: seq<Node>, r: nat): (x: Node?)
  {
    if r < |all| then all[r] else null
  }

  /** A new node was put at position q, above these nodes. */
  ghost predicate Spliced(all: seq<Node>, h: seq<nat>, q: nat, lvl: nat, ups: seq<nat>)
  {
    && |all| == |h| && 0 < q <= |h| && |ups| == lvl
    && forall i :: 0 <= i < lvl ==> ups[i] < q && h[ups[i]] > i && NextAt(h, ups[i], i) >= q
  }

  /** The links of node k while the new node is linked in up to a level. */
  ghost function Turned(links: seq<Node?>, k: nat, ups: seq<nat>, node: Node, upto: nat): (r: seq<Node?>)
    requires upto <= |ups|
    ensures |r| == |links|
    ensures forall i :: 0 <= i < |links| ==> r[i] == if i < upto && k == ups[i] then node else links[i]
  {
    seq(|links|, i requires 0 <= i < |links| => if i < upto && k == ups[i] then node else links[i])
  }

  lemma TurnedOne(links: seq<Node?>, k: nat, ups: seq<nat>, node: Node, upto: nat)
    requires upto < |ups| && (k == ups[upto] ==> upto < |links|)
    ensures Turned(links, k, ups, node, upto + 1) ==
              if k == ups[upto] then Turned(links, k, ups, node, upto)[upto := node]
                else Turned(links, k, ups, node, upto)
  {
  }

  lemma TurnedNone(links: seq<Node?>, k: nat, ups: seq<nat>, node: Node)
    ensures Turned(links, k, ups, node, 0) == links
  {
  }

  /** Where every link of an old node leads after the insertion. */
  lemma OldLink(all: seq<Node>, h: seq<nat>, q: nat, lvl: nat, ups: seq<nat>, node: Node, k: nat, i: nat)
    requires Spliced(all, h, q, lvl, ups) && k < |all| && i < h[k]
    ensures (if i < lvl && k == ups[i] then node else NodeIn(all, NextAt(h, k, i))) ==
              NodeIn(Inserted(all, q, node), NextAt(Inserted(h, q, lvl), if k < q then k else k + 1, i))
  {
    hide NextAt;
    if k < q {
      NextBefore(h, q, lvl, k, i);
      if i < lvl && NextAt(h, k, i) >= q { OnePasses(h, q, ups[i], k, i); }
    } else {
      NextAfter(h, q, lvl, k, i);
    }
  }

  lemma NewLink(all: seq<Node>, h: seq<nat>, q: nat, lvl: nat, ups: seq<nat>, node: Node, i: nat)
    requires Spliced(all, h, q, lvl, ups) && i < lvl
    ensures NodeIn(all, NextAt(h, ups[i], i)) == NodeIn(Inserted(all, q, node), NextAt(Inserted(h, q, lvl), q, i))
  {
    hide NextAt;
    NextOfNew(h, q, lvl, ups[i], i);
  }

  lemma {:induction false} PutAt(es: seq<Entry>, e: Entry, p: nat)
    requires p <= |es| && (forall i :: 0 <= i < p ==> Lt(es[i].key, e.key)) && (p < |es| ==> Lt(e.key, es[p].key))
    ensures Put(es, e) == es[..p] + [e] + es[p..]
  {
    if p > 0 {
      LtAsymmetric(es[0].key, e.key);
      var t := es[1..];
      PutAt(t, e, p - 1);
      assert es[..p] == [es[0]] + t[..p - 1] && es[p..] == t[p - 1..];
    }
  }

  lemma {:induction false} PutOver(es: seq<Entry>, e: Entry, p: nat)
    requires p < |es| && (forall i :: 0 <= i < p ==> Lt(es[i].key, e.key)) && es[p].key == e.key
    ensures Put(es, e) == es[p := e]
  {
    LtIrreflexive(e.key);
    if p > 0 {
      LtAsymmetric(es[0].key, e.key);
      PutOver(es[1..], e, p - 1);
      assert es[p := e] == [es[0]] + es[1..][p - 1 := e];
    } else {
      assert es[0 := e] == [e] + es[1..];
    }
  }

  // ---------- insertion, part by part ----------

  lemma HeightsInserted(h: seq<nat>, level: nat, q: nat, lvl: nat)
    requires HeightsOk(h, level) && 0 < q <= |h| && 1 <= lvl <= MAX_LEVEL
    ensures HeightsOk(Inserted(h, q, lvl), if lvl > level then lvl else level)
  {
  }

  lemma DifferInserted(all: seq<Node>, q: nat, node: Node)
    requires AllDiffer(all) && node !in all && q <= |all|
    ensures AllDiffer(Inserted(all, q, node))
  {
    var r := Inserted(all, q, node);
    forall j, k | 0 <= j < k < |r| ensures r[j] != r[k] {
      if j != q && k != q { assert all[if j < q then j else j - 1] != all[if k < q then k else k - 1]; }
    }
  }

  /** The entries after the head. */
  ghost function EntriesOf(all: seq<Node>): (es: seq<Entry>)
    requires |all| > 0
    reads all`entry
    ensures |es| == |all| - 1 && forall k {:trigger all[k]} :: 0 < k < |all| ==> es[k - 1] == all[k].entry
  {
    if |all| == 1 then [] else EntriesOf(all[..|all| - 1]) + [all[|all| - 1].entry]
  }

  lemma EntriesOfInserted(all: seq<Node>, p: nat, node: Node)
    requires p < |all|
    ensures var es := EntriesOf(all); EntriesOf(Inserted(all, p + 1, node)) == es[..p] + [node.entry] + es[p..]
  {
    var es, r := EntriesOf(all), EntriesOf(Inserted(all, p + 1, node));
    var want := es[..p] + [node.entry] + es[p..];
    forall k | 0 <= k < |r| ensures r[k] == want[k] {
      assert r[k] == Inserted(all, p + 1, node)[k + 1].entry;
      if k < p { assert es[k] == all[k + 1].entry; } else if k > p { assert es[k - 1] == all[k].entry; }
    }
  }

  lemma EntriesInserted(all: seq<Node>, q: nat, node: Node)
    requires EntriesOk(all) && 0 < q <= |all| && node.entry.key == node.key
    ensures EntriesOk(Inserted(all, q, node))
  {
  }

  lemma InsertedMembers(all: seq<Node>, q: nat, node: Node)
    requires 0 < q <= |all|
    ensures var r := Inserted(all, q, node); r[0] == all[0] && forall x :: x in r ==> x in all || x == node
  {
    var r := Inserted(all, q, node);
    forall x | x in r ensures x in all || x == node { var k :| 0 <= k < |r| && r[k] == x; }
  }

  lemma SplicedLength(all: seq<Node>, h: seq<nat>, q: nat, lvl: nat, ups: seq<nat>)
    requires Spliced(all, h, q, lvl, ups)
    ensures |ups| == lvl && 0 < q <= |h| == |all|
  {
  }

  lemma KeysInserted(all: seq<Node>, p: nat, node: Node)
    requires KeysOk(all) && p < |all|
    requires (p > 0 ==> Lt(all[p].key, node.key)) && (p + 1 < |all| ==> Lt(node.key, all[p + 1].key))
    ensures KeysOk(Inserted(all, p + 1, node))
  {
    hide Lt;
    var r := Inserted(all, p + 1, node);
    forall j, k | 0 < j < k < |r| ensures Lt(r[j].key, r[k].key) {
      if k == p + 1 {
        if j < p { LtTransitive(all[j].key, all[p].key, node.key); }
      } else if j == p + 1 {
        if k > p + 2 { LtTransitive(node.key, all[p + 1].key, all[k - 1].key); }
      } else {
        assert Lt(all[if j < p + 1 then j else j - 1].key, all[if k < p + 1 then k else k - 1].key);
      }
    }
  }

  ghost predicate Holds(all: seq<Node>, links: seq<seq<Node?>>)
    reads all`next
  {
    |links| == |all| && forall k :: 0 <= k < |all| ==> all[k].next == links[k]
  }

  /** Links as they are when the new node is linked in up to a level. */
  ghost function TurnedAll(links: seq<seq<Node?>>, ups: seq<nat>, node: Node, upto: nat): (r: seq<seq<Node?>>)
    requires upto <= |ups|
    ensures |r| == |links| && forall k :: 0 <= k < |links| ==> r[k] == Turned(links[k], k, ups, node, upto)
  {
    seq(|links|, k requires 0 <= k < |links| => Turned(links[k], k, ups, node, upto))
  }

  /** The node to link under at each level, and room for the link. */
  ghost predicate Under(all: seq<Node>, links: seq<seq<Node?>>, update: seq<Node?>, ups: seq<nat>)
  {
    && |links| == |all| && |ups| <= |update|
    && forall i :: 0 <= i < |ups| ==> ups[i] < |all| && i < |links[ups[i]]| && update[i] == all[ups[i]]
  }

  method LinkLevel(node: Node, u: Node, i: nat, ghost all: seq<Node>, ghost links: seq<seq<Node?>>, ghost k: nat)
    requires AllDiffer(all) && Holds(all, links) && node !in all && k < |all| && all[k] == u && i < |links[k]|
             && i < |node.next|
    modifies node`next, u`next
    ensures node.next == old(node.next)[i := links[k][i]] && Holds(all, links[k := links[k][i := node]])
  {
    node.next := node.next[i := u.next[i]];
    u.next := u.next[i := node];
    forall j | 0 <= j < |all| && j != k ensures all[j] != u { assert all[j] != all[k]; }
  }

  lemma TurnedAllOne(links: seq<seq<Node?>>, ups: seq<nat>, node: Node, upto: nat)
    requires upto < |ups| && ups[upto] < |links| && upto < |links[ups[upto]]|
    ensures var t := TurnedAll(links, ups, node, upto);
            TurnedAll(links, ups, node, upto + 1) == t[ups[upto] := t[ups[upto]][upto := node]]
  {
    hide Turned;
    var t := TurnedAll(links, ups, node, upto);
    var a, b := TurnedAll(links, ups, node, upto + 1), t[ups[upto] := t[ups[upto]][upto := node]];
    forall k | 0 <= k < |links| ensures a[k] == b[k] { TurnedOne(links[k], k, ups, node, upto); }
  }

  /** Links the new node in, level by level. */
  method LinkIn(node: Node, update: seq<Node?>, lvl: nat, ghost all: seq<Node>, ghost links: seq<seq<Node?>>,
                ghost ups: seq<nat>)
    requires AllDiffer(all) && Holds(all, links) && node !in all && Under(all, links, update, ups)
             && |node.next| == lvl == |ups|
    modifies node`next, all`next
    ensures TookOver(node, links, ups) && Holds(all, TurnedAll(links, ups, node, lvl))
  {
    hide Turned, Holds, AllDiffer;
    assert TurnedAll(links, ups, node, 0) == links by {
      forall k | 0 <= k < |links|
        ensures Turned(links[k], k, ups, node, 0) == links[k]
      {
        TurnedNone(links[k], k, ups, node);
      }
    }
    for i := 0 to lvl
      invariant |node.next| == lvl && forall j :: 0 <= j < i ==> node.next[j] == links[ups[j]][j]
      invariant Holds(all, TurnedAll(links, ups, node, i))
    {
      var u := update[i];
      TurnedAllOne(links, ups, node, i);
      StillThere(links, ups, node, i);
      LinkLevel(node, u, i, all, TurnedAll(links, ups, node, i), ups[i]);
    }
  }

  lemma StillThere(links: seq<seq<Node?>>, ups: seq<nat>, node: Node, i: nat)
    requires i < |ups| && ups[i] < |links| && i < |links[ups[i]]|
    ensures TurnedAll(links, ups, node, i)[ups[i]][i] == links[ups[i]][i]
  {
  }

  /** The links of a well-linked list. */
  ghost predicate LinksAre(all: seq<Node>, h: seq<nat>, links: seq<seq<Node?>>)
  {
    && |links| == |all| == |h| && (forall k :: 0 <= k < |all| ==> |links[k]| == h[k])
    && (forall k, i :: 0 <= k < |all| && 0 <= i < h[k] ==> links[k][i] == NodeIn(all, NextAt(h, k, i)))
  }

  /** The new node has taken over the links it was put under. */
  ghost predicate TookOver(node: Node, links: seq<seq<Node?>>, ups: seq<nat>)
    reads node`next
  {
    |node.next| == |ups|
      && forall i :: 0 <= i < |ups| ==> ups[i] < |links| && i < |links[ups[i]]| && node.next[i] == links[ups[i]][i]
  }

  lemma UnderSpliced(all: seq<Node>, h: seq<nat>, links: seq<seq<Node?>>, update: seq<Node?>, q: nat, lvl: nat,
                     ups: seq<nat>)
    requires LinksAre(all, h, links) && Spliced(all, h, q, lvl, ups) && lvl <= |update|
    requires forall i :: 0 <= i < lvl ==> update[i] == all[ups[i]]
    ensures Under(all, links, update, ups)
  {
  }

  /** After the insertion every link leads to the next node of its height again. */
  lemma Relinked(all: seq<Node>, h: seq<nat>, q: nat, lvl: nat, ups: seq<nat>, node: Node, links: seq<seq<Node?>>)
    requires Spliced(all, h, q, lvl, ups) && node !in all
    requires LinksAre(all, h, links) && TookOver(node, links, ups)
    requires Holds(all, TurnedAll(links, ups, node, lvl))
    ensures NextsOk(Inserted(all, q, node), Inserted(h, q, lvl)) && LinksOk(Inserted(all, q, node), Inserted(h, q, lvl))
  {
    hide NextAt, NodeIn, Turned, TurnedAll;
    var all', h' := Inserted(all, q, node), Inserted(h, q, lvl);
    forall k | 0 <= k < |all|
      ensures |all[k].next| == h[k]
    {
      assert all[k].next == Turned(links[k], k, ups, node, lvl);
    }
    forall k, i | 0 <= k < |all'| && 0 <= i < h'[k] ensures all'[k].next[i] == NodeIn(all', NextAt(h', k, i)) {
      if k == q {
        NewLink(all, h, q, lvl, ups, node, i);
      } else {
        OldLinkTurned(all, h, q, lvl, ups, node, links, if k < q then k else k - 1, i);
      }
    }
  }

  lemma OldLinkTurned(all: seq<Node>, h: seq<nat>, q: nat, lvl: nat, ups: seq<nat>, node: Node, links: seq<seq<Node?>>,
                      k: nat, i: nat)
    requires Spliced(all, h, q, lvl, ups) && k < |all| && i < h[k] && |links| == |all| && |links[k]| == h[k]
    requires links[k][i] == NodeIn(all, NextAt(h, k, i)) && all[k].next == Turned(links[k], k, ups, node, lvl)
    ensures all[k].next[i] == NodeIn(Inserted(all, q, node), NextAt(Inserted(h, q, lvl), if k < q then k else k + 1, i))
  {
    hide NextAt, NodeIn;
    OldLink(all, h, q, lvl, ups, node, k, i);
  }

  class SkipList {
    var head: Node
    var level: nat
    var length: nat
    var rng: bv64

    ghost var all: seq<Node>             // the head, then the nodes in key order
    ghost var heights: seq<nat>

    ghost predicate Valid()
      reads this, all
    {
      && |all| > 0 && all[0] == head && length == |all| - 1
      && HeightsOk(heights, level) && AllDiffer(all) && KeysOk(all) && EntriesOk(all)
      && NextsOk(all, heights) && LinksOk(all, heights)
    }

    /** The entries in key order. */
    ghost function Contents(): (es: seq<Entry>)
      requires |all| > 0
      reads this, all`entry
      ensures |es| == |all| - 1 && forall k {:trigger all[k]} :: 0 < k < |all| ==> es[k - 1] == all[k].entry
    {
      EntriesOf(all)
    }

    constructor ()
      ensures Valid() && Contents() == [] && fresh(all)
    {
      var h := new Node([], Entry([], [], false, 0), seq(MAX_LEVEL, i => null));
      head, level, length, rng := h, 1, 0, 0xdecafbad;
      all, heights := [h], [MAX_LEVEL];
    }

    /** Everything up to position p is below the key, and the level-i link from u passes p. */
    ghost predicate Passes(u: nat, p: nat, i: nat)
      requires |all| == |heights|
      reads this
    {
      u <= p < |all| && heights[u] > i && NextAt(heights, u, i) > p
    }

    ghost predicate Below(p: nat, key: bytes)
      reads this
    {
      p < |all| && (p > 0 ==> Lt(all[p].key, key))
    }

    /** The last node below the key; on the way, at every level, the node whose link passes it. */
    method FindPrev(key: bytes) returns (x: Node, update: seq<Node?>, ghost p: nat, ghost ups: seq<nat>)
      requires Valid()
      ensures Below(p, key) && x == all[p] && (p + 1 < |all| ==> Le(key, all[p + 1].key))
      ensures |update| == MAX_LEVEL && |ups| == level
      ensures forall i :: 0 <= i < level ==> Passes(ups[i], p, i) && update[i] == all[ups[i]]
    {
      hide Lt, NextAt;
      x, p := head, 0;
      update := seq(MAX_LEVEL, _ => null);
      ups := seq(level, _ => 0);
      var i := level;
      while i > 0
        invariant 0 <= i <= level && |update| == MAX_LEVEL && |ups| == level
        invariant Below(p, key) && x == all[p] && heights[p] >= i
        invariant forall j :: i <= j < level ==>
                    ups[j] <= p && heights[ups[j]] > j && update[j] == all[ups[j]] && Beyond(ups[j], j, key)
      {
        i := i - 1;
        while x.next[i] != null && Lt(x.next[i].key, key)
          invariant Below(p, key) && x == all[p] && heights[p] > i
          invariant forall j :: i < j < level ==> ups[j] <= p
          decreases |all| - p
        {
          p := NextAt(heights, p, i);
          x := x.next[i];
        }
        update := update[i := x];
        ups := ups[i := p];
      }
      assert Beyond(ups[0], 0, key);
      NextIsNeighbour(p);
      forall i | 0 <= i < level ensures Passes(ups[i], p, i) { BeyondPasses(ups[i], p, i, key); }
    }

    /** The level-i link from u leads to a node at or above the key, or nowhere. */
    ghost predicate Beyond(u: nat, i: nat, key: bytes)
      requires |all| == |heights|
      reads this
    {
      u < |all| && (NextAt(heights, u, i) < |all| ==> Le(key, all[NextAt(heights, u, i)].key))
    }

    lemma NextIsNeighbour(p: nat)
      requires HeightsOk(heights, level) && |all| == |heights| && p < |all|
      ensures NextAt(heights, p, 0) == p + 1
    {
    }

    lemma BeyondPasses(u: nat, p: nat, i: nat, key: bytes)
      requires Valid() && u <= p && Below(p, key) && heights[u] > i && Beyond(u, i, key)
      ensures Passes(u, p, i)
    {
      hide Lt;
      var r := NextAt(heights, u, i);
      if r < p { LtTransitive(all[r].key, all[p].key, key); }
    }

    method Get(key: bytes) returns (r: Option<Entry>)
      requires Valid()
      ensures r == Find(Contents(), key)
    {
      hide Lt, NextAt, Find;
      var prev, update, p, ups := FindPrev(key);
      var x := prev.next[0];
      NextIsNeighbour(p);
      ContentsSorted();
      if x != null && x.key == key {
        FindAt(Contents(), p);
        return Some(x.entry);
      }
      NotInList(p, key);
      return None;
    }

    /** A height from 1 to 18, from the generator's bits. */
    method RandomLevel() returns (lvl: nat)
      modifies `rng
      ensures 1 <= lvl <= MAX_LEVEL
    {
      lvl := 1;
      while lvl < MAX_LEVEL
        invariant 1 <= lvl <= MAX_LEVEL
      {
        var x := rng;
        x := x ^ (x << 13);
        x := x ^ (x >> 7);
        x := x ^ (x << 17);
        rng := x;
        if x & 1 != 1 { break; }
        lvl := lvl + 1;
      }
    }

    lemma BelowAll(p: nat, key: bytes)
      requires Valid() && Below(p, key)
      ensures forall i :: 0 <= i < p ==> Lt(Contents()[i].key, key)
    {
      hide Lt, NextAt;
      forall i | 0 <= i < p ensures Lt(Contents()[i].key, key) {
        assert Contents()[i] == all[i + 1].entry;
        if i + 1 < p { LtTransitive(all[i + 1].key, all[p].key, key); }
      }
    }

    method Replace(x: Node, e: Entry, ghost k: nat)
      requires Valid() && 0 < k < |all| && all[k] == x && x.key == e.key
      modifies x`entry
      ensures Valid() && Contents() == old(Contents())[k - 1 := e]
    {
      hide NextAt, Lt;
      ghost var es := Contents();
      x.entry := e;
      forall j | 0 <= j < |es| ensures Contents()[j] == es[k - 1 := e][j] {
        assert Contents()[j] == all[j + 1].entry;
        assert all[j + 1] == x <==> j + 1 == k by {
          if j + 1 < k { assert all[j + 1] != all[k]; } else if k < j + 1 { assert all[k] != all[j + 1]; }
        }
      }
      assert Contents() == es[k - 1 := e];
    }

    /** Replaces the entry under its key, or inserts it at its place. */
    method Upsert(e: Entry) returns (inserted: bool, prev: Option<Entry>)
      requires Valid()
      modifies this, all
      ensures Valid() && forall x :: x in all ==> x in old(all) || fresh(x)
      ensures Contents() == Put(old(Contents()), e)
      ensures prev == old(Find(Contents(), e.key)) && inserted == prev.None?
    {
      hide Lt, NextAt, Find, Put;
      var before, update, p, ups := FindPrev(e.key);
      var x := before.next[0];
      NextIsNeighbour(p);
      ContentsSorted();
      BelowAll(p, e.key);
      ghost var es := Contents();
      if x != null && x.key == e.key {
        FindAt(es, p);
        PutOver(es, e, p);
        prev := Some(x.entry);
        Replace(x, e, p + 1);
        return false, prev;
      }
      NotInList(p, e.key);
      AboveNext(p, e.key);
      assert p < |es| ==> es[p] == all[p + 1].entry;
      PutAt(es, e, p);
      Insert(e, update, p, ups);
      return true, None;
    }

    lemma AboveNext(p: nat, key: bytes)
      requires Valid() && Below(p, key) && (p + 1 < |all| ==> Le(key, all[p + 1].key) && all[p + 1].key != key)
      ensures p + 1 < |all| ==> Lt(key, all[p + 1].key)
    {
      if p + 1 < |all| { LtTrichotomy(key, all[p + 1].key); }
    }

    /** A height for a new node, and the nodes to link it under. */
    method PickLevel(update0: seq<Node?>, ghost p: nat, ghost ups0: seq<nat>)
        returns (lvl: nat, update: seq<Node?>, ghost ups: seq<nat>)
      requires HeightsOk(heights, level) && |all| == |heights| && all[0] == head && p < |all| && |update0| == MAX_LEVEL
               && |ups0| == level
      requires forall i :: 0 <= i < level ==> Passes(ups0[i], p, i) && update0[i] == all[ups0[i]]
      modifies `rng, `level
      ensures 1 <= lvl <= MAX_LEVEL && level == (if lvl > old(level) then lvl else old(level)) && |update| == MAX_LEVEL
      ensures Spliced(all, heights, p + 1, lvl, ups) && forall i :: 0 <= i < lvl ==> update[i] == all[ups[i]]
    {
      hide NextAt, HeightsOk;
      lvl := RandomLevel();
      update := update0;
      if lvl > level {
        for i := level to lvl
          invariant |update| == MAX_LEVEL
                    && forall j :: 0 <= j < i ==> update[j] == if j < level then update0[j] else head
        {
          update := update[i := head];
        }
        ups := ups0 + seq(lvl - level, _ => 0);
        HeadPasses(p, lvl);
        forall i | 0 <= i < lvl ensures ups[i] <= p && heights[ups[i]] > i && NextAt(heights, ups[i], i) > p {
          assert if i < level then Passes(ups0[i], p, i) else Passes(0, p, i);
        }
        level := lvl;
      } else {
        ups := ups0[..lvl];
      }
    }

    lemma HeadPasses(p: nat, lvl: nat)
      requires HeightsOk(heights, level) && |all| == |heights| && p < |all| && level < lvl <= MAX_LEVEL
      ensures forall i :: level <= i < lvl ==> Passes(0, p, i)
    {
    }

    ghost function Links(): (r: seq<seq<Node?>>)
      reads this, all
      ensures |r| == |all| && forall k :: 0 <= k < |all| ==> r[k] == all[k].next
    {
      seq(|all|, k requires 0 <= k < |all| reads this, all => all[k].next)
    }

    method Insert(e: Entry, update0: seq<Node?>, ghost p: nat, ghost ups0: seq<nat>)
      requires Valid() && Below(p, e.key) && (p + 1 < |all| ==> Lt(e.key, all[p + 1].key))
      requires |update0| == MAX_LEVEL && |ups0| == level
      requires forall i :: 0 <= i < level ==> Passes(ups0[i], p, i) && update0[i] == all[ups0[i]]
      modifies this, all
      ensures Valid() && forall x :: x in all ==> x in old(all) || fresh(x)
      ensures Contents() == old(Contents())[..p] + [e] + old(Contents())[p..]
    {
      hide Lt, NextAt, TurnedAll, HeightsOk, AllDiffer, KeysOk, EntriesOk, NextsOk, EntriesOf, Spliced, LinksAre,
           TookOver, Holds, Under, LinksOk, Passes;
      ghost var links := Links();
      LinksNow();
      var lvl, update, ups := PickLevel(update0, p, ups0);
      UnderSpliced(all, heights, links, update, p + 1, lvl, ups);
      HeightsInserted(heights, old(level), p + 1, lvl);
      Attach(e, lvl, update, p, ups, links);
    }

    /** Makes the new node and links it in at its place. */
    method Attach(e: Entry, lvl: nat, update: seq<Node?>, ghost p: nat, ghost ups: seq<nat>,
                  ghost links: seq<seq<Node?>>)
      requires |all| > 0 && all[0] == head && length == |all| - 1 && AllDiffer(all) && KeysOk(all) && EntriesOk(all)
      requires LinksAre(all, heights, links) && Holds(all, links) && Spliced(all, heights, p + 1, lvl, ups)
               && Under(all, links, update, ups)
      requires HeightsOk(Inserted(heights, p + 1, lvl), level)
      requires Below(p, e.key) && (p + 1 < |all| ==> Lt(e.key, all[p + 1].key))
      modifies `length, `all, `heights, all`next
      ensures Valid() && forall x :: x in all ==> x in old(all) || fresh(x)
      ensures Contents() == old(Contents())[..p] + [e] + old(Contents())[p..]
    {
      hide Lt, NextAt, TurnedAll, HeightsOk, AllDiffer, KeysOk, EntriesOk, NextsOk, EntriesOf, Spliced, LinksAre,
           TookOver, Holds, Under, LinksOk, Inserted;
      SplicedLength(all, heights, p + 1, lvl, ups);
      var node := LinkNew(e, lvl, update, p, ups, links);
      length := length + 1;
      InsertedMembers(all, p + 1, node);
      all, heights := Inserted(all, p + 1, node), Inserted(heights, p + 1, lvl);
    }

    /** The new node, linked in on all its levels: what the list is with it. */
    method LinkNew(e: Entry, lvl: nat, update: seq<Node?>, ghost p: nat, ghost ups: seq<nat>,
                   ghost links: seq<seq<Node?>>)
        returns (node: Node)
      requires |all| > 0 && p < |all| == |heights| && AllDiffer(all) && KeysOk(all) && EntriesOk(all)
      requires LinksAre(all, heights, links) && Holds(all, links) && Spliced(all, heights, p + 1, lvl, ups)
               && Under(all, links, update, ups)
      requires Below(p, e.key) && (p + 1 < |all| ==> Lt(e.key, all[p + 1].key))
      modifies all`next
      ensures fresh(node)
      ensures var all', h' := Inserted(all, p + 1, node), Inserted(heights, p + 1, lvl);
              && AllDiffer(all') && KeysOk(all') && EntriesOk(all') && NextsOk(all', h') && LinksOk(all', h')
              && EntriesOf(all') == EntriesOf(all)[..p] + [e] + EntriesOf(all)[p..]
      ensures EntriesOf(all) == old(EntriesOf(all))
    {
      hide Lt, NextAt, TurnedAll, HeightsOk, AllDiffer, KeysOk, EntriesOk, NextsOk, EntriesOf, Spliced, LinksAre,
           TookOver, Holds, Under, LinksOk, Inserted;
      node := new Node(e.key, e, seq(lvl, _ => null));
      SplicedLength(all, heights, p + 1, lvl, ups);
      LinkIn(node, update, lvl, all, links, ups);
      DifferInserted(all, p + 1, node);
      KeysInserted(all, p, node);
      Relinked(all, heights, p + 1, lvl, ups, node, links);
      EntriesInserted(all, p + 1, node);
      EntriesOfInserted(all, p, node);
    }

    lemma LinksNow()
      requires NextsOk(all, heights) && LinksOk(all, heights)
      ensures LinksAre(all, heights, Links()) && Holds(all, Links())
    {
    }

    lemma NotInList(p: nat, key: bytes)
      requires Valid() && Below(p, key) && (p + 1 < |all| ==> Le(key, all[p + 1].key) && all[p + 1].key != key)
      ensures Find(Contents(), key) == None
    {
      hide Lt;
      var es := Contents();
      FindSound(es, key);
      forall i | 0 <= i < |es| ensures es[i].key != key {
        assert es[i] == all[i + 1].entry;
        LtIrreflexive(key);
        if i + 1 < p { LtTransitive(all[i + 1].key, all[p].key, key); }
        if i + 1 > p + 1 { LeLtTransitive(key, all[p + 1].key, all[i + 1].key); }
      }
    }

    lemma ContentsSorted()
      requires Valid()
      ensures Sorted(Contents())
    {
      var es := Contents();
      forall i, j | 0 <= i < j < |es| ensures Lt(es[i].key, es[j].key) { assert Lt(all[i + 1].key, all[j + 1].key); }
    }

    method IterFrom(start: bytes) returns (it: Iter)
      requires Valid()
      ensures fresh(it) && it.At(this) && Below(it.k, start) && (it.k + 1 < |all| ==> Le(start, all[it.k + 1].key))
    {
      var x, update, p, ups := FindPrev(start);
      it := new Iter(x, p);
    }

    /** Drives an iterator to the end of the list. */
    method Rest(it: Iter) returns (out: seq<Entry>)
      requires it.At(this)
      modifies it
      ensures out == Contents()[old(it.k)..]
    {
      hide Lt, NextAt, EntriesOf, HeightsOk, AllDiffer, KeysOk, EntriesOk, NextsOk, LinksOk;
      ghost var p, es := it.k, Contents();
      out := [];
      var more := it.Next(this);
      while more
        invariant it.At(this) && p <= it.k && es == Contents()
        invariant more ==> p < it.k && out == es[p..it.k - 1]
        invariant !more ==> it.k + 1 == |all| && out == es[p..]
        decreases |all| - it.k, more
      {
        assert it.curr.entry == es[it.k - 1];
        out := out + [it.curr.entry];
        more := it.Next(this);
      }
    }

    /** Iterating from a start key yields exactly the entries from there on, in order. */
    method From(start: bytes) returns (out: seq<Entry>, ghost p: nat)
      requires Valid()
      ensures p <= |Contents()| && out == Contents()[p..]
      ensures (forall i :: 0 <= i < p ==> Lt(Contents()[i].key, start))
              && forall i :: p <= i < |Contents()| ==> Le(start, Contents()[i].key)
    {
      hide Lt, NextAt, EntriesOf, HeightsOk, AllDiffer, KeysOk, EntriesOk, NextsOk, LinksOk;
      var it := IterFrom(start);
      p := it.k;
      out := Rest(it);
      BelowAll(p, start);
      AboveAll(p, start);
    }

    lemma AboveAll(p: nat, start: bytes)
      requires Valid() && p < |all| && (p + 1 < |all| ==> Le(start, all[p + 1].key))
      ensures forall i :: p <= i < |Contents()| ==> Le(start, Contents()[i].key)
    {
      hide Lt, NextAt;
      forall i | p <= i < |Contents()| ensures Le(start, Contents()[i].key) {
        assert Contents()[i] == all[i + 1].entry;
        if i > p { LeLtTransitive(start, all[p + 1].key, all[i + 1].key); LtAsymmetric(start, all[i + 1].key); }
      }
    }
  }

  class Iter {
    var curr: Node
    ghost var k: nat

    constructor (x: Node, ghost k: nat)
      ensures curr == x && this.k == k
    {
      curr, this.k := x, k;
    }

    ghost predicate At(l: SkipList)
      reads this, l, l.all
    {
      l.Valid() && k < |l.all| && curr == l.all[k]
    }

    method Next(ghost l: SkipList) returns (ok: bool)
      requires At(l)
      modifies this
      ensures At(l) && ok == (old(k) + 1 < |l.all|) && k == if ok then old(k) + 1 else old(k)
    {
      l.NextIsNeighbour(k);
      if curr.next[0] == null { return false; }
      curr := curr.next[0];
      k := k + 1;
      return true;
    }
  }
}
