/** Splitting a shard: fresh names for the halves, and what happens to every key. */
module ControlSplit {
  import opened Bytes
  import opened Routing
  import opened ControlState

  // ---------- fresh names ----------

  function Digit(d: nat): (c: char)
    requires d < 10
    ensures !IsSpace(c)
  {
    ['0', '1', '2', '3', '4', '5', '6', '7', '8', '9'][d]
  }

  /** Decimal notation. */
  function Decimal(n: nat): (s: string)
    ensures s != [] && !IsSpace(s[|s| - 1]) && !IsSpace(s[0]) && (n < 10 <==> |s| == 1)
  {
    if n < 10 then [Digit(n)] else Decimal(n / 10) + [Digit(n % 10)]
  }

  lemma {:induction false} DecimalInjective(m: nat, n: nat)
    requires Decimal(m) == Decimal(n)
    ensures m == n
    decreases m + n
  {
    var a, b := Decimal(m), Decimal(n);
    assert a[|a| - 1] == Digit(m % 10) && b[|b| - 1] == Digit(n % 10);
    if m >= 10 && n >= 10 {
      assert a[..|a| - 1] == Decimal(m / 10) && b[..|b| - 1] == Decimal(n / 10);
      DecimalInjective(m / 10, n / 10);
    }
  }

  function Numbered(base: string, i: nat): (s: string)
  {
    base + "-" + Decimal(i)
  }

  lemma NumberedInjective(base: string, i: nat, j: nat)
    requires Numbered(base, i) == Numbered(base, j)
    ensures i == j
  {
    assert Numbered(base, i)[|base| + 1..] == Decimal(i) && Numbered(base, j)[|base| + 1..] == Decimal(j);
    DecimalInjective(i, j);
  }

  /** The first free numbered name from i on. */
  function FirstFree(keys: set<string>, base: string, i: nat): (n: nat)
    ensures n >= i
    decreases |keys|
  {
    if Numbered(base, i) in keys then FirstFree(keys - {Numbered(base, i)}, base, i + 1) else i
  }

  lemma {:induction false} FirstFreeIs(keys: set<string>, base: string, i: nat)
    ensures Numbered(base, FirstFree(keys, base, i)) !in keys
    ensures forall j :: i <= j < FirstFree(keys, base, i) ==> Numbered(base, j) in keys
    decreases |keys|
  {
    hide Numbered;
    var c := Numbered(base, i);
    if c in keys {
      FirstFreeIs(keys - {c}, base, i + 1);
      var n := FirstFree(keys, base, i);
      if Numbered(base, n) == c { NumberedInjective(base, n, i); }
    }
  }

  /** The base name if it is free, or else the first numbered one. */
  function UniqueName(keys: set<string>, base: string): (s: string)
  {
    if base !in keys then base else Numbered(base, FirstFree(keys, base, 2))
  }

  lemma UniqueNameIsFresh(keys: set<string>, base: string)
    ensures UniqueName(keys, base) !in keys
  {
    FirstFreeIs(keys, base, 2);
  }

  /** The search for a name stops, because only finitely many are taken. */
  method UniqueShardID(shards: map<string, Shard>, base: string) returns (id: string)
    ensures id == UniqueName(shards.Keys, base) && id !in shards
  {
    hide Numbered;
    UniqueNameIsFresh(shards.Keys, base);
    if base !in shards { return base; }
    FirstFreeIs(shards.Keys, base, 2);
    var i := 2;
    while true
      invariant 2 <= i <= FirstFree(shards.Keys, base, 2)
      decreases FirstFree(shards.Keys, base, 2) - i
    {
      var candidate := Numbered(base, i);
      if candidate !in shards { return candidate; }
      i := i + 1;
    }
  }

  lemma NameShape(keys: set<string>, base: string)
    requires base != [] && !IsSpace(base[0]) && !IsSpace(base[|base| - 1])
    ensures base <= UniqueName(keys, base) && Clean(UniqueName(keys, base))
  {
  }

  // ---------- the split ----------

  predicate SplitInside(s: Shard, key: bytes)
  {
    && KeyInRange(key, s.start, s.end)
    && !((s.start != [] && key == s.start) || (s.end != [] && key == s.end))
  }

  function LeftOf(p: Plane, id: string, key: bytes): (s: Shard)
    requires id in p.shards
  {
    p.shards[id].(id := UniqueName(p.shards.Keys, id + "-a"), end := key)
  }

  function RightOf(p: Plane, id: string, key: bytes): (s: Shard)
    requires id in p.shards
  {
    p.shards[id].(id := UniqueName(p.shards.Keys, id + "-b"), start := key)
  }

  /** The order with one name replaced by two. */
  function Replaced(order: seq<string>, id: string, l: string, r: string): (s: seq<string>)
  {
    if order == [] then []
    else Replaced(order[..|order| - 1], id, l, r) + (if order[|order| - 1] == id then [l, r] else [order[|order| - 1]])
  }

  /** The shards and order after cutting a shard in two. */
  function Halved(p: Plane, id: string, key: bytes): (r: Plane)
    requires id in p.shards
  {
    var l, r := LeftOf(p, id, key), RightOf(p, id, key);
    p.(shards := HalvedShards(p.shards, id, l, r), order := Replaced(p.order, id, l.id, r.id))
  }

  ghost function Split(p: Plane, id: string, key: bytes): (r: Option<Plane>)
  {
    if id !in p.shards then None
    else if !SplitInside(p.shards[id], key) then None
    else if !Accepted(Halved(p, id, key).order, Halved(p, id, key).shards) then None
    else Some(Halved(p, id, key))
  }

  /** The halves get fresh, distinct, clean names. */
  lemma HalfNames(p: Plane, id: string, key: bytes)
    requires PlaneOk(p) && id in p.shards
    ensures var l, r := LeftOf(p, id, key).id, RightOf(p, id, key).id;
            l !in p.shards && r !in p.shards && l != r && Clean(l) && Clean(r)
  {
    hide UniqueName, Ordered, IsSpace;
    OrderIsKeys(p.order, p.shards);
    var i :| 0 <= i < |p.order| && p.order[i] == id;
    assert Clean(p.order[i]);
    CleanEnds(id);
    NameShape(p.shards.Keys, id + "-a");
    NameShape(p.shards.Keys, id + "-b");
    UniqueNameIsFresh(p.shards.Keys, id + "-a");
    UniqueNameIsFresh(p.shards.Keys, id + "-b");
    var l, r := LeftOf(p, id, key).id, RightOf(p, id, key).id;
    assert l[|id| + 1] == 'a' && r[|id| + 1] == 'b';
  }

  lemma CleanEnds(id: string)
    requires Clean(id)
    ensures !IsSpace(id[0])
    ensures !IsSpace((id + "-a")[0]) && !IsSpace((id + "-a")[|id| + 1])
    ensures !IsSpace((id + "-b")[0]) && !IsSpace((id + "-b")[|id| + 1])
  {
  }

  lemma {:induction false} ReplacedAt(order: seq<string>, id: string, l: string, r: string, i: nat)
    requires i < |order| && order[i] == id && forall j, k :: 0 <= j < k < |order| ==> order[j] != order[k]
    ensures Replaced(order, id, l, r) == order[..i] + [l, r] + order[i + 1..]
  {
    var n := |order| - 1;
    if i == n {
      ReplacedNone(order[..n], id, l, r);
      assert order[i + 1..] == [];
    } else {
      ReplacedAt(order[..n], id, l, r, i);
      assert order[..n][..i] == order[..i] && order[i + 1..] == order[..n][i + 1..] + [order[n]];
    }
  }

  lemma {:induction false} ReplacedNone(order: seq<string>, id: string, l: string, r: string)
    requires id !in order
    ensures Replaced(order, id, l, r) == order
  {
    if order != [] {
      ReplacedNone(order[..|order| - 1], id, l, r);
    }
  }

  // ---------- the new layout ----------

  /** The j-th member after the i-th was replaced by two. */
  function NameAt<T>(order: seq<T>, i: nat, l: T, r: T, j: nat): (s: T)
    requires i < |order| && j <= |order|
  {
    if j < i then order[j] else if j == i then l else if j == i + 1 then r else order[j - 1]
  }

  lemma ReplacedNames<T>(order: seq<T>, i: nat, l: T, r: T, j: nat)
    requires i < |order| && j <= |order|
    ensures (order[..i] + [l, r] + order[i + 1..])[j] == NameAt(order, i, l, r, j)
  {
  }

  function HalvedShards(shards: map<string, Shard>, id: string, l: Shard, r: Shard): (m: map<string, Shard>)
  {
    (shards - {id})[l.id := l][r.id := r]
  }

  /** Two halves with fresh names replace the shard at position i. */
  ghost predicate Halves(order: seq<string>, shards: map<string, Shard>, i: nat, l: Shard, r: Shard)
  {
    && ShardsOk(order, shards) && i < |order| && order[i] in shards
    && l.id !in shards && r.id !in shards && l.id != r.id && Clean(l.id) && Clean(r.id)
  }

  lemma NameIsThere(order: seq<string>, shards: map<string, Shard>, i: nat, l: Shard, r: Shard, j: nat)
    requires Halves(order, shards, i, l, r) && j <= |order|
    ensures var s, m := NameAt(order, i, l.id, r.id, j), HalvedShards(shards, order[i], l, r);
            && Clean(s) && s in m
            && RouteOf(m, s) == if j == i then Route(l.id, l.start, l.end)
               else if j == i + 1 then Route(r.id, r.start, r.end) else RouteOf(shards, s)
    ensures j != i && j != i + 1 ==> NameAt(order, i, l.id, r.id, j) in shards
  {
    hide Ordered, IsSpace, Trim, Accepted;
    OrderIsKeys(order, shards);
    if j < i { assert Clean(order[j]) && order[j] != order[i]; }
    else if j > i + 1 { assert Clean(order[j - 1]) && order[j - 1] != order[i]; }
  }

  lemma NamesDiffer(order: seq<string>, shards: map<string, Shard>, i: nat, l: Shard, r: Shard, j: nat, k: nat)
    requires Halves(order, shards, i, l, r) && j < k <= |order|
    ensures NameAt(order, i, l.id, r.id, j) != NameAt(order, i, l.id, r.id, k)
  {
    hide Ordered, IsSpace, Trim, Accepted;
    OrderIsKeys(order, shards);
  }

  lemma HalvedOrder(order: seq<string>, shards: map<string, Shard>, i: nat, l: Shard, r: Shard)
    requires Halves(order, shards, i, l, r)
    ensures var s, m := Replaced(order, order[i], l.id, r.id), HalvedShards(shards, order[i], l, r);
            |s| == |order| + 1 && forall j :: 0 <= j < |s| ==> s[j] == NameAt(order, i, l.id, r.id, j) && Clean(s[j])
  {
    hide Ordered, IsSpace, Trim, Accepted, Replaced, ShardsOk, Clean, NameAt, HalvedShards;
    OrderIsKeys(order, shards);
    ReplacedAt(order, order[i], l.id, r.id, i);
    var s := Replaced(order, order[i], l.id, r.id);
    forall j | 0 <= j < |s| ensures s[j] == NameAt(order, i, l.id, r.id, j) && Clean(s[j]) {
      ReplacedNames(order, i, l.id, r.id, j);
      NameIsThere(order, shards, i, l, r, j);
    }
  }

  lemma HalvedNames(order: seq<string>, shards: map<string, Shard>, i: nat, l: Shard, r: Shard)
    requires Halves(order, shards, i, l, r)
    ensures var s, m := Replaced(order, order[i], l.id, r.id), HalvedShards(shards, order[i], l, r);
            NamesOk(s, m) && |m| == |shards| + 1
  {
    hide Ordered, IsSpace, Trim, Accepted, Replaced, ShardsOk, NameAt, HalvedShards;
    HalvedOrder(order, shards, i, l, r);
    var s, m := Replaced(order, order[i], l.id, r.id), HalvedShards(shards, order[i], l, r);
    forall j | 0 <= j < |s|
      ensures Trim(s[j]) != [] && Trim(s[j]) in m && Trim(s[j]) == s[j]
    {
      NameIsThere(order, shards, i, l, r, j);
    }
    forall j, k | 0 <= j < k < |s| ensures Trim(s[j]) != Trim(s[k]) { NamesDiffer(order, shards, i, l, r, j, k); }
    HalvedCount(shards, order[i], l, r);
  }

  lemma HalvedRouteAt(order: seq<string>, shards: map<string, Shard>, i: nat, l: Shard, r: Shard, j: nat)
    requires Halves(order, shards, i, l, r) && j <= |order|
    requires forall k :: 0 <= k < |order| ==> Trim(order[k]) in shards
    ensures RouteOf(HalvedShards(shards, order[i], l, r), NameAt(order, i, l.id, r.id, j)) ==
              NameAt(RoutesOf(order, shards), i, Route(l.id, l.start, l.end), Route(r.id, r.start, r.end), j)
  {
    hide Ordered, IsSpace, Trim, Accepted, ShardsOk, HalvedShards, Clean;
    NameIsThere(order, shards, i, l, r, j);
    OrderIsKeys(order, shards);
  }

  /** The routes are the old ones, with the i-th cut in two. */
  lemma HalvedRoutes(order: seq<string>, shards: map<string, Shard>, i: nat, l: Shard, r: Shard)
    requires Halves(order, shards, i, l, r)
    requires var s, m := Replaced(order, order[i], l.id, r.id), HalvedShards(shards, order[i], l, r);
             |s| == |order| + 1 && NamesOk(s, m)
    ensures |RoutesOf(order, shards)| == |order|
    ensures var routes := RoutesOf(order, shards);
            RoutesOf(Replaced(order, order[i], l.id, r.id), HalvedShards(shards, order[i], l, r)) ==
              routes[..i] + [Route(l.id, l.start, l.end), Route(r.id, r.start, r.end)] + routes[i + 1..]
  {
    hide Ordered, IsSpace, Trim, Accepted, Replaced, ShardsOk, HalvedShards, RouteOf, NameAt, Halves;
    HalvesOk(order, shards, i, l, r);
    HalvedOrder(order, shards, i, l, r);
    var s, m := Replaced(order, order[i], l.id, r.id), HalvedShards(shards, order[i], l, r);
    var a, b := RoutesOf(order, shards), RoutesOf(s, m);
    var x, y := Route(l.id, l.start, l.end), Route(r.id, r.start, r.end);
    var want := a[..i] + [x, y] + a[i + 1..];
    forall j | 0 <= j < |b| ensures b[j] == want[j] {
      assert Clean(s[j]) && s[j] == NameAt(order, i, l.id, r.id, j);
      HalvedRouteAt(order, shards, i, l, r, j);
      ReplacedNames(a, i, x, y, j);
    }
    assert b == want;
  }

  lemma HalvesOk(order: seq<string>, shards: map<string, Shard>, i: nat, l: Shard, r: Shard)
    requires Halves(order, shards, i, l, r)
    ensures i < |order| && forall k :: 0 <= k < |order| ==> Trim(order[k]) in shards
  {
  }

  lemma HalvedCount(shards: map<string, Shard>, id: string, l: Shard, r: Shard)
    requires id in shards && l.id !in shards && r.id !in shards && l.id != r.id
    ensures |HalvedShards(shards, id, l, r)| == |shards| + 1
  {
    var m := shards - {id};
    assert m.Keys == shards.Keys - {id};
    assert |m.Keys| == |shards.Keys| - 1;
    var m1 := m[l.id := l];
    assert m1.Keys == m.Keys + {l.id};
    assert m1[r.id := r].Keys == m1.Keys + {r.id};
  }

  lemma InsertedOrdered(routes: seq<Route>, i: nat, l: Route, r: Route)
    requires Ordered(routes) && i < |routes|
    requires l.start == routes[i].start && r.end == routes[i].end && l.end == r.start
    ensures Ordered(routes[..i] + [l, r] + routes[i + 1..]) <==>
              l.end != [] && ValidRange(l) && ValidRange(r)
  {
    hide Lt;
    var s := routes[..i] + [l, r] + routes[i + 1..];
    assert s[i] == l && s[i + 1] == r;
    if Ordered(s) {
      assert ValidRange(s[i]) && ValidRange(s[i + 1]) && Follows(s[i + 1 - 1], s[i + 1]);
    }
    if l.end != [] && ValidRange(l) && ValidRange(r) {
      LtIrreflexive(l.end);
      forall j | 0 <= j < |s| ensures ValidRange(s[j]) {
        if j < i { assert s[j] == routes[j]; } else if j > i + 1 { assert s[j] == routes[j - 1]; }
      }
      forall j | 0 < j < |s| ensures Follows(s[j - 1], s[j]) {
        if j < i { assert s[j - 1] == routes[j - 1] && s[j] == routes[j]; }
        else if j == i { assert s[j - 1] == routes[j - 1] && Follows(routes[j - 1], routes[j]); }
        else if j == i + 2 { assert s[j] == routes[j - 1] && Follows(routes[j - 2], routes[j - 1]); }
        else if j > i + 2 { assert s[j - 1] == routes[j - 2] && s[j] == routes[j - 1]; }
      }
    }
  }

  lemma HalvedAccepted(order: seq<string>, shards: map<string, Shard>, i: nat, l: Shard, r: Shard)
    requires Halves(order, shards, i, l, r)
    requires l.start == shards[order[i]].start && r.end == shards[order[i]].end && l.end == r.start
    ensures Accepted(Replaced(order, order[i], l.id, r.id), HalvedShards(shards, order[i], l, r)) <==>
              l.end != [] && ValidRange(Route(l.id, l.start, l.end)) && ValidRange(Route(r.id, r.start, r.end))
  {
    hide Ordered, IsSpace, Trim, Replaced, ValidRange, NameAt, HalvedShards, NamesOk, Clean;
    HalvedNames(order, shards, i, l, r);
    HalvedOrder(order, shards, i, l, r);
    HalvedRoutes(order, shards, i, l, r);
    OrderIsKeys(order, shards);
    InsertedOrdered(RoutesOf(order, shards), i, Route(l.id, l.start, l.end), Route(r.id, r.start, r.end));
  }

  /** A split inside the range is accepted exactly when the key is not empty; the result is well formed. */
  lemma SplitIff(p: Plane, id: string, key: bytes)
    requires PlaneOk(p) && id in p.shards && SplitInside(p.shards[id], key)
    ensures Split(p, id, key).Some? <==> key != []
    ensures Split(p, id, key).Some? ==> PlaneOk(Split(p, id, key).value)
  {
    hide UniqueName, Accepted, Replaced, OpsOk, SplitInside, ValidRange, NameAt, HalvedShards, Clean;
    OrderIsKeys(p.order, p.shards);
    HalfNames(p, id, key);
    var i :| 0 <= i < |p.order| && p.order[i] == id;
    var l, r := LeftOf(p, id, key), RightOf(p, id, key);
    HalvedAccepted(p.order, p.shards, i, l, r);
    HalvedOrder(p.order, p.shards, i, l, r);
    if key != [] { InsideIsValid(p.shards[id], key, l.id, r.id); }
    HalvedIds(p.shards, id, l, r);
  }

  const SINGLE := Plane(["s"], map["s" := Shard("s", [], [], "n", [])], 0, map[], [], false, 0)

  lemma SingleOk()
    ensures PlaneOk(SINGLE)
  {
    hide IsSpace;
    assert !IsSpace('s') by { NotSpace(); }
    assert Clean("s");
    assert SINGLE.shards.Keys == {"s"};
  }

  lemma NotSpace()
    ensures !IsSpace('s')
  {
  }

  /** A single unbounded shard cannot be split at the empty key, although the key is inside its range. */
  lemma EmptyKeyIsRefused()
    ensures PlaneOk(SINGLE) && SplitInside(SINGLE.shards["s"], []) && Split(SINGLE, "s", []) == None
  {
    SingleOk();
    SplitIff(SINGLE, "s", []);
  }

  lemma HalvedIds(shards: map<string, Shard>, id: string, l: Shard, r: Shard)
    requires forall k :: k in shards ==> shards[k].id == k
    ensures var m := HalvedShards(shards, id, l, r); forall k :: k in m ==> m[k].id == k
  {
  }

  lemma InsideIsValid(s: Shard, key: bytes, l: string, r: string)
    requires SplitInside(s, key) && key != []
    ensures ValidRange(Route(l, s.start, key)) && ValidRange(Route(r, key, s.end))
  {
    if s.start != [] { LtTrichotomy(s.start, key); }
  }

  /** After an accepted split every key of the shard goes to exactly one half, on the same replicas
      under the same leader, and every other key stays where it was. */
  lemma SplitOwners(p: Plane, id: string, split: bytes, key: bytes, other: string)
    requires PlaneOk(p) && Split(p, id, split).Some?
    ensures var q, l, r := Split(p, id, split).value.shards, LeftOf(p, id, split), RightOf(p, id, split);
            && (Owns(p.shards, id, key) ==> Owns(q, if Lt(key, split) then l.id else r.id, key))
            && (Owns(q, l.id, key) <==> Owns(p.shards, id, key) && Lt(key, split))
            && (Owns(q, r.id, key) <==> Owns(p.shards, id, key) && !Lt(key, split))
            && (other != id && other != l.id && other != r.id ==> Owns(q, other, key) == Owns(p.shards, other, key))
            && (other != id && other in p.shards ==> other in q && q[other] == p.shards[other])
            && id !in q && l.leader == r.leader == p.shards[id].leader
               && l.replicas == r.replicas == p.shards[id].replicas
  {
    hide UniqueName, Ordered, IsSpace, Trim, Replaced, OpsOk, Lt, Accepted;
    assert ShardsOk(p.order, p.shards);
    HalfNames(p, id, split);
    SplitIff(p, id, split);
    var s := p.shards[id];
    if Lt(key, split) && s.end != [] { LtTransitive(key, split, s.end); }
    if !Lt(key, split) && s.start != [] && Lt(key, s.start) {
      LtTrichotomy(s.start, split);
      LtTransitive(key, s.start, split);
    }
  }

  /** The set of keys that have an owner does not change. */
  lemma SplitKeepsCover(p: Plane, id: string, split: bytes, key: bytes)
    requires PlaneOk(p) && Split(p, id, split).Some?
    ensures (exists a :: Owns(p.shards, a, key)) <==> (exists b :: Owns(Split(p, id, split).value.shards, b, key))
  {
    hide UniqueName, Replaced, OpsOk, Lt, Accepted, ShardsOk, Split, LeftOf, RightOf, Owns;
    SplitNamed(p, id, split);
    var q, l, r := Split(p, id, split).value.shards, LeftOf(p, id, split), RightOf(p, id, split);
    SplitOwners(p, id, split, key, id);
    if a :| Owns(p.shards, a, key) {
      SplitOwners(p, id, split, key, a);
      if a != id { HalfNames(p, id, split); OwnedIsNamed(p.shards, a, key); }
    }
    if b :| Owns(q, b, key) {
      SplitOwners(p, id, split, key, b);
      OwnedIsNamed(q, b, key);
    }
  }

  lemma SplitNamed(p: Plane, id: string, split: bytes)
    requires Split(p, id, split).Some?
    ensures id in p.shards
  {
  }

  lemma OwnedIsNamed(shards: map<string, Shard>, a: string, key: bytes)
    requires Owns(shards, a, key)
    ensures a in shards
  {
  }
}
