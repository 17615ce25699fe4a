/** Shard layouts: which lists of shards are accepted, and which shard a key goes to. */
module Routing {
  import opened Bytes
  import opened Ordering

  // ---------- strings.TrimSpace ----------

  /** The white space of Latin-1. */
  predicate IsSpace(c: char)
  {
    c == ' ' || c == '\t' || c == '\n' || c == '\r' || c as int == 11 || c as int == 12 || c as int == 0x85
      || c as int == 0xA0
  }

  function TrimLeft(s: string): (t: string)
    ensures t == [] || !IsSpace(t[0])
    ensures s != [] && !IsSpace(s[|s| - 1]) ==> t != [] && t[|t| - 1] == s[|s| - 1]
  {
    if s != [] && IsSpace(s[0]) then TrimLeft(s[1..]) else s
  }

  function TrimRight(s: string): (t: string)
    ensures t == [] || !IsSpace(t[|t| - 1])
    ensures s != [] && !IsSpace(s[0]) ==> t != [] && t[0] == s[0]
  {
    if s != [] && IsSpace(s[|s| - 1]) then TrimRight(s[..|s| - 1]) else s
  }

  function Trim(s: string): (t: string)
    ensures t == [] || (!IsSpace(t[0]) && !IsSpace(t[|t| - 1]))
    ensures s != [] && !IsSpace(s[0]) && !IsSpace(s[|s| - 1]) ==> t == s
  {
    TrimRight(TrimLeft(s))
  }

  /** A name that trimming leaves alone. */
  predicate Clean(s: string)
  {
    s != [] && Trim(s) == s
  }

  lemma TrimIsClean(s: string)
    ensures Trim(s) == [] || Clean(Trim(s))
  {
  }

  // ---------- shards ----------

  datatype Replica = Replica(node: string, leads: bool, healthy: bool)

  datatype Shard = Shard(id: string, start: bytes, end: bytes, leader: string, replicas: seq<Replica>)

  datatype Route = Route(id: string, start: bytes, end: bytes)

  /** Half-open ranges; an empty bound is open. */
  predicate KeyInRange(key: bytes, start: bytes, end: bytes)
  {
    !(start != [] && Lt(key, start)) && !(end != [] && !Lt(key, end))
  }

  function RouteOf(shards: map<string, Shard>, id: string): (r: Route)
    requires id in shards
  {
    Route(id, shards[id].start, shards[id].end)
  }

  predicate ValidRange(r: Route)
  {
    r.end == [] || Lt(r.start, r.end)
  }

  /** The second range starts where the first ends, or after. */
  predicate Follows(a: Route, b: Route)
  {
    a.end != [] && b.start != [] && Le(a.end, b.start)
  }

  ghost predicate Ordered(routes: seq<Route>)
  {
    && (forall i :: 0 <= i < |routes| ==> ValidRange(routes[i]))
    && (forall i :: 0 < i < |routes| ==> Follows(routes[i - 1], routes[i]))
  }

  ghost predicate NamesOk(order: seq<string>, shards: map<string, Shard>)
  {
    && (forall i :: 0 <= i < |order| ==> Trim(order[i]) != [] && Trim(order[i]) in shards)
    && (forall i, j :: 0 <= i < j < |order| ==> Trim(order[i]) != Trim(order[j]))
  }

  function RoutesOf(order: seq<string>, shards: map<string, Shard>): (r: seq<Route>)
    requires forall i :: 0 <= i < |order| ==> Trim(order[i]) in shards
    ensures |r| == |order| && forall i :: 0 <= i < |order| ==> r[i] == RouteOf(shards, Trim(order[i]))
  {
    seq(|order|, i requires 0 <= i < |order| => RouteOf(shards, Trim(order[i])))
  }

  /** The layouts the control plane accepts. */
  ghost predicate Accepted(order: seq<string>, shards: map<string, Shard>)
  {
    && order != [] && |order| == |shards| && NamesOk(order, shards) && Ordered(RoutesOf(order, shards))
  }

  /** The first i names have been accepted, with these routes. */
  ghost predicate Built(order: seq<string>, shards: map<string, Shard>, i: nat, routes: seq<Route>)
  {
    && i <= |order| && |routes| == i && Ordered(routes)
    && (forall j :: 0 <= j < i ==>
         Trim(order[j]) != [] && Trim(order[j]) in shards && routes[j] == RouteOf(shards, Trim(order[j])))
    && (forall j, k :: 0 <= j < k < i ==> Trim(order[j]) != Trim(order[k]))
  }

  lemma BuiltOne(order: seq<string>, shards: map<string, Shard>, i: nat, routes: seq<Route>, route: Route)
    requires i < |order| && Built(order, shards, i, routes) && Trim(order[i]) != [] && Trim(order[i]) in shards
    requires route == RouteOf(shards, Trim(order[i])) && ValidRange(route) && (i > 0 ==> Follows(routes[i - 1], route))
    requires forall j :: 0 <= j < i ==> Trim(order[j]) != Trim(order[i])
    ensures Built(order, shards, i + 1, routes + [route])
  {
    hide Trim, Lt;
  }

  lemma BuiltAll(order: seq<string>, shards: map<string, Shard>, routes: seq<Route>)
    requires order != [] && |order| == |shards| && Built(order, shards, |order|, routes)
    ensures Accepted(order, shards) && routes == RoutesOf(order, shards)
  {
    hide Trim, Lt, Ordered;
    assert routes == RoutesOf(order, shards);
  }

  /** Accepts exactly these layouts, and gives their routes. */
  method BuildShardRoutes(order: seq<string>, shards: map<string, Shard>) returns (r: Option<seq<Route>>)
    ensures r.Some? <==> Accepted(order, shards)
    ensures r.Some? ==> r.value == RoutesOf(order, shards)
  {
    hide Trim, Lt, Built, Accepted;
    if |order| == 0 || |shards| == 0 || |order| != |shards| {
      NotAccepted(order, shards);
      return None;
    }
    var routes: seq<Route> := [];
    var seen: set<string> := {};
    var prevEnd: bytes := [];
    BuiltNone(order, shards);
    for i := 0 to |order|
      invariant Built(order, shards, i, routes) && |routes| == i
      invariant forall j :: 0 <= j < i ==> Trim(order[j]) in shards
      invariant seen == set j | 0 <= j < i :: Trim(order[j])
      invariant i > 0 ==> prevEnd == routes[i - 1].end && routes[i - 1] == RouteOf(shards, Trim(order[i - 1]))
    {
      var id := Trim(order[i]);
      if id == [] || id in seen || id !in shards { BadName(order, shards, i); return None; }
      seen := seen + {id};
      var route := Route(id, shards[id].start, shards[id].end);
      PrefixAccepted(order, shards, i);
      if |route.end| > 0 && !Lt(route.start, route.end) { return None; }
      if i > 0 {
        if |prevEnd| == 0 { return None; }
        if |route.start| == 0 { return None; }
        if Lt(route.start, prevEnd) { return None; }
      }
      BuiltOne(order, shards, i, routes, route);
      routes := routes + [route];
      prevEnd := route.end;
    }
    BuiltAll(order, shards, routes);
    return Some(routes);
  }

  lemma BuiltNone(order: seq<string>, shards: map<string, Shard>)
    ensures Built(order, shards, 0, [])
  {
  }

  lemma NotAccepted(order: seq<string>, shards: map<string, Shard>)
    requires |order| == 0 || |shards| == 0 || |order| != |shards|
    ensures !Accepted(order, shards)
  {
  }

  lemma BadName(order: seq<string>, shards: map<string, Shard>, i: nat)
    requires i < |order|
    requires Trim(order[i]) == [] || Trim(order[i]) !in shards
             || exists j :: 0 <= j < i && Trim(order[j]) == Trim(order[i])
    ensures !Accepted(order, shards)
  {
    hide Trim;
  }

  lemma PrefixAccepted(order: seq<string>, shards: map<string, Shard>, i: nat)
    requires i < |order| && Trim(order[i]) in shards && forall j :: 0 <= j < i ==> Trim(order[j]) in shards
    ensures Accepted(order, shards) ==> ValidRange(RouteOf(shards, Trim(order[i])))
    ensures Accepted(order, shards) && i > 0 ==>
              Follows(RouteOf(shards, Trim(order[i - 1])), RouteOf(shards, Trim(order[i])))
  {
    hide Trim, ValidRange, Follows;
    if Accepted(order, shards) {
      var r := RoutesOf(order, shards)[i];
      if i > 0 { var q := RoutesOf(order, shards)[i - 1]; }
    }
  }

  // ---------- lookup ----------

  /** The reference: the first route whose range holds the key. */
  function ScanRoutes(routes: seq<Route>, key: bytes): (r: Option<nat>)
    ensures r.Some? ==> r.value < |routes| && KeyInRange(key, routes[r.value].start, routes[r.value].end)
    ensures r.Some? ==> forall j :: 0 <= j < r.value ==> !KeyInRange(key, routes[j].start, routes[j].end)
    ensures r.None? ==> forall j :: 0 <= j < |routes| ==> !KeyInRange(key, routes[j].start, routes[j].end)
  {
    if routes == [] then None
    else if KeyInRange(key, routes[0].start, routes[0].end) then Some(0)
    else match ScanRoutes(routes[1..], key)
      case None => assert forall j :: 1 <= j < |routes| ==> routes[j] == routes[1..][j - 1]; None
      case Some(i) => assert forall j :: 1 <= j < |routes| ==> routes[j] == routes[1..][j - 1]; Some(i + 1)
  }

  /** A later range lies wholly above an earlier one. */
  lemma {:induction false} RangesApart(routes: seq<Route>, i: nat, j: nat)
    requires Ordered(routes) && i < j < |routes|
    ensures routes[i].end != [] && routes[j].start != [] && Le(routes[i].end, routes[j].start)
    decreases j - i
  {
    hide Lt;
    assert Follows(routes[j - 1], routes[j]);
    if i < j - 1 {
      RangesApart(routes, i, j - 1);
      assert ValidRange(routes[j - 1]);
      var a, b, c, d := routes[i].end, routes[j - 1].start, routes[j - 1].end, routes[j].start;
      LtLeTransitive(b, c, d);
      LeLtTransitive(a, b, d);
      LtAsymmetric(a, d);
    }
  }

  /** At most one range holds a key. */
  lemma OneRange(routes: seq<Route>, key: bytes, i: nat, j: nat)
    requires Ordered(routes) && i < |routes| && j < |routes|
    requires KeyInRange(key, routes[i].start, routes[i].end) && KeyInRange(key, routes[j].start, routes[j].end)
    ensures i == j
  {
    hide Lt;
    if i < j {
      RangesApart(routes, i, j);
      LtLeTransitive(key, routes[i].end, routes[j].start);
    } else if j < i {
      RangesApart(routes, j, i);
      LtLeTransitive(key, routes[j].end, routes[i].start);
    }
  }

  function BeforeEnd(routes: seq<Route>, key: bytes): (at: nat -> bool)
  {
    (i: nat) => i < |routes| && (routes[i].end == [] || Lt(key, routes[i].end))
  }

  lemma BeforeEndGrows(routes: seq<Route>, key: bytes)
    requires Ordered(routes)
    ensures forall i, j :: 0 <= i <= j < |routes| && BeforeEnd(routes, key)(i) ==> BeforeEnd(routes, key)(j)
  {
    hide Lt;
    forall i, j | 0 <= i <= j < |routes| && BeforeEnd(routes, key)(i) ensures BeforeEnd(routes, key)(j) {
      if i < j {
        RangesApart(routes, i, j);
        assert ValidRange(routes[j]);
        if routes[j].end != [] {
          LtLeTransitive(key, routes[i].end, routes[j].start);
          LtTransitive(key, routes[j].start, routes[j].end);
        }
      }
    }
  }

  /** The binary search finds what the linear scan finds. */
  method RouteForKey(routes: seq<Route>, key: bytes) returns (r: Option<nat>)
    ensures r.Some? ==> r.value < |routes|
    ensures Ordered(routes) ==> r == ScanRoutes(routes, key)
  {
    hide Lt, ScanRoutes;
    if |routes| == 0 { return None; }
    var idx := Search(0, |routes|, BeforeEnd(routes, key));
    ghost var scan := ScanRoutes(routes, key);
    if Ordered(routes) {
      BeforeEndGrows(routes, key);
      SearchFinds(0, |routes|, BeforeEnd(routes, key));
      if scan.Some? {
        assert BeforeEnd(routes, key)(scan.value);
        if idx < scan.value { FirstEndDecides(routes, key, idx, scan.value); }
      }
      if idx < |routes| { assert BeforeEnd(routes, key)(idx); }
    }
    if idx >= |routes| { return None; }
    var route := routes[idx];
    if |route.start| > 0 && Lt(key, route.start) { return None; }
    return Some(idx);
  }

  lemma FirstEndDecides(routes: seq<Route>, key: bytes, i: nat, j: nat)
    requires Ordered(routes) && i < j < |routes| && BeforeEnd(routes, key)(i)
    ensures !KeyInRange(key, routes[j].start, routes[j].end)
  {
    hide Lt;
    RangesApart(routes, i, j);
    LtLeTransitive(key, routes[i].end, routes[j].start);
  }
}
