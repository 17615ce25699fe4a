/** The control plane's state and what each committed mutation does to it. */
module ControlState {
  import opened Bytes
  import opened Routing

  datatype Op = Op(id: string, fingerprint: string, revision: nat)

  datatype Plane = Plane(
    order: seq<string>,
    shards: map<string, Shard>,
    revision: nat,
    ops: map<string, Op>,
    opOrder: seq<string>,
    draining: bool,
    applied: nat)                        // the last commit-log index applied

  const MAX_OPS: nat := 256

  // ---------- well-formed states ----------

  ghost predicate ShardsOk(order: seq<string>, shards: map<string, Shard>)
  {
    && Accepted(order, shards)
    && (forall i :: 0 <= i < |order| ==> Clean(order[i]))
    && (forall id :: id in shards ==> shards[id].id == id)
  }

  ghost predicate OpsOk(ops: map<string, Op>, opOrder: seq<string>)
  {
    && |opOrder| <= MAX_OPS
    && (forall i, j :: 0 <= i < j < |opOrder| ==> opOrder[i] != opOrder[j])
    && (forall id :: id in ops <==> id in opOrder)
    && (forall id :: id in ops ==> Clean(id) && ops[id].id == id && Trim(ops[id].fingerprint) != [])
  }

  ghost predicate PlaneOk(p: Plane)
  {
    ShardsOk(p.order, p.shards) && OpsOk(p.ops, p.opOrder)
  }

  lemma {:induction false} DistinctCount(s: seq<string>, keys: set<string>)
    requires (forall i, j :: 0 <= i < j < |s| ==> s[i] != s[j]) && (forall i :: 0 <= i < |s| ==> s[i] in keys)
    ensures |s| <= |keys| && (|s| == |keys| ==> forall k :: k in keys ==> k in s)
    decreases |s|
  {
    if s == [] {
    } else {
      var n := |s| - 1;
      var rest := keys - {s[n]};
      DistinctCount(s[..n], rest);
      if |s| == |keys| {
        forall k | k in keys ensures k in s { if k != s[n] { assert k in rest; assert k in s[..n]; } }
      }
    }
  }

  /** The order names every shard exactly once. */
  lemma OrderIsKeys(order: seq<string>, shards: map<string, Shard>)
    requires ShardsOk(order, shards)
    ensures forall id :: id in order <==> id in shards
    ensures forall i, j :: 0 <= i < j < |order| ==> order[i] != order[j]
    ensures forall i :: 0 <= i < |order| ==> RoutesOf(order, shards)[i] == RouteOf(shards, order[i])
  {
    hide Ordered, IsSpace, Trim;
    forall i | 0 <= i < |order| ensures order[i] in shards { assert Clean(order[i]); }
    forall i, j | 0 <= i < j < |order| ensures order[i] != order[j] { assert Clean(order[i]) && Clean(order[j]); }
    DistinctCount(order, shards.Keys);
    forall i | 0 <= i < |order|
      ensures RoutesOf(order, shards)[i] == RouteOf(shards, order[i])
    {
      assert Clean(order[i]);
    }
  }

  // ---------- who owns a key ----------

  ghost predicate Owns(shards: map<string, Shard>, id: string, key: bytes)
  {
    id in shards && KeyInRange(key, shards[id].start, shards[id].end)
  }

  /** The shard a key is routed to. */
  function Owner(order: seq<string>, shards: map<string, Shard>, key: bytes): (r: Option<Shard>)
    requires forall i :: 0 <= i < |order| ==> Trim(order[i]) in shards
  {
    match ScanRoutes(RoutesOf(order, shards), key)
    case None => None
    case Some(i) => Some(shards[Trim(order[i])])
  }

  lemma ShardsNamed(order: seq<string>, shards: map<string, Shard>)
    requires ShardsOk(order, shards)
    ensures forall i :: 0 <= i < |order| ==> Trim(order[i]) in shards
  {
  }

  /** A key is routed to a shard exactly when that shard's range holds it: at most one does. */
  lemma OwnerIff(order: seq<string>, shards: map<string, Shard>, key: bytes, id: string)
    requires ShardsOk(order, shards) && (forall i :: 0 <= i < |order| ==> Trim(order[i]) in shards)
    ensures Owns(shards, id, key) <==> Owner(order, shards, key).Some? && Owner(order, shards, key).value.id == id
    ensures Owner(order, shards, key).Some? ==>
              var s := Owner(order, shards, key).value; s.id in shards && shards[s.id] == s && Owns(shards, s.id, key)
  {
    hide Lt, ScanRoutes, IsSpace, Trim, KeyInRange;
    OrderIsKeys(order, shards);
    var routes := RoutesOf(order, shards);
    var scan := ScanRoutes(routes, key);
    if scan.Some? { assert Clean(order[scan.value]); }
    if Owns(shards, id, key) {
      var i :| 0 <= i < |order| && order[i] == id;
      if scan.Some? { OneRange(routes, key, i, scan.value); }
    }
  }

  /** No two shards hold the same key. */
  lemma OneOwner(order: seq<string>, shards: map<string, Shard>, key: bytes, a: string, b: string)
    requires ShardsOk(order, shards) && Owns(shards, a, key) && Owns(shards, b, key)
    ensures a == b
  {
    ShardsNamed(order, shards);
    OwnerIff(order, shards, key, a);
    OwnerIff(order, shards, key, b);
  }

  // ---------- leaders ----------

  predicate HasReplica(replicas: seq<Replica>, node: string)
  {
    exists i :: 0 <= i < |replicas| && replicas[i].node == node
  }

  function WithRoles(replicas: seq<Replica>, leader: string): (r: seq<Replica>)
    ensures |r| == |replicas|
    ensures forall i :: 0 <= i < |r| ==> r[i] == replicas[i].(leads := replicas[i].node == leader)
  {
    seq(|replicas|, i requires 0 <= i < |replicas| => replicas[i].(leads := replicas[i].node == leader))
  }

  function WithLeader(s: Shard, leader: string): (r: Shard)
  {
    s.(leader := leader, replicas := WithRoles(s.replicas, leader))
  }

  ghost function Transfer(p: Plane, id: string, target: string): (r: Option<Plane>)
  {
    if id !in p.shards then None
    else
      var s := p.shards[id];
      var replicas := if HasReplica(s.replicas, target) then s.replicas
          else s.replicas + [Replica(target, false, true)];
      Some(p.(shards := p.shards[id := WithLeader(s.(replicas := replicas), target)]))
  }

  /** The node of the first healthy replica elsewhere. */
  function FirstOther(replicas: seq<Replica>, node: string): (r: Option<string>)
    ensures r.Some? ==>
              r.value != node && exists i :: 0 <= i < |replicas| && replicas[i].node == r.value && replicas[i].healthy
    ensures r.None? ==> forall i :: 0 <= i < |replicas| ==> replicas[i].node == node || !replicas[i].healthy
  {
    if replicas == [] then None
    else if replicas[0].node != node && replicas[0].healthy then Some(replicas[0].node)
    else
      assert forall i :: 0 < i < |replicas| ==> replicas[i] == replicas[1..][i - 1];
      FirstOther(replicas[1..], node)
  }

  /** The node that takes over a shard; an empty node id counts as none. */
  function Alternate(replicas: seq<Replica>, node: string): (r: Option<string>)
    ensures r.Some? ==> r.value != "" && r.value != node
    ensures r.Some? ==> exists i :: 0 <= i < |replicas| && replicas[i].node == r.value && replicas[i].healthy
  {
    var r := FirstOther(replicas, node);
    if r == Some("") then None else r
  }

  function Drained(s: Shard, node: string): (r: Shard)
  {
    if s.leader != node then s
    else match Alternate(s.replicas, node) case None => s case Some(t) => WithLeader(s, t)
  }

  predicate CanDrain(s: Shard, node: string)
  {
    s.leader == node ==> Alternate(s.replicas, node).Some?
  }

  /** Every shard the node leads goes to another replica, or nothing changes. */
  ghost function Drain(p: Plane, self: string, node: string): (r: Option<Plane>)
  {
    if exists id :: id in p.shards && !CanDrain(p.shards[id], node) then None
    else Some(p.(shards := map id | id in p.shards :: Drained(p.shards[id], node), draining := p.draining
      || node == self))
  }

  /** Changing leaders and replicas leaves routing alone. */
  lemma SameRangesOk(order: seq<string>, shards: map<string, Shard>, shards': map<string, Shard>)
    requires ShardsOk(order, shards) && shards'.Keys == shards.Keys
    requires forall id :: id in shards ==>
               shards'[id].(leader := shards[id].leader, replicas := shards[id].replicas) == shards[id]
    ensures ShardsOk(order, shards')
  {
    hide IsSpace, Trim, Lt;
    assert |shards'| == |shards'.Keys| && |shards| == |shards.Keys|;
    ShardsNamed(order, shards);
    assert RoutesOf(order, shards') == RoutesOf(order, shards);
  }

  lemma TransferKeepsOk(p: Plane, id: string, target: string)
    requires PlaneOk(p) && Transfer(p, id, target).Some?
    ensures PlaneOk(Transfer(p, id, target).value)
  {
    hide OpsOk, ShardsOk;
    SameRangesOk(p.order, p.shards, Transfer(p, id, target).value.shards);
  }

  /** A transfer makes the target lead one shard, alone among its replicas; ranges and other shards stay. */
  lemma TransferMoves(p: Plane, id: string, target: string, other: string)
    requires Transfer(p, id, target).Some?
    ensures var q := Transfer(p, id, target).value;
            && id in p.shards && q == p.(shards := q.shards) && q.shards.Keys == p.shards.Keys
            && (other in p.shards && other != id ==> q.shards[other] == p.shards[other])
            && var s, t := p.shards[id], q.shards[id];
            && t.leader == target && t.(leader := s.leader, replicas := s.replicas) == s
               && HasReplica(t.replicas, target)
            && (forall i :: 0 <= i < |t.replicas| ==> (t.replicas[i].leads <==> t.replicas[i].node == target))
            && |s.replicas| <= |t.replicas|
            && forall i :: 0 <= i < |s.replicas| ==> t.replicas[i].(leads := s.replicas[i].leads) == s.replicas[i]
  {
    var s, t := p.shards[id], Transfer(p, id, target).value.shards[id];
    if HasReplica(s.replicas, target) {
      var i :| 0 <= i < |s.replicas| && s.replicas[i].node == target;
      assert t.replicas[i].node == target;
    } else {
      assert t.replicas[|s.replicas|].node == target;
    }
  }

  lemma DrainKeepsOk(p: Plane, self: string, node: string)
    requires PlaneOk(p) && Drain(p, self, node).Some?
    ensures PlaneOk(Drain(p, self, node).value)
  {
    hide OpsOk, ShardsOk;
    SameRangesOk(p.order, p.shards, Drain(p, self, node).value.shards);
  }

  /** A drained node leads nothing, and what it led is led by a healthy replica; the rest is untouched. */
  lemma DrainMoves(p: Plane, self: string, node: string, id: string)
    requires Drain(p, self, node).Some? && id in p.shards
    ensures var s, t := p.shards[id], Drain(p, self, node).value.shards[id];
            && t.leader != node && (s.leader != node ==> t == s)
            && (s.leader == node ==>
                 exists i :: 0 <= i < |s.replicas| && s.replicas[i].node == t.leader && s.replicas[i].healthy)
            && t.(leader := s.leader, replicas := s.replicas) == s
    ensures var q := Drain(p, self, node).value;
            q.order == p.order && q.shards.Keys == p.shards.Keys && q.draining == (p.draining || node == self)
  {
    assert CanDrain(p.shards[id], node);
  }
}
