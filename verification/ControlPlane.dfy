/** The control plane as an object: its methods do to the fields what the state functions say. */
module ControlPlane {
  import opened Bytes
  import opened Routing
  import opened ControlState
  import opened ControlSplit
  import opened ControlLog
  import opened ControlRun
  import N = ControlNode

  class Control {
    const self: string
    var order: seq<string>
    var shards: map<string, Shard>
    var routes: seq<Route>
    var revision: nat
    var ops: map<string, Op>
    var opOrder: seq<string>
    var draining: bool
    var applied: nat
    var disk: Saved                      // the state file

    ghost function State(): (p: Plane)
      reads this
    {
      Plane(order, shards, revision, ops, opOrder, draining, applied)
    }

    ghost predicate Valid()
      reads this
    {
      PlaneOk(State()) && Named(order, shards) && routes == RoutesOf(order, shards)
    }

    // ---------- routing ----------

    /** The shard that owns the key. */
    method ShardForKey(key: bytes) returns (r: Option<Shard>)
      requires Valid()
      ensures Named(order, shards) && r == Owner(order, shards, key)
    {
      hide ScanRoutes, KeyInRange, Trim, OpsOk;
      var i := RouteForKey(routes, key);
      if i.None? { return None; }
      var route := routes[i.value];
      if route.id !in shards { return None; }
      return Some(shards[route.id]);
    }

    // ---------- payloads ----------

    method ApplyTransferLeader(id: string, target: string) returns (ok: bool)
      modifies `shards
      ensures ok <==> old(Transfer(State(), id, target)).Some?
      ensures State() == if ok then old(Transfer(State(), id, target)).value else old(State())
    {
      if id !in shards { return false; }
      var shard := shards[id];
      if !HasReplica(shard.replicas, target) {
        shard := shard.(replicas := shard.replicas + [Replica(target, false, true)]);
      }
      var replicas := SetRoles(shard.replicas, target);
      shards := shards[id := shard.(leader := target, replicas := replicas)];
      return true;
    }

    /** Leaves shards and order changed when the new layout is refused; the caller rolls back. */
    method ApplySplit(id: string, key: bytes) returns (ok: bool)
      modifies `shards, `order, `routes
      ensures ok <==> old(Split(State(), id, key)).Some?
      ensures ok ==>
                State() == old(Split(State(), id, key)).value && Named(order, shards)
                  && routes == RoutesOf(order, shards)
      ensures !ok ==> routes == old(routes)
    {
      hide Accepted, KeyInRange, UniqueName, Lt, Trim;
      if id !in shards { return false; }
      var shard := shards[id];
      if !KeyInRange(key, shard.start, shard.end) { return false; }
      if (|shard.start| > 0 && key == shard.start) || (|shard.end| > 0 && key == shard.end) { return false; }
      var leftID := UniqueShardID(shards, id + "-a");
      var rightID := UniqueShardID(shards, id + "-b");
      var left, right := shard.(id := leftID, end := key), shard.(id := rightID, start := key);
      shards := shards - {id};
      shards := shards[left.id := left];
      shards := shards[right.id := right];
      var nextOrder: seq<string> := [];
      for i := 0 to |order|
        invariant nextOrder == Replaced(order[..i], id, leftID, rightID)
      {
        assert order[..i + 1][..i] == order[..i];
        if order[i] == id {
          nextOrder := nextOrder + [leftID, rightID];
        } else {
          nextOrder := nextOrder + [order[i]];
        }
      }
      assert order[..|order|] == order;
      order := nextOrder;
      assert order == old(Halved(State(), id, key)).order && shards == old(Halved(State(), id, key)).shards;
      var r := BuildShardRoutes(order, shards);
      if r.None? { return false; }
      AcceptedNamed(order, shards);
      routes := r.value;
      return true;
    }

    /** Moves every shard the node leads, or none. */
    method ApplyDrain(node: string) returns (ok: bool)
      requires PlaneOk(State())
      modifies `shards, `draining
      ensures ok <==> old(Drain(State(), self, node)).Some?
      ensures State() == if ok then old(Drain(State(), self, node)).value else old(State())
    {
      hide Accepted, OpsOk, IsSpace, Trim, Alternate, Drained, CanDrain;
      OrderIsKeys(order, shards);
      var targets, able := DrainTargets(order, shards, node);
      if !able { return false; }
      shards := MoveLeaders(order, shards, targets, node);
      if node == self { draining := true; }
      return true;
    }

    // ---------- the operation window ----------

    method NoteOperationApplied(opID0: string, fingerprint: string)
      modifies `revision, `ops, `opOrder
      ensures State() == old(Note(State(), opID0, fingerprint))
    {
      hide Trim, Without;
      revision := revision + 1;
      var opID := Trim(opID0);
      if opID == [] { return; }
      if opID !in ops { opOrder := opOrder + [opID]; }
      ops := ops[opID := Op(opID, fingerprint, revision)];
      if |opOrder| <= MAX_OPS {
        WithoutNone(ops);
        assert opOrder[..0] == [];
        return;
      }
      var overflow := |opOrder| - MAX_OPS;
      ops := Forget(ops, opOrder[..overflow]);
      opOrder := opOrder[overflow..];
    }

    // ---------- snapshots ----------

    method SnapshotState() returns (s: Saved)
      ensures s == Snapshot(State())
    {
      var list: seq<Shard> := [];
      for i := 0 to |order|
        invariant list == ShardList(order[..i], shards)
      {
        list := list + [if order[i] in shards then shards[order[i]] else NO_SHARD];
        assert list == ShardList(order[..i + 1], shards);
      }
      assert order[..|order|] == order;
      var saved: seq<Op> := [];
      for i := 0 to |opOrder|
        invariant saved == OpList(opOrder[..i], ops)
      {
        assert opOrder[..i + 1][..i] == opOrder[..i];
        if opOrder[i] in ops { saved := saved + [ops[opOrder[i]]]; }
      }
      assert opOrder[..|opOrder|] == opOrder;
      return Saved(order, list, revision, saved, draining, applied);
    }

    method ApplyState(s: Saved) returns (ok: bool)
      modifies `order, `shards, `routes, `revision, `ops, `opOrder, `draining, `applied
      ensures State() == Restore(s)
      ensures ok <==> Accepted(s.order, ShardMap(s.shards))
      ensures ok ==> Named(order, shards) && routes == RoutesOf(order, shards)
    {
      hide Accepted, Trim;
      applied, draining, revision, order := s.applied, s.draining, s.revision, s.order;
      shards := LoadShards(s.shards);
      ops, opOrder := LoadOps(s.ops);
      assert State() == Restore(s);
      var r := BuildShardRoutes(order, shards);
      if r.None? { return false; }
      AcceptedNamed(order, shards);
      routes := r.value;
      return true;
    }

    // ---------- committed entries ----------

    /** Writes the state file; a failed save leaves the old or the new file in place. */
    method SaveState(save: N.Save) returns (ok: bool)
      modifies `disk
      ensures ok == save.Kept?
      ensures disk == if save.LostBefore? then old(disk) else Snapshot(State())
    {
      var s := SnapshotState();
      if !save.LostBefore? { disk := s; }
      return save.Kept?;
    }

    /** Saves, or puts the earlier state back. */
    method SaveWithRollback(previous: Saved, save: N.Save, ghost before: Plane) returns (ok: bool)
      requires PlaneOk(before) && previous == Snapshot(before)
      requires Valid()
      modifies this
      ensures Valid() && ok == save.Kept?
      ensures State() == if ok then old(State()) else before
      ensures disk == if save.LostBefore? then old(disk) else Snapshot(old(State()))
    {
      hide PlaneOk, Snapshot, Restore;
      ok := SaveState(save);
      if !ok {
        SavedReturns(before);
        AcceptedAgain(before);
        var restored := ApplyState(previous);
      }
    }

    /** Moves the applied index on and saves; a lost save undoes the entry. */
    method Settle(index: nat, done: Outcome, previous: Saved, save: N.Save, ghost before: Plane) returns (out: Outcome)
      requires PlaneOk(before) && previous == Snapshot(before)
      requires Named(order, shards) && routes == RoutesOf(order, shards) && PlaneOk(Bump(State(), index))
      modifies this
      ensures Valid() && out == if save.Kept? then done else Failed
      ensures State() == if save.Kept? then Bump(old(State()), index) else before
      ensures disk == if save.LostBefore? then old(disk) else Snapshot(Bump(old(State()), index))
    {
      hide PlaneOk, Snapshot, Restore;
      if index > applied { applied := index; }
      var saved := SaveWithRollback(previous, save, before);
      return if saved then done else Failed;
    }

    method ApplyPayload(m: Mutation) returns (ok: bool)
      requires Valid()
      modifies `shards, `order, `routes, `draining
      ensures ok <==> old(Payload(State(), self, m)).Some?
      ensures ok ==> Valid() && State() == old(Payload(State(), self, m)).value
      ensures applied == old(applied) && ops == old(ops) && opOrder == old(opOrder) && revision == old(revision)
              && disk == old(disk)
    {
      hide PlaneOk, Transfer, Drain, Split;
      ghost var p := State();
      match m
      case TransferLeader(shard, target) =>
        ok := ApplyTransferLeader(shard, target);
        if ok { PayloadKeepsOk(p, self, m); TransferKeepsRoutes(p, shard, target); }
      case SplitShard(shard, key) =>
        ok := ApplySplit(shard, key);
        if ok { PayloadKeepsOk(p, self, m); }
      case PrepareDrain(node) =>
        ok := ApplyDrain(node);
        if ok { PayloadKeepsOk(p, self, m); DrainKeepsRoutes(p, self, node); }
      case Unknown(_) => ok := false;
    }

    /** One committed entry: applied and saved, refused with only the applied index moved and
        saved, or, when the save fails, undone. */
    method ApplyCommitted(e: Entry, save: N.Save) returns (out: Outcome)
      requires Valid()
      modifies this
      ensures Valid()
      ensures var p, step := old(State()), old(Step(State(), self, e));
              if step.1 == Failed || (step.1 == Noop && e.index <= p.applied) then
                  State() == p && disk == old(disk) && out == step.1
              else
                && disk == (if save.LostBefore? then old(disk) else Snapshot(step.0))
                && (if save.Kept? then State() == step.0 && out == step.1 else State() == p && out == Failed)
    {
      hide PlaneOk, Payload, Check, Note, Snapshot, Restore, Fingerprint, RoutesOf, Named;
      ghost var p := State();
      if e.mutation.Unknown? { return Failed; }
      var fingerprint := Fingerprint(e.mutation);
      if e.index == 0 || e.term == 0 { return Failed; }
      StepKeepsOk(p, self, e);
      var pre := Check(Plane(order, shards, revision, ops, opOrder, draining, applied), e.opID, e.expected,
          fingerprint);
      var previous := SnapshotState();
      if pre == Conflict {
        out := Settle(e.index, Rejected, previous, save, p);
        return;
      }
      if pre == Already {
        if e.index <= applied { return Noop; }
        out := Settle(e.index, Noop, previous, save, p);
        return;
      }
      var ok := ApplyPayload(e.mutation);
      if !ok {
        SavedReturns(p);
        AcceptedAgain(p);
        var restored := ApplyState(previous);
        out := Settle(e.index, Rejected, previous, save, p);
        return;
      }
      ghost var q := State();
      NoteOperationApplied(e.opID, fingerprint);
      NoteKeepsLayout(q, e.opID, fingerprint);
      out := Settle(e.index, Done, previous, save, p);
    }
  }

  lemma AcceptedAgain(p: Plane)
    requires PlaneOk(p)
    ensures Accepted(Snapshot(p).order, ShardMap(Snapshot(p).shards))
  {
    hide OpsOk;
    SavedReturns(p);
  }

  lemma TransferKeepsRoutes(p: Plane, id: string, target: string)
    requires Transfer(p, id, target).Some? && Named(p.order, p.shards)
    ensures var q := Transfer(p, id, target).value;
            Named(q.order, q.shards) && RoutesOf(q.order, q.shards) == RoutesOf(p.order, p.shards)
  {
    hide Trim;
    var q := Transfer(p, id, target).value;
    assert RoutesOf(q.order, q.shards) == RoutesOf(p.order, p.shards);
  }

  lemma DrainKeepsRoutes(p: Plane, self: string, node: string)
    requires Drain(p, self, node).Some? && Named(p.order, p.shards)
    ensures var q := Drain(p, self, node).value;
            Named(q.order, q.shards) && RoutesOf(q.order, q.shards) == RoutesOf(p.order, p.shards)
  {
    hide Trim;
    var q := Drain(p, self, node).value;
    assert RoutesOf(q.order, q.shards) == RoutesOf(p.order, p.shards);
  }

  lemma NoteKeepsLayout(p: Plane, opID: string, fp: string)
    ensures var q := Note(p, opID, fp);
            q.order == p.order && q.shards == p.shards && q.draining == p.draining && q.applied == p.applied
  {
  }

  /** The new leader of every shard the node leads; fails when one has no other healthy replica. */
  method DrainTargets(order: seq<string>, shards: map<string, Shard>, node: string)
      returns (targets: map<string, string>, able: bool)
    requires forall id :: id in order <==> id in shards
    ensures able <==> forall id :: id in shards ==> CanDrain(shards[id], node)
    ensures able ==> forall id :: id in targets <==> id in shards && shards[id].leader == node
    ensures able ==> forall id :: id in targets ==> Alternate(shards[id].replicas, node) == Some(targets[id])
  {
    hide Alternate;
    targets := map[];
    for i := 0 to |order|
      invariant forall id :: id in targets <==> id in order[..i] && shards[id].leader == node
      invariant forall id :: id in order[..i] ==> CanDrain(shards[id], node)
      invariant forall id :: id in targets ==> Alternate(shards[id].replicas, node) == Some(targets[id])
    {
      var id := order[i];
      assert order[..i + 1] == order[..i] + [id] && id in order;
      if shards[id].leader == node {
        var target := FindAlternate(shards[id].replicas, node);
        if target.None? {
          assert !CanDrain(shards[id], node);
          return targets, false;
        }
        targets := targets[id := target.value];
      }
    }
    assert order[..|order|] == order;
    able := true;
  }

  method MoveLeaders(order: seq<string>, shards: map<string, Shard>, targets: map<string, string>, node: string)
      returns (after: map<string, Shard>)
    requires forall id :: id in order <==> id in shards
    requires forall i, j :: 0 <= i < j < |order| ==> order[i] != order[j]
    requires forall id :: id in targets <==> id in shards && shards[id].leader == node
    requires forall id :: id in targets ==> Alternate(shards[id].replicas, node) == Some(targets[id])
    ensures after == map id | id in shards :: Drained(shards[id], node)
  {
    hide Alternate, WithLeader;
    after := shards;
    for i := 0 to |order|
      invariant after.Keys == shards.Keys
      invariant forall id :: id in shards ==>
                  after[id] == if id in order[..i] then Drained(shards[id], node) else shards[id]
    {
      var id := order[i];
      assert order[..i + 1] == order[..i] + [id] && id in order && id !in order[..i];
      if id in targets {
        var replicas := SetRoles(after[id].replicas, targets[id]);
        LeaderIs(after[id], targets[id], replicas);
        after := after[id := after[id].(leader := targets[id], replicas := replicas)];
      }
    }
    assert order[..|order|] == order;
  }

  method Forget(ops: map<string, Op>, ids: seq<string>) returns (kept: map<string, Op>)
    ensures kept == Without(ops, ids)
  {
    kept := ops;
    for i := 0 to |ids|
      invariant kept == Without(ops, ids[..i])
    {
      assert ids[..i + 1] == ids[..i] + [ids[i]];
      kept := kept - {ids[i]};
    }
    assert ids[..|ids|] == ids;
  }

  lemma WithoutNone(ops: map<string, Op>)
    ensures Without(ops, []) == ops
  {
  }

  method LoadShards(list: seq<Shard>) returns (shards: map<string, Shard>)
    ensures shards == ShardMap(list)
  {
    shards := map[];
    for i := 0 to |list|
      invariant shards == ShardMap(list[..i])
    {
      assert list[..i + 1][..i] == list[..i];
      shards := shards[list[i].id := list[i]];
    }
    assert list[..|list|] == list;
  }

  method LoadOps(list: seq<Op>) returns (ops: map<string, Op>, ids: seq<string>)
    ensures ops == OpMap(list) && ids == OpIDs(list)
  {
    hide Trim;
    ops, ids := map[], [];
    for i := 0 to |list|
      invariant ops == OpMap(list[..i]) && ids == OpIDs(list[..i])
    {
      var opID := Trim(list[i].id);
      assert list[..i + 1][..i] == list[..i];
      ops := ops[opID := Op(opID, list[i].fingerprint, list[i].revision)];
      ids := ids + [opID];
      assert ids == OpIDs(list[..i + 1]);
    }
    assert list[..|list|] == list;
  }

  lemma LeaderIs(s: Shard, leader: string, replicas: seq<Replica>)
    requires replicas == WithRoles(s.replicas, leader)
    ensures s.(leader := leader, replicas := replicas) == WithLeader(s, leader)
  {
  }

  ghost predicate Named(order: seq<string>, shards: map<string, Shard>)
  {
    forall i :: 0 <= i < |order| ==> Trim(order[i]) in shards
  }

  lemma AcceptedNamed(order: seq<string>, shards: map<string, Shard>)
    requires Accepted(order, shards)
    ensures Named(order, shards)
  {
  }

  method SetRoles(replicas0: seq<Replica>, leader: string) returns (replicas: seq<Replica>)
    ensures replicas == WithRoles(replicas0, leader)
  {
    replicas := replicas0;
    for i := 0 to |replicas|
      invariant |replicas| == |replicas0|
      invariant forall j :: 0 <= j < |replicas| ==>
                  replicas[j] == if j < i then WithRoles(replicas0, leader)[j] else replicas0[j]
    {
      if replicas[i].node == leader {
        replicas := replicas[i := replicas[i].(leads := true)];
      } else {
        replicas := replicas[i := replicas[i].(leads := false)];
      }
    }
  }

  method FindAlternate(replicas: seq<Replica>, node: string) returns (r: Option<string>)
    ensures r == Alternate(replicas, node)
  {
    var target := "";
    for i := 0 to |replicas|
      invariant target == "" && FirstOther(replicas, node) == FirstOther(replicas[i..], node)
    {
      assert replicas[i..][1..] == replicas[i + 1..];
      if replicas[i].node != node && replicas[i].healthy {
        target := replicas[i].node;
        break;
      }
    }
    return if target == "" then None else Some(target);
  }
}
