/** Saving and loading the control state, and whole runs of a node: entries applied from the
    committed log, saves that fail, crashes and restarts. */
module ControlRun {
  import opened Routing
  import opened ControlState

  // ---------- the saved form ----------

  datatype Saved = Saved(
    order: seq<string>,
    shards: seq<Shard>,
    revision: nat,
    ops: seq<Op>,
    draining: bool,
    applied: nat)

  const NO_SHARD := Shard([], [], [], [], [])

  function Lookup(shards: map<string, Shard>, id: string): (s: Shard)
  {
    if id in shards then shards[id] else NO_SHARD
  }

  function ShardList(order: seq<string>, shards: map<string, Shard>): (r: seq<Shard>)
    ensures |r| == |order| && forall i :: 0 <= i < |order| ==> r[i] == Lookup(shards, order[i])
  {
    seq(|order|, i requires 0 <= i < |order| => Lookup(shards, order[i]))
  }

  function OpList(opOrder: seq<string>, ops: map<string, Op>): (r: seq<Op>)
  {
    if opOrder == [] then []
    else
      var id := opOrder[|opOrder| - 1];
      OpList(opOrder[..|opOrder| - 1], ops) + (if id in ops then [ops[id]] else [])
  }

  function Snapshot(p: Plane): (s: Saved)
  {
    Saved(p.order, ShardList(p.order, p.shards), p.revision, OpList(p.opOrder, p.ops), p.draining, p.applied)
  }

  function ShardMap(shards: seq<Shard>): (m: map<string, Shard>)
  {
    if shards == [] then map[] else ShardMap(shards[..|shards| - 1])[shards[|shards| - 1].id := shards[|shards| - 1]]
  }

  function OpMap(ops: seq<Op>): (m: map<string, Op>)
  {
    if ops == [] then map[]
    else
      var op := ops[|ops| - 1];
      OpMap(ops[..|ops| - 1])[Trim(op.id) := op.(id := Trim(op.id))]
  }

  function OpIDs(ops: seq<Op>): (r: seq<string>)
    ensures |r| == |ops| && forall i :: 0 <= i < |ops| ==> r[i] == Trim(ops[i].id)
  {
    seq(|ops|, i requires 0 <= i < |ops| => Trim(ops[i].id))
  }

  function Restore(s: Saved): (p: Plane)
  {
    Plane(s.order, ShardMap(s.shards), s.revision, OpMap(s.ops), OpIDs(s.ops), s.draining, s.applied)
  }

  /** What a load checks. */
  ghost predicate Validates(s: Saved)
  {
    && s.order != [] && s.shards != []
    && (forall i :: 0 <= i < |s.shards| ==> Trim(s.shards[i].id) != [])
    && (forall i, j :: 0 <= i < j < |s.shards| ==> s.shards[i].id != s.shards[j].id)
    && Accepted(s.order, ShardMap(s.shards))
    && |s.ops| <= MAX_OPS
    && (forall i :: 0 <= i < |s.ops| ==> Trim(s.ops[i].id) != [] && Trim(s.ops[i].fingerprint) != [])
    && (forall i, j :: 0 <= i < j < |s.ops| ==> Trim(s.ops[i].id) != Trim(s.ops[j].id))
  }

  lemma {:induction false} ShardMapIs(shards: seq<Shard>)
    requires forall i, j :: 0 <= i < j < |shards| ==> shards[i].id != shards[j].id
    ensures forall i :: 0 <= i < |shards| ==>
              shards[i].id in ShardMap(shards) && ShardMap(shards)[shards[i].id] == shards[i]
    ensures forall id :: id in ShardMap(shards) ==> exists i :: 0 <= i < |shards| && shards[i].id == id
  {
    if shards != [] {
      var n := |shards| - 1;
      ShardMapIs(shards[..n]);
      forall i | 0 <= i < |shards|
        ensures shards[i].id in ShardMap(shards) && ShardMap(shards)[shards[i].id] == shards[i]
      {
        if i < n { assert shards[..n][i] == shards[i]; }
      }
      forall id | id in ShardMap(shards) ensures exists i :: 0 <= i < |shards| && shards[i].id == id {
        if id != shards[n].id {
          var i :| 0 <= i < n && shards[..n][i].id == id;
          assert shards[i].id == id;
        } else {
          assert shards[n].id == id;
        }
      }
    }
  }

  lemma ShardsReturn(order: seq<string>, shards: map<string, Shard>)
    requires ShardsOk(order, shards)
    ensures ShardMap(ShardList(order, shards)) == shards
    ensures var l := ShardList(order, shards);
            (forall i :: 0 <= i < |l| ==> Clean(l[i].id)) && forall i, j :: 0 <= i < j < |l| ==> l[i].id != l[j].id
  {
    hide Trim, IsSpace, Accepted, ShardMap;
    OrderIsKeys(order, shards);
    var l := ShardList(order, shards);
    forall i | 0 <= i < |l|
      ensures l[i].id == order[i] && Clean(l[i].id)
    {
      assert Clean(order[i]) && order[i] in order;
    }
    ShardMapIs(l);
    var m := ShardMap(l);
    forall id | id in shards ensures id in m && m[id] == shards[id] {
      var i :| 0 <= i < |order| && order[i] == id;
      assert l[i].id == id;
    }
    forall id | id in m ensures id in shards {
      var i :| 0 <= i < |l| && l[i].id == id;
      assert order[i] in order;
    }
    assert m == shards;
  }

  lemma {:induction false} OpListIs(opOrder: seq<string>, ops: map<string, Op>)
    requires forall i :: 0 <= i < |opOrder| ==> opOrder[i] in ops
    ensures |OpList(opOrder, ops)| == |opOrder|
            && forall i :: 0 <= i < |opOrder| ==> OpList(opOrder, ops)[i] == ops[opOrder[i]]
  {
    if opOrder != [] {
      var n := |opOrder| - 1;
      OpListIs(opOrder[..n], ops);
      forall i | 0 <= i < |opOrder| ensures OpList(opOrder, ops)[i] == ops[opOrder[i]] {
        if i < n { assert opOrder[..n][i] == opOrder[i]; }
      }
    }
  }

  lemma OpMapIs(ops: seq<Op>)
    requires forall i :: 0 <= i < |ops| ==> Trim(ops[i].id) == ops[i].id
    requires forall i, j :: 0 <= i < j < |ops| ==> ops[i].id != ops[j].id
    ensures forall i :: 0 <= i < |ops| ==> ops[i].id in OpMap(ops) && OpMap(ops)[ops[i].id] == ops[i]
    ensures forall id :: id in OpMap(ops) ==> exists i :: 0 <= i < |ops| && ops[i].id == id
  {
    hide OpMap, Trim;
    forall i | 0 <= i < |ops| ensures ops[i].id in OpMap(ops) && OpMap(ops)[ops[i].id] == ops[i] { OpMapAt(ops, i); }
    forall id | id in OpMap(ops) ensures exists i :: 0 <= i < |ops| && ops[i].id == id { var i := OpMapFrom(ops, id); }
  }

  lemma {:induction false} OpMapAt(ops: seq<Op>, i: nat)
    requires i < |ops| && (forall k :: 0 <= k < |ops| ==> Trim(ops[k].id) == ops[k].id)
    requires forall j, k :: 0 <= j < k < |ops| ==> ops[j].id != ops[k].id
    ensures ops[i].id in OpMap(ops) && OpMap(ops)[ops[i].id] == ops[i]
  {
    hide Trim;
    var n := |ops| - 1;
    if i < n {
      OpMapAt(ops[..n], i);
      assert ops[i].id != ops[n].id;
    }
  }

  lemma {:induction false} OpMapFrom(ops: seq<Op>, id: string) returns (i: nat)
    requires id in OpMap(ops)
    ensures i < |ops| && Trim(ops[i].id) == id && OpMap(ops)[id].id == id
            && OpMap(ops)[id].fingerprint == ops[i].fingerprint
  {
    hide Trim;
    i := |ops| - 1;
    if id != Trim(ops[i].id) { i := OpMapFrom(ops[..i], id); }
  }

  lemma OpListFacts(ops: map<string, Op>, opOrder: seq<string>)
    requires OpsOk(ops, opOrder)
    ensures var l := OpList(opOrder, ops);
            && |l| == |opOrder|
            && forall i :: 0 <= i < |l| ==>
                 Clean(l[i].id) && l[i].id == opOrder[i] && opOrder[i] in ops && l[i] == ops[opOrder[i]]
                                            && Trim(l[i].fingerprint) != []
  {
    hide Trim, IsSpace, OpList;
    forall i | 0 <= i < |opOrder| ensures opOrder[i] in ops { assert opOrder[i] in opOrder; }
    OpListIs(opOrder, ops);
  }

  lemma OpsReturn(ops: map<string, Op>, opOrder: seq<string>)
    requires OpsOk(ops, opOrder)
    ensures OpMap(OpList(opOrder, ops)) == ops && OpIDs(OpList(opOrder, ops)) == opOrder
  {
    hide Trim, IsSpace, OpMap, OpList;
    OpListFacts(ops, opOrder);
    var l := OpList(opOrder, ops);
    OpMapIs(l);
    var m := OpMap(l);
    forall id | id in ops ensures id in m && m[id] == ops[id] {
      var i :| 0 <= i < |opOrder| && opOrder[i] == id;
      assert l[i].id == id;
    }
    forall id | id in m ensures id in ops {
      var i :| 0 <= i < |l| && l[i].id == id;
    }
    assert m == ops;
    assert OpIDs(l) == opOrder;
  }

  /** A well-formed state is what a load of its saved form gives, and the load accepts it. So a
      rollback to a snapshot restores the state exactly. */
  lemma SavedReturns(p: Plane)
    requires PlaneOk(p)
    ensures Restore(Snapshot(p)) == p && Validates(Snapshot(p))
  {
    hide Trim, IsSpace, OpMap, OpList, ShardMap, Accepted, OpIDs;
    ShardsReturn(p.order, p.shards);
    OpsReturn(p.ops, p.opOrder);
    OpListFacts(p.ops, p.opOrder);
    assert p.order != [] by { AcceptedHasOrder(p.order, p.shards); }
    var s := Snapshot(p);
    forall i, j | 0 <= i < j < |s.ops| ensures Trim(s.ops[i].id) != Trim(s.ops[j].id) {
      assert s.ops[i].id == p.opOrder[i] && s.ops[j].id == p.opOrder[j];
    }
  }

  lemma AcceptedHasOrder(order: seq<string>, shards: map<string, Shard>)
    requires Accepted(order, shards)
    ensures order != []
  {
  }

  lemma LoadedOpsOk(s: Saved)
    requires Validates(s)
    ensures OpsOk(OpMap(s.ops), OpIDs(s.ops))
  {
    hide Trim, IsSpace, Accepted, ShardMap, OpMap;
    forall i | 0 <= i < |s.ops| ensures Clean(OpIDs(s.ops)[i]) { TrimIsClean(s.ops[i].id); }
    OpMapKeys(s.ops);
  }

  lemma {:induction false} OpMapHas(ops: seq<Op>, i: nat)
    requires i < |ops|
    ensures Trim(ops[i].id) in OpMap(ops)
  {
    hide Trim;
    if i < |ops| - 1 { OpMapHas(ops[..|ops| - 1], i); }
  }

  lemma OpMapKeys(ops: seq<Op>)
    ensures forall id :: id in OpMap(ops) <==> id in OpIDs(ops)
    ensures forall id :: id in OpMap(ops) ==>
              OpMap(ops)[id].id == id && exists i :: 0 <= i < |ops| && OpMap(ops)[id].fingerprint == ops[i].fingerprint
  {
    hide Trim, OpMap;
    forall id | id in OpMap(ops)
      ensures id in OpIDs(ops) && OpMap(ops)[id].id == id
              && exists i :: 0 <= i < |ops| && OpMap(ops)[id].fingerprint == ops[i].fingerprint
    {
      var i := OpMapFrom(ops, id);
      assert OpIDs(ops)[i] == id;
    }
    forall id | id in OpIDs(ops) ensures id in OpMap(ops) {
      var i :| 0 <= i < |ops| && OpIDs(ops)[i] == id;
      OpMapHas(ops, i);
    }
  }

  /** A state that loads is saved in loadable form again exactly when the names in its order are
      already trimmed. */
  lemma ResaveIff(s: Saved)
    requires Validates(s)
    ensures (forall i :: 0 <= i < |s.order| ==> Clean(s.order[i])) <==> Validates(Snapshot(Restore(s)))
    ensures (forall i :: 0 <= i < |s.order| ==> Clean(s.order[i])) ==> PlaneOk(Restore(s))
  {
    hide Trim, IsSpace, OpMap, OpList, ShardMap, OpIDs, OpsOk, Ordered;
    LoadedOpsOk(s);
    var p := Restore(s);
    ShardMapIs(s.shards);
    if forall i :: 0 <= i < |s.order| ==> Clean(s.order[i]) {
      assert PlaneOk(p) by {
        forall id | id in p.shards ensures p.shards[id].id == id {
          var i :| 0 <= i < |s.shards| && s.shards[i].id == id;
        }
      }
      SavedReturns(p);
    } else {
      var i :| 0 <= i < |s.order| && !Clean(s.order[i]);
      KeysAreTrimmed(s.order, p.shards);
      assert s.order[i] !in p.shards;
      assert Snapshot(p).shards[i] == NO_SHARD;
      TrimNothing();
    }
  }

  lemma TrimNothing()
    ensures Trim([]) == []
  {
  }

  lemma KeysAreTrimmed(order: seq<string>, shards: map<string, Shard>)
    requires Accepted(order, shards)
    ensures forall id :: id in shards ==> Clean(id)
  {
    hide Ordered, IsSpace;
    var names := seq(|order|, i requires 0 <= i < |order| => Trim(order[i]));
    DistinctCount(names, shards.Keys);
    forall id | id in shards ensures Clean(id) {
      assert id in names;
      var i :| 0 <= i < |names| && names[i] == id;
      TrimIsClean(order[i]);
    }
  }

  /** A name in the order that needs trimming: the load accepts it, but the next save loses the shard. */
  lemma UntrimmedOrderIsLost()
    ensures var shard := Shard("a", [], [], "n", []);
            var s := Saved([" a"], [shard], 0, [], false, 0);
            Validates(s) && !Validates(Snapshot(Restore(s)))
  {
    hide IsSpace;
    var shard := Shard("a", [], [], "n", []);
    var s := Saved([" a"], [shard], 0, [], false, 0);
    TrimSpaceA();
    assert s.shards[..0] == [];
    assert ShardMap(s.shards[..0]) == map[];
    assert ShardMap(s.shards) == map["a" := shard];
    assert Validates(s);
    assert !Clean(s.order[0]);
    ResaveIff(s);
  }

  lemma TrimSpaceA()
    ensures Trim(" a") == "a" && Trim("a") == "a"
  {
    assert " a"[1..] == "a";
    assert TrimLeft(" a") == "a";
  }
}
