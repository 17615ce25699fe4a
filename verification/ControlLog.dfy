/** Committed control entries: what one entry does, what a log does, and why it is the same
    on every node and through every crash. */
module ControlLog {
  import opened Bytes
  import opened Routing
  import opened ControlState
  import opened ControlSplit

  datatype Mutation =
    | TransferLeader(shard: string, target: string)
    | SplitShard(shard: string, key: bytes)
    | PrepareDrain(node: string)
    | Unknown(kind: string)

  datatype Entry = Entry(index: nat, term: nat, mutation: Mutation, opID: string, expected: Option<nat>)

  function HexDigit(d: nat): (c: char)
    requires d < 16
  {
    ['0', '1', '2', '3', '4', '5', '6', '7', '8', '9', 'a', 'b', 'c', 'd', 'e', 'f'][d]
  }

  function Hex(b: bytes): (s: string)
  {
    if b == [] then "" else [HexDigit(b[0] / 16), HexDigit(b[0] % 16)] + Hex(b[1..])
  }

  /** What identifies the effect of an operation. */
  function Fingerprint(m: Mutation): (s: string)
    requires !m.Unknown?
    ensures s != [] && !IsSpace(s[0])
  {
    match m
    case TransferLeader(shard, target) => "transfer:" + shard + ":" + target
    case SplitShard(shard, key) => "split:" + shard + ":" + Hex(key)
    case PrepareDrain(node) => "drain:" + node
  }

  // ---------- preconditions and the operation window ----------

  datatype Pre = Go | Already | Conflict

  /** A known operation is done already, or clashes; a stale revision clashes. */
  function Check(p: Plane, opID: string, expected: Option<nat>, fingerprint: string): (r: Pre)
  {
    var id := Trim(opID);
    if id != [] && id in p.ops then if p.ops[id].fingerprint != fingerprint then Conflict else Already
    else if expected.Some? && expected.value != p.revision then Conflict
    else Go
  }

  function Tail(s: seq<string>, n: nat): (t: seq<string>)
    ensures |t| <= |s|
  {
    if |s| <= n then s else s[|s| - n..]
  }

  function Without(ops: map<string, Op>, ids: seq<string>): (r: map<string, Op>)
  {
    map id | id in ops && id !in ids :: ops[id]
  }

  /** Counts the operation and remembers it, forgetting the oldest beyond the window. */
  function Note(p: Plane, opID: string, fingerprint: string): (r: Plane)
  {
    var id := Trim(opID);
    var q := p.(revision := p.revision + 1);
    if id == [] then q
    else
      var opOrder := if id in p.ops then p.opOrder else p.opOrder + [id];
      var ops := p.ops[id := Op(id, fingerprint, q.revision)];
      var overflow := |opOrder| - |Tail(opOrder, MAX_OPS)|;
      q.(ops := Without(ops, opOrder[..overflow]), opOrder := Tail(opOrder, MAX_OPS))
  }

  // ---------- one entry ----------

  ghost function Payload(p: Plane, self: string, m: Mutation): (r: Option<Plane>)
  {
    match m
    case TransferLeader(shard, target) => Transfer(p, shard, target)
    case SplitShard(shard, key) => Split(p, shard, key)
    case PrepareDrain(node) => Drain(p, self, node)
    case Unknown(_) => None
  }

  function Bump(p: Plane, index: nat): (r: Plane)
  {
    if index > p.applied then p.(applied := index) else p
  }

  datatype Outcome = Done | Noop | Rejected | Failed

  /** The state after an entry, and how it ended. Only Failed leaves the applied index alone. */
  ghost function Step(p: Plane, self: string, e: Entry): (r: (Plane, Outcome))
  {
    if e.mutation.Unknown? || e.index == 0 || e.term == 0 then (p, Failed)
    else
      var fp := Fingerprint(e.mutation);
      match Check(p, e.opID, e.expected, fp)
      case Conflict => (Bump(p, e.index), Rejected)
      case Already => (Bump(p, e.index), Noop)
      case Go =>
        match Payload(p, self, e.mutation)
        case None => (Bump(p, e.index), Rejected)
        case Some(q) => (Bump(Note(q, e.opID, fp), e.index), Done)
  }

  /** Only `draining` is a node's own. */
  function Shared(p: Plane): (r: Plane)
  {
    p.(draining := false)
  }

  lemma PayloadIsShared(p: Plane, q: Plane, a: string, b: string, m: Mutation)
    requires Shared(p) == Shared(q)
    ensures Payload(p, a, m).Some? <==> Payload(q, b, m).Some?
    ensures Payload(p, a, m).Some? ==> Shared(Payload(p, a, m).value) == Shared(Payload(q, b, m).value)
  {
    hide Accepted, Replaced, HalvedShards, SplitInside, UniqueName;
    assert p.shards == q.shards && p.order == q.order;
  }

  lemma NoteIsShared(p: Plane, q: Plane, opID: string, fp: string)
    requires Shared(p) == Shared(q)
    ensures Shared(Note(p, opID, fp)) == Shared(Note(q, opID, fp))
  {
    hide Trim, Tail, Without;
    assert p.ops == q.ops && p.revision == q.revision && p.opOrder == q.opOrder;
  }

  lemma CheckIsShared(p: Plane, q: Plane, e: Entry, fp: string)
    requires Shared(p) == Shared(q)
    ensures Check(p, e.opID, e.expected, fp) == Check(q, e.opID, e.expected, fp)
  {
    assert p.ops == q.ops && p.revision == q.revision;
  }

  lemma BumpIsShared(p: Plane, q: Plane, index: nat)
    requires Shared(p) == Shared(q)
    ensures Shared(Bump(p, index)) == Shared(Bump(q, index))
  {
    assert p.applied == q.applied;
  }

  /** An entry has the same effect on every node. */
  lemma StepIsShared(p: Plane, q: Plane, a: string, b: string, e: Entry)
    requires Shared(p) == Shared(q)
    ensures Shared(Step(p, a, e).0) == Shared(Step(q, b, e).0) && Step(p, a, e).1 == Step(q, b, e).1
  {
    hide Payload, Fingerprint, Check, Note, Bump, Shared;
    if !e.mutation.Unknown? {
      var fp := Fingerprint(e.mutation);
      CheckIsShared(p, q, e, fp);
      BumpIsShared(p, q, e.index);
      PayloadIsShared(p, q, a, b, e.mutation);
      if Payload(p, a, e.mutation).Some? {
        var x, y := Payload(p, a, e.mutation).value, Payload(q, b, e.mutation).value;
        NoteIsShared(x, y, e.opID, fp);
        BumpIsShared(Note(x, e.opID, fp), Note(y, e.opID, fp), e.index);
      }
    }
  }

  /** An entry that is rejected, or was done before, moves only the applied index. */
  lemma RejectedMovesOnlyIndex(p: Plane, self: string, e: Entry)
    ensures Step(p, self, e).1 != Done ==> Step(p, self, e).0.(applied := p.applied) == p
    ensures Step(p, self, e).1 != Failed ==>
              Step(p, self, e).0.applied == if e.index > p.applied then e.index else p.applied
    ensures Step(p, self, e).1 == Done ==> Step(p, self, e).0.revision == p.revision + 1
  {
    hide Fingerprint, Trim, Accepted, Replaced, HalvedShards, SplitInside, UniqueName;
  }

  // ---------- well-formedness ----------

  lemma TailFacts(s: seq<string>, n: nat)
    requires forall i, j :: 0 <= i < j < |s| ==> s[i] != s[j]
    ensures var t, k := Tail(s, n), |s| - |Tail(s, n)|;
            && |t| <= n && s == s[..k] + t
            && (forall i, j :: 0 <= i < j < |t| ==> t[i] != t[j])
            && (forall x :: x in t <==> x in s && x !in s[..k])
  {
    var t, k := Tail(s, n), |s| - |Tail(s, n)|;
    assert s == s[..k] + t;
    SecondPart(s[..k], t);
  }

  lemma SecondPart(a: seq<string>, b: seq<string>)
    requires var s := a + b; forall i, j :: 0 <= i < j < |s| ==> s[i] != s[j]
    ensures (forall i, j :: 0 <= i < j < |b| ==> b[i] != b[j]) && forall x :: x in b <==> x in a + b && x !in a
  {
    var s := a + b;
    forall i, j | 0 <= i < j < |b| ensures b[i] != b[j] { assert s[|a| + i] == b[i] && s[|a| + j] == b[j]; }
    forall x | x in b ensures x !in a {
      var j :| 0 <= j < |b| && b[j] == x;
      forall i | 0 <= i < |a| ensures a[i] != x { assert s[i] == a[i] && s[|a| + j] == x; }
    }
  }

  ghost predicate Unique(s: seq<string>)
  {
    forall i, j :: 0 <= i < j < |s| ==> s[i] != s[j]
  }

  ghost predicate Matches(ops: map<string, Op>, order: seq<string>)
  {
    Unique(order) && forall id :: id in ops <==> id in order
  }

  ghost predicate Recorded(ops: map<string, Op>)
  {
    forall id :: id in ops ==> Clean(id) && ops[id].id == id && Trim(ops[id].fingerprint) != []
  }

  lemma AddMatches(ops: map<string, Op>, order: seq<string>, id: string, op: Op)
    requires Matches(ops, order)
    ensures Matches(ops[id := op], if id in ops then order else order + [id])
  {
    if id !in ops {
      assert id !in order;
      forall x
        ensures x in ops[id := op] <==> x in order + [id]
      {
        assert x in order + [id] <==> x in order || x == id;
      }
    }
  }

  lemma TrimMatches(ops: map<string, Op>, order: seq<string>, n: nat)
    requires Matches(ops, order)
    ensures Matches(Without(ops, order[..|order| - |Tail(order, n)|]), Tail(order, n)) && |Tail(order, n)| <= n
  {
    hide Tail;
    TailFacts(order, n);
  }

  lemma TrimRecorded(ops: map<string, Op>, id: string, op: Op, ids: seq<string>)
    requires Recorded(ops) && Clean(id) && op.id == id && Trim(op.fingerprint) != []
    ensures Recorded(Without(ops[id := op], ids))
  {
    hide Trim, Clean;
  }

  /** The window keeps the newest operations, each once. */
  lemma NoteKeepsOps(p: Plane, opID: string, fp: string)
    requires OpsOk(p.ops, p.opOrder) && Trim(fp) != []
    ensures OpsOk(Note(p, opID, fp).ops, Note(p, opID, fp).opOrder)
    ensures Trim(opID) != [] && Trim(opID) !in p.ops ==>
              Note(p, opID, fp).opOrder == Tail(p.opOrder + [Trim(opID)], MAX_OPS)
  {
    hide Trim, Tail, IsSpace, Without, Clean;
    var id := Trim(opID);
    if id != [] {
      TrimIsClean(opID);
      var opOrder := if id in p.ops then p.opOrder else p.opOrder + [id];
      var op := Op(id, fp, p.revision + 1);
      AddMatches(p.ops, p.opOrder, id, op);
      TrimMatches(p.ops[id := op], opOrder, MAX_OPS);
      TrimRecorded(p.ops, id, op, opOrder[..|opOrder| - |Tail(opOrder, MAX_OPS)|]);
    }
  }

  lemma FingerprintTrims(m: Mutation)
    requires !m.Unknown?
    ensures Trim(Fingerprint(m)) != []
  {
    hide Fingerprint;
    var s := Fingerprint(m);
    assert TrimLeft(s) == s;
  }

  lemma PayloadKeepsOk(p: Plane, self: string, m: Mutation)
    requires PlaneOk(p) && Payload(p, self, m).Some?
    ensures PlaneOk(Payload(p, self, m).value)
  {
    hide PlaneOk, Transfer, Drain, Accepted, Replaced, HalvedShards, UniqueName;
    match m
    case TransferLeader(shard, target) => TransferKeepsOk(p, shard, target);
    case SplitShard(shard, key) => SplitIff(p, shard, key);
    case PrepareDrain(node) => DrainKeepsOk(p, self, node);
    case Unknown(_) =>
  }

  /** Every entry keeps the state well formed. */
  lemma StepKeepsOk(p: Plane, self: string, e: Entry)
    requires PlaneOk(p)
    ensures PlaneOk(Step(p, self, e).0)
  {
    hide Payload, Fingerprint, ShardsOk, OpsOk, Check, Trim;
    if !e.mutation.Unknown? && Payload(p, self, e.mutation).Some? {
      PayloadKeepsOk(p, self, e.mutation);
      FingerprintTrims(e.mutation);
      NoteKeepsOps(Payload(p, self, e.mutation).value, e.opID, Fingerprint(e.mutation));
    }
  }

  // ---------- idempotency ----------

  /** Retrying an operation that is still in the window changes nothing but the applied index. */
  lemma RetryIsNoop(p: Plane, self: string, e: Entry)
    requires !e.mutation.Unknown? && e.index > 0 && e.term > 0
    requires Trim(e.opID) != [] && Trim(e.opID) in p.ops && p.ops[Trim(e.opID)].fingerprint == Fingerprint(e.mutation)
    ensures Step(p, self, e) == (Bump(p, e.index), Noop)
  {
  }

  /** An applied operation is in the window, as the newest. */
  lemma AppliedIsRemembered(p: Plane, self: string, e: Entry)
    requires PlaneOk(p) && Step(p, self, e).1 == Done && Trim(e.opID) != []
    ensures var q, id := Step(p, self, e).0, Trim(e.opID);
            id in q.ops && q.ops[id].fingerprint == Fingerprint(e.mutation) && q.opOrder != []
              && q.opOrder[|q.opOrder| - 1] == id
  {
    hide Payload, Fingerprint, ShardsOk, OpsOk, Trim, Note;
    var q := Payload(p, self, e.mutation).value;
    PayloadKeepsOk(p, self, e.mutation);
    PayloadOps(p, self, e.mutation);
    NoteRemembers(q, e.opID, Fingerprint(e.mutation));
  }

  lemma NoteRemembers(p: Plane, opID: string, fp: string)
    requires OpsOk(p.ops, p.opOrder) && Trim(opID) != [] && Trim(opID) !in p.ops
    ensures var q, id := Note(p, opID, fp), Trim(opID);
            id in q.ops && q.ops[id].fingerprint == fp && q.opOrder != [] && q.opOrder[|q.opOrder| - 1] == id
  {
    hide Trim, Tail, Clean;
    var id, opOrder := Trim(opID), p.opOrder + [Trim(opID)];
    TailFacts(opOrder, MAX_OPS);
    TailLast(opOrder, MAX_OPS);
    assert id !in p.opOrder;
    LastIsKept(p.opOrder, id, |opOrder| - |Tail(opOrder, MAX_OPS)|);
  }

  lemma LastIsKept(order: seq<string>, id: string, overflow: int)
    requires id !in order && 0 <= overflow <= |order|
    ensures id !in (order + [id])[..overflow]
  {
    assert (order + [id])[..overflow] == order[..overflow];
  }

  lemma TailLast(s: seq<string>, n: nat)
    requires s != [] && n > 0
    ensures Tail(s, n) != [] && Tail(s, n)[|Tail(s, n)| - 1] == s[|s| - 1]
  {
  }

  lemma PayloadOps(p: Plane, self: string, m: Mutation)
    requires Payload(p, self, m).Some?
    ensures var q := Payload(p, self, m).value;
            q.ops == p.ops && q.opOrder == p.opOrder && q.revision == p.revision && q.applied == p.applied
  {
    hide Accepted, Replaced, HalvedShards, SplitInside, UniqueName;
  }
}
