/** Runs of a node over the committed control log: every interleaving of applied entries, saves
    that fail before or after the rename, crashes and restarts. */
module ControlNode {
  import opened ControlState
  import opened ControlLog
  import opened ControlRun

  /** The reference: the log applied entry by entry, once. */
  ghost function Fold(p: Plane, self: string, log: seq<Entry>): (r: Plane)
  {
    if log == [] then p else Step(Fold(p, self, log[..|log| - 1]), self, log[|log| - 1]).0
  }

  /** Commit indices increase, from above what the first state has applied. */
  ghost predicate LogOk(init: Plane, log: seq<Entry>)
  {
    && (forall i :: 0 <= i < |log| ==> log[i].index > init.applied)
    && (forall i, j :: 0 <= i < j < |log| ==> log[i].index < log[j].index)
  }

  /** How a save ends: done; failed with the old file in place; failed with the new one in place. */
  datatype Save = Kept | LostBefore | LostAfter

  datatype Node = Node(
    self: string,
    mem: Plane,
    disk: Saved,
    seen: nat,                           // entries of the log offered since the start
    failed: bool)                        // latched: nothing more is applied until a restart

  datatype Event = Offer(save: Save) | Restart

  ghost predicate Enabled(n: Node, log: seq<Entry>, ev: Event)
  {
    match ev
    case Offer(_) => !n.failed && n.seen < |log|
    case Restart => true
  }

  /** The next entry is skipped if its index was applied before; otherwise it is applied and the
      state saved, or rolled back to the snapshot taken before. A restart loads the file and goes
      through the whole retained log again. */
  ghost function Next(n: Node, log: seq<Entry>, ev: Event): (r: Node)
    requires Enabled(n, log, ev)
  {
    match ev
    case Restart => Node(n.self, Restore(n.disk), n.disk, 0, false)
    case Offer(save) =>
      var e := log[n.seen];
      if e.index <= n.mem.applied then n.(seen := n.seen + 1)
      else
        var (q, outcome) := Step(n.mem, n.self, e);
        if outcome == Failed then n.(failed := true)
        else match save
          case Kept => n.(mem := q, disk := Snapshot(q), seen := n.seen + 1)
          case LostBefore => n.(mem := Restore(Snapshot(n.mem)), failed := true)
          case LostAfter => n.(mem := Restore(Snapshot(n.mem)), disk := Snapshot(q), failed := true)
  }

  ghost predicate IsRun(n: Node, log: seq<Entry>, evs: seq<Event>, m: Node)
  {
    if evs == [] then m == n
    else
      var before, last := evs[..|evs| - 1], evs[|evs| - 1];
      exists k :: IsRun(n, log, before, k) && Enabled(k, log, last) && m == Next(k, log, last)
  }

  ghost function Started(self: string, init: Plane): (n: Node)
  {
    Node(self, init, Snapshot(init), 0, false)
  }

  // ---------- the invariant ----------

  /** Memory has applied i entries of the log and the file holds j of them. */
  ghost predicate At(n: Node, init: Plane, log: seq<Entry>, i: nat, j: nat)
  {
    && i <= j <= |log| && j <= i + 1 && (!n.failed ==> i == j) && n.seen <= i
    && n.mem == Fold(init, n.self, log[..i]) && n.disk == Snapshot(Fold(init, n.self, log[..j]))
  }

  lemma {:induction false} FoldKeepsOk(init: Plane, self: string, log: seq<Entry>)
    requires PlaneOk(init)
    ensures PlaneOk(Fold(init, self, log))
  {
    if log != [] {
      FoldKeepsOk(init, self, log[..|log| - 1]);
      StepKeepsOk(Fold(init, self, log[..|log| - 1]), self, log[|log| - 1]);
    }
  }

  lemma FoldOne(init: Plane, self: string, log: seq<Entry>, i: nat)
    requires i < |log|
    ensures Fold(init, self, log[..i + 1]) == Step(Fold(init, self, log[..i]), self, log[i]).0
  {
    assert log[..i + 1][..i] == log[..i];
  }

  ghost predicate NoneFails(init: Plane, self: string, log: seq<Entry>)
  {
    forall i :: 0 <= i < |log| ==> Step(Fold(init, self, log[..i]), self, log[i]).1 != Failed
  }

  /** The applied index is that of the last entry, while no entry fails. */
  lemma {:induction false} FoldApplied(init: Plane, self: string, log: seq<Entry>, i: nat)
    requires LogOk(init, log) && i <= |log| && NoneFails(init, self, log[..i])
    ensures Fold(init, self, log[..i]).applied == if i == 0 then init.applied else log[i - 1].index
  {
    hide Step;
    if i > 0 {
      FoldOne(init, self, log, i - 1);
      FailsPrefix(init, self, log, i - 1, i);
      FoldApplied(init, self, log, i - 1);
      RejectedMovesOnlyIndex(Fold(init, self, log[..i - 1]), self, log[i - 1]);
      assert log[..i][i - 1] == log[i - 1] && log[..i][..i - 1] == log[..i - 1];
    }
  }

  lemma FailsPrefix(init: Plane, self: string, log: seq<Entry>, i: nat, j: nat)
    requires i <= j <= |log| && NoneFails(init, self, log[..j])
    ensures NoneFails(init, self, log[..i])
  {
    hide Step, Fold;
    forall k | 0 <= k < i ensures Step(Fold(init, self, log[..i][..k]), self, log[..i][k]).1 != Failed {
      assert log[..i][..k] == log[..j][..k] && log[..i][k] == log[..j][k];
    }
  }

  lemma FailsNext(init: Plane, self: string, log: seq<Entry>, i: nat)
    requires i < |log| && NoneFails(init, self, log[..i]) && Step(Fold(init, self, log[..i]), self, log[i]).1 != Failed
    ensures NoneFails(init, self, log[..i + 1])
  {
    hide Step, Fold;
    var upto := log[..i + 1];
    forall k | 0 <= k < |upto| ensures Step(Fold(init, self, upto[..k]), self, upto[k]).1 != Failed {
      assert upto[..k] == log[..k] && upto[k] == log[k];
      if k < i { assert log[..i][..k] == log[..k] && log[..i][k] == log[k]; }
    }
  }

  ghost predicate Good(n: Node, init: Plane, log: seq<Entry>, i: nat, j: nat)
  {
    At(n, init, log, i, j) && NoneFails(init, n.self, log[..j])
  }

  /** Every event keeps memory and file on the fold of the log. */
  lemma EventKeepsGood(n: Node, init: Plane, log: seq<Entry>, ev: Event, i: nat, j: nat) returns (i': nat, j': nat)
    requires PlaneOk(init) && LogOk(init, log) && Good(n, init, log, i, j) && Enabled(n, log, ev)
    ensures Good(Next(n, log, ev), init, log, i', j')
  {
    hide Step, Fold, Snapshot, Restore, PlaneOk, NoneFails;
    FoldKeepsOk(init, n.self, log[..i]);
    FoldKeepsOk(init, n.self, log[..j]);
    SavedReturns(Fold(init, n.self, log[..i]));
    SavedReturns(Fold(init, n.self, log[..j]));
    match ev
    case Restart => return j, j;
    case Offer(save) =>
      var e := log[n.seen];
      FoldApplied(init, n.self, log, i);
      if n.seen < i { return i, j; }
      FoldOne(init, n.self, log, i);
      if Step(n.mem, n.self, e).1 == Failed { return i, j; }
      FailsNext(init, n.self, log, i);
      match save
      case Kept => return i + 1, i + 1;
      case LostBefore => return i, i;
      case LostAfter => return i, i + 1;
  }

  lemma {:induction false} RunKeepsGood(self: string, init: Plane, log: seq<Entry>, evs: seq<Event>, m: Node)
      returns (i: nat, j: nat)
    requires PlaneOk(init) && LogOk(init, log) && IsRun(Started(self, init), log, evs, m)
    ensures m.self == self && Good(m, init, log, i, j)
    decreases |evs|
  {
    hide Step, Snapshot, Restore, PlaneOk, Enabled, Next, LogOk;
    if evs == [] {
      assert log[..0] == [];
      return 0, 0;
    }
    var before, last := evs[..|evs| - 1], evs[|evs| - 1];
    var k :| IsRun(Started(self, init), log, before, k) && Enabled(k, log, last) && m == Next(k, log, last);
    i, j := RunKeepsGood(self, init, log, before, k);
    i, j := EventKeepsGood(k, init, log, last, i, j);
    SameSelf(k, log, last);
  }

  lemma SameSelf(n: Node, log: seq<Entry>, ev: Event)
    requires Enabled(n, log, ev)
    ensures Next(n, log, ev).self == n.self
  {
    hide Step, Snapshot, Restore;
  }

  // ---------- theorems ----------

  /** At every point of every run the file can be loaded, and memory is the fold of a prefix of
      the log. A node that has gone through the whole log without failing is its whole fold:
      every entry took effect once. */
  lemma EveryRunFoldsTheLog(self: string, init: Plane, log: seq<Entry>, evs: seq<Event>, m: Node)
    requires PlaneOk(init) && LogOk(init, log) && IsRun(Started(self, init), log, evs, m)
    ensures Validates(m.disk)
    ensures exists i: nat :: i <= |log| && m.mem == Fold(init, self, log[..i])
    ensures !m.failed && m.seen == |log| ==> m.mem == Fold(init, self, log) && Restore(m.disk) == m.mem
  {
    hide Step, Fold, Snapshot, Restore, PlaneOk, IsRun, NoneFails, Validates;
    var i, j := RunKeepsGood(self, init, log, evs, m);
    FoldKeepsOk(init, self, log[..j]);
    SavedReturns(Fold(init, self, log[..j]));
    assert log[..|log|] == log;
  }

  lemma {:induction false} FoldIsShared(p: Plane, q: Plane, a: string, b: string, log: seq<Entry>)
    requires Shared(p) == Shared(q)
    ensures Shared(Fold(p, a, log)) == Shared(Fold(q, b, log))
  {
    hide Step, Shared;
    if log != [] {
      FoldIsShared(p, q, a, b, log[..|log| - 1]);
      StepIsShared(Fold(p, a, log[..|log| - 1]), Fold(q, b, log[..|log| - 1]), a, b, log[|log| - 1]);
    }
  }

  /** Two nodes that started from the same layout and went through the same log agree on shards,
      order, revision, operation window and applied index, whatever crashes each of them had. */
  lemma ReplicasAgree(a: string, b: string, p: Plane, q: Plane, log: seq<Entry>, evsA: seq<Event>, evsB: seq<Event>,
                      m: Node, n: Node)
    requires PlaneOk(p) && PlaneOk(q) && Shared(p) == Shared(q) && LogOk(p, log)
    requires IsRun(Started(a, p), log, evsA, m) && IsRun(Started(b, q), log, evsB, n)
    requires !m.failed && m.seen == |log| && !n.failed && n.seen == |log|
    ensures Shared(m.mem) == Shared(n.mem)
  {
    hide Step, Fold, Snapshot, Restore, PlaneOk, IsRun, Started, Validates;
    assert LogOk(q, log) by { assert p.applied == q.applied; }
    EveryRunFoldsTheLog(a, p, log, evsA, m);
    EveryRunFoldsTheLog(b, q, log, evsB, n);
    FoldIsShared(p, q, a, b, log);
  }
}
