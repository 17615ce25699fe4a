/** Applying the committed log: one ordered cursor over data and control entries, fail-stop, and
    the restart that applies what is missing. */
module CommittedApply {
  /** A committed entry. A data entry carries its sequence number. */
  datatype Item = Data(index: nat, seqno: nat) | Control(index: nat) | Malformed(index: nat)

  /** How applying an entry ends: only control entries are refused for good; an error stops everything. */
  datatype Effect = Ok | Refused | Error

  datatype State = State(
    log: seq<Item>,
    data: seq<Item>,                     // data entries that took effect, in order
    control: seq<Item>,                  // control entries that took effect or were refused, in order
    cursor: nat,
    failed: bool,
    stopped: bool,
    refused: set<nat>,                   // refusals this process remembers
    rejected: set<nat>,                  // every index whose last application was refused
    since: nat,                          // the cursor this process started with
    up: bool)                            // false after a recovery that failed: the store did not open

  // ---------- the log ----------

  ghost predicate LogOk(log: seq<Item>)
  {
    && (forall i :: 0 <= i < |log| ==> log[i].index > 0 && !log[i].Malformed?)
    && (forall i, j :: 0 <= i < j < |log| ==> log[i].index < log[j].index)
    && (forall i, j :: 0 <= i < j < |log| && log[i].Data? && log[j].Data? ==> log[i].seqno < log[j].seqno)
    && (forall i :: 0 <= i < |log| && log[i].Data? ==> log[i].seqno > 0)
  }

  /** The data entries of a log, or its control entries. */
  function Of(log: seq<Item>, data: bool): (r: seq<Item>)
  {
    if log == [] then [] else Of(log[..|log| - 1], data) + (if Kind(log[|log| - 1], data) then [log[|log| - 1]] else [])
  }

  predicate Kind(item: Item, data: bool)
  {
    if data then item.Data? else item.Control?
  }

  function DataOf(log: seq<Item>): (r: seq<Item>)
  {
    Of(log, true)
  }

  function ControlOf(log: seq<Item>): (r: seq<Item>)
  {
    Of(log, false)
  }

  /** The index of the last of the first n entries. */
  function IndexAt(log: seq<Item>, n: nat): (i: nat)
    requires n <= |log|
  {
    if n == 0 then 0 else log[n - 1].index
  }

  /** The entries above an index. */
  function After(log: seq<Item>, cursor: nat): (r: seq<Item>)
  {
    if log == [] then [] else if log[0].index > cursor then log else After(log[1..], cursor)
  }

  lemma {:induction false} AfterIs(log: seq<Item>, n: nat)
    requires LogOk(log) && n <= |log|
    ensures After(log, IndexAt(log, n)) == log[n..]
  {
    if n > 0 {
      var rest := log[1..];
      assert LogOk(rest);
      AfterIs(rest, n - 1);
      assert rest[n - 1..] == log[n..];
      if n == 1 {
        if rest != [] { assert rest[0] == log[1]; }
        AfterLow(rest, log[0].index);
      } else {
        assert IndexAt(rest, n - 1) == IndexAt(log, n);
      }
    }
  }

  lemma AfterLow(log: seq<Item>, cursor: nat)
    requires log != [] ==> log[0].index > cursor
    ensures After(log, cursor) == log
  {
  }

  // ---------- one drain ----------

  /** What applying one entry does. */
  function Apply(s: State, item: Item, e: Effect): (r: State)
  {
    if Fails(item, e) then s.(failed := true)
    else if item.Data? then s.(data := s.data + [item], cursor := item.index)
    else
      var more := if e == Refused then {item.index} else {};
      s.(control := s.control + [item], cursor := item.index, refused := s.refused + more,
        rejected := s.rejected + more)
  }

  /** An entry whose application stops everything. */
  predicate Fails(item: Item, e: Effect)
  {
    item.Malformed? || e == Error || (item.Data? && e == Refused)
  }

  /** Entries in order, until the first failure. */
  function ApplyAll(s: State, items: seq<Item>, effects: seq<Effect>): (r: State)
    requires |effects| == |items|
  {
    if items == [] then s
    else
      var n := |items| - 1;
      var t := ApplyAll(s, items[..n], effects[..n]);
      if t.failed then t else Apply(t, items[n], effects[n])
  }

  predicate Closed(s: State)
  {
    !s.up || s.stopped || s.failed
  }

  ghost function Drained(s: State, effects: seq<Effect>): (r: State)
    requires |effects| == |After(s.log, s.cursor)|
  {
    if Closed(s) then s else ApplyAll(s, After(s.log, s.cursor), effects)
  }

  /** Whether a caller waiting for an index is told that it succeeded. */
  ghost predicate Succeeds(s: State, effects: seq<Effect>, target: nat)
    requires |effects| == |After(s.log, s.cursor)|
  {
    var t := Drained(s, effects);
    !Closed(s) && !t.failed && target <= t.cursor && target !in t.refused
  }

  // ---------- the invariant ----------

  /** The process remembers the refusals since it started, and those only. */
  ghost predicate Remembers(s: State)
  {
    && s.since <= s.cursor
    && s.refused == (set i | i in s.rejected && i > s.since)
    && (forall i :: i in s.rejected ==> i <= s.cursor)
  }

  /** What took effect is the log up to the cursor. */
  ghost predicate Upto(s: State, n: nat)
  {
    && LogOk(s.log) && n <= |s.log| && s.cursor == IndexAt(s.log, n)
    && s.data == DataOf(s.log[..n]) && s.control == ControlOf(s.log[..n])
    && Remembers(s) && s.up
  }

  lemma ApplyKeeps(s: State, n: nat, e: Effect)
    requires Upto(s, n) && n < |s.log|
    ensures var t := Apply(s, s.log[n], e); if Fails(s.log[n], e) then Upto(t, n) else Upto(t, n + 1)
    ensures var t := Apply(s, s.log[n], e); t.log == s.log && t.stopped == s.stopped && t.since == s.since
  {
    assert s.log[..n + 1][..n] == s.log[..n] && s.log[..n + 1][n] == s.log[n];
    if n > 0 { assert s.log[n - 1].index < s.log[n].index; }
  }

  lemma {:induction false} ApplyAllKeeps(s: State, n: nat, items: seq<Item>, effects: seq<Effect>) returns (m: nat)
    requires Upto(s, n) && !s.failed && |effects| == |items| && items <= s.log[n..]
    ensures var t := ApplyAll(s, items, effects);
            && t.log == s.log && t.stopped == s.stopped && t.since == s.since
            && n <= m <= n + |items| && Upto(t, m) && (!t.failed ==> m == n + |items|)
  {
    hide LogOk, Of, Remembers;
    if items == [] {
      m := n;
    } else {
      var k := |items| - 1;
      m := ApplyAllKeeps(s, n, items[..k], effects[..k]);
      var t := ApplyAll(s, items[..k], effects[..k]);
      if !t.failed {
        assert items[k] == s.log[n..][k] == s.log[n + k];
        ApplyKeeps(t, n + k, effects[k]);
        if !Fails(items[k], effects[k]) { m := n + k + 1; }
      }
    }
  }

  /** A drain applies the log in order from the cursor: all that is committed, or up to the entry that fails. */
  lemma DrainKeeps(s: State, n: nat, effects: seq<Effect>) returns (m: nat)
    requires Upto(s, n) && |effects| == |After(s.log, s.cursor)|
    ensures var t := Drained(s, effects);
            && t.log == s.log && t.since == s.since && t.stopped == s.stopped
            && n <= m && Upto(t, m) && (!Closed(t) ==> m == |s.log|)
            && (Closed(s) ==> t == s)
  {
    hide ApplyAll;
    AfterIs(s.log, n);
    if Closed(s) { return n; }
    m := ApplyAllKeeps(s, n, s.log[n..], effects);
  }

  /** No entry fails. */
  ghost predicate Clean(items: seq<Item>, effects: seq<Effect>)
    requires |effects| == |items|
  {
    forall i :: 0 <= i < |items| ==> !Fails(items[i], effects[i])
  }

  /** The indices refused among some entries. */
  ghost function Refusals(items: seq<Item>, effects: seq<Effect>): (r: set<nat>)
    requires |effects| == |items|
  {
    set i | 0 <= i < |items| && effects[i] == Refused :: items[i].index
  }

  lemma {:induction false} ApplyAllOutcome(s: State, items: seq<Item>, effects: seq<Effect>)
    requires |effects| == |items| && !s.failed
    ensures var t := ApplyAll(s, items, effects);
            && (t.failed <==> !Clean(items, effects))
            && (!t.failed ==> t.rejected == s.rejected + Refusals(items, effects))
  {
    if items != [] {
      var n := |items| - 1;
      var before, was := items[..n], effects[..n];
      ApplyAllOutcome(s, before, was);
      assert forall i :: 0 <= i < n ==> items[i] == before[i] && effects[i] == was[i];
      if Clean(items, effects) {
        assert Clean(before, was);
        RefusalsOneMore(items, effects);
      } else if Clean(before, was) {
        assert Fails(items[n], effects[n]);
      }
    }
  }

  lemma RefusalsOneMore(items: seq<Item>, effects: seq<Effect>)
    requires |effects| == |items| > 0
    ensures var n := |items| - 1;
            Refusals(items, effects) == Refusals(items[..n], effects[..n]) + if effects[n] == Refused then
                {items[n].index} else {}
  {
    var n := |items| - 1;
    var before, was := items[..n], effects[..n];
    forall x | x in Refusals(items, effects)
      ensures x in Refusals(before, was) + if effects[n] == Refused then {items[n].index} else {}
    {
      var i :| 0 <= i < |items| && effects[i] == Refused && items[i].index == x;
      if i < n { assert before[i].index == x && was[i] == Refused; }
    }
    forall x | x in Refusals(before, was) ensures x in Refusals(items, effects) {
      var i :| 0 <= i < n && was[i] == Refused && before[i].index == x;
      assert items[i].index == x && effects[i] == Refused;
    }
  }

  /** Told of success, an entry of the log has taken effect. */
  lemma SuccessIsApplied(s: State, n: nat, effects: seq<Effect>, k: nat)
    requires Upto(s, n) && |effects| == |After(s.log, s.cursor)| && k < |s.log|
    requires Succeeds(s, effects, s.log[k].index)
    ensures var t := Drained(s, effects); s.log[k] in if s.log[k].Data? then t.data else t.control
  {
    var m := DrainKeeps(s, n, effects);
    assert s.log[..m] == s.log;
    MemberOf(s.log, s.log[k].Data?, k);
  }

  lemma SucceedsAt(s: State, n: nat, effects: seq<Effect>, k: nat)
    requires Upto(s, n) && |effects| == |After(s.log, s.cursor)| && k < |s.log|
    ensures var t, target := Drained(s, effects), s.log[k].index;
            && t.since == s.since
            && (Succeeds(s, effects, target) <==>
                  !Closed(s) && !t.failed && (target <= t.since || target !in t.rejected))
  {
    hide ApplyAll, Of, After, LogOk, Drained;
    var m := DrainKeeps(s, n, effects);
    NotMalformed(s.log, k);
  }

  lemma RejectedBy(s: State, n: nat, effects: seq<Effect>, k: nat)
    requires Upto(s, n) && |effects| == |s.log| - n && k < |s.log|
    ensures s.log[k].index in s.rejected + Refusals(s.log[n..], effects) <==>
              if k < n then s.log[k].index in s.rejected else effects[k - n] == Refused
  {
    hide Of;
    var items, target := s.log[n..], s.log[k].index;
    if k < n {
      assert forall i :: 0 <= i < |items| ==> items[i].index > target;
    } else {
      assert items[k - n].index == target;
      assert forall i :: 0 <= i < |items| && items[i].index == target ==> i == k - n;
    }
  }

  /** The caller waiting for an entry of the log is told of success exactly when the store is open, no entry
      fails and: an entry applied by this drain is not refused; an earlier one is not known to be refused
      or was applied before this process started. */
  lemma SuccessIff(s: State, n: nat, effects: seq<Effect>, k: nat)
    requires Upto(s, n) && |effects| == |After(s.log, s.cursor)| && k < |s.log|
    ensures After(s.log, s.cursor) == s.log[n..]
    ensures var target := s.log[k].index;
            Succeeds(s, effects, target) <==>
              && !Closed(s) && Clean(s.log[n..], effects)
              && if k < n then target <= s.since || target !in s.rejected else effects[k - n] != Refused
  {
    hide ApplyAll, Of, Clean, Refusals, Succeeds, LogOk;
    AfterIs(s.log, n);
    SucceedsAt(s, n, effects, k);
    if !Closed(s) {
      ApplyAllOutcome(s, s.log[n..], effects);
      RejectedBy(s, n, effects, k);
      BelowStart(s, n, k);
    }
  }

  lemma BelowStart(s: State, n: nat, k: nat)
    requires Upto(s, n) && k < |s.log|
    ensures k >= n ==> s.log[k].index > s.since
  {
    hide Of;
  }

  lemma {:induction false} MemberOf(log: seq<Item>, data: bool, k: nat)
    requires k < |log| && Kind(log[k], data)
    ensures log[k] in Of(log, data)
  {
    if k < |log| - 1 { MemberOf(log[..|log| - 1], data, k); }
  }

  // ---------- runs ----------

  datatype Event =
    | Commit(item: Item)
    | Drain(effects: seq<Effect>)
    | Quiesce
    // how many entries survived; what applying the others does
    | Restart(dataKept: nat, controlKept: nat, effects: seq<Effect>)

  ghost predicate Enabled(s: State, ev: Event)
  {
    match ev
    case Commit(item) => LogOk(s.log + [item])
    case Drain(effects) => |effects| == |After(s.log, s.cursor)|
    case Quiesce => true
    case Restart(a, b, effects) => a <= |DataOf(s.log)| && b <= |ControlOf(s.log)| && |effects| == |s.log|
  }

  /** What recovery compares: a data entry's sequence number, a control entry's index. */
  function Rank(item: Item): (r: nat)
  {
    if item.Data? then item.seqno else item.index
  }

  function LastRank(items: seq<Item>): (n: nat)
  {
    if items == [] then 0 else Rank(items[|items| - 1])
  }

  /** Recovery meets one entry of the log: it skips what survived and applies the rest. */
  function RecoverOne(s: State, item: Item, e: Effect): (r: State)
  {
    if item.Malformed? || Rank(item) <= LastRank(if item.Data? then s.data else s.control) then s
    else if Fails(item, e) then s.(failed := true)
    else if item.Data? then s.(data := s.data + [item])
    else s.(control := s.control + [item], rejected := s.rejected + if e == Refused then {item.index} else {})
  }

  function Recover(s: State, items: seq<Item>, effects: seq<Effect>): (r: State)
    requires |effects| == |items|
  {
    if items == [] then s
    else
      var n := |items| - 1;
      var t := Recover(s, items[..n], effects[..n]);
      if t.failed then t else RecoverOne(t, items[n], effects[n])
  }

  /** What a crash leaves: some data and control entries, and the outcome of those control entries. */
  function Survivor(s: State, dataKept: nat, controlKept: nat): (r: State)
    requires dataKept <= |DataOf(s.log)| && controlKept <= |ControlOf(s.log)|
  {
    var control := ControlOf(s.log)[..controlKept];
    var rejected := set i | i in s.rejected && i <= LastRank(control);
    State(s.log, DataOf(s.log)[..dataKept], control, 0, false, false, {}, rejected, 0, false)
  }

  /** The store opens with the cursor at the end of the log, or does not open when an entry fails. */
  function Restarted(s: State, dataKept: nat, controlKept: nat, effects: seq<Effect>): (r: State)
    requires dataKept <= |DataOf(s.log)| && controlKept <= |ControlOf(s.log)| && |effects| == |s.log|
  {
    var r, end := Recover(Survivor(s, dataKept, controlKept), s.log, effects), IndexAt(s.log, |s.log|);
    if r.failed then r else r.(cursor := end, since := end, up := true)
  }

  ghost function Next(s: State, ev: Event): (r: State)
    requires Enabled(s, ev)
  {
    match ev
    case Commit(item) => s.(log := s.log + [item])
    case Drain(effects) => Drained(s, effects)
    case Quiesce => s.(stopped := true)
    case Restart(a, b, effects) => Restarted(s, a, b, effects)
  }

  ghost predicate Increasing(items: seq<Item>)
  {
    && (forall i :: 0 <= i < |items| ==> Rank(items[i]) > 0)
    && (forall i, j :: 0 <= i < j < |items| ==> Rank(items[i]) < Rank(items[j]))
  }

  lemma {:induction false} OfIncreases(log: seq<Item>, data: bool)
    requires LogOk(log)
    ensures Increasing(Of(log, data))
            && forall i :: 0 <= i < |Of(log, data)| ==> Of(log, data)[i] in log && Kind(Of(log, data)[i], data)
  {
    if log != [] {
      var n := |log| - 1;
      assert LogOk(log[..n]);
      OfIncreases(log[..n], data);
      var d := Of(log[..n], data);
      forall i | 0 <= i < |d| && Kind(log[n], data) ensures Rank(d[i]) < Rank(log[n]) {
        var k :| 0 <= k < n && log[..n][k] == d[i];
        assert log[k] == d[i];
      }
    }
  }

  /** The entries of a kind up to a position are the first of them all; the next one is at that place. */
  lemma {:induction false} OfPrefix(log: seq<Item>, data: bool, k: nat)
    requires k <= |log|
    ensures Of(log[..k], data) <= Of(log, data)
    ensures k < |log| && Kind(log[k], data) ==>
              |Of(log[..k], data)| < |Of(log, data)| && Of(log, data)[|Of(log[..k], data)|] == log[k]
    decreases |log|
  {
    if k == |log| {
      assert log[..k] == log;
    } else {
      var before := log[..|log| - 1];
      assert before[..k] == log[..k];
      OfPrefix(before, data, k);
    }
  }

  /** Of entries in order, one is above the last kept one exactly when it is not kept. */
  lemma AboveKept(items: seq<Item>, kept: nat, m: nat)
    requires Increasing(items) && kept <= |items| && m < |items|
    ensures Rank(items[m]) <= LastRank(items[..kept]) <==> m < kept
  {
  }

  function Max(a: nat, b: nat): (m: nat)
  {
    if a >= b then a else b
  }

  /** How far recovery has come: the survivors, then the entries met so far. */
  ghost predicate Recovering(r: State, log: seq<Item>, a: nat, b: nat, k: nat)
    requires k <= |log|
  {
    var m, n := Max(a, |DataOf(log[..k])|), Max(b, |ControlOf(log[..k])|);
    && m <= |DataOf(log)| && r.data == DataOf(log)[..m]
    && n <= |ControlOf(log)| && r.control == ControlOf(log)[..n]
    && r.log == log && !r.stopped && r.refused == {} && !r.up
    && (forall i :: i in r.rejected ==> i <= IndexAt(log, |log|))
  }

  /** Meeting one more entry: it survived, or it goes after all the others of its kind. */
  lemma MeetsOne(log: seq<Item>, data: bool, kept: nat, k: nat)
    requires LogOk(log) && k < |log| && kept <= |Of(log, data)|
    ensures var m, n := Max(kept, |Of(log[..k], data)|), Max(kept, |Of(log[..k + 1], data)|);
            && m <= |Of(log, data)| && n <= |Of(log, data)|
            && (!Kind(log[k], data) ==> n == m)
            && (Kind(log[k], data) ==>
                  if Rank(log[k]) <= LastRank(Of(log, data)[..m]) then n == m
                  else Of(log, data)[..n] == Of(log, data)[..m] + [log[k]])
  {
    hide LogOk, Of, Increasing;
    var items, met := Of(log, data), |Of(log[..k], data)|;
    OfIncreases(log, data);
    OfPrefix(log, data, k);
    OneMore(log, data, k);
    if Kind(log[k], data) {
      AboveKept(items, Max(kept, met), met);
      assert items[..met + 1] == items[..met] + [log[k]];
    }
  }

  lemma RecoverOneKeeps(r: State, log: seq<Item>, a: nat, b: nat, k: nat, e: Effect)
    requires LogOk(log) && k < |log| && Recovering(r, log, a, b, k) && !r.failed
    requires a <= |DataOf(log)| && b <= |ControlOf(log)|
    ensures var t := RecoverOne(r, log[k], e);
            if t.failed then t == r.(failed := true) else Recovering(t, log, a, b, k + 1)
  {
    hide LogOk, Of, Rank, LastRank, Max;
    NotMalformed(log, k);
    MeetsOne(log, true, a, k);
    MeetsOne(log, false, b, k);
  }

  lemma NotMalformed(log: seq<Item>, k: nat)
    requires LogOk(log) && k < |log|
    ensures !log[k].Malformed? && log[k].index <= IndexAt(log, |log|)
  {
  }

  lemma OneMore(log: seq<Item>, data: bool, k: nat)
    requires k < |log|
    ensures |Of(log[..k + 1], data)| == |Of(log[..k], data)| + if Kind(log[k], data) then 1 else 0
  {
    assert log[..k + 1][..k] == log[..k];
  }

  lemma {:induction false} RecoverKeeps(s: State, log: seq<Item>, a: nat, b: nat, k: nat, effects: seq<Effect>)
    requires LogOk(log) && k <= |log| == |effects| && a <= |DataOf(log)| && b <= |ControlOf(log)|
    requires Recovering(s, log, a, b, 0) && !s.failed
    ensures var r := Recover(s, log[..k], effects[..k]);
            if r.failed then exists j: nat :: j <= k && Recovering(r, log, a, b, j) else Recovering(r, log, a, b, k)
    decreases k
  {
    hide LogOk, Recovering, RecoverOne, Of;
    if k == 0 {
      assert log[..0] == [];
    } else {
      var j := k - 1;
      assert log[..k][..j] == log[..j] && effects[..k][..j] == effects[..j];
      RecoverKeeps(s, log, a, b, j, effects);
      var r := Recover(s, log[..j], effects[..j]);
      if !r.failed {
        RecoverOneKeeps(r, log, a, b, j, effects[j]);
        FailedRecovering(r, log, a, b, j);
      }
    }
  }

  lemma FailedRecovering(r: State, log: seq<Item>, a: nat, b: nat, k: nat)
    requires k <= |log| && Recovering(r, log, a, b, k)
    ensures Recovering(r.(failed := true), log, a, b, k)
  {
  }

  lemma SurvivorRecovers(s: State, a: nat, b: nat)
    requires LogOk(s.log) && a <= |DataOf(s.log)| && b <= |ControlOf(s.log)|
    ensures Recovering(Survivor(s, a, b), s.log, a, b, 0)
  {
    hide LogOk, Increasing;
    OfIncreases(s.log, false);
    var items := ControlOf(s.log);
    if b > 0 {
      var k :| 0 <= k < |s.log| && s.log[k] == items[b - 1];
      NotMalformed(s.log, k);
    }
    assert s.log[..0] == [];
  }

  /** A restart meets every entry of the log. It opens with all of it in effect, each entry once and in
      order, whatever had survived; or it does not open, with the first data and the first control entries. */
  lemma RestartCompletes(s: State, a: nat, b: nat, effects: seq<Effect>)
    requires LogOk(s.log) && Enabled(s, Restart(a, b, effects))
    ensures var t := Restarted(s, a, b, effects);
            && t.log == s.log && t.up == !t.failed && t.data <= DataOf(s.log) && t.control <= ControlOf(s.log)
            && (t.up ==> t.data == DataOf(s.log) && t.control == ControlOf(s.log) && !Closed(t) && t.refused == {}
                         && Upto(t, |s.log|))
  {
    hide LogOk, Of;
    SurvivorRecovers(s, a, b);
    RecoverKeeps(Survivor(s, a, b), s.log, a, b, |s.log|, effects);
    assert s.log[..|s.log|] == s.log && effects[..|s.log|] == effects;
    var t := Restarted(s, a, b, effects);
    if t.up {
      assert t.data == DataOf(s.log) && t.control == ControlOf(s.log);
    }
  }

  /** An open store has applied the log up to its cursor; one that did not open, the first entries of each kind. */
  ghost predicate Inv(s: State)
  {
    && LogOk(s.log) && s.data <= DataOf(s.log) && s.control <= ControlOf(s.log)
    && (s.up ==> exists n :: Upto(s, n))
  }

  lemma UptoIsInv(s: State, n: nat)
    requires Upto(s, n)
    ensures Inv(s)
  {
    OfPrefix(s.log, true, n);
    OfPrefix(s.log, false, n);
  }

  lemma EventKeeps(s: State, ev: Event)
    requires Inv(s) && Enabled(s, ev)
    ensures Inv(Next(s, ev))
    ensures s.log <= Next(s, ev).log && (!ev.Restart? ==> Next(s, ev).since == s.since)
  {
    hide LogOk, ApplyAll, Of, Restarted;
    match ev
    case Commit(item) =>
      OfPrefix(s.log + [item], true, |s.log|);
      OfPrefix(s.log + [item], false, |s.log|);
      assert (s.log + [item])[..|s.log|] == s.log;
      if s.up {
        var n :| Upto(s, n);
        CommitKeeps(s, n, item);
      }
    case Drain(effects) =>
      if !Closed(s) {
        var n :| Upto(s, n);
        var m := DrainKeeps(s, n, effects);
        UptoIsInv(Drained(s, effects), m);
      }
    case Quiesce =>
      if s.up {
        var n :| Upto(s, n);
        assert Upto(s.(stopped := true), n);
      }
    case Restart(a, b, effects) => RestartCompletes(s, a, b, effects);
  }

  lemma CommitKeeps(s: State, n: nat, item: Item)
    requires Upto(s, n) && LogOk(s.log + [item])
    ensures Upto(s.(log := s.log + [item]), n)
  {
    assert (s.log + [item])[..n] == s.log[..n];
  }

  ghost predicate IsRun(s: State, evs: seq<Event>, t: State)
  {
    if evs == [] then t == s
    else
      var before, last := evs[..|evs| - 1], evs[|evs| - 1];
      exists u :: IsRun(s, before, u) && Enabled(u, last) && t == Next(u, last)
  }

  const START := State([], [], [], 0, false, false, {}, {}, 0, true)

  lemma {:induction false} EveryRunInv(s: State, evs: seq<Event>, t: State)
    requires Inv(s) && IsRun(s, evs, t)
    ensures Inv(t) && s.log <= t.log && ((forall i :: 0 <= i < |evs| ==> !evs[i].Restart?) ==> t.since == s.since)
    decreases |evs|
  {
    hide Next, Enabled, Inv;
    if evs != [] {
      var before, last := evs[..|evs| - 1], evs[|evs| - 1];
      var u :| IsRun(s, before, u) && Enabled(u, last) && t == Next(u, last);
      EveryRunInv(s, before, u);
      EventKeeps(u, last);
      assert (forall i :: 0 <= i < |evs| ==> !evs[i].Restart?) ==> !evs[|evs| - 1].Restart?;
    }
  }

  /** In every run, what took effect in an open store is precisely the log up to the cursor: in order, each
      entry once. A store that did not open holds the first data entries and the first control entries. */
  lemma EveryRunAppliesAPrefix(evs: seq<Event>, t: State) returns (n: nat)
    requires IsRun(START, evs, t)
    ensures t.data <= DataOf(t.log) && t.control <= ControlOf(t.log)
    ensures t.up ==> n <= |t.log| && t.cursor == IndexAt(t.log, n) && Upto(t, n)
                     && t.data == DataOf(t.log[..n]) && t.control == ControlOf(t.log[..n])
  {
    StartInv();
    EveryRunInv(START, evs, t);
    if t.up { n :| Upto(t, n); } else { n := 0; }
  }

  /** After a failure or a stop, nothing but a restart changes what took effect, however long the run goes on. */
  lemma {:induction false} FailStop(s: State, evs: seq<Event>, t: State)
    requires Closed(s) && IsRun(s, evs, t) && forall i :: 0 <= i < |evs| ==> !evs[i].Restart?
    ensures t.data == s.data && t.control == s.control && t.cursor == s.cursor && t.refused == s.refused && Closed(t)
    decreases |evs|
  {
    if evs != [] {
      var before, last := evs[..|evs| - 1], evs[|evs| - 1];
      var u :| IsRun(s, before, u) && Enabled(u, last) && t == Next(u, last);
      FailStop(s, before, u);
    }
  }

  lemma StartInv()
    ensures Inv(START)
  {
    assert Upto(START, 0);
    UptoIsInv(START, 0);
  }

  /** In every run, for every entry of the log: success is told exactly when the store is open, the drain does
      not fail, and the entry was not rejected or was applied before this process started. */
  lemma EveryRunSucceedsIff(evs: seq<Event>, s: State, effects: seq<Effect>, k: nat)
    requires IsRun(START, evs, s) && |effects| == |After(s.log, s.cursor)| && k < |s.log|
    ensures var t, target := Drained(s, effects), s.log[k].index;
            Succeeds(s, effects, target) <==>
              !Closed(s) && !t.failed && (target <= t.since || target !in t.rejected)
  {
    var n := EveryRunAppliesAPrefix(evs, s);
    if s.up { SucceedsAt(s, n, effects, k); }
  }

  /** The caller that asks for an entry committed since the start, as every caller does, is told the truth. */
  lemma ProposerIsTold(before: seq<Event>, s: State, item: Item, later: seq<Event>, t: State, effects: seq<Effect>)
    requires IsRun(START, before, s) && s.up && Enabled(s, Commit(item))
    requires IsRun(Next(s, Commit(item)), later, t) && forall i :: 0 <= i < |later| ==> !later[i].Restart?
    requires |effects| == |After(t.log, t.cursor)|
    ensures var u := Drained(t, effects);
            item in t.log
              && (Succeeds(t, effects, item.index) <==> !Closed(t) && !u.failed && item.index !in u.rejected)
  {
    hide ApplyAll, Of, Upto;
    var n := EveryRunAppliesAPrefix(before, s);
    AboveStart(s, n, item);
    StartInv();
    EveryRunInv(START, before, s);
    EventKeeps(s, Commit(item));
    EveryRunInv(Next(s, Commit(item)), later, t);
    var k := |s.log|;
    assert t.log[k] == (s.log + [item])[k] == item;
    if t.up {
      var m :| Upto(t, m);
      SucceedsAt(t, m, effects, k);
    }
  }

  lemma AboveStart(s: State, n: nat, item: Item)
    requires Upto(s, n) && LogOk(s.log + [item])
    ensures item.index > s.since
  {
    assert (s.log + [item])[|s.log|] == item;
    if n > 0 { assert (s.log + [item])[n - 1] == s.log[n - 1]; }
  }

  const REFUSED := State([Control(1)], [], [Control(1)], 1, false, false, {1}, {1}, 0, true)

  const REOPENED := State([Control(1)], [], [Control(1)], 1, false, false, {}, {1}, 1, true)

  const LOGGED := State([Control(1)], [], [], 0, false, false, {}, {}, 0, true)

  lemma RunOne(s: State, before: seq<Event>, u: State, ev: Event, t: State)
    requires IsRun(s, before, u) && Enabled(u, ev) && t == Next(u, ev)
    ensures IsRun(s, before + [ev], t)
  {
    assert (before + [ev])[..|before|] == before;
  }

  lemma RefusalIsLogged()
    ensures Enabled(START, Commit(Control(1))) && Next(START, Commit(Control(1))) == LOGGED
  {
    assert [] + [Control(1)] == [Control(1)];
  }

  lemma RefusalIsApplied()
    ensures Enabled(LOGGED, Drain([Refused])) && Next(LOGGED, Drain([Refused])) == REFUSED
    ensures After(REFUSED.log, 1) == [] && !Succeeds(REFUSED, [], 1)
    ensures After(REOPENED.log, 1) == [] && Succeeds(REOPENED, [], 1)
  {
    hide After, ApplyAll;
    OneLeft();
    OneApplied();
    NoneApplied(REFUSED);
    NoneApplied(REOPENED);
  }

  lemma OneLeft()
    ensures After([Control(1)], 0) == [Control(1)] && After([Control(1)], 1) == []
  {
    assert [Control(1)][1..] == [];
  }

  lemma OneApplied()
    ensures ApplyAll(LOGGED, [Control(1)], [Refused]) == REFUSED
  {
    assert [Control(1)][..0] == [] && [Refused][..0] == [];
    NoneApplied(LOGGED);
  }

  lemma NoneApplied(s: State)
    ensures ApplyAll(s, [], []) == s
  {
  }

  lemma RefusalSurvives()
    ensures Enabled(REFUSED, Restart(0, 1, [Ok])) && Next(REFUSED, Restart(0, 1, [Ok])) == REOPENED
  {
    var log := REFUSED.log;
    assert log[..0] == [] && [Ok][..0] == [] && log[..1] == log;
    assert Of(log, true) == [] && Of(log, false) == log;
    var s := Survivor(REFUSED, 0, 1);
    assert s.rejected == {1};
    assert Recover(s, log, [Ok]) == s;
  }

  /** A refused control entry: its caller is told, and after a restart one that asked again would not be. */
  lemma RestartForgetsRefusals()
    ensures IsRun(START, [Commit(Control(1)), Drain([Refused])], REFUSED) && !Succeeds(REFUSED, [], 1)
    ensures IsRun(START, [Commit(Control(1)), Drain([Refused]), Restart(0, 1, [Ok])], REOPENED)
    ensures 1 in REOPENED.rejected && Succeeds(REOPENED, [], 1)
  {
    hide IsRun, Restarted, Of, Next, Enabled;
    RefusalIsLogged();
    RefusalIsApplied();
    RefusalSurvives();
    var one, two, three := Commit(Control(1)), Drain([Refused]), Restart(0, 1, [Ok]);
    assert [] + [one] == [one] && [one] + [two] == [one, two] && [one, two] + [three] == [one, two, three];
    assert IsRun(START, [], START) by { NoEvents(START); }
    RunOne(START, [], START, one, LOGGED);
    RunOne(START, [one], LOGGED, two, REFUSED);
    RunOne(START, [one, two], REFUSED, three, REOPENED);
  }

  lemma NoEvents(s: State)
    ensures IsRun(s, [], s)
  {
  }

  // ---------- the drain loop ----------

  /** What the applier keeps between calls. */
  class Applier {
    var cursor: nat
    var failure: bool
    var stopped: bool
    var results: set<nat>
    ghost var data: seq<Item>
    ghost var control: seq<Item>
    ghost var rejected: set<nat>
    ghost const since: nat

    ghost function At(log: seq<Item>): (s: State)
      reads this
    {
      State(log, data, control, cursor, failure, stopped, results, rejected, since, true)
    }

    /** Starts after a recovery that did not fail, which has applied all of the log. */
    constructor (log: seq<Item>, ghost s: State, ghost dataKept: nat, ghost controlKept: nat,
                 ghost effects: seq<Effect>)
      requires s.log == log && LogOk(log) && Enabled(s, Restart(dataKept, controlKept, effects))
      requires Restarted(s, dataKept, controlKept, effects).up
      ensures At(log) == Next(s, Restart(dataKept, controlKept, effects))
    {
      ghost var t := Restarted(s, dataKept, controlKept, effects);
      RestartCompletes(s, dataKept, controlKept, effects);
      failure, stopped, results := false, false, {};
      data, control, rejected, since := t.data, t.control, t.rejected, t.since;
      var last := 0;
      for i := 0 to |log|
        invariant last == IndexAt(log, i)
      {
        last := log[i].index;
      }
      cursor := last;
    }

    /** Applies everything committed after the cursor; true tells the caller its entry succeeded. */
    method Drain(log: seq<Item>, target: nat, effects: seq<Effect>) returns (ok: bool)
      requires |effects| == |After(log, cursor)|
      modifies this
      ensures At(log) == old(Drained(At(log), effects))
      ensures ok == old(Succeeds(At(log), effects, target))
    {
      hide After;
      if stopped { return false; }
      if failure { return false; }
      var items := After(log, cursor);
      for i := 0 to |items|
        invariant !failure && !stopped && At(log) == ApplyAll(old(At(log)), items[..i], effects[..i])
      {
        var item, e := items[i], effects[i];
        assert items[..i + 1][..i] == items[..i] && effects[..i + 1][..i] == effects[..i];
        ghost var was := At(log);
        if Fails(item, e) {
          failure := true;
          assert At(log) == ApplyAll(old(At(log)), items[..i + 1], effects[..i + 1]);
          StaysFailed(old(At(log)), items, effects, i + 1);
          return false;
        }
        if item.Data? { data := data + [item]; } else { control := control + [item]; }
        if e == Refused { results, rejected := results + {item.index}, rejected + {item.index}; }
        cursor := item.index;
      }
      assert items[..|items|] == items && effects[..|effects|] == effects;
      if target > cursor { return false; }
      return target !in results;
    }

    method Quiesce()
      modifies `stopped
      ensures stopped
    {
      stopped := true;
    }
  }

  lemma {:induction false} StaysFailed(s: State, items: seq<Item>, effects: seq<Effect>, k: nat)
    requires |effects| == |items| && k <= |items| && ApplyAll(s, items[..k], effects[..k]).failed
    ensures ApplyAll(s, items, effects) == ApplyAll(s, items[..k], effects[..k])
    decreases |items|
  {
    if k == |items| {
      assert items[..k] == items && effects[..k] == effects;
    } else {
      var n := |items| - 1;
      assert items[..n][..k] == items[..k] && effects[..n][..k] == effects[..k];
      StaysFailed(s, items[..n], effects[..n], k);
    }
  }
}
