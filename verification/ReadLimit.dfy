/** Reads through tables with blocks above the read limit: a handle answers "not found" where the pipeline
    reports an error, so a read goes on to older tables. */
module ReadLimit {
  import opened Bytes
  import opened Entries
  import opened Ordering
  import opened Envelope
  import opened TableFile
  import opened Tables
  import opened Memtable
  import opened EngineRun
  import EngineInv
  import EngineTheorems
  import R = Reader

  // ---------- a handle ----------

  /** An open table with its corruption policy. */
  class Handle {
    const codec: Codec
    const file: bytes
    const rd: R.Reader
    const dropTable: bool
    var dropped: bool
    ghost const table: Table
    ghost const layout: Layout

    constructor (c: Codec, file: bytes, rd: R.Reader, dropTable: bool, ghost t: Table, ghost l: Layout)
      ensures codec == c && this.file == file && this.rd == rd && this.dropTable == dropTable && table == t
              && layout == l
      ensures !dropped
    {
      codec, this.file, this.rd, this.dropTable, dropped, table, layout := c, file, rd, dropTable, false, t, l;
    }

    ghost predicate Ok()
    {
      R.Intact(codec, file, table.entries, layout) && R.ReaderOf(rd, layout)
    }

    /** Where the handle answers "not found" whatever the table holds. */
    ghost predicate Silent(key: bytes)
      reads this
    {
      dropped || R.HeldOver(codec, layout, rd.readBlockMaxBytes, key)
    }

    /** A read that turns every error into "not found"; under the drop policy, for good. */
    method GetView(key: bytes) returns (r: Option<Entry>)
      requires Ok()
      modifies this
      ensures r == if old(Silent(key)) then None else Find(table.entries, key)
      ensures old(dropped) ==> dropped
      ensures !dropTable || rd.readBlockMaxBytes <= 0 ==> dropped == old(dropped)
      ensures dropTable && R.HeldOver(codec, layout, rd.readBlockMaxBytes, key) ==> dropped
    {
      hide Find, R.Intact, R.ReaderOf, R.HeldOver;
      if dropped { return None; }
      var hit := R.StrictGet(codec, file, rd, key, table.entries, layout);
      match hit {
        case Corrupt =>
          if dropTable { dropped := true; }
          return None;
        case Absent => return None;
        case Found(e) => return Some(e);
      }
    }
  }

  // ---------- a list of tables ----------

  /** A read in which the tables of some paths are silent. */
  function LookupPast(ts: seq<Table>, silent: set<bytes>, key: bytes): (r: Option<Entry>)
  {
    if ts == [] then None
    else if ts[0].meta.path in silent then LookupPast(ts[1..], silent, key)
    else match Find(ts[0].entries, key)
      case Some(e) => Some(e)
      case None => LookupPast(ts[1..], silent, key)
  }

  ghost predicate HandlesOf(hs: seq<Handle>, ts: seq<Table>)
  {
    && |hs| == |ts| && (forall i :: 0 <= i < |hs| ==> hs[i].table == ts[i] && hs[i].Ok())
    && (forall i, j :: 0 <= i < j < |hs| ==> hs[i] != hs[j] && ts[i].meta.path != ts[j].meta.path)
  }

  ghost function SilentPaths(hs: seq<Handle>, key: bytes): (r: set<bytes>)
    reads hs
  {
    set i | 0 <= i < |hs| && hs[i].Silent(key) :: hs[i].table.meta.path
  }

  /** The loop over the tables of a read. */
  method GetFromTables(hs: seq<Handle>, key: bytes, ghost ts: seq<Table>) returns (r: Option<Entry>)
    requires HandlesOf(hs, ts)
    modifies hs
    ensures r == LookupPast(ts, old(SilentPaths(hs, key)), key)
  {
    hide Find, R.HeldOver, R.Intact, R.ReaderOf;
    ghost var silent := SilentPaths(hs, key);
    for i := 0 to |hs|
      invariant forall j :: i <= j < |hs| ==> hs[j].dropped == old(hs[j].dropped)
      invariant LookupPast(ts, silent, key) == LookupPast(ts[i..], silent, key)
    {
      assert ts[i..][0] == ts[i] && ts[i..][1..] == ts[i + 1..];
      assert ts[i].meta.path in silent <==> old(hs[i].Silent(key));
      var view := hs[i].GetView(key);
      if view.Some? { return view; }
    }
    return None;
  }

  /** The table that holds the newest version of the key is silent. */
  ghost predicate NewestIsSilent(ts: seq<Table>, silent: set<bytes>, key: bytes)
  {
    Lookup(ts, key).Some? && exists t :: t in ts && t.meta.path in silent && Lookup(ts, key).value in t.entries
  }

  function Speaking(ts: seq<Table>, silent: set<bytes>): (r: seq<Table>)
    ensures forall t :: t in r <==> t in ts && t.meta.path !in silent
  {
    if ts == [] then []
    else if ts[0].meta.path in silent then Speaking(ts[1..], silent)
    else [ts[0]] + Speaking(ts[1..], silent)
  }

  lemma {:induction false} PastIsSpeaking(ts: seq<Table>, silent: set<bytes>, key: bytes)
    ensures LookupPast(ts, silent, key) == Lookup(Speaking(ts, silent), key)
  {
    hide Find;
    if ts != [] {
      PastIsSpeaking(ts[1..], silent, key);
      if ts[0].meta.path !in silent {
        assert ([ts[0]] + Speaking(ts[1..], silent))[1..] == Speaking(ts[1..], silent);
      }
    }
  }

  lemma {:induction false} SpeakingSorted(ts: seq<Table>, silent: set<bytes>)
    requires SortedBy(ts, ReadBefore)
    ensures SortedBy(Speaking(ts, silent), ReadBefore)
  {
    hide ReadBefore;
    if ts != [] {
      var rest := Speaking(ts[1..], silent);
      SpeakingSorted(ts[1..], silent);
      forall j | 0 <= j < |rest| ensures !ReadBefore(rest[j], ts[0]) {
        var k :| 0 <= k < |ts[1..]| && ts[1..][k] == rest[j];
        assert ts[k + 1] == rest[j];
      }
    }
  }

  lemma NoneHolds(ts: seq<Table>, key: bytes)
    requires forall e :: !IsVersion(ts, key, e)
    ensures forall t :: t in ts ==> !Holds(t, key)
  {
    forall t | t in ts ensures !Holds(t, key) {
      if Holds(t, key) {
        var i :| 0 <= i < |t.entries| && t.entries[i].key == key;
        assert IsVersion(ts, key, t.entries[i]);
      }
    }
  }

  lemma SilentNewest(ts: seq<Table>, silent: set<bytes>, key: bytes, t: Table)
    requires Layered(ts) && SortedBy(ts, ReadBefore) && Lookup(ts, key).Some?
    requires t in ts && t.meta.path in silent && Lookup(ts, key).value in t.entries
    ensures !IsVersion(Speaking(ts, silent), key, Lookup(ts, key).value)
  {
    hide Find, Lookup;
    var few, e := Speaking(ts, silent), Lookup(ts, key).value;
    FirstHitIsNewest(ts, key);
    if IsVersion(few, key, e) {
      var u := VersionIsHeld(few, key, e);
      SharedKeyOrders(t, u, e, e);
      assert false;
    }
  }

  lemma SpeakingLayered(ts: seq<Table>, silent: set<bytes>)
    requires Layered(ts)
    ensures Layered(Speaking(ts, silent))
  {
    hide WfTable, Compatible;
  }

  /** A read past silent tables gives the newest version that the other tables hold. */
  lemma PastIsNewest(ts: seq<Table>, silent: set<bytes>, key: bytes)
    requires Layered(ts) && SortedBy(ts, ReadBefore)
    ensures var r, few := LookupPast(ts, silent, key), Speaking(ts, silent);
            && Layered(few) && SortedBy(few, ReadBefore) && r == Lookup(few, key)
            && (r.Some? ==> IsNewest(few, key, r.value) && IsVersion(ts, key, r.value))
            && (r.None? ==> forall t :: t in ts && Holds(t, key) ==> t.meta.path in silent)
  {
    hide Find, LookupPast, Lookup, Layered, SortedBy, ReadBefore, IsNewest;
    var few := Speaking(ts, silent);
    SpeakingLayered(ts, silent);
    PastIsSpeaking(ts, silent, key);
    SpeakingSorted(ts, silent);
    FirstHitIsNewest(few, key);
    if Lookup(few, key).None? {
      NoneHolds(few, key);
    } else {
      assert IsVersion(few, key, Lookup(few, key).value) by { LookupSound(few, key); }
      var t := VersionIsHeld(few, key, Lookup(few, key).value);
    }
  }

  /** It is what a read of all tables gives exactly when the table with the newest version speaks; otherwise
      it is an older version, or nothing. */
  lemma PastIff(ts: seq<Table>, silent: set<bytes>, key: bytes)
    requires Layered(ts) && SortedBy(ts, ReadBefore)
    ensures LookupPast(ts, silent, key) == Lookup(ts, key) <==> !NewestIsSilent(ts, silent, key)
    ensures NewestIsSilent(ts, silent, key) && LookupPast(ts, silent, key).Some? ==>
              LookupPast(ts, silent, key).value.seqno < Lookup(ts, key).value.seqno
  {
    hide Find, LookupPast, Lookup, Layered, SortedBy, ReadBefore;
    var few := Speaking(ts, silent);
    PastIsNewest(ts, silent, key);
    FirstHitIsNewest(ts, key);
    if Lookup(ts, key).Some? {
      var e := Lookup(ts, key).value;
      if NewestIsSilent(ts, silent, key) {
        var t :| t in ts && t.meta.path in silent && e in t.entries;
        SilentNewest(ts, silent, key, t);
      } else {
        SpeakingNewest(ts, silent, key);
      }
    }
  }

  lemma SpeakingNewest(ts: seq<Table>, silent: set<bytes>, key: bytes)
    requires Layered(ts) && SortedBy(ts, ReadBefore) && Lookup(ts, key).Some? && !NewestIsSilent(ts, silent, key)
    ensures LookupPast(ts, silent, key) == Lookup(ts, key)
  {
    hide Find, LookupPast, Lookup, Layered, SortedBy, ReadBefore;
    var few, e := Speaking(ts, silent), Lookup(ts, key).value;
    PastIsNewest(ts, silent, key);
    FirstHitIsNewest(ts, key);
    var t := VersionIsHeld(ts, key, e);
    assert IsVersion(few, key, e);
    forall f | IsVersion(few, key, f) ensures IsVersion(ts, key, f) { var u := VersionIsHeld(few, key, f); }
    LookupIs(few, key, e);
  }

  // ---------- the engine ----------

  /** A point read of the engine: the memtables, then the tables with some of them silent. */
  function ReadPast(s: Engine, silent: set<bytes>, key: bytes): (r: Option<Entry>)
  {
    match ReadMems(s.frozen + [s.mem], key)
    case Some(e) => Some(e)
    case None => LookupPast(s.live, silent, key)
  }

  /** In every run: a read with silent tables gives the last applied write of the key, as the others do,
      exactly when a memtable holds the key or the table with its newest version speaks. */
  lemma EveryRunReadsPastIff(states: seq<Engine>, events: seq<Event>, i: nat, silent: set<bytes>, key: bytes)
    requires EngineTheorems.IsRun(states, events) && i < |states| && states[i].phase.Serving?
    ensures var s := states[i];
            && Same(s.drop, Read(s, key), Last(Applied(s), key))
            && (ReadPast(s, silent, key) == Read(s, key) <==>
                  ReadMems(s.frozen + [s.mem], key).Some? || !NewestIsSilent(s.live, silent, key))
  {
    hide Inv, Read, LookupPast, Lookup, NewestIsSilent, Layered, Last, Applied;
    EngineTheorems.EveryRunReadsTheLatest(states, events, i, key);
    EngineTheorems.RunKeepsInv(states, events, i);
    EngineInv.LiveTables(states[i]);
    PastIff(states[i].live, silent, key);
    ReadIs(states[i], key);
  }

  lemma ReadIs(s: Engine, key: bytes)
    ensures Read(s, key) == if ReadMems(s.frozen + [s.mem], key).Some? then ReadMems(s.frozen + [s.mem], key)
            else Lookup(s.live, key)
  {
  }

  const OLDER := Table(TableMeta([1], 0, [5], [5], 1, 1, 1), [Entry([5], [1], false, 1)])

  const NEWER := Table(TableMeta([2], 0, [5], [5], 2, 2, 1), [Entry([5], [2], false, 2)])

  /** Two versions of a key, the newer one in a block above the limit: the older one is read. */
  lemma StaleRead()
    ensures Layered([NEWER, OLDER]) && SortedBy([NEWER, OLDER], ReadBefore)
    ensures Lookup([NEWER, OLDER], [5]) == Some(NEWER.entries[0])
    ensures LookupPast([NEWER, OLDER], {NEWER.meta.path}, [5]) == Some(OLDER.entries[0])
  {
    hide WfTable;
    OneEntryIsWf(OLDER, OLDER.entries[0]);
    OneEntryIsWf(NEWER, NEWER.entries[0]);
    assert [NEWER, OLDER][1..] == [OLDER];
  }
}
