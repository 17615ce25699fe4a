/** A snapshot pins the memtable it froze, so a younger memtable can be flushed
    first. Exactly which reads and which recoveries that spoils. */
module PinnedFlush {
  import opened Bytes
  import opened Concat
  import opened Entries
  import opened Ordering
  import opened Memtable
  import opened Tables
  import opened Compaction
  import opened EngineRun
  import opened EngineInv

  /** A serving engine with no write, flush or compaction under way, and tombstones kept. */
  ghost predicate Quiet(s: Engine)
  {
    Inv(s) && !s.drop && s.phase.Serving? && s.writer.NoWrite? && s.flush.NoFlush? && s.compact.Idle?
  }

  ghost predicate CanFlush(s: Engine, i: nat, path: bytes)
  {
    Quiet(s) && i < |s.frozen| && s.frozen[i] != [] && FreshPath(s, path)
  }

  function FlushedTable(m: seq<Entry>, path: bytes, size: uint64): (t: Table)
    requires m != []
  {
    RunMembers(m);
    NewTable(path, 0, size, RunOf(m))
  }

  /** A complete flush of frozen memtable i, whatever its age: table set, manifest with the
      table's own maximum as log position, and removal from the frozen list. */
  ghost function FlushAt(s: Engine, i: nat, path: bytes, size: uint64): (s': Engine)
    requires CanFlush(s, i, path)
  {
    var t := FlushedTable(s.frozen[i], path, size);
    s.(frozen := Without(s.frozen, i), live := Edited(s.live, [t], {}),
       manifest := Manifest(t.meta.seqMax, Edited(s.manifest.tables, [t], {})))
  }

  function Older(s: Engine, i: nat): (r: seq<Entry>)
    requires i < |s.frozen|
  {
    Flat(s.frozen[..i])
  }

  function Younger(s: Engine, i: nat): (r: seq<Entry>)
    requires i < |s.frozen|
  {
    Flat(s.frozen[i + 1..]) + s.mem
  }

  /** The log: what the tables stand for, the older memtables, memtable i, the younger ones. */
  lemma LogSplits(s: Engine, i: nat)
    requires Quiet(s) && i < |s.frozen|
    ensures s.wal == s.wal[..Durable(s)] + Older(s, i) + s.frozen[i] + Younger(s, i)
    ensures Flat(s.frozen) + s.mem == Older(s, i) + s.frozen[i] + Younger(s, i)
    ensures Flat(Without(s.frozen, i)) + s.mem == Older(s, i) + Younger(s, i)
  {
    hide TablesAre, Flat, LiveOk, WriterOk, FlushOk, WalOk, Upto;
    var a, b := s.frozen[..i], s.frozen[i + 1..];
    assert s.frozen == a + ([s.frozen[i]] + b);
    FlatAppend(a, [s.frozen[i]] + b);
    FlatAppend([s.frozen[i]], b);
    FlatOne(s.frozen[i]);
    FlatAppend(a, b);
    var rest := Flat(s.frozen) + s.mem + Pending(s.writer);
    assert rest == Older(s, i) + s.frozen[i] + Younger(s, i);
    assert s.wal == s.wal[..|s.wal| - |rest|] + s.wal[|s.wal| - |rest|..];
  }

  lemma FlushedIsNewest(s: Engine, i: nat, path: bytes, size: uint64)
    requires CanFlush(s, i, path)
    ensures var t := FlushedTable(s.frozen[i], path, size);
            && NewestTable(s.manifest.tables, t) && t.entries == RunOf(s.frozen[i])
            && Durable(s) + |Older(s, i)| + |s.frozen[i]| <= |s.wal|
            && t.meta.seqMax == s.wal[Durable(s) + |Older(s, i)| + |s.frozen[i]| - 1].seqno
    ensures s.live == s.manifest.tables
  {
    hide TablesAre, Flat, WriterOk, FlushOk, WalOk, Upto, RunOf, MinSeq, MaxSeq, Layout, Sorted;
    LogSplits(s, i);
    var d, from, m := Durable(s), Durable(s) + |Older(s, i)|, s.frozen[i];
    assert s.wal[from..from + |m|] == m;
    WalSlice(s.wal, from, from + |m|);
    RunSeqs(m);
    RunReads(m, []);
    NewTableIsWf(path, 0, size, RunOf(m));
    TablesBelow(s, from);
  }

  lemma TablesBelow(s: Engine, from: nat)
    requires Quiet(s) && Durable(s) <= from < |s.wal|
    ensures forall t :: t in s.manifest.tables ==> t.meta.seqMax < s.wal[from].seqno
  {
    hide SortedBy, Lookup, Last, Layout, LiveOk, WriterOk, FlushOk, Compatible, WfTable, Logged;
    forall t | t in s.manifest.tables ensures t.meta.seqMax < s.wal[from].seqno {
      TableSeqs(s.manifest.tables, s.wal, Durable(s), t);
    }
  }

  /** What the table set and the manifest answer after the flush. */
  lemma FlushedLookup(s: Engine, i: nat, path: bytes, size: uint64, key: bytes)
    requires CanFlush(s, i, path)
    ensures var s' := FlushAt(s, i, path, size);
            && s'.live == s'.manifest.tables
            && Lookup(s'.live, key) == if Last(s.frozen[i], key).Some? then Last(s.frozen[i], key)
               else Last(s.wal[..Durable(s)], key)
  {
    hide Flat, WriterOk, FlushOk, WalOk, Upto, RunOf, Layout, NewTable, NewestTable, Layered, SortedBy, Edited, LiveOk,
         Last, Lookup;
    FlushedIsNewest(s, i, path, size);
    var t := FlushedTable(s.frozen[i], path, size);
    FlushLookup(s.manifest.tables, t, key);
    RunReads(s.frozen[i], key);
    FindSound(t.entries, key);
  }

  /** Writes in different stretches of the log are different entries. */
  lemma DifferentWrites(wal: seq<Entry>, a: seq<Entry>, b: seq<Entry>, c: seq<Entry>, d: seq<Entry>, key: bytes)
    requires WalOk(wal) && wal == a + b + c + d
    ensures Last(a, key).Some? ==> Last(a, key) != Last(b, key)
    ensures Last(b, key).Some? ==> Last(b, key) != Last(c, key)
  {
    hide Last, HasKey;
    LastSound(a, key);
    LastSound(b, key);
    LastSound(c, key);
    if Last(a, key).Some? && Last(b, key).Some? {
      var i :| 0 <= i < |a| && a[i] == Last(a, key).value;
      var j :| 0 <= j < |b| && b[j] == Last(b, key).value;
      assert wal[i] == a[i] && wal[|a| + j] == b[j];
    }
    if Last(b, key).Some? && Last(c, key).Some? {
      var i :| 0 <= i < |b| && b[i] == Last(b, key).value;
      var j :| 0 <= j < |c| && c[j] == Last(c, key).value;
      assert wal[|a| + i] == b[i] && wal[|a| + |b| + j] == c[j];
    }
  }

  lemma LastOfFour(a: seq<Entry>, b: seq<Entry>, c: seq<Entry>, d: seq<Entry>, key: bytes)
    ensures Last(a + b + c + d, key) ==
              if Last(d, key).Some? then Last(d, key)
              else if Last(c, key).Some? then Last(c, key)
              else if Last(b, key).Some? then Last(b, key)
              else Last(a, key)
  {
    hide Last;
    LastConcat(a + b + c, d, key);
    LastConcat(a + b, c, key);
    LastConcat(a, b, key);
  }

  /** After flushing memtable i, a read of the key is right if and only if it is not the case that
      the flushed memtable wrote the key last while an older memtable still holds it. */
  lemma ReadAfterFlushIff(s: Engine, i: nat, path: bytes, size: uint64, key: bytes)
    requires CanFlush(s, i, path)
    ensures Read(FlushAt(s, i, path, size), key) == Last(s.wal, key) <==>
              !(HasKey(s.frozen[i], key) && HasKey(Older(s, i), key) && !HasKey(Younger(s, i), key))
  {
    hide Flat, WriterOk, FlushOk, Upto, RunOf, Layout, NewTable, TablesAre, Edited, LiveOk, Last, Lookup, ReadMems,
         Without, FreshPath, HasKey, WalOk, Older, Younger;
    var s' := FlushAt(s, i, path, size);
    var a, b, c, d := s.wal[..Durable(s)], Older(s, i), s.frozen[i], Younger(s, i);
    LogSplits(s, i);
    FlushedLookup(s, i, path, size, key);
    FlatStep(s'.frozen, s'.mem);
    ReadMemsIsLast(s'.frozen + [s'.mem], key);
    LastConcat(b, d, key);
    LastOfFour(a, b, c, d, key);
    DifferentWrites(s.wal, a, b, c, d, key);
    LastSound(b, key);
    LastSound(c, key);
    LastSound(d, key);
  }

  lemma RecoveredAfterFlush(s: Engine, i: nat, path: bytes, size: uint64, key: bytes)
    requires CanFlush(s, i, path)
    ensures var c, d := s.frozen[i], Younger(s, i);
            Recovered(FlushAt(s, i, path, size), key) ==
              if Last(d, key).Some? then Last(d, key)
              else if Last(c, key).Some? then Last(c, key)
              else Last(s.wal[..Durable(s)], key)
  {
    hide Flat, WriterOk, FlushOk, Upto, RunOf, Layout, NewTable, TablesAre, Edited, LiveOk, Last, Lookup, Without,
         FreshPath, Older, Younger;
    LogSplits(s, i);
    FlushedLookup(s, i, path, size, key);
    FlushedIsNewest(s, i, path, size);
    var q, n := FlushedTable(s.frozen[i], path, size).meta.seqMax, Durable(s) + |Older(s, i)| + |s.frozen[i]|;
    UptoIs(s.wal, q, n);
    AboveIs(s.wal, q);
    assert s.wal[n..] == Younger(s, i);
  }

  /** After flushing memtable i, a restart recovers the key if and only if it is not the case that
      an older memtable wrote it last: the manifest's log position has moved past that write. */
  lemma RecoveryAfterFlushIff(s: Engine, i: nat, path: bytes, size: uint64, key: bytes)
    requires CanFlush(s, i, path)
    ensures Recovered(FlushAt(s, i, path, size), key) == Last(s.wal, key) <==>
              !(HasKey(Older(s, i), key) && !HasKey(s.frozen[i], key) && !HasKey(Younger(s, i), key))
  {
    hide Flat, WriterOk, FlushOk, Upto, RunOf, Layout, NewTable, TablesAre, Edited, LiveOk, Last, Lookup, Without,
         FreshPath, HasKey, WalOk, Older, Younger, Recovered;
    var a, b, c, d := s.wal[..Durable(s)], Older(s, i), s.frozen[i], Younger(s, i);
    LogSplits(s, i);
    RecoveredAfterFlush(s, i, path, size, key);
    LastOfFour(a, b, c, d, key);
    DifferentWrites(s.wal, a, b, c, d, key);
    LastSound(b, key);
    LastSound(c, key);
    LastSound(d, key);
  }

  /** Flushing in sequence order spoils neither, for any key. */
  lemma OldestFirstIsSafe(s: Engine, i: nat, path: bytes, size: uint64, key: bytes)
    requires CanFlush(s, i, path) && OldestFirst(s.frozen, i)
    ensures Read(FlushAt(s, i, path, size), key) == Last(s.wal, key)
    ensures Recovered(FlushAt(s, i, path, size), key) == Last(s.wal, key)
  {
    hide CanFlush, Read, Recovered, Flat, FlushAt;
    FlatOfEmpty(s.frozen[..i]);
    ReadAfterFlushIff(s, i, path, size, key);
    RecoveryAfterFlushIff(s, i, path, size, key);
  }

  const X1 := Entry([1], [1], false, 1)
  const Z2 := Entry([2], [1], false, 2)
  const X3 := Entry([1], [2], false, 3)

  /** Writes x, z, a snapshot, a second write to x, a freeze: the pinned memtable holds x and z. */
  function Pinned(): (s: Engine)
  {
    Init(false).(wal := [X1, Z2, X3], frozen := [[X1, Z2], [X3]])
  }

  lemma PinnedIsQuiet()
    ensures Quiet(Pinned()) && CanFlush(Pinned(), 1, [9])
    ensures Older(Pinned(), 1) == [X1, Z2] && Younger(Pinned(), 1) == []
  {
    hide TablesAre;
    var s := Pinned();
    EmptyTables(s.wal, false);
    FlatOne([X1, Z2]);
    assert s.frozen[..1] == [[X1, Z2]] && s.frozen[2..] == [];
    FlatStep([[X1, Z2]], [X3]);
    assert s.frozen == [[X1, Z2]] + [[X3]];
    assert Flat(s.frozen) + s.mem + Pending(s.writer) == s.wal;
    assert s.wal[0..] == s.wal;
    assert Durable(s) == 0;
  }

  /** Flushing the younger memtable first returns a stale x, and a restart loses z. */
  lemma OutOfOrderFlushFails()
    ensures CanFlush(Pinned(), 1, [9])
    ensures Read(FlushAt(Pinned(), 1, [9], 0), [1]) != Last(Pinned().wal, [1])
    ensures Recovered(FlushAt(Pinned(), 1, [9], 0), [2]) != Last(Pinned().wal, [2])
  {
    PinnedIsQuiet();
    hide Quiet, CanFlush, Read, Recovered, FlushAt, Last, Older, Younger;
    var s, older := Pinned(), [X1, Z2];
    assert older[0].key == [1] && older[1].key == [2] && s.frozen[1][0].key == [1];
    ReadAfterFlushIff(s, 1, [9], 0, [1]);
    RecoveryAfterFlushIff(s, 1, [9], 0, [2]);
  }
}
