/** What every run of the engine guarantees. */
module EngineTheorems {
  import opened Bytes
  import opened Concat
  import opened Entries
  import opened Ordering
  import opened Memtable
  import opened Tables
  import opened Compaction
  import opened EngineRun
  import opened EngineInv

  /** A run: a start state, and one enabled event between each state and the next. */
  ghost predicate IsRun(states: seq<Engine>, events: seq<Event>)
  {
    && |states| == |events| + 1 && states[0] == Init(states[0].drop)
    && forall i :: 0 <= i < |events| ==> Enabled(states[i], events[i]) && states[i + 1] == Step(states[i], events[i])
  }

  lemma {:induction false} RunKeepsInv(states: seq<Engine>, events: seq<Event>, i: nat)
    requires IsRun(states, events) && i < |states|
    ensures Inv(states[i])
  {
    hide Inv, Possible, Step;
    if i == 0 {
      InitInv(states[0].drop);
    } else {
      RunKeepsInv(states, events, i - 1);
      assert states[i - 1 + 1] == Step(states[i - 1], events[i - 1]);
      StepKeepsInv(states[i - 1], events[i - 1]);
    }
  }

  /** The tables of the live set stand for a prefix of the log; it may already reach into
      the memtable that is being flushed. */
  lemma LiveReads(s: Engine) returns (n: nat)
    requires Inv(s) && s.phase.Serving?
    ensures var rest := Flat(s.frozen) + s.mem + Pending(s.writer);
            |s.wal| - |rest| <= n <= |s.wal| - |s.mem| - |Pending(s.writer)|
    ensures forall key :: Same(s.drop, Lookup(s.live, key), Last(s.wal[..n], key))
  {
    hide Flat, LiveOk, Layered, NewTable, RunOf, Last, SortedBy, Logged, Same, Lookup;
    n := BaseLen(s);
    if s.flush.Flushing? { FlatOldest(s.frozen, s.flush.idx); }
    LiveTables(s);
  }

  /** Reading the memtables of a log suffix over tables that stand for any longer prefix gives the last write. */
  lemma OverlappingRead(wal: seq<Entry>, b: nat, n: nat, key: bytes)
    requires b <= n <= |wal|
    ensures (if Last(wal[b..], key).Some? then Last(wal[b..], key) else Last(wal[..n], key)) == Last(wal, key)
  {
    assert wal == wal[..b] + wal[b..];
    assert wal[..n] == wal[..b] + wal[b..n];
    assert wal[b..] == wal[b..n] + wal[n..];
    LastConcat(wal[..b], wal[b..], key);
    LastConcat(wal[..b], wal[b..n], key);
    LastConcat(wal[b..n], wal[n..], key);
  }

  lemma ServingRead(s: Engine, key: bytes)
    requires Inv(s) && s.phase.Serving?
    ensures Same(s.drop, Read(s, key), Last(Applied(s), key))
  {
    hide Edited, Compacted, PlanOk, CompactionOutput, Layered, NewTable, RunOf, Last, SortedBy, TablesAre, Flat,
         FlushOk, WriterOk, Upto;
    var n := LiveReads(s);
    FlatStep(s.frozen, s.mem);
    ReadMemsIsLast(s.frozen + [s.mem], key);
    var wal, mems := Applied(s), Flat(s.frozen) + s.mem;
    var rest := mems + Pending(s.writer);
    var b := |s.wal| - |rest|;
    assert wal == s.wal[..|s.wal| - |Pending(s.writer)|];
    assert rest[..|mems|] == mems;
    assert wal[b..] == s.wal[b..][..|mems|] == mems;
    assert wal[..n] == s.wal[..n];
    OverlappingRead(wal, b, n, key);
  }

  lemma RecoveredRead(s: Engine, key: bytes)
    requires Inv(s)
    ensures Same(s.drop, Recovered(s, key), Last(s.wal, key))
  {
    hide LiveOk, Layout, FlushOk, WriterOk, Layered, SortedBy, PlanOk, ReplayOk;
    AboveIs(s.wal, s.manifest.walSeq);
    OverlappingRead(s.wal, Durable(s), Durable(s), key);
  }

  /** In every run, whatever flushes, compactions, crashes and replays have happened:
      a read returns the last applied write of its key, and the manifest with the log
      would rebuild exactly the last logged write of every key. When compactions drop
      tombstones, a deleted key may read as absent instead. */
  lemma EveryRunReadsTheLatest(states: seq<Engine>, events: seq<Event>, i: nat, key: bytes)
    requires IsRun(states, events) && i < |states|
    ensures states[i].phase.Serving? ==> Same(states[i].drop, Read(states[i], key), Last(Applied(states[i]), key))
    ensures Same(states[i].drop, Recovered(states[i], key), Last(states[i].wal, key))
  {
    hide Inv, Read, Recovered, IsRun;
    RunKeepsInv(states, events, i);
    if states[i].phase.Serving? { ServingRead(states[i], key); }
    RecoveredRead(states[i], key);
  }

  /** In every run the first live table that holds a key holds the newest version of it in any live table. */
  lemma EveryRunFirstHitIsNewest(states: seq<Engine>, events: seq<Event>, i: nat, key: bytes)
    requires IsRun(states, events) && i < |states|
    ensures var ts := states[i].live;
            && (Lookup(ts, key).Some? ==> IsNewest(ts, key, Lookup(ts, key).value))
            && (Lookup(ts, key).None? ==> forall e :: !IsVersion(ts, key, e))
  {
    hide Inv, Lookup, IsRun, IsNewest, IsVersion, Layered;
    RunKeepsInv(states, events, i);
    LiveTables(states[i]);
    FirstHitIsNewest(states[i].live, key);
  }

  /** A crash anywhere in a run, followed by a complete replay (with or without flushes on the way),
      ends in a state that serves the last logged write of every key. */
  lemma CrashThenReplayServesTheLog(states: seq<Engine>, events: seq<Event>, c: nat, i: nat, key: bytes)
    requires IsRun(states, events) && c < i < |states| && events[c] == Crash
    requires forall k :: c < k < i ==> events[k].Replay? || events[k].ReplayFlush? || events[k].ReplayDone?
    requires states[i].phase.Serving?
    ensures states[i].wal == states[c].wal && Same(states[i].drop, Read(states[i], key), Last(states[c].wal, key))
  {
    hide Inv, Read, Last;
    ReplayKeepsLog(states, events, c, i);
    RunKeepsInv(states, events, i);
    ServingRead(states[i], key);
  }

  lemma {:induction false} ReplayKeepsLog(states: seq<Engine>, events: seq<Event>, c: nat, i: nat)
    requires IsRun(states, events) && c < i < |states| && events[c] == Crash
    requires forall k :: c < k < i ==> events[k].Replay? || events[k].ReplayFlush? || events[k].ReplayDone?
    ensures states[i].wal == states[c].wal && states[i].writer.NoWrite?
  {
    hide ReplayKept, NewTable, Edited, RunOf;
    assert states[i - 1 + 1] == Step(states[i - 1], events[i - 1]);
    if i > c + 1 { ReplayKeepsLog(states, events, c, i - 1); }
  }
}
