/** One node's storage engine as a state machine over its atomic steps: WAL
    append, memtable apply, freeze, flush, compaction, crash and WAL replay.
    The WAL is the list of every logged write; a memtable is the list of writes
    applied to it, read through its sorted run. */
module EngineRun {
  import opened Bytes
  import opened Concat
  import opened Entries
  import opened Ordering
  import opened Memtable
  import opened Tables
  import opened Planner
  import opened Compaction
  import TS = TableSet
  import X = Tombstones

  datatype Manifest = Manifest(walSeq: uint64, tables: seq<Table>)

  /** A flush: its table file exists, then the table set has it, then the manifest. */
  datatype Stage = Written | InSet | InManifest
  datatype Flush = NoFlush | Flushing(table: Table, idx: nat, stage: Stage)

  /** A compaction: planned on a snapshot, then installed in the table set, then in the manifest. */
  datatype Compact = Idle | Planned(plan: Plan) | Installed(plan: Plan, out: Option<Table>)

  /** A write that is in the WAL and will be applied to memtable number `mem`;
      the active memtable has number |frozen|. */
  datatype Writer = NoWrite | Writing(entry: Entry, mem: nat)

  datatype Phase = Serving | Replaying(pos: nat, checkpoint: uint64)

  datatype Engine = Engine(
    wal: seq<Entry>, phase: Phase,
    mem: seq<Entry>, frozen: seq<seq<Entry>>, writer: Writer,
    flush: Flush, compact: Compact,
    live: seq<Table>, manifest: Manifest,
    drop: bool)                          // whether compactions drop tombstones; never changes

  datatype Event =
    | Log(entry: Entry) | Apply | Freeze
    | DropEmpty(idx: nat) | FlushWrite(idx: nat, path: bytes, size: uint64) | FlushSet | FlushManifest | FlushPop
    | MakePlan(planner: StrictLevelledPlanner) | CompactSet(out: Option<Table>) | CompactManifest
    | Crash | Replay(n: nat) | ReplayFlush(path: bytes, size: uint64) | ReplayDone

  function Init(drop: bool): (s: Engine)
  {
    Engine([], Serving, [], [], NoWrite, NoFlush, Idle, [], Manifest(0, []), drop)
  }

  // ---------- reads ----------

  /** Memtables newest first. */
  function ReadMems(ms: seq<seq<Entry>>, key: bytes): (r: Option<Entry>)
  {
    if ms == [] then None
    else match Find(RunOf(ms[|ms| - 1]), key)
      case Some(e) => Some(e)
      case None => ReadMems(ms[..|ms| - 1], key)
  }

  /** A point read: the active memtable, the frozen ones newest first, then the tables. */
  function Read(s: Engine, key: bytes): (r: Option<Entry>)
  {
    match ReadMems(s.frozen + [s.mem], key)
    case Some(e) => Some(e)
    case None => Lookup(s.live, key)
  }

  function Pending(w: Writer): (r: seq<Entry>)
  {
    if w.NoWrite? then [] else [w.entry]
  }

  /** The logged writes that have reached a memtable. */
  function Applied(s: Engine): (r: seq<Entry>)
  {
    if s.writer.NoWrite? || s.wal == [] then s.wal else s.wal[..|s.wal| - 1]
  }

  // ---------- recovery ----------

  /** How many leading records of the log have a sequence number up to q. */
  function Upto(wal: seq<Entry>, q: uint64): (n: nat)
    ensures n <= |wal|
  {
    if wal == [] || wal[0].seqno > q then 0 else 1 + Upto(wal[1..], q)
  }

  function Above(wal: seq<Entry>, q: uint64): (r: seq<Entry>)
  {
    if wal == [] then []
    else
      var last := wal[|wal| - 1];
      Above(wal[..|wal| - 1], q) + (if last.seqno > q then [last] else [])
  }

  /** What a restart would serve for a key, from the manifest and the log alone. */
  function Recovered(s: Engine, key: bytes): (r: Option<Entry>)
  {
    match Last(Above(s.wal, s.manifest.walSeq), key)
    case Some(e) => Some(e)
    case None => Lookup(s.manifest.tables, key)
  }

  // ---------- steps ----------

  predicate FreshPath(s: Engine, path: bytes)
  {
    && (forall i :: 0 <= i < |s.live| ==> s.live[i].meta.path != path)
    && (forall i :: 0 <= i < |s.manifest.tables| ==> s.manifest.tables[i].meta.path != path)
    && (s.flush.Flushing? ==> s.flush.table.meta.path != path)
  }

  /** Every older frozen memtable is empty, so this flush is in sequence order. */
  predicate OldestFirst(frozen: seq<seq<Entry>>, idx: nat)
  {
    idx < |frozen| && forall j :: 0 <= j < idx ==> frozen[j] == []
  }

  /** The flush is in the table set and not yet in the manifest. */
  predicate InFlight(s: Engine)
  {
    s.flush.Flushing? && s.flush.stage.InSet?
  }

  /** What the source lets happen. Dropping tombstones goes with level 0 and 1 only: size-based planning is off. */
  ghost predicate Possible(s: Engine, ev: Event)
  {
    match ev
    case Log(e) => s.phase.Serving? && s.writer.NoWrite? && e.seqno > 0
      && forall i :: 0 <= i < |s.wal| ==> s.wal[i].seqno < e.seqno
    case Apply => s.phase.Serving? && s.writer.Writing?
    case Freeze => s.phase.Serving?
    case DropEmpty(idx) => s.phase.Serving? && idx < |s.frozen| && s.frozen[idx] == []
      && !(s.writer.Writing? && s.writer.mem == idx)
    case FlushWrite(idx, path, size) =>
      && s.phase.Serving? && s.flush.NoFlush? && OldestFirst(s.frozen, idx) && s.frozen[idx] != []
      && !(s.writer.Writing? && s.writer.mem == idx) && FreshPath(s, path)
    case FlushSet => s.phase.Serving? && s.flush.Flushing? && s.flush.stage.Written?
    case FlushManifest => s.phase.Serving? && InFlight(s)
    case FlushPop => s.phase.Serving? && s.flush.Flushing? && s.flush.stage.InManifest?
    case MakePlan(p) =>
      && s.phase.Serving? && s.compact.Idle? && LevelToCompact(p, Metas(s.live)).Some?
      && (s.drop ==> p.levelBaseBytes == 0)
    case CompactSet(out) =>
      && s.phase.Serving? && s.compact.Planned?
      && CompactionOutput(s.live, s.compact.plan, out, s.drop)
      && (out.Some? ==> FreshPath(s, out.value.meta.path))
    case CompactManifest => s.phase.Serving? && s.compact.Installed?
    case Crash => true
    case Replay(n) => s.phase.Replaying? && s.phase.pos + n <= |s.wal|
    case ReplayFlush(path, size) => s.phase.Replaying? && s.mem != [] && FreshPath(s, path)
    case ReplayDone => s.phase.Replaying? && s.phase.pos == |s.wal|
  }

  /** The one order that is left out: a compaction that removed the table of a flush reaches the manifest
      before that flush does. */
  ghost predicate Overtakes(s: Engine, ev: Event)
  {
    ev.CompactManifest? && s.compact.Installed? && InFlight(s) && Picked(s.compact.plan, s.flush.table)
  }

  ghost predicate Enabled(s: Engine, ev: Event)
  {
    Possible(s, ev) && !Overtakes(s, ev)
  }

  function Without<T>(ms: seq<T>, idx: nat): (r: seq<T>)
    requires idx < |ms|
  {
    ms[..idx] + ms[idx + 1..]
  }

  function Shift(w: Writer, idx: nat): (r: Writer)
  {
    if w.Writing? && w.mem > idx then w.(mem := w.mem - 1) else w
  }

  /** The records of the log between two positions that replay keeps. */
  function ReplayKept(wal: seq<Entry>, from: nat, to: nat, checkpoint: uint64): (r: seq<Entry>)
    requires from <= to <= |wal|
  {
    Above(wal[from..to], checkpoint)
  }

  /** The manifest takes the flushed table, and its highest sequence number as log position. */
  function FlushRecorded(s: Engine): (s': Engine)
    requires s.flush.Flushing?
  {
    s.(manifest := Manifest(s.flush.table.meta.seqMax, Edited(s.manifest.tables, [s.flush.table], {})),
       flush := s.flush.(stage := InManifest))
  }

  function CompactionRecorded(s: Engine): (s': Engine)
    requires s.compact.Installed?
  {
    s.(manifest := s.manifest.(tables := Compacted(s.manifest.tables, s.compact.plan, s.compact.out)), compact := Idle)
  }

  ghost function Step(s: Engine, ev: Event): (s': Engine)
    requires Possible(s, ev)
  {
    match ev
    case Log(e) => s.(wal := s.wal + [e], writer := Writing(e, |s.frozen|))
    case Apply =>
      if s.writer.mem < |s.frozen| then
        s.(frozen := s.frozen[s.writer.mem := s.frozen[s.writer.mem] + [s.writer.entry]], writer := NoWrite)
      else s.(mem := s.mem + [s.writer.entry], writer := NoWrite)
    case Freeze => s.(frozen := s.frozen + [s.mem], mem := [])
    case DropEmpty(idx) =>
      s.(frozen := Without(s.frozen, idx), writer := Shift(s.writer, idx),
         flush := if s.flush.Flushing? && s.flush.idx > idx then s.flush.(idx := s.flush.idx - 1) else s.flush)
    case FlushWrite(idx, path, size) =>
      RunMembers(s.frozen[idx]);
      s.(flush := Flushing(NewTable(path, 0, size, RunOf(s.frozen[idx])), idx, Written))
    case FlushSet => s.(live := Edited(s.live, [s.flush.table], {}), flush := s.flush.(stage := InSet))
    case FlushManifest => FlushRecorded(s)
    case FlushPop =>
      if s.flush.idx < |s.frozen| then
        s.(frozen := Without(s.frozen, s.flush.idx), writer := Shift(s.writer, s.flush.idx), flush := NoFlush)
      else s.(flush := NoFlush)
    case MakePlan(p) => s.(compact := Planned(PlanAt(Metas(s.live), LevelToCompact(p, Metas(s.live)).value)))
    case CompactSet(out) =>
      s.(live := Compacted(s.live, s.compact.plan, out), compact := Installed(s.compact.plan, out))
    case CompactManifest => CompactionRecorded(s)
    case Crash =>
      Engine(s.wal, Replaying(0, s.manifest.walSeq), [], [], NoWrite, NoFlush, Idle, s.manifest.tables, s.manifest,
        s.drop)
    case Replay(n) =>
      s.(phase := s.phase.(pos := s.phase.pos + n),
         mem := s.mem + ReplayKept(s.wal, s.phase.pos, s.phase.pos + n, s.phase.checkpoint))
    case ReplayFlush(path, size) =>
      RunMembers(s.mem);
      var t := NewTable(path, 0, size, RunOf(s.mem));
      s.(mem := [], live := Edited(s.live, [t], {}),
         manifest := Manifest(t.meta.seqMax, Edited(s.manifest.tables, [t], {})))
    case ReplayDone => s.(phase := Serving)
  }

  // ---------- the invariant ----------

  ghost predicate WalOk(wal: seq<Entry>)
  {
    && (forall i :: 0 <= i < |wal| ==> wal[i].seqno > 0)
    && (forall i, j :: 0 <= i < j < |wal| ==> wal[i].seqno < wal[j].seqno)
  }

  /** How many log records the manifest's tables stand for. */
  function Durable(s: Engine): (n: nat)
    ensures n <= |s.wal|
  {
    Upto(s.wal, s.manifest.walSeq)
  }

  /** The same answer; when tombstones are dropped, a deleted key may also have no version at all. */
  ghost predicate Same(drop: bool, a: Option<Entry>, b: Option<Entry>)
  {
    if drop then X.Live(a) == X.Live(b) else a == b
  }

  /** Every entry of the tables is one of the first n records of the log. */
  ghost predicate Logged(ts: seq<Table>, wal: seq<Entry>, n: nat)
    requires n <= |wal|
  {
    forall t, e :: t in ts && e in t.entries ==> e in wal[..n]
  }

  /** The tables read like the first n records of the log, and hold nothing else. */
  ghost predicate TablesAre(ts: seq<Table>, wal: seq<Entry>, n: nat, drop: bool)
    requires n <= |wal|
  {
    && Layered(ts) && SortedBy(ts, ReadBefore) && TS.PathsDiffer(ts) && Logged(ts, wal, n)
    && (forall key :: Same(drop, Lookup(ts, key), Last(wal[..n], key)))
    && (drop ==> forall t :: t in ts ==> t.meta.level <= 1)
  }

  /** The manifest's tables and the table of the flush in flight. */
  function Base(s: Engine): (ts: seq<Table>)
  {
    if InFlight(s) then Edited(s.manifest.tables, [s.flush.table], {}) else s.manifest.tables
  }

  ghost predicate PlanFits(ts: seq<Table>, plan: Plan, drop: bool)
  {
    PlanOk(ts, plan) && (drop ==> plan.outputLevel == 1)
  }

  /** The table set holds the manifest's tables, with the edits of a flush and of a compaction on their way. */
  ghost predicate LiveOk(s: Engine)
  {
    if s.compact.Installed? then
      && s.live == Compacted(Base(s), s.compact.plan, s.compact.out)
      && PlanFits(Base(s), s.compact.plan, s.drop) && CompactionOutput(Base(s), s.compact.plan, s.compact.out, s.drop)
    else s.live == Base(s)
  }

  /** The log is what the tables stand for, then the frozen memtables, the active one, and the write in flight. */
  ghost predicate Layout(s: Engine)
  {
    var rest := Flat(s.frozen) + s.mem + Pending(s.writer);
    && |rest| <= |s.wal| && s.wal[|s.wal| - |rest|..] == rest
    && Durable(s) == |s.wal| - |rest| +
         (if s.flush.Flushing? && s.flush.stage.InManifest? && s.flush.idx < |s.frozen| then |s.frozen[s.flush.idx]|
           else 0)
  }

  /** A write in flight is the newest record: nothing follows its memtable. */
  ghost predicate WriterOk(s: Engine)
  {
    s.writer.Writing? ==>
      && s.writer.mem <= |s.frozen|
      && (forall j :: s.writer.mem < j < |s.frozen| ==> s.frozen[j] == [])
      && (s.writer.mem < |s.frozen| ==> s.mem == [])
  }

  ghost predicate FlushOk(s: Engine)
  {
    s.flush.Flushing? ==>
      && OldestFirst(s.frozen, s.flush.idx) && s.frozen[s.flush.idx] != []
      && !(s.writer.Writing? && s.writer.mem == s.flush.idx)
      && s.flush.table.meta.level == 0 && s.flush.table.entries == RunOf(s.frozen[s.flush.idx])
      && s.flush.table == NewTable(s.flush.table.meta.path, 0, s.flush.table.meta.sizeBytes, s.flush.table.entries)
      && (!s.flush.stage.InManifest? ==> forall t :: t in s.manifest.tables ==> t.meta.path != s.flush.table.meta.path)
      && (s.flush.stage.Written? ==> forall t :: t in s.live ==> t.meta.path != s.flush.table.meta.path)
  }

  ghost predicate ReplayOk(s: Engine)
    requires s.phase.Replaying?
  {
    && s.frozen == [] && s.writer.NoWrite? && s.flush.NoFlush? && s.compact.Idle?
    && s.phase.pos <= |s.wal|
    && (var c, d := Upto(s.wal, s.phase.checkpoint), Durable(s);
        && c <= d && (d == c || d <= s.phase.pos)
        && s.mem == if s.phase.pos <= d then [] else s.wal[d..s.phase.pos])
  }

  ghost predicate Inv(s: Engine)
  {
    && WalOk(s.wal)
    && TablesAre(s.manifest.tables, s.wal, Durable(s), s.drop)
    && (s.manifest.walSeq == 0 || (Durable(s) > 0 && s.manifest.walSeq == s.wal[Durable(s) - 1].seqno))
    && LiveOk(s)
    && (s.compact.Planned? ==> PlanFits(s.live, s.compact.plan, s.drop))
    && match s.phase
       case Serving => Layout(s) && WriterOk(s) && FlushOk(s)
       case Replaying(_, _) => ReplayOk(s)
  }
}
