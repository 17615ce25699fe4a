/** Startup replay of the WAL: batches above the checkpoint go to the memtable,
    and a full memtable is flushed to a table before replay goes on. */
module Replay {
  import opened Bytes
  import opened Entries
  import opened Memtable
  import opened Tables
  import opened Compaction
  import opened EngineRun
  import opened EngineInv
  import RunFacts
  import T = EngineTheorems

  const DEFAULT_BATCH := 256

  /** File names come from the clock; all that is used of them is that they are new. */
  ghost predicate Names(newPath: seq<Table> -> bytes)
  {
    forall ts :: NewName(newPath, ts)
  }

  ghost predicate NewName(newPath: seq<Table> -> bytes, ts: seq<Table>)
  {
    forall t :: t in ts ==> t.meta.path != newPath(ts)
  }

  class Recovery {
    const wal: seq<Entry>
    const mtLimit: int
    var mem: seq<Entry>
    var live: seq<Table>
    var manifest: Manifest
    var lastSeq: uint64
    ghost const drop: bool

    ghost function Engine(phase: Phase): (s: Engine)
      reads this
    {
      EngineRun.Engine(wal, phase, mem, [], NoWrite, NoFlush, Idle, live, manifest, drop)
    }

    /** The first `pos` log records have been handled, starting from this checkpoint. */
    ghost predicate At(pos: nat, checkpoint: uint64)
      reads this
    {
      Inv(Engine(Replaying(pos, checkpoint)))
    }

    /** A node that has just loaded its manifest. */
    constructor (wal: seq<Entry>, mtLimit: int, manifest: Manifest, ghost drop: bool)
      requires Inv(EngineRun.Engine(wal, Replaying(0, manifest.walSeq), [], [], NoWrite, NoFlush, Idle, manifest.tables,
               manifest, drop))
      ensures this.wal == wal && this.drop == drop && this.manifest == manifest && this.mtLimit == mtLimit
      ensures At(0, manifest.walSeq) && lastSeq == manifest.walSeq
    {
      this.wal, this.mtLimit, this.manifest, this.drop := wal, mtLimit, manifest, drop;
      mem, live, lastSeq := [], manifest.tables, manifest.walSeq;
    }

    /** flushMemtableForReplay: the memtable becomes a level-0 table, and its highest sequence the checkpoint. */
    method FlushMemtable(newPath: seq<Table> -> bytes, size: uint64, ghost pos: nat, ghost checkpoint: uint64)
      requires At(pos, checkpoint) && Names(newPath) && mem != []
      modifies this
      ensures At(pos, checkpoint) && mem == [] && lastSeq == old(lastSeq)
    {
      hide Inv, Edited, NewTable, RunOf;
      ghost var s := Engine(Replaying(pos, checkpoint));
      assert NewName(newPath, live);
      var path := newPath(live);
      FreshForReplay(s, path);
      ReplayFlushKeepsInv(s, path, size);
      RunMembers(mem);
      var t := NewTable(path, 0, size, RunOf(mem));
      live := Edited(live, [t], {});
      manifest := Manifest(t.meta.seqMax, Edited(manifest.tables, [t], {}));
      mem := [];
      assert Engine(Replaying(pos, checkpoint)) == Step(s, ReplayFlush(path, size));
    }

    /** Applies a batch, flushes if the memtable is full, then raises the sequence counter. */
    method ApplyBatch(batch: seq<Entry>, newPath: seq<Table> -> bytes, size: uint64, ghost from: nat, ghost to: nat,
                      ghost checkpoint: uint64)
      requires Names(newPath) && from <= to <= |wal| && At(from, checkpoint)
      requires batch == ReplayKept(wal, from, to, checkpoint)
      modifies this
      ensures At(to, checkpoint)
      ensures lastSeq >= old(lastSeq) && (forall e :: e in batch ==> e.seqno <= lastSeq)
      ensures lastSeq == old(lastSeq) || exists e :: e in batch && e.seqno == lastSeq
    {
      hide Inv, ReplayKept, RunOf;
      ghost var s := Engine(Replaying(from, checkpoint));
      ReplayKeepsInv(s, to - from);
      mem := mem + batch;
      assert from + (to - from) == to;
      assert Engine(Replaying(to, checkpoint)) == Step(s, EngineRun.Replay(to - from));
      assert At(to, checkpoint);
      EmptyRun();
      if mtLimit > 0 && RunFacts.Size(RunOf(mem)) >= mtLimit {
        FlushMemtable(newPath, size, to, checkpoint);
      }
      BumpSeq(batch, to, checkpoint);
    }

    method BumpSeq(batch: seq<Entry>, ghost to: nat, ghost checkpoint: uint64)
      requires At(to, checkpoint)
      modifies this`lastSeq
      ensures At(to, checkpoint)
      ensures lastSeq >= old(lastSeq) && (forall e :: e in batch ==> e.seqno <= lastSeq)
      ensures lastSeq == old(lastSeq) || exists e :: e in batch && e.seqno == lastSeq
    {
      hide Inv;
      for i := 0 to |batch|
        invariant At(to, checkpoint)
        invariant lastSeq >= old(lastSeq) && forall k :: 0 <= k < i ==> batch[k].seqno <= lastSeq
        invariant lastSeq == old(lastSeq) || exists e :: e in batch && e.seqno == lastSeq
      {
        if batch[i].seqno > lastSeq { lastSeq := batch[i].seqno; }
      }
    }

    /** Replays the whole log: afterwards the node serves the last logged write of every key, and the
        next sequence number it observes lies above everything logged. */
    method ReplayWAL(batchSize: int, newPath: seq<Table> -> bytes, size: uint64)
      requires At(0, manifest.walSeq) && Names(newPath) && lastSeq == manifest.walSeq
      modifies this
      ensures Inv(Engine(Serving))
      ensures forall key :: Same(drop, Read(Engine(Serving), key), Last(wal, key))
      ensures forall i :: 0 <= i < |wal| ==> wal[i].seqno <= lastSeq
    {
      hide Inv, Read;
      var checkpoint := manifest.walSeq;
      var limit := if batchSize <= 0 then DEFAULT_BATCH else batchSize;
      var batch: seq<Entry> := [];
      ghost var done: nat := 0;
      for n := 0 to |wal|
        invariant Delivered(batch, done, n, checkpoint)
      {
        batch, done := Deliver(wal[n], batch, limit, newPath, size, done, n, checkpoint);
      }
      Finish(batch, newPath, size, done, checkpoint);
      ReplayDoneKeepsInv(Engine(Replaying(|wal|, checkpoint)));
      forall key ensures Same(drop, Read(Engine(Serving), key), Last(wal, key)) { T.ServingRead(Engine(Serving), key); }
    }

    /** Of the first n records, the first `done` are applied, and the batch holds what counts of the others. */
    ghost predicate Delivered(batch: seq<Entry>, done: nat, n: nat, checkpoint: uint64)
      reads this
    {
      && done <= n <= |wal| && At(done, checkpoint) && batch == ReplayKept(wal, done, n, checkpoint)
      && lastSeq >= checkpoint && forall i :: 0 <= i < done ==> wal[i].seqno <= lastSeq
    }

    /** One record: records at or below the checkpoint are skipped, full batches applied. */
    method Deliver(e: Entry, before: seq<Entry>, limit: int, newPath: seq<Table> -> bytes, size: uint64,
                   ghost done: nat, ghost n: nat, checkpoint: uint64)
      returns (batch: seq<Entry>, ghost now: nat)
      requires n < |wal| && e == wal[n] && Delivered(before, done, n, checkpoint) && Names(newPath)
      modifies this
      ensures Delivered(batch, now, n + 1, checkpoint)
    {
      hide Inv, ReplayKept;
      KeptStep(wal, done, n, checkpoint);
      batch, now := before, done;
      if e.seqno > checkpoint {
        batch := batch + [e];
        if |batch| >= limit {
          KeptCovers(wal, done, n + 1, checkpoint);
          ApplyBatch(batch, newPath, size, done, n + 1, checkpoint);
          KeptEmpty(wal, n + 1, checkpoint);
          batch, now := [], n + 1;
        }
      }
    }

    /** The last batch. */
    method Finish(batch: seq<Entry>, newPath: seq<Table> -> bytes, size: uint64, ghost done: nat,
                  ghost checkpoint: uint64)
      requires Delivered(batch, done, |wal|, checkpoint) && Names(newPath)
      modifies this
      ensures At(|wal|, checkpoint) && forall i :: 0 <= i < |wal| ==> wal[i].seqno <= lastSeq
    {
      hide Inv, ReplayKept;
      KeptCovers(wal, done, |wal|, checkpoint);
      if batch != [] {
        ApplyBatch(batch, newPath, size, done, |wal|, checkpoint);
      } else {
        ReplayKeepsInv(Engine(Replaying(done, checkpoint)), |wal| - done);
        assert mem + batch == mem && done + (|wal| - done) == |wal|;
      }
    }
  }

  lemma EmptyRun()
    ensures RunFacts.Size(RunOf([])) == 0
  {
  }

  lemma FreshForReplay(s: Engine, path: bytes)
    requires Inv(s) && s.phase.Replaying? && forall t :: t in s.live ==> t.meta.path != path
    ensures FreshPath(s, path)
  {
    hide TablesAre, WalOk, Upto, Edited, Compacted;
  }

  lemma KeptStep(wal: seq<Entry>, done: nat, n: nat, checkpoint: uint64)
    requires done <= n < |wal|
    ensures ReplayKept(wal, done, n + 1, checkpoint) ==
              ReplayKept(wal, done, n, checkpoint) + (if wal[n].seqno > checkpoint then [wal[n]] else [])
  {
    assert wal[done..n + 1][..n - done] == wal[done..n];
  }

  lemma KeptEmpty(wal: seq<Entry>, n: nat, checkpoint: uint64)
    requires n <= |wal|
    ensures ReplayKept(wal, n, n, checkpoint) == []
  {
  }

  /** Every record is either at most the checkpoint or in the batch. */
  lemma KeptCovers(wal: seq<Entry>, from: nat, n: nat, checkpoint: uint64)
    requires from <= n <= |wal|
    ensures forall i :: from <= i < n ==> wal[i].seqno <= checkpoint || wal[i] in ReplayKept(wal, from, n, checkpoint)
    decreases n
  {
    if from < n {
      KeptCovers(wal, from, n - 1, checkpoint);
      KeptStep(wal, from, n - 1, checkpoint);
    }
  }
}
