/** The data-block builder, with fixed or adaptive restart intervals. */
module BlockBuilder {
  import opened Bytes
  import opened Entries
  import opened BlockFormat

  const DEFAULT_RESTART := 16

  method CommonPrefixLen(a: bytes, b: bytes) returns (n: nat)
    ensures n == CommonPrefix(a, b)
  {
    var max := if |b| < |a| then |b| else |a|;
    n := 0;
    while n < max && a[n] == b[n]
      invariant n <= max && CommonPrefix(a, b) == n + CommonPrefix(a[n..], b[n..])
    {
      assert a[n..][1..] == a[n + 1..] && b[n..][1..] == b[n + 1..];
      n := n + 1;
    }
  }

  function Least(a: int, b: int): (m: int)
  {
    if a <= b then a else b
  }

  /** The first key, and the last. */
  ghost predicate Ends(es: seq<Entry>, first: Option<bytes>, lastKey: bytes)
  {
    if es == [] then first == None && lastKey == [] else first == Some(es[0].key) && lastKey == es[|es| - 1].key
  }

  lemma EndsStep(es: seq<Entry>, first: Option<bytes>, lastKey: bytes, e: Entry)
    requires Ends(es, first, lastKey)
    ensures Ends(es + [e], if first.None? then Some(e.key) else first, e.key)
  {
  }

  class Builder {
    var buf: bytes
    var restartOffsets: seq<nat>      // written out as 32-bit values by Finish
    var restartInterval: int
    const baseRestart: int
    const minRestart: int
    const maxRestart: int
    const adaptive: bool
    var entryCount: nat
    var first: Option<bytes>
    var lastKey: bytes
    var sharedSum: nat
    var keySum: nat

    ghost var es: seq<Entry>
    ghost var ms: seq<bool>

    ghost predicate Valid()
      reads this
    {
      && 1 <= minRestart <= maxRestart
      && minRestart <= restartInterval <= maxRestart && minRestart <= baseRestart <= maxRestart
      && Marks(es, ms) && entryCount == |es|
      && buf == Buf(es, ms) && restartOffsets == Restarts(es, ms)
      && Ends(es, first, lastKey)
      && sharedSum <= keySum
    }

    constructor (restartInterval: int, adaptive: bool, minRestart: int, maxRestart: int)
      ensures Valid() && es == [] && this.adaptive == adaptive && this.restartInterval == baseRestart
      ensures var interval := if restartInterval <= 0 then DEFAULT_RESTART else restartInterval;
              && this.maxRestart == (if maxRestart <= 0 then interval else maxRestart)
              && this.minRestart == Least(if minRestart <= 0 then interval else minRestart, this.maxRestart)
              && (this.minRestart <= interval <= this.maxRestart ==> baseRestart == interval)
    {
      var interval := if restartInterval <= 0 then DEFAULT_RESTART else restartInterval;
      var lo := if minRestart <= 0 then interval else minRestart;
      var hi := if maxRestart <= 0 then interval else maxRestart;
      if lo > hi { lo := hi; }
      if interval < lo { interval := lo; }
      if interval > hi { interval := hi; }
      this.restartInterval, this.baseRestart, this.minRestart, this.maxRestart, this.adaptive :=
        interval, interval, lo, hi, adaptive;
      buf, restartOffsets, entryCount, first, lastKey, sharedSum, keySum := [], [], 0, None, [], 0, 0;
      es, ms := [], [];
    }

    /** How the next entry would be stored: shared and unshared key length, and whether it restarts. */
    method NextEntrySizing(e: Entry) returns (shared: nat, unshared: nat, restart: bool)
      requires Valid()
      ensures restart == (entryCount % restartInterval == 0) && (es == [] ==> restart)
      ensures Marks(es + [e], ms + [restart]) && shared == SharedAt(es + [e], ms + [restart], |es|)
      ensures shared + unshared == |e.key|
    {
      hide Buf, Restarts, SharedAt, CommonPrefix, Ends, Marks;
      restart := entryCount % restartInterval == 0;
      var n: int := 0;
      if !restart && |lastKey| > 0 { n := CommonPrefixLen(lastKey, e.key); }
      if n > |e.key| { n := |e.key|; }
      FirstRestarts(es, restartInterval);
      NextShared(es, ms, first, lastKey, e, restart);
      shared := n;
      unshared := |e.key| - n;
    }

    method Add(e: Entry)
      requires Valid()
      modifies this
      ensures Valid() && es == old(es) + [e]
      ensures ms == old(ms) + [old(entryCount) % old(restartInterval) == 0]
      ensures if adaptive && entryCount % old(restartInterval) == 0 then sharedSum == keySum == 0
              else restartInterval == old(restartInterval) && keySum == old(keySum) + |e.key|
    {
      hide Buf, Restarts, SharedAt, Ends, Marks;
      var shared, unshared, restart := NextEntrySizing(e);
      Push(e, shared, unshared, restart);
      if adaptive && entryCount % restartInterval == 0 { AdaptRestartInterval(); }
    }

    /** Stores the entry as it was sized. */
    method Push(e: Entry, shared: nat, unshared: nat, restart: bool)
      requires Valid() && (es == [] ==> restart) && Marks(es + [e], ms + [restart])
               && shared == SharedAt(es + [e], ms + [restart], |es|)
      modifies `buf, `restartOffsets, `entryCount, `first, `lastKey, `sharedSum, `keySum, `es, `ms
      ensures Valid() && es == old(es) + [e] && ms == old(ms) + [restart]
      ensures sharedSum == old(sharedSum) + shared && keySum == old(keySum) + shared + unshared
    {
      hide Buf, Restarts, SharedAt, EncodeEntry, Ends, Marks;
      EndsStep(es, first, lastKey, e);
      if first.None? { first := Some(e.key); }
      if restart { restartOffsets := restartOffsets + [|buf|]; }
      buf := buf + EncodeEntry(shared, e);
      lastKey := e.key;
      entryCount := entryCount + 1;
      sharedSum := sharedSum + shared;
      keySum := keySum + shared + unshared;
      AppendLayout(es, ms, e, restart);
      es, ms := es + [e], ms + [restart];
    }

    /** Moves the restart interval between its bounds by the share of key bytes that were compressed. The share
        is computed in floating point: its rounding may move the result by one. */
    method AdaptRestartInterval()
      requires Valid()
      modifies this`restartInterval, this`sharedSum, this`keySum
      ensures Valid() && sharedSum == keySum == 0
      ensures old(keySum) == 0 ==> restartInterval == old(restartInterval)
      ensures old(keySum) > 0 && maxRestart != minRestart ==>
                var exact := minRestart
                    + (old(sharedSum) as real / old(keySum) as real * (maxRestart - minRestart) as real).Floor;
                minRestart <= restartInterval <= maxRestart && exact - 1 <= restartInterval <= exact + 1
    {
      hide Buf, Restarts;
      if keySum <= 0 || maxRestart == minRestart {
        sharedSum, keySum := 0, 0;
        return;
      }
      var ratio := sharedSum as real / keySum as real;
      ShareIsBounded(ratio, (maxRestart - minRestart) as real);
      var exact := (ratio * (maxRestart - minRestart) as real).Floor;
      var rounded: int :| exact - 1 <= rounded <= exact + 1;
      var target := minRestart + rounded;
      if target < minRestart { target := minRestart; }
      if target > maxRestart { target := maxRestart; }
      restartInterval := target;
      sharedSum, keySum := 0, 0;
    }

    method Reset()
      requires Valid()
      modifies this
      ensures Valid() && es == [] && restartInterval == baseRestart && sharedSum == keySum == 0
    {
      hide Buf, Restarts;
      buf, restartOffsets, entryCount, first, lastKey, sharedSum, keySum := [], [], 0, None, [], 0, 0;
      restartInterval := baseRestart;
      EmptyLayout();
      es, ms := [], [];
    }

    /** The exact length of the finished block, or 0 when nothing was added. */
    method SizeBytes() returns (n: nat)
      requires Valid()
      ensures n == if es == [] then 0 else |Payload(es, ms)|
      ensures n == 0 <==> es == []
    {
      if entryCount == 0 { return 0; }
      n := |buf| + |restartOffsets| * OFFSET_SIZE + COUNT_SIZE;
    }

    /** The exact length the finished block would have with one more entry. */
    method EstimatedSizeAfter(e: Entry) returns (n: nat)
      requires Valid()
      ensures Marks(es + [e], ms + [entryCount % restartInterval == 0])
      ensures n == |Payload(es + [e], ms + [entryCount % restartInterval == 0])|
    {
      var shared, unshared, restart := NextEntrySizing(e);
      AppendLayout(es, ms, e, restart);
      var entrySize := ENTRY_HEADER + unshared + |e.value|;
      var restarts := |restartOffsets|;
      if restart { restarts := restarts + 1; }
      n := |buf| + entrySize + restarts * OFFSET_SIZE + COUNT_SIZE;
    }

    method Finish() returns (out: bytes)
      requires Valid()
      ensures out == Payload(es, ms)
    {
      out := buf;
      for i := 0 to |restartOffsets|
        invariant out == buf + PutOffsets(restartOffsets[..i])
      {
        assert restartOffsets[..i + 1][..i] == restartOffsets[..i];
        out := out + PutLE(restartOffsets[i], OFFSET_SIZE);
      }
      assert restartOffsets[..|restartOffsets|] == restartOffsets;
      out := out + PutLE(|restartOffsets|, COUNT_SIZE);
    }
  }

  /** A share between 0 and 1 never leaves the interval: the clamps never bind. */
  lemma ShareIsBounded(ratio: real, width: real)
    requires 0.0 <= ratio <= 1.0 && width >= 0.0
    ensures 0.0 <= ratio * width <= width
  {
  }

  lemma EmptyLayout()
    ensures Buf([], []) == [] && Restarts([], []) == []
  {
  }

  lemma FirstRestarts(es: seq<Entry>, interval: int)
    requires interval > 0
    ensures es == [] ==> |es| % interval == 0
  {
  }

  lemma NextShared(es: seq<Entry>, ms: seq<bool>, first: Option<bytes>, lastKey: bytes, e: Entry, restart: bool)
    requires Marks(es, ms) && Ends(es, first, lastKey) && (es == [] ==> restart)
    ensures Marks(es + [e], ms + [restart])
    ensures SharedAt(es + [e], ms + [restart], |es|) == if !restart && |lastKey| > 0 then CommonPrefix(lastKey, e.key)
            else 0
  {
  }

  lemma AppendLayout(es: seq<Entry>, ms: seq<bool>, e: Entry, restart: bool)
    requires Marks(es, ms) && (es == [] ==> restart)
    ensures Marks(es + [e], ms + [restart])
    ensures Buf(es + [e], ms + [restart]) == Buf(es, ms) + EncodeEntry(SharedAt(es + [e], ms + [restart], |es|), e)
    ensures Restarts(es + [e], ms + [restart]) == Restarts(es, ms) + (if restart then [|Buf(es, ms)|] else [])
  {
    assert (es + [e])[..|es|] == es && (ms + [restart])[..|ms|] == ms;
  }
}
