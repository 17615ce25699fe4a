/** Proposals to the raft log: who is woken by which committed entry, and what a failure leaves behind.
    The raft library is an environment that hands out batches of committed entries. */
module RaftProposals {
  import opened Bytes

  datatype Proposal = Proposal(proposer: nat, request: bytes, id: nat, kind: string, control: Option<bytes>,
    data: Option<bytes>)

  datatype Record = Record(index: nat, term: nat, mutation: bytes)

  datatype Committed = Committed(id: nat, kind: string, control: Option<Record>, data: Option<Record>)

  datatype EntryKind = Normal | ConfChange | ConfChangeV2 | OtherKind

  datatype LogEntry = LogEntry(kind: EntryKind, index: nat, term: nat, data: bytes)

  /** The encodings in use: JSON for proposals, and whether a configuration change decodes. */
  datatype Codec = Codec(marshal: Proposal -> bytes, unmarshal: bytes -> Option<Proposal>, conf: bytes -> bool,
    confV2: bytes -> bool)

  ghost predicate RoundTrips(c: Codec)
  {
    forall p :: c.unmarshal(c.marshal(p)) == Some(p) && c.marshal(p) != []
  }

  /** One proposer's wait: its payload, its wake-up channel, and what it was woken with. */
  datatype Waiter = Waiter(payload: bytes, closed: bool, done: bool, control: Option<Record>, data: Option<Record>)

  datatype Answer = Won(control: Option<Record>, data: Option<Record>) | Lost

  datatype State = State(
    seqno: nat,
    waiters: map<nat, Waiter>,           // every proposal made, by its id
    pending: set<nat>,                   // the ids that a committed entry may still wake
    answers: map<nat, Answer>,           // what proposers were told
    committed: seq<Committed>,
    log: seq<LogEntry>,                  // the entries applied
    index: nat,
    term: nat,
    terminal: bool)

  const START := State(0, map[], {}, map[], [], [], 0, 0, false)

  // ---------- applying one committed entry ----------

  function ToCommitted(p: Proposal, e: LogEntry): (r: Option<Committed>)
  {
    if p.kind == "control" && p.control.Some? then
        Some(Committed(p.id, p.kind, Some(Record(e.index, e.term, p.control.value)), None))
    else if p.kind == "data" && p.data.Some? then
        Some(Committed(p.id, p.kind, None, Some(Record(e.index, e.term, p.data.value))))
    else None
  }

  /** What a non-empty normal entry commits. */
  function Parsed(c: Codec, e: LogEntry): (r: Option<Committed>)
  {
    var p := c.unmarshal(e.data);
    if p.None? then None else ToCommitted(p.value, e)
  }

  predicate Carries(e: LogEntry)
  {
    e.kind.Normal? && e.data != []
  }

  predicate Accepts(c: Codec, e: LogEntry)
  {
    match e.kind
    case Normal => e.data == [] || Parsed(c, e).Some?
    case ConfChange => c.conf(e.data)
    case ConfChangeV2 => c.confV2(e.data)
    case OtherKind => true
  }

  predicate Wakes(s: State, id: nat, e: LogEntry)
  {
    id in s.pending && id in s.waiters && s.waiters[id].payload == e.data
  }

  function Wake(s: State, e: LogEntry, r: Committed): (t: State)
  {
    if !Wakes(s, r.id, e) then s
    else s.(waiters := s.waiters[r.id := s.waiters[r.id].(closed := true, done := true, control := r.control,
      data := r.data)],
            pending := s.pending - {r.id})
  }

  function Seen(s: State, e: LogEntry): (t: State)
  {
    s.(index := if e.index > 0 then e.index else s.index, term := if e.term > 0 then e.term else s.term)
  }

  /** An accepted entry takes effect; a rejected one is only seen. */
  function Take(c: Codec, s: State, e: LogEntry): (t: State)
  {
    var u := Seen(s, e);
    if !Accepts(c, e) then u
    else
      var v := u.(log := u.log + [e]);
      if !Carries(e) then v
      else var r := Parsed(c, e).value; Wake(v.(committed := v.committed + [r]), e, r)
  }

  predicate AllAccepted(c: Codec, es: seq<LogEntry>)
  {
    forall i :: 0 <= i < |es| ==> Accepts(c, es[i])
  }

  /** Entries in order, up to and including the first rejected one. */
  function TakeAll(c: Codec, s: State, es: seq<LogEntry>): (t: State)
  {
    if es == [] then s
    else
      var n := |es| - 1;
      var t := TakeAll(c, s, es[..n]);
      if AllAccepted(c, es[..n]) then Take(c, t, es[n]) else t
  }

  // ---------- the steps ----------

  /** The latched failure wakes everybody who is still pending. */
  ghost function Fail(s: State): (t: State)
  {
    s.(terminal := true,
       waiters := map id | id in s.waiters :: if id in s.pending && !s.waiters[id].done then
           s.waiters[id].(closed := true) else s.waiters[id])
  }

  /** A batch: whether storing it and stepping its own messages went well, and what it commits. */
  datatype Ready = Ready(stored: bool, entries: seq<LogEntry>)

  ghost function Advance(c: Codec, s: State, r: Ready): (t: State)
  {
    if s.terminal then s
    else if !r.stored then Fail(s)
    else if AllAccepted(c, r.entries) then TakeAll(c, s, r.entries)
    else Fail(TakeAll(c, s, r.entries))
  }

  datatype Request = Request(node: nat, nonce: bytes, kind: string, control: Option<bytes>, data: Option<bytes>)

  function Named(q: Request, id: nat): (p: Proposal)
  {
    Proposal(q.node, q.nonce, id, q.kind, q.control, q.data)
  }

  /** A proposal is numbered by a leader only, and stays registered only if raft takes it. */
  function Propose(c: Codec, s: State, q: Request, leader: bool, taken: bool): (t: State)
  {
    if s.terminal || !leader then s
    else
      var id := s.seqno + 1;
      if !taken then s.(seqno := id)
      else s.(seqno := id, pending := s.pending + {id},
        waiters := s.waiters[id := Waiter(c.marshal(Named(q, id)), false, false, None, None)])
  }

  predicate Asks(s: State, id: nat)
  {
    id in s.waiters && id !in s.answers
  }

  function GiveUp(s: State, id: nat): (t: State)
  {
    if !Asks(s, id) then s else s.(pending := s.pending - {id}, answers := s.answers[id := Lost])
  }

  /** A proposer looks: done first, then the failure, then its deadline. */
  function Poll(s: State, id: nat, expired: bool): (t: State)
  {
    if !Asks(s, id) then s
    else if s.waiters[id].done then s.(answers := s.answers[id := Won(s.waiters[id].control, s.waiters[id].data)])
    else if s.terminal || expired then GiveUp(s, id)
    else s
  }

  datatype Event =
    | Proposing(q: Request, leader: bool, taken: bool)
    | Advancing(r: Ready)
    | Polling(id: nat, expired: bool)
    | Erring(id: nat)                    // the proposer's own advance fails, done or not

  ghost function Next(c: Codec, s: State, ev: Event): (t: State)
  {
    match ev
    case Proposing(q, leader, taken) => Propose(c, s, q, leader, taken)
    case Advancing(r) => Advance(c, s, r)
    case Polling(id, expired) => Poll(s, id, expired)
    case Erring(id) => GiveUp(s, id)
  }

  ghost function Run(c: Codec, s: State, evs: seq<Event>): (t: State)
  {
    if evs == [] then s else Next(c, Run(c, s, evs[..|evs| - 1]), evs[|evs| - 1])
  }

  // ---------- the invariant ----------

  /** The entry is byte for byte the waiter's payload, and the waiter holds what it commits. */
  ghost predicate WonBy(c: Codec, w: Waiter, e: LogEntry)
  {
    && Carries(e) && e.data == w.payload && Parsed(c, e).Some?
    && w.control == Parsed(c, e).value.control && w.data == Parsed(c, e).value.data
  }

  ghost predicate HasWinner(c: Codec, w: Waiter, log: seq<LogEntry>)
  {
    exists k :: 0 <= k < |log| && WonBy(c, w, log[k])
  }

  ghost predicate Numbered(c: Codec, s: State)
  {
    && s.pending <= s.waiters.Keys && s.answers.Keys <= s.waiters.Keys
    && forall id :: id in s.waiters ==>
         id <= s.seqno && c.unmarshal(s.waiters[id].payload).Some? && c.unmarshal(s.waiters[id].payload).value.id == id
  }

  /** A wake-up channel is open while there is something to wait for, and never closed otherwise than
      by the one event that ends the wait. */
  ghost predicate WaiterOk(c: Codec, s: State, id: nat)
    requires id in s.waiters
  {
    var w := s.waiters[id];
    && (id in s.pending ==> !w.done && id !in s.answers && (w.closed <==> s.terminal))
    && (id !in s.pending && !w.done ==> id in s.answers && s.answers[id].Lost?)
    && (!s.terminal && !w.done ==> !w.closed)
    && (w.done ==> w.closed && HasWinner(c, w, s.log))
    && (id in s.answers && s.answers[id].Won? ==> w.done && s.answers[id] == Won(w.control, w.data))
  }

  ghost predicate WaitersOk(c: Codec, s: State)
  {
    forall id :: id in s.waiters ==> WaiterOk(c, s, id)
  }

  function Accepted(c: Codec, log: seq<LogEntry>): (r: seq<Committed>)
  {
    if log == [] then []
    else
      var n := |log| - 1;
      Accepted(c, log[..n]) + (if Carries(log[n]) && Parsed(c, log[n]).Some? then [Parsed(c, log[n]).value] else [])
  }

  ghost predicate Inv(c: Codec, s: State)
  {
    Numbered(c, s) && WaitersOk(c, s) && s.committed == Accepted(c, s.log)
  }

  lemma LongerLog(c: Codec, w: Waiter, log: seq<LogEntry>, e: LogEntry)
    requires HasWinner(c, w, log)
    ensures HasWinner(c, w, log + [e])
  {
    var k :| 0 <= k < |log| && WonBy(c, w, log[k]);
    assert (log + [e])[k] == log[k];
  }

  lemma ParsedId(c: Codec, e: LogEntry)
    requires Parsed(c, e).Some?
    ensures c.unmarshal(e.data).Some? && Parsed(c, e).value.id == c.unmarshal(e.data).value.id
  {
  }

  /** The waiter an accepted entry wakes. */
  lemma TakeWaiter(c: Codec, s: State, e: LogEntry, id: nat)
    requires Numbered(c, s) && WaitersOk(c, s) && !s.terminal && id in s.waiters && Accepts(c, e)
    ensures var t := Take(c, s, e);
            id in t.waiters && WaiterOk(c, t, id) && t.waiters[id].payload == s.waiters[id].payload
  {
    hide Parsed, ToCommitted, HasWinner;
    var w, t := s.waiters[id], Take(c, s, e);
    assert WaiterOk(c, s, id);
    if w.done { LongerLog(c, w, s.log, e); }
    if Carries(e) && Parsed(c, e).value.id == id && Wakes(s, id, e) {
      assert WonBy(c, t.waiters[id], t.log[|s.log|]);
      assert HasWinner(c, t.waiters[id], t.log) by { Witnessed(c, t.waiters[id], t.log, |s.log|); }
    }
  }

  lemma Witnessed(c: Codec, w: Waiter, log: seq<LogEntry>, k: nat)
    requires k < |log| && WonBy(c, w, log[k])
    ensures HasWinner(c, w, log)
  {
  }

  lemma TakeKeepsInv(c: Codec, s: State, e: LogEntry)
    requires Inv(c, s) && !s.terminal
    ensures Inv(c, Take(c, s, e)) && !Take(c, s, e).terminal
    ensures Take(c, s, e).log == if Accepts(c, e) then s.log + [e] else s.log
  {
    hide WaiterOk, HasWinner, Parsed, Accepted;
    var t := Take(c, s, e);
    if Accepts(c, e) {
      forall id | id in s.waiters
        ensures WaiterOk(c, t, id) && t.waiters[id].payload == s.waiters[id].payload
      {
        TakeWaiter(c, s, e, id);
      }
      AcceptedOne(c, s.log, e);
    } else {
      forall id | id in s.waiters ensures WaiterOk(c, t, id) { SeenKeeps(c, s, e, id); }
    }
  }

  lemma AcceptedOne(c: Codec, log: seq<LogEntry>, e: LogEntry)
    requires Accepts(c, e)
    ensures Accepted(c, log + [e]) == if Carries(e) then Accepted(c, log) + [Parsed(c, e).value] else Accepted(c, log)
  {
    assert (log + [e])[..|log|] == log;
    assert Accepted(c, log) + [] == Accepted(c, log);
  }

  lemma SeenKeeps(c: Codec, s: State, e: LogEntry, id: nat)
    requires id in s.waiters && WaitersOk(c, s)
    ensures WaiterOk(c, Seen(s, e), id)
  {
    assert WaiterOk(c, s, id);
  }

  /** The entries of a batch that count: all of them, or those before the first rejected one. */
  function Good(c: Codec, es: seq<LogEntry>): (r: seq<LogEntry>)
    ensures r <= es && (AllAccepted(c, es) ==> r == es)
  {
    if es == [] then []
    else
      var n := |es| - 1;
      var r := Good(c, es[..n]);
      if AllAccepted(c, es[..n]) && Accepts(c, es[n]) then es else r
  }

  lemma {:induction false} TakeAllKeepsInv(c: Codec, s: State, es: seq<LogEntry>)
    requires Inv(c, s) && !s.terminal
    ensures Inv(c, TakeAll(c, s, es)) && !TakeAll(c, s, es).terminal
    ensures TakeAll(c, s, es).log == s.log + Good(c, es)
  {
    hide Inv, Take, Accepts;
    if es == [] {
      assert s.log + [] == s.log;
    } else {
      var n := |es| - 1;
      TakeAllKeepsInv(c, s, es[..n]);
      if AllAccepted(c, es[..n]) {
        TakeKeepsInv(c, TakeAll(c, s, es[..n]), es[n]);
        assert es == es[..n] + [es[n]];
        assert (s.log + es[..n]) + [es[n]] == s.log + es;
      }
    }
  }

  lemma FailKeepsInv(c: Codec, s: State)
    requires Inv(c, s) && !s.terminal
    ensures Inv(c, Fail(s))
  {
    hide HasWinner;
    forall id | id in s.waiters ensures WaiterOk(c, Fail(s), id) { assert WaiterOk(c, s, id); FailedWinner(c, s, id); }
  }

  lemma FailedWinner(c: Codec, s: State, id: nat)
    requires id in s.waiters && WaiterOk(c, s, id)
    ensures s.waiters[id].done ==> HasWinner(c, Fail(s).waiters[id], Fail(s).log)
  {
  }

  lemma AdvanceKeepsInv(c: Codec, s: State, r: Ready)
    requires Inv(c, s)
    ensures Inv(c, Advance(c, s, r))
  {
    hide Inv, TakeAll, Fail;
    if !s.terminal {
      if r.stored {
        TakeAllKeepsInv(c, s, r.entries);
        FailKeepsInv(c, TakeAll(c, s, r.entries));
      } else {
        FailKeepsInv(c, s);
      }
    }
  }

  lemma ProposeKeepsInv(c: Codec, s: State, q: Request, leader: bool, taken: bool)
    requires RoundTrips(c) && Inv(c, s)
    ensures Inv(c, Propose(c, s, q, leader, taken))
  {
    hide HasWinner;
    var t := Propose(c, s, q, leader, taken);
    forall id | id in t.waiters ensures WaiterOk(c, t, id) { assert id in s.waiters ==> WaiterOk(c, s, id); }
  }

  lemma PollKeepsInv(c: Codec, s: State, id: nat, expired: bool)
    requires Inv(c, s)
    ensures Inv(c, Poll(s, id, expired)) && Inv(c, GiveUp(s, id))
  {
    hide HasWinner;
    var t, u := Poll(s, id, expired), GiveUp(s, id);
    forall j | j in s.waiters ensures WaiterOk(c, t, j) && WaiterOk(c, u, j) { assert WaiterOk(c, s, j); }
  }

  lemma NextKeepsInv(c: Codec, s: State, ev: Event)
    requires RoundTrips(c) && Inv(c, s)
    ensures Inv(c, Next(c, s, ev))
  {
    hide Inv, Propose, Advance, Poll, GiveUp;
    match ev
    case Proposing(q, leader, taken) => ProposeKeepsInv(c, s, q, leader, taken);
    case Advancing(r) => AdvanceKeepsInv(c, s, r);
    case Polling(id, expired) => PollKeepsInv(c, s, id, expired);
    case Erring(id) => PollKeepsInv(c, s, id, false);
  }

  lemma {:induction false} RunKeepsInv(c: Codec, s: State, evs: seq<Event>)
    requires RoundTrips(c) && Inv(c, s)
    ensures Inv(c, Run(c, s, evs))
  {
    hide Inv, Next;
    if evs != [] {
      RunKeepsInv(c, s, evs[..|evs| - 1]);
      NextKeepsInv(c, Run(c, s, evs[..|evs| - 1]), evs[|evs| - 1]);
    }
  }

  // ---------- what every run guarantees ----------

  lemma StartOk(c: Codec)
    ensures Inv(c, START)
  {
  }

  /** The answer is the proposal's own mutation, at the entry's place in the log. */
  ghost predicate Tells(a: Answer, p: Proposal, e: LogEntry)
  {
    a.Won? && ToCommitted(p, e) == Some(Committed(p.id, p.kind, a.control, a.data))
  }

  /** A proposer is told of success only through an applied entry that is its own payload, and is told
      its own mutation, at the point where that entry was committed. */
  lemma SuccessIsCommitted(c: Codec, evs: seq<Event>, id: nat)
    requires RoundTrips(c)
    requires var t := Run(c, START, evs); id in t.answers && t.answers[id].Won?
    ensures var t := Run(c, START, evs);
            && id in t.waiters && c.unmarshal(t.waiters[id].payload).Some?
            && var p := c.unmarshal(t.waiters[id].payload).value;
            && p.id == id
            && exists k ::
                 0 <= k < |t.log| && t.log[k].data == t.waiters[id].payload && Tells(t.answers[id], p, t.log[k])
  {
    var t := Run(c, START, evs);
    RunKeepsInv(c, START, evs);
    assert WaiterOk(c, t, id);
    var w := t.waiters[id];
    var k :| 0 <= k < |t.log| && WonBy(c, w, t.log[k]);
    assert t.log[k].data == w.payload;
  }

  /** One entry wakes at most one proposer. */
  lemma OneEntryOneWinner(c: Codec, evs: seq<Event>, i: nat, j: nat)
    requires RoundTrips(c) && i != j && i in Run(c, START, evs).waiters && j in Run(c, START, evs).waiters
    ensures forall e :: !(WonBy(c, Run(c, START, evs).waiters[i], e) && WonBy(c, Run(c, START, evs).waiters[j], e))
  {
    RunKeepsInv(c, START, evs);
  }

  /** After a failure nobody waits on an open channel: the next look of every proposer that has no
      answer yet gives it one. */
  lemma FailureWakesAll(c: Codec, evs: seq<Event>, id: nat)
    requires RoundTrips(c) && Run(c, START, evs).terminal && Asks(Run(c, START, evs), id)
    ensures Run(c, START, evs).waiters[id].closed
    ensures id in Poll(Run(c, START, evs), id, false).answers
  {
    RunKeepsInv(c, START, evs);
    assert WaiterOk(c, Run(c, START, evs), id);
  }

  /** Nothing is applied, acknowledged or newly proposed after a failure. */
  lemma {:induction false} FailureIsFinal(c: Codec, s: State, evs: seq<Event>)
    requires s.terminal
    ensures var t := Run(c, s, evs);
            && t.terminal && t.log == s.log && t.committed == s.committed && t.index == s.index && t.term == s.term
            && t.waiters == s.waiters
            && forall id :: id in t.answers && id !in s.answers && t.answers[id].Won? ==>
                 id in s.waiters && s.waiters[id].done
  {
    if evs != [] { FailureIsFinal(c, s, evs[..|evs| - 1]); }
  }

  /** Batches hand out a committed log in order: raft's own promise. */
  ghost predicate Feeds(raft: seq<LogEntry>, s: State, ev: Event)
  {
    ev.Advancing? && !s.terminal ==> s.log + ev.r.entries <= raft
  }

  ghost predicate Fed(c: Codec, raft: seq<LogEntry>, evs: seq<Event>)
  {
    forall i :: 0 <= i < |evs| ==> Feeds(raft, Run(c, START, evs[..i]), evs[i])
  }

  /** Every run applies a prefix of the raft log, and what it hands on is what that prefix commits. */
  lemma {:induction false} EveryRunAppliesAPrefix(c: Codec, raft: seq<LogEntry>, evs: seq<Event>)
    requires RoundTrips(c) && Fed(c, raft, evs)
    ensures var t := Run(c, START, evs); t.log <= raft && t.committed == Accepted(c, t.log)
  {
    hide WaitersOk, Next;
    StartOk(c);
    RunKeepsInv(c, START, evs);
    if evs != [] {
      var n := |evs| - 1;
      FedBefore(c, raft, evs);
      EveryRunAppliesAPrefix(c, raft, evs[..n]);
      RunKeepsInv(c, START, evs[..n]);
      LogGrows(c, raft, Run(c, START, evs[..n]), evs[n]);
    }
  }

  lemma FedBefore(c: Codec, raft: seq<LogEntry>, evs: seq<Event>)
    requires evs != [] && Fed(c, raft, evs)
    ensures Fed(c, raft, evs[..|evs| - 1]) && Feeds(raft, Run(c, START, evs[..|evs| - 1]), evs[|evs| - 1])
  {
    var before := evs[..|evs| - 1];
    forall i | 0 <= i < |before|
      ensures Feeds(raft, Run(c, START, before[..i]), before[i])
    {
      assert before[..i] == evs[..i];
    }
  }

  lemma LogGrows(c: Codec, raft: seq<LogEntry>, s: State, ev: Event)
    requires Inv(c, s) && Feeds(raft, s, ev) && s.log <= raft
    ensures Next(c, s, ev).log <= raft
  {
    hide Inv, TakeAll, Accepts;
    if ev.Advancing? && !s.terminal && ev.r.stored {
      TakeAllKeepsInv(c, s, ev.r.entries);
      assert s.log + Good(c, ev.r.entries) <= s.log + ev.r.entries;
    }
  }

  /** Two nodes on one raft log hand on the same entries, as far as both have come. */
  lemma NodesAgree(c: Codec, raft: seq<LogEntry>, evs: seq<Event>, other: seq<Event>)
    requires RoundTrips(c) && Fed(c, raft, evs) && Fed(c, raft, other)
    ensures Run(c, START, evs).committed <= Run(c, START, other).committed
            || Run(c, START, other).committed <= Run(c, START, evs).committed
  {
    var s, t := Run(c, START, evs), Run(c, START, other);
    EveryRunAppliesAPrefix(c, raft, evs);
    EveryRunAppliesAPrefix(c, raft, other);
    if |s.log| <= |t.log| { AcceptedPrefix(c, s.log, t.log); } else { AcceptedPrefix(c, t.log, s.log); }
  }

  lemma {:induction false} AcceptedPrefix(c: Codec, a: seq<LogEntry>, b: seq<LogEntry>)
    requires a <= b
    ensures Accepted(c, a) <= Accepted(c, b)
    decreases |b|
  {
    if |a| < |b| {
      AcceptedPrefix(c, a, b[..|b| - 1]);
    } else {
      assert a == b;
    }
  }

  /** An entry that is a pending proposer's payload wakes that proposer, whatever else its batch holds. */
  lemma MatchingEntryWakes(c: Codec, s: State, es: seq<LogEntry>, k: nat, id: nat)
    requires Inv(c, s) && !s.terminal && AllAccepted(c, es) && k < |es| && Carries(es[k])
    requires id in s.pending && id in s.waiters && es[k].data == s.waiters[id].payload
    ensures var t := Advance(c, s, Ready(true, es)); id in t.waiters && t.waiters[id].done && t.waiters[id].closed
  {
    hide Parsed;
    TakeAllKeepsInv(c, s, es[..k]);
    var u := TakeAll(c, s, es[..k]);
    TakeAllWaiter(c, s, es[..k], id);
    assert WaiterOk(c, u, id);
    ParsedId(c, es[k]);
    assert es[..k + 1][..k] == es[..k];
    assert TakeAll(c, s, es[..k + 1]) == Take(c, u, es[k]);
    DoneStays(c, s, es, k + 1, id);
  }

  /** Taking entries keeps every waiter, and wakes those it drops from the pending set. */
  lemma {:induction false} TakeAllWaiter(c: Codec, s: State, es: seq<LogEntry>, id: nat)
    requires id in s.waiters
    ensures var t := TakeAll(c, s, es);
            && id in t.waiters && t.waiters[id].payload == s.waiters[id].payload
            && (id in s.pending ==> id in t.pending || t.waiters[id].done)
               && (s.waiters[id].done ==> t.waiters[id].done)
  {
    hide Take, Accepts;
    if es != [] {
      var n := |es| - 1;
      TakeAllWaiter(c, s, es[..n], id);
      TakeOneWaiter(c, TakeAll(c, s, es[..n]), es[n], id);
    }
  }

  lemma TakeOneWaiter(c: Codec, s: State, e: LogEntry, id: nat)
    requires id in s.waiters
    ensures var t := Take(c, s, e);
            && id in t.waiters && t.waiters[id].payload == s.waiters[id].payload
            && (id in s.pending ==> id in t.pending || t.waiters[id].done)
               && (s.waiters[id].done ==> t.waiters[id].done)
  {
  }

  lemma {:induction false} DoneStays(c: Codec, s: State, es: seq<LogEntry>, k: nat, id: nat)
    requires Inv(c, s) && !s.terminal && k <= |es| && AllAccepted(c, es)
    requires var t := TakeAll(c, s, es[..k]); id in t.waiters && t.waiters[id].done
    ensures var t := TakeAll(c, s, es); id in t.waiters && t.waiters[id].done && t.waiters[id].closed
    decreases |es| - k
  {
    hide Parsed, Accepts, HasWinner;
    if k == |es| {
      assert es[..k] == es;
      TakeAllKeepsInv(c, s, es);
      assert WaiterOk(c, TakeAll(c, s, es), id);
    } else {
      assert es[..k + 1][..k] == es[..k];
      assert AllAccepted(c, es[..k]);
      DoneStays(c, s, es, k + 1, id);
    }
  }

  /** An error is no proof of absence: a proposer can be told of a failure although its entry is
      committed and applied. */
  lemma LostMayBeCommitted(c: Codec, q: Request)
    requires RoundTrips(c) && q.kind == "data" && q.data.Some?
    ensures var e := LogEntry(Normal, 1, 1, c.marshal(Named(q, 1)));
            var t := Run(c, START, [Proposing(q, true, true), Advancing(Ready(true, [e])), Erring(1)]);
            && t.answers == map[1 := Lost]
            && t.committed == [Committed(1, "data", None, Some(Record(1, 1, q.data.value)))]
  {
    var e := LogEntry(Normal, 1, 1, c.marshal(Named(q, 1)));
    var a, b, d := Proposing(q, true, true), Advancing(Ready(true, [e])), Erring(1);
    var s := Propose(c, START, q, true, true);
    assert [a, b, d][..2] == [a, b] && [a, b][..1] == [a] && [a][..0] == [];
    assert Run(c, START, [a]) == s;
    assert [e][..0] == [];
    var t := Take(c, s, e);
    assert TakeAll(c, s, [e]) == t;
    assert Run(c, START, [a, b]) == t;
  }

  // ---------- the log as an object ----------

  class Consensus {
    const codec: Codec
    var proposalSeq: nat
    var waiters: map<nat, Waiter>
    var pending: set<nat>
    var committed: seq<Committed>
    var index: nat
    var term: nat
    var terminal: bool

    ghost var answers: map<nat, Answer>
    ghost var log: seq<LogEntry>

    ghost function Value(): (s: State)
      reads this
    {
      State(proposalSeq, waiters, pending, answers, committed, log, index, term, terminal)
    }

    ghost predicate Valid()
      reads this
    {
      Inv(codec, Value())
    }

    constructor (c: Codec)
      ensures Valid() && codec == c && Value() == START
    {
      codec := c;
      proposalSeq, waiters, pending, committed, index, term, terminal := 0, map[], {}, [], 0, 0, false;
      answers, log := map[], [];
    }

    /** Closing a closed channel would panic. */
    method Close(id: nat)
      requires id in waiters && !waiters[id].closed
      modifies `waiters
      ensures waiters == old(waiters)[id := old(waiters)[id].(closed := true)]
    {
      waiters := waiters[id := waiters[id].(closed := true)];
    }

    /** Wakes the proposer whose payload the entry is, byte for byte. */
    method WakeProposer(e: LogEntry, r: Committed)
      requires forall id :: id in pending ==> id in waiters && !waiters[id].closed
      modifies `waiters, `pending
      ensures Value() == Wake(old(Value()), e, r)
    {
      if r.id in pending && waiters[r.id].payload == e.data {
        waiters := waiters[r.id := waiters[r.id].(control := r.control, data := r.data, done := true)];
        Close(r.id);
        pending := pending - {r.id};
      }
    }

    method ApplyCommittedEntry(e: LogEntry) returns (ok: bool)
      requires Valid() && !terminal
      modifies `waiters, `pending, `committed, `index, `term, `log
      ensures Valid() && !terminal && Value() == Take(codec, old(Value()), e) && ok == Accepts(codec, e)
    {
      hide Inv, ToCommitted, Wake;
      TakeKeepsInv(codec, Value(), e);
      if e.index > 0 { index := e.index; }
      if e.term > 0 { term := e.term; }
      match e.kind
      case Normal =>
        if |e.data| == 0 {
          log := log + [e];
          return true;
        }
        var p := codec.unmarshal(e.data);
        if p.None? { return false; }
        var r := ToCommitted(p.value, e);
        if r.None? { return false; }
        committed := committed + [r.value];
        log := log + [e];
        ParsedId(codec, e);
        AllOpen(codec, old(Value()));
        WakeProposer(e, r.value);
        return true;
      case ConfChange =>
        ok := codec.conf(e.data);
        if ok { log := log + [e]; }
      case ConfChangeV2 =>
        ok := codec.confV2(e.data);
        if ok { log := log + [e]; }
      case OtherKind =>
        log := log + [e];
        ok := true;
    }

    /** The failure handler: wakes every pending waiter that is not done. */
    method Latch()
      requires Valid() && !terminal
      modifies `terminal, `waiters
      ensures Valid() && Value() == Fail(old(Value()))
    {
      hide Inv, Fail;
      ghost var before := Value();
      FailKeepsInv(codec, before);
      AllOpen(codec, before);
      terminal := true;
      var rest := pending;
      while rest != {}
        invariant terminal && rest <= pending && waiters.Keys == before.waiters.Keys
        invariant forall id :: id in rest ==> id in waiters && !waiters[id].closed && !waiters[id].done
        invariant forall id :: id in waiters ==>
                    waiters[id] == if id in pending - rest then before.waiters[id].(closed := true)
                      else before.waiters[id]
        decreases rest
      {
        var id :| id in rest;
        rest := rest - {id};
        if !waiters[id].done { Close(id); }
      }
      FailIs(before, Value());
    }

    /** One batch from raft, up to the point where its messages may be sent. */
    method AdvanceOneReady(r: Ready) returns (ok: bool)
      requires Valid()
      modifies `waiters, `pending, `committed, `index, `term, `log, `terminal
      ensures Valid() && Value() == Advance(codec, old(Value()), r) && ok == !terminal
    {
      hide Inv, Fail, TakeAll, Take, Accepts;
      if terminal { return false; }
      if !r.stored {
        Latch();
        assert Fail(old(Value())).terminal by { FailIsTerminal(old(Value())); }
        return false;
      }
      ghost var before := Value();
      NothingTaken(codec, before);
      for i := 0 to |r.entries|
        invariant Valid() && !terminal && Value() == TakeAll(codec, before, r.entries[..i])
                  && AllAccepted(codec, r.entries[..i])
      {
        var taken := ApplyCommittedEntry(r.entries[i]);
        TakeOneMore(codec, before, r.entries, i);
        if !taken {
          FailIsTerminal(Value());
          Latch();
          return false;
        }
      }
      assert r.entries[..|r.entries|] == r.entries;
      ok := true;
    }

    /** Registers a proposal; none is registered after a failure or away from the leader. */
    method ProposeMutation(q: Request, leader: bool, taken: bool) returns (id: Option<nat>)
      requires Valid() && RoundTrips(codec)
      modifies `proposalSeq, `waiters, `pending
      ensures Valid() && Value() == Propose(codec, old(Value()), q, leader, taken)
      ensures id.Some? <==> !terminal && leader && taken
      ensures id.Some? ==> id.value in pending && id.value !in old(waiters)
    {
      hide Inv, RoundTrips;
      ProposeKeepsInv(codec, Value(), q, leader, taken);
      IdIsNew(codec, Value());
      if terminal || !leader { return None; }
      proposalSeq := proposalSeq + 1;
      if !taken { return None; }
      waiters := waiters[proposalSeq := Waiter(codec.marshal(Named(q, proposalSeq)), false, false, None, None)];
      pending := pending + {proposalSeq};
      return Some(proposalSeq);
    }

    /** One turn of a proposer's loop: None means that it goes on waiting. */
    method Look(id: nat, expired: bool) returns (answer: Option<Answer>)
      requires Valid() && Asks(Value(), id)
      modifies `pending, `answers
      ensures Valid() && Value() == Poll(old(Value()), id, expired)
      ensures answer == if id in answers then Some(answers[id]) else None
      ensures answer.None? ==> id in pending && !waiters[id].closed
    {
      hide Inv;
      PollKeepsInv(codec, Value(), id, expired);
      OpenOrAnswered(codec, Value(), id);
      var w := waiters[id];
      if w.done {
        answers := answers[id := Won(w.control, w.data)];
        return Some(Won(w.control, w.data));
      }
      if terminal || expired {
        pending := pending - {id};
        answers := answers[id := Lost];
        return Some(Lost);
      }
      return None;
    }

    /** A proposer whose own advance fails leaves with the error, done or not. */
    method Abandon(id: nat)
      requires Valid() && Asks(Value(), id)
      modifies `pending, `answers
      ensures Valid() && Value() == GiveUp(old(Value()), id)
    {
      hide Inv;
      PollKeepsInv(codec, Value(), id, true);
      pending := pending - {id};
      answers := answers[id := Lost];
    }
  }

  lemma OpenWhilePending(c: Codec, s: State, id: nat)
    requires Inv(c, s) && !s.terminal && id in s.pending
    ensures id in s.waiters && !s.waiters[id].closed && !s.waiters[id].done
  {
    assert WaiterOk(c, s, id);
  }

  lemma AllOpen(c: Codec, s: State)
    requires Inv(c, s) && !s.terminal
    ensures forall id :: id in s.pending ==> id in s.waiters && !s.waiters[id].closed && !s.waiters[id].done
  {
    forall id | id in s.pending
      ensures id in s.waiters && !s.waiters[id].closed && !s.waiters[id].done
    {
      OpenWhilePending(c, s, id);
    }
  }

  lemma OpenOrAnswered(c: Codec, s: State, id: nat)
    requires Inv(c, s) && Asks(s, id)
    ensures s.waiters[id].done || s.terminal || (id in s.pending && !s.waiters[id].closed)
  {
    assert WaiterOk(c, s, id);
  }

  lemma IdIsNew(c: Codec, s: State)
    requires Inv(c, s)
    ensures s.seqno + 1 !in s.waiters
  {
  }

  lemma FailIs(s: State, t: State)
    requires s.pending <= s.waiters.Keys && t == s.(terminal := true, waiters := t.waiters)
             && t.waiters.Keys == s.waiters.Keys
    requires forall id :: id in s.pending ==> !s.waiters[id].done
    requires forall id :: id in t.waiters ==>
               t.waiters[id] == if id in s.pending then s.waiters[id].(closed := true) else s.waiters[id]
    ensures t == Fail(s)
  {
  }

  lemma FailIsTerminal(s: State)
    ensures Fail(s).terminal
  {
  }

  lemma NothingTaken(c: Codec, s: State)
    ensures TakeAll(c, s, []) == s
  {
  }

  lemma TakeOneMore(c: Codec, s: State, es: seq<LogEntry>, i: nat)
    requires i < |es| && AllAccepted(c, es[..i])
    ensures TakeAll(c, s, es[..i + 1]) == Take(c, TakeAll(c, s, es[..i]), es[i])
    ensures AllAccepted(c, es[..i + 1]) <==> Accepts(c, es[i])
    ensures !Accepts(c, es[i]) ==> !AllAccepted(c, es) && TakeAll(c, s, es) == TakeAll(c, s, es[..i + 1])
  {
    assert es[..i + 1][..i] == es[..i];
    assert es[..i + 1][i] == es[i];
    if !Accepts(c, es[i]) { NoMore(c, s, es, i + 1); }
  }

  /** What follows a rejected entry does not matter. */
  lemma {:induction false} NoMore(c: Codec, s: State, es: seq<LogEntry>, i: nat)
    requires i <= |es| && !AllAccepted(c, es[..i])
    ensures !AllAccepted(c, es) && TakeAll(c, s, es) == TakeAll(c, s, es[..i])
    decreases |es|
  {
    if i == |es| {
      assert es[..i] == es;
    } else {
      var before := es[..|es| - 1];
      assert before[..i] == es[..i];
      NoMore(c, s, before, i);
    }
  }
}
