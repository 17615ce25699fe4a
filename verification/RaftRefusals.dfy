/** What an error tells a proposer: a refusal before the proposal proves that nothing was proposed, and no
    other error proves anything. */
module RaftRefusals {
  import opened Bytes
  import opened RaftProposals

  // ---------- where committed entries come from ----------

  /** Whether a payload carries the identity of a request: its node and its random nonce. */
  ghost predicate Names(c: Codec, payload: bytes, q: Request)
  {
    var p := c.unmarshal(payload);
    p.Some? && p.value.proposer == q.node && p.value.request == q.nonce
  }

  ghost predicate InLog(c: Codec, log: seq<LogEntry>, q: Request)
  {
    exists k :: 0 <= k < |log| && Carries(log[k]) && Names(c, log[k].data, q)
  }

  /** The two requests there are. */
  predicate WellFormed(q: Request)
  {
    (q.kind == "control" && q.control.Some?) || (q.kind == "data" && q.data.Some?)
  }

  ghost predicate Registered(s: State, payload: bytes)
  {
    exists id :: id in s.waiters && s.waiters[id].payload == payload
  }

  /** Raft commits only what it was handed: by this process, or elsewhere. */
  ghost predicate Handed(elsewhere: iset<bytes>, s: State, ev: Event)
  {
    ev.Advancing? ==>
      forall k :: 0 <= k < |ev.r.entries| && Carries(ev.r.entries[k]) ==>
        ev.r.entries[k].data in elsewhere || Registered(s, ev.r.entries[k].data)
  }

  ghost predicate SameRequest(q: Request, r: Request)
  {
    q.node == r.node && q.nonce == r.nonce
  }

  /** Nonces are fresh: no two requests of this process share one, and no payload from elsewhere has one. */
  ghost predicate Fresh(c: Codec, elsewhere: iset<bytes>, evs: seq<Event>)
  {
    && (forall i, j :: 0 <= i < j < |evs| && evs[i].Proposing? && evs[j].Proposing? ==>
         !SameRequest(evs[i].q, evs[j].q))
    && (forall i, b :: 0 <= i < |evs| && evs[i].Proposing? && b in elsewhere ==> !Names(c, b, evs[i].q))
    && (forall i :: 0 <= i < |evs| && evs[i].Proposing? ==> WellFormed(evs[i].q))
  }

  ghost predicate AllHanded(c: Codec, elsewhere: iset<bytes>, evs: seq<Event>)
  {
    forall i :: 0 <= i < |evs| ==> Handed(elsewhere, Run(c, START, evs[..i]), evs[i])
  }

  ghost predicate Env(c: Codec, elsewhere: iset<bytes>, evs: seq<Event>)
  {
    RoundTrips(c) && Fresh(c, elsewhere, evs) && AllHanded(c, elsewhere, evs)
  }

  /** The request was handed to raft: the log had not failed, this node was the leader and raft took it. */
  ghost predicate TakenAt(c: Codec, evs: seq<Event>, i: nat)
    requires i < |evs|
  {
    evs[i].Proposing? && evs[i].leader && evs[i].taken && !Run(c, START, evs[..i]).terminal
  }

  // ---------- the origin of every payload ----------

  ghost predicate Origin(c: Codec, evs: seq<Event>, id: nat, payload: bytes)
  {
    exists j :: 0 <= j < |evs| && TakenAt(c, evs, j) && payload == c.marshal(Named(evs[j].q, id))
  }

  ghost predicate Origins(c: Codec, elsewhere: iset<bytes>, evs: seq<Event>)
  {
    var t := Run(c, START, evs);
    && (forall id :: id in t.waiters ==> Origin(c, evs, id, t.waiters[id].payload))
    && (forall k :: 0 <= k < |t.log| && Carries(t.log[k]) ==>
         t.log[k].data in elsewhere || Registered(t, t.log[k].data))
  }

  /** A step keeps every registered payload. */
  lemma PayloadStays(c: Codec, s: State, ev: Event, id: nat)
    requires Inv(c, s) && id in s.waiters
    ensures var t := Next(c, s, ev); id in t.waiters && t.waiters[id].payload == s.waiters[id].payload
  {
    hide TakeAll, Accepts, WaitersOk;
    if ev.Advancing? { TakeAllWaiter(c, s, ev.r.entries, id); }
  }

  /** Only a proposal that raft takes registers a payload. */
  lemma NewPayload(c: Codec, s: State, ev: Event, id: nat)
    requires Inv(c, s) && id in Next(c, s, ev).waiters && id !in s.waiters
    ensures ev.Proposing? && ev.leader && ev.taken && !s.terminal
    ensures Next(c, s, ev).waiters[id].payload == c.marshal(Named(ev.q, id))
  {
    hide TakeAll, Accepts, WaitersOk;
    if ev.Advancing? { TakeAllKeys(c, s, ev.r.entries); }
  }

  lemma {:induction false} TakeAllKeys(c: Codec, s: State, es: seq<LogEntry>)
    ensures TakeAll(c, s, es).waiters.Keys == s.waiters.Keys
  {
    hide Accepts, Parsed;
    if es != [] { TakeAllKeys(c, s, es[..|es| - 1]); }
  }

  /** The log grows by entries of the batch. */
  lemma NewEntry(c: Codec, s: State, ev: Event, k: nat)
    requires Inv(c, s) && k < |Next(c, s, ev).log|
    ensures var t := Next(c, s, ev);
            if k < |s.log| then t.log[k] == s.log[k]
            else ev.Advancing? && k - |s.log| < |ev.r.entries| && t.log[k] == ev.r.entries[k - |s.log|]
  {
    hide TakeAll, Accepts, Inv;
    if ev.Advancing? && !s.terminal && ev.r.stored { TakeAllKeepsInv(c, s, ev.r.entries); }
  }

  lemma EnvBefore(c: Codec, elsewhere: iset<bytes>, evs: seq<Event>, n: nat)
    requires Env(c, elsewhere, evs) && n <= |evs|
    ensures Env(c, elsewhere, evs[..n])
  {
    hide Handed, Names, Fresh, RoundTrips;
    FreshBefore(c, elsewhere, evs, n);
    var before := evs[..n];
    forall i | 0 <= i < n
      ensures Handed(elsewhere, Run(c, START, before[..i]), before[i])
    {
      assert before[..i] == evs[..i];
    }
  }

  lemma FreshBefore(c: Codec, elsewhere: iset<bytes>, evs: seq<Event>, n: nat)
    requires Fresh(c, elsewhere, evs) && n <= |evs|
    ensures Fresh(c, elsewhere, evs[..n])
  {
    hide Names, SameRequest, WellFormed;
  }

  lemma OriginLasts(c: Codec, evs: seq<Event>, n: nat, id: nat, payload: bytes)
    requires n <= |evs| && Origin(c, evs[..n], id, payload)
    ensures Origin(c, evs, id, payload)
  {
    var before := evs[..n];
    var j :| 0 <= j < n && TakenAt(c, before, j) && payload == c.marshal(Named(before[j].q, id));
    assert before[..j] == evs[..j];
    assert TakenAt(c, evs, j);
  }

  lemma OneOrigin(c: Codec, evs: seq<Event>, id: nat)
    requires evs != [] && RoundTrips(c) && id in Run(c, START, evs).waiters
    requires var s := Run(c, START, evs[..|evs| - 1]);
             id in s.waiters ==> Origin(c, evs[..|evs| - 1], id, s.waiters[id].payload)
    ensures Origin(c, evs, id, Run(c, START, evs).waiters[id].payload)
  {
    hide Inv, Next, RoundTrips, Origin;
    var n := |evs| - 1;
    var s := Run(c, START, evs[..n]);
    StartOk(c);
    RunKeepsInv(c, START, evs[..n]);
    if id in s.waiters {
      PayloadStays(c, s, evs[n], id);
      OriginLasts(c, evs, n, id, s.waiters[id].payload);
    } else {
      NewPayload(c, s, evs[n], id);
      OriginAt(c, evs, n, id);
    }
  }

  lemma OriginAt(c: Codec, evs: seq<Event>, j: nat, id: nat)
    requires j < |evs| && TakenAt(c, evs, j)
    ensures Origin(c, evs, id, c.marshal(Named(evs[j].q, id)))
  {
  }

  lemma StillRegistered(c: Codec, s: State, ev: Event, payload: bytes)
    requires Inv(c, s) && Registered(s, payload)
    ensures Registered(Next(c, s, ev), payload)
  {
    hide Next, Inv;
    var id :| id in s.waiters && s.waiters[id].payload == payload;
    PayloadStays(c, s, ev, id);
  }

  lemma OneEntryOrigin(c: Codec, elsewhere: iset<bytes>, s: State, ev: Event, k: nat)
    requires Inv(c, s) && Handed(elsewhere, s, ev) && k < |Next(c, s, ev).log| && Carries(Next(c, s, ev).log[k])
    requires k < |s.log| && Carries(s.log[k]) ==> s.log[k].data in elsewhere || Registered(s, s.log[k].data)
    ensures var t := Next(c, s, ev); t.log[k].data in elsewhere || Registered(t, t.log[k].data)
  {
    hide Next, Inv, Registered;
    NewEntry(c, s, ev, k);
    var data := Next(c, s, ev).log[k].data;
    if data !in elsewhere { StillRegistered(c, s, ev, data); }
  }

  /** In every run each registered payload was handed to raft by a request of the run, and each committed
      entry is such a payload or comes from elsewhere. */
  lemma {:induction false} EveryRunOrigins(c: Codec, elsewhere: iset<bytes>, evs: seq<Event>)
    requires Env(c, elsewhere, evs)
    ensures Origins(c, elsewhere, evs)
  {
    hide Next, Inv, Handed, Origin, Registered, RoundTrips;
    if evs != [] {
      var n := |evs| - 1;
      EnvBefore(c, elsewhere, evs, n);
      EveryRunOrigins(c, elsewhere, evs[..n]);
      var s, t := Run(c, START, evs[..n]), Run(c, START, evs);
      StartOk(c);
      RunKeepsInv(c, START, evs[..n]);
      forall id | id in t.waiters ensures Origin(c, evs, id, t.waiters[id].payload) { OneOrigin(c, evs, id); }
      forall k | 0 <= k < |t.log| && Carries(t.log[k])
        ensures t.log[k].data in elsewhere || Registered(t, t.log[k].data)
      {
        OneEntryOrigin(c, elsewhere, s, evs[n], k);
      }
    }
  }

  lemma OriginOf(c: Codec, elsewhere: iset<bytes>, evs: seq<Event>, id: nat) returns (j: nat)
    requires Env(c, elsewhere, evs) && id in Run(c, START, evs).waiters
    ensures j < |evs| && TakenAt(c, evs, j) && evs[j].Proposing? && WellFormed(evs[j].q)
    ensures Run(c, START, evs).waiters[id].payload == c.marshal(Named(evs[j].q, id))
  {
    hide Run, Handed, Names, RoundTrips;
    EveryRunOrigins(c, elsewhere, evs);
    j :| 0 <= j < |evs| && TakenAt(c, evs, j)
      && Run(c, START, evs).waiters[id].payload == c.marshal(Named(evs[j].q, id));
  }

  /** A request that was refused before it was proposed is in no log of any run, however long. */
  lemma RefusedIsNeverCommitted(c: Codec, elsewhere: iset<bytes>, evs: seq<Event>, i: nat)
    requires Env(c, elsewhere, evs) && i < |evs| && evs[i].Proposing? && !TakenAt(c, evs, i)
    ensures !InLog(c, Run(c, START, evs).log, evs[i].q)
  {
    hide TakenAt, Run, Handed, Origin, Names;
    EveryRunOrigins(c, elsewhere, evs);
    var t, q := Run(c, START, evs), evs[i].q;
    forall k | 0 <= k < |t.log| && Carries(t.log[k]) ensures !Names(c, t.log[k].data, q) {
      var data := t.log[k].data;
      if data !in elsewhere {
        var id :| id in t.waiters && t.waiters[id].payload == data;
        var j := OriginOf(c, elsewhere, evs, id);
        assert !SameRequest(evs[j].q, q);
        NamesItself(c, evs[j].q, id, q);
      }
    }
  }

  lemma NamesItself(c: Codec, r: Request, id: nat, q: Request)
    requires RoundTrips(c)
    ensures Names(c, c.marshal(Named(r, id)), q) <==> SameRequest(r, q)
  {
  }

  // ---------- what may still happen ----------

  lemma EnvOneMore(c: Codec, elsewhere: iset<bytes>, evs: seq<Event>, ev: Event)
    requires Env(c, elsewhere, evs) && !ev.Proposing? && Handed(elsewhere, Run(c, START, evs), ev)
    ensures Env(c, elsewhere, evs + [ev]) && Run(c, START, evs + [ev]) == Next(c, Run(c, START, evs), ev)
  {
    hide Names, Next, Handed, RoundTrips;
    var all := evs + [ev];
    assert all[..|evs|] == evs;
    forall i | 0 <= i < |all| ensures Handed(elsewhere, Run(c, START, all[..i]), all[i]) {
      if i < |evs| { assert all[..i] == evs[..i] && all[i] == evs[i]; }
    }
  }

  function EntryOf(payload: bytes): (e: LogEntry)
  {
    LogEntry(Normal, 1, 1, payload)
  }

  /** A well-formed request is accepted as an entry. */
  lemma EntryAccepted(c: Codec, q: Request, id: nat)
    requires RoundTrips(c) && WellFormed(q)
    ensures var e := EntryOf(c.marshal(Named(q, id)));
            Accepts(c, e) && Carries(e) && Names(c, e.data, q) && Parsed(c, e) == ToCommitted(Named(q, id), e)
  {
  }

  /** Raft delivers one registered payload. */
  lemma Delivers(c: Codec, s: State, e: LogEntry)
    requires Inv(c, s) && !s.terminal && Accepts(c, e) && Carries(e)
    ensures var t := Advance(c, s, Ready(true, [e]));
            t.log == s.log + [e] && t.committed == s.committed + [Parsed(c, e).value] && t.answers == s.answers
  {
    hide Inv, Accepts, Parsed;
    assert [e][..0] == [];
    assert TakeAll(c, s, [e]) == Take(c, s, e);
  }

  lemma {:induction false} TakenStays(c: Codec, evs: seq<Event>, i: nat)
    requires RoundTrips(c) && i < |evs| && TakenAt(c, evs, i)
    ensures var t, id := Run(c, START, evs), Run(c, START, evs[..i]).seqno + 1;
            id in t.waiters && t.waiters[id].payload == c.marshal(Named(evs[i].q, id))
    decreases |evs|
  {
    hide Inv, RoundTrips;
    var n := |evs| - 1;
    if i < n {
      assert evs[..n][..i] == evs[..i];
      TakenStays(c, evs[..n], i);
      StartOk(c);
      RunKeepsInv(c, START, evs[..n]);
      PayloadStays(c, Run(c, START, evs[..n]), evs[n], Run(c, START, evs[..i]).seqno + 1);
    }
  }

  /** Some continuation of a run commits the request. */
  ghost predicate MayBeCommitted(c: Codec, elsewhere: iset<bytes>, evs: seq<Event>, q: Request)
  {
    exists more :: Env(c, elsewhere, evs + more) && InLog(c, Run(c, START, evs + more).log, q)
  }

  /** Until the log fails, a request may be or become committed exactly when it was handed to raft, whatever
      its proposer was told since. So a refusal before the proposal is the only proof of absence. */
  lemma MayBeCommittedIff(c: Codec, elsewhere: iset<bytes>, evs: seq<Event>, i: nat)
    requires Env(c, elsewhere, evs) && i < |evs| && evs[i].Proposing? && !Run(c, START, evs).terminal
    ensures MayBeCommitted(c, elsewhere, evs, evs[i].q) <==> TakenAt(c, evs, i)
  {
    if TakenAt(c, evs, i) {
      TakenMayBeCommitted(c, elsewhere, evs, i);
    } else {
      forall more | Env(c, elsewhere, evs + more) ensures !InLog(c, Run(c, START, evs + more).log, evs[i].q) {
        NotTakenLater(c, evs, more, i);
        RefusedIsNeverCommitted(c, elsewhere, evs + more, i);
      }
    }
  }

  lemma NotTakenLater(c: Codec, evs: seq<Event>, more: seq<Event>, i: nat)
    requires i < |evs|
    ensures (evs + more)[i] == evs[i] && (TakenAt(c, evs + more, i) <==> TakenAt(c, evs, i))
  {
    assert (evs + more)[..i] == evs[..i];
  }

  lemma TakenMayBeCommitted(c: Codec, elsewhere: iset<bytes>, evs: seq<Event>, i: nat)
    requires Env(c, elsewhere, evs) && i < |evs| && TakenAt(c, evs, i) && !Run(c, START, evs).terminal
    ensures MayBeCommitted(c, elsewhere, evs, evs[i].q)
  {
    hide Run, Inv, Advance;
    var s, q, id := Run(c, START, evs), evs[i].q, Run(c, START, evs[..i]).seqno + 1;
    TakenStays(c, evs, i);
    var e := EntryOf(s.waiters[id].payload);
    var ev := Advancing(Ready(true, [e]));
    assert Registered(s, e.data);
    EntryAccepted(c, q, id);
    StartOk(c);
    RunKeepsInv(c, START, evs);
    EnvOneMore(c, elsewhere, evs, ev);
    Delivers(c, s, e);
    assert (s.log + [e])[|s.log|] == e;
    assert InLog(c, Run(c, START, evs + [ev]).log, q);
  }

  /** What may follow for a proposer without an answer: it gives up, and then its entry is committed; or,
      its entry being committed already, its own advance fails. */
  ghost function Losing(s: State, id: nat): (more: seq<Event>)
    requires id in s.waiters
  {
    if s.waiters[id].done then [Erring(id)]
    else [Polling(id, true), Advancing(Ready(true, [EntryOf(s.waiters[id].payload)]))]
  }

  /** The payload is among the applied entries, and its mutation among those handed on. */
  ghost predicate Applied(c: Codec, s: State, payload: bytes)
  {
    exists k :: 0 <= k < |s.log| && s.log[k].data == payload && Parsed(c, s.log[k]).Some?
      && Parsed(c, s.log[k]).value in s.committed
  }

  /** While the log has not failed, every proposer without an answer may be told of a failure although its
      entry is, or becomes, committed. */
  lemma AnyLossMayBeCommitted(c: Codec, elsewhere: iset<bytes>, evs: seq<Event>, id: nat)
    requires Env(c, elsewhere, evs) && !Run(c, START, evs).terminal && Asks(Run(c, START, evs), id)
    ensures var s := Run(c, START, evs);
            var t := Run(c, START, evs + Losing(s, id));
            && Env(c, elsewhere, evs + Losing(s, id)) && id in t.answers && t.answers[id].Lost?
            && Applied(c, t, s.waiters[id].payload)
  {
    hide Run, Inv, RoundTrips, Applied;
    var s := Run(c, START, evs);
    StartOk(c);
    RunKeepsInv(c, START, evs);
    if s.waiters[id].done {
      EnvOneMore(c, elsewhere, evs, Erring(id));
      DoneIsApplied(c, s, id);
      AppliedStays(c, s, GiveUp(s, id), s.waiters[id].payload);
    } else {
      var payload := s.waiters[id].payload;
      var giving, getting := Polling(id, true), Advancing(Ready(true, [EntryOf(payload)]));
      EnvOneMore(c, elsewhere, evs, giving);
      var u := Poll(s, id, true);
      PollKeepsInv(c, s, id, true);
      assert Registered(u, payload);
      EnvOneMore(c, elsewhere, evs + [giving], getting);
      assert evs + [giving] + [getting] == evs + [giving, getting];
      PayloadAccepted(c, elsewhere, evs, id);
      Delivers(c, u, EntryOf(payload));
      DeliveredIsApplied(c, u, EntryOf(payload));
    }
  }

  lemma PayloadAccepted(c: Codec, elsewhere: iset<bytes>, evs: seq<Event>, id: nat)
    requires Env(c, elsewhere, evs) && id in Run(c, START, evs).waiters
    ensures var e := EntryOf(Run(c, START, evs).waiters[id].payload); Accepts(c, e) && Carries(e) && Parsed(c, e).Some?
  {
    hide Run, TakenAt, Accepts, Parsed, Fresh, AllHanded, Names;
    var payload := Run(c, START, evs).waiters[id].payload;
    var j := OriginOf(c, elsewhere, evs, id);
    EntryAccepted(c, evs[j].q, id);
    AcceptedParses(c, EntryOf(payload));
  }

  lemma AcceptedParses(c: Codec, e: LogEntry)
    requires Accepts(c, e) && Carries(e)
    ensures Parsed(c, e).Some?
  {
  }

  lemma DeliveredIsApplied(c: Codec, s: State, e: LogEntry)
    requires Inv(c, s) && !s.terminal && Accepts(c, e) && Carries(e) && Parsed(c, e).Some?
    ensures Applied(c, Advance(c, s, Ready(true, [e])), e.data)
  {
    hide Inv, Advance, Accepts, Parsed;
    Delivers(c, s, e);
    assert (s.log + [e])[|s.log|] == e;
  }

  lemma AppliedStays(c: Codec, s: State, t: State, payload: bytes)
    requires Applied(c, s, payload) && t.log == s.log && t.committed == s.committed
    ensures Applied(c, t, payload)
  {
  }

  lemma DoneIsApplied(c: Codec, s: State, id: nat)
    requires Inv(c, s) && id in s.waiters && s.waiters[id].done
    ensures Applied(c, s, s.waiters[id].payload)
  {
    hide Accepted, Parsed;
    assert WaiterOk(c, s, id);
    var k :| 0 <= k < |s.log| && WonBy(c, s.waiters[id], s.log[k]);
    AcceptedHas(c, s.log, k);
  }

  lemma {:induction false} AcceptedHas(c: Codec, log: seq<LogEntry>, k: nat)
    requires k < |log| && Carries(log[k]) && Parsed(c, log[k]).Some?
    ensures Parsed(c, log[k]).value in Accepted(c, log)
  {
    hide Parsed;
    if k < |log| - 1 { AcceptedHas(c, log[..|log| - 1], k); }
  }
}
