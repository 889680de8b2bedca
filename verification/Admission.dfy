/** When exactly a kernel call succeeds, on the tables before it. None of the conditions asks whether the
    execution is sealed, and only a change of status whether it has ended. */
module Admission {
  import opened Basics
  import opened Sorting
  import opened Canonical
  import opened Records
  import opened Ledgers
  import opened Checkpoints
  import opened Evidence
  import opened Graph
  import opened Kernel
  import opened VerifyGraphs
  import opened EventDag
  import opened Reachable
  import Seals
  import Hex

  // ---------------------------------------------------------------- events

  lemma {:induction false} ParentsFaultFirst(events: seq<Event>, input: EventInput, sequence: int, parents: seq<Str>)
    requires forall k :: 0 <= k < |parents| ==> ParentFault(events, input, sequence, parents[k]) == None
    ensures ParentsFault(events, input, sequence, parents) == None
  {
    if parents != [] {
      ParentsFaultFirst(events, input, sequence, parents[1..]);
    }
  }

  lemma {:induction false} FoundAmong(events: seq<Event>, id: Str, k: nat)
    requires DistinctIds(events) && k < |events| && events[k].id == id
    ensures FindEvent(events, id) == Some(events[k])
  {
    if k > 0 {
      forall i, j | 0 <= i < j < |events[1..]| ensures events[1..][i].id != events[1..][j].id {
        assert events[i + 1].id != events[j + 1].id;
      }
      FoundAmong(events[1..], id, k - 1);
    }
  }

  /** `p` is an event of the execution. */
  ghost predicate OwnEvent(t: Tables, id: Str, p: Str)
  {
    var mine := EventsFor(t.events, id);
    Earlier(mine, |mine|, p)
  }

  lemma ParentAccepted(sha: Sha, t: Tables, input: EventInput, p: Str)
    requires Kept(sha, t) && GetExecution(t, input.organizationId, input.executionId).Some?
    requires OwnEvent(t, input.executionId, p)
    ensures ParentFault(t.events, input, NextSequence(t, input), p) == None
  {
    var mine := EventsFor(t.events, input.executionId);
    var m :| 0 <= m < |mine| && mine[m].id == p;
    EventsForFinds(t.events, input.executionId);
    var k :| 0 <= k < |t.events| && t.events[k] == mine[m];
    FoundAmong(t.events, p, k);
    assert ExecutionSound(t, input.executionId);
    NextSequenceIsLength(t, input);
    DagSequence(mine, m);
  }

  lemma ParentRefused(sha: Sha, t: Tables, input: EventInput, p: Str)
    requires Kept(sha, t) && ParentFault(t.events, input, NextSequence(t, input), p) == None
    ensures OwnEvent(t, input.executionId, p)
  {
    var mine := EventsFor(t.events, input.executionId);
    FindEventFinds(t.events, p);
    var parent := FindEvent(t.events, p).value;
    EventsForFinds(t.events, input.executionId);
    var m :| 0 <= m < |mine| && mine[m] == parent;
  }

  /** What an append asks, before it: well-formed evidence, a known execution of the organization, only
      its own events as parents, an unused id, and room for the sequence. */
  ghost predicate Recordable(types: set<Str>, t: Tables, input: EventInput)
  {
    && EvidenceFault(types, input).None?
    && GetExecution(t, input.organizationId, input.executionId).Some?
    && (forall p :: p in input.parentEventIds ==> OwnEvent(t, input.executionId, p))
    && FindEvent(t.events, input.id).None?
    && |EventsFor(t.events, input.executionId)| < MAX_INT4
  }

  /** Whether the execution has ended or is sealed is not asked. */
  lemma EventAcceptedExactly(sha: Sha, types: set<Str>, t: Tables, input: EventInput)
    requires Kept(sha, t)
    ensures NewEvent(types, t, input).Ok? <==> Recordable(types, t, input)
  {
    var parents, sequence := UniqueSortedIds(input.parentEventIds), NextSequence(t, input);
    UniqueSortedIsCanonical(input.parentEventIds);
    if GetExecution(t, input.organizationId, input.executionId).Some? {
      assert ExecutionSound(t, input.executionId);
      NextSequenceIsLength(t, input);
      if Recordable(types, t, input) {
        forall k | 0 <= k < |parents| ensures ParentFault(t.events, input, sequence, parents[k]) == None {
          ParentAccepted(sha, t, input, parents[k]);
        }
        ParentsFaultFirst(t.events, input, sequence, parents);
      }
      if ParentsFault(t.events, input, sequence, parents) == None {
        AllAreParents(sha, t, input, parents);
      }
    }
  }

  lemma AllAreParents(sha: Sha, t: Tables, input: EventInput, parents: seq<Str>)
    requires Kept(sha, t) && ParentsFault(t.events, input, NextSequence(t, input), parents) == None
    ensures forall p :: p in parents ==> OwnEvent(t, input.executionId, p)
  {
    forall p | p in parents ensures OwnEvent(t, input.executionId, p) {
      var k :| 0 <= k < |parents| && parents[k] == p;
      ParentsFaultNone(t.events, input, NextSequence(t, input), parents, k);
      ParentRefused(sha, t, input, p);
    }
  }

  // ---------------------------------------------------------------- ledger entries

  /** Room on a sound chain, and a legal change of status. */
  ghost predicate Enterable(t: Tables, input: EntryInput)
  {
    var l, id := At(t.ledgers, input.organizationId), input.executionId;
    && EvidenceOk(input) && IsEntryType(input.entryType) && |l.entries| < MAX_INT4 && !EntryIdTaken(l, input.entryId)
    && id in t.executions
    && (StatusEffect(input).Some? ==>
          t.executions[id].organizationId == input.organizationId && MayBecome(t.executions[id].status, StatusEffect(input).value.0))
  }

  lemma EntryNeeds(sha: Sha, t: Tables, input: EntryInput)
    ensures AppendEntry(sha, t, input).Ok? <==>
      && Append(sha, At(t.ledgers, input.organizationId), input).Ok?
      && input.executionId in t.executions && !EntryIdTaken(At(t.ledgers, input.organizationId), input.entryId)
      && (StatusEffect(input).Some? ==>
            && t.executions[input.executionId].organizationId == input.organizationId
            && MayBecome(t.executions[input.executionId].status, StatusEffect(input).value.0))
  {
  }

  lemma EntryAcceptedExactly(sha: Sha, t: Tables, input: EntryInput)
    requires Kept(sha, t)
    ensures AppendEntry(sha, t, input).Ok? <==> Enterable(t, input)
  {
    assert ChainKept(sha, t, input.organizationId);
    AppendSucceedsExactly(sha, input.organizationId, At(t.ledgers, input.organizationId), input);
    EntryNeeds(sha, t, input);
  }

  // ---------------------------------------------------------------- seals

  lemma {:induction false} FindAppend(events: seq<Event>, e: Event, id: Str)
    ensures FindEvent(events + [e], id).None? <==> FindEvent(events, id).None? && e.id != id
  {
    if events == [] {
      assert events + [e] == [e];
    } else {
      assert (events + [e])[1..] == events[1..] + [e];
      FindAppend(events[1..], e, id);
    }
  }

  /** Only the first prelude event brings parents of its own, as the service builds it. */
  predicate Chained(input: SealInput)
  {
    forall k :: 0 < k < |input.preludeEvents| ==> input.preludeEvents[k].parentEventIds == []
  }

  /** The parents the first event of the seal names. */
  function FirstParents(input: SealInput): seq<Str>
  {
    if input.preludeEvents != [] && input.preludeEvents[0].parentEventIds != [] then input.preludeEvents[0].parentEventIds
    else input.parentEventIds
  }

  /** Prelude event `k` can be appended behind the `k` before it. */
  ghost predicate ReadyAt(types: set<Str>, t: Tables, input: SealInput, k: nat)
    requires k < |input.preludeEvents|
  {
    var e := input.preludeEvents[k];
    && EvidenceFault(types, e).None? && FindEvent(t.events, e.id).None?
    && (forall j :: 0 <= j < k ==> input.preludeEvents[j].id != e.id)
    && |EventsFor(t.events, input.executionId)| + k < MAX_INT4
  }

  /** After `k` prelude events. */
  ghost predicate Prepared(sha: Sha, t: Tables, input: SealInput, k: nat, s: (Tables, seq<Str>))
    requires k <= |input.preludeEvents|
  {
    && Seals.PreludeOk(sha, t, input.executionId, s.0)
    && |EventsFor(s.0.events, input.executionId)| == |EventsFor(t.events, input.executionId)| + k
    && (forall x :: FindEvent(s.0.events, x).None? <==>
          FindEvent(t.events, x).None? && forall j :: 0 <= j < k ==> input.preludeEvents[j].id != x)
    && (if k == 0 then s.1 == input.parentEventIds else |s.1| == 1 && OwnEvent(s.0, input.executionId, s.1[0]))
  }

  ghost predicate ParentsKnown(t: Tables, input: SealInput)
  {
    forall p :: p in FirstParents(input) ==> OwnEvent(t, input.executionId, p)
  }

  lemma ReadyIsRecordable(sha: Sha, types: set<Str>, t: Tables, input: SealInput, k: nat, s: (Tables, seq<Str>))
    requires k < |input.preludeEvents| && Chained(input) && Prepared(sha, t, input, k, s)
    requires GetExecution(t, input.organizationId, input.executionId).Some?
    ensures Recordable(types, s.0, PreludeInput(input, k, s.1)) <==> ReadyAt(types, t, input, k) && (k == 0 ==> ParentsKnown(t, input))
  {
    var one, id := PreludeInput(input, k, s.1), input.executionId;
    assert EvidenceFault(types, one) == EvidenceFault(types, input.preludeEvents[k]);
    assert one.parentEventIds == if k == 0 then FirstParents(input) else s.1;
    if k == 0 {
      assert EventsFor(s.0.events, id) == EventsFor(t.events, id);
      assert forall p :: OwnEvent(s.0, id, p) <==> OwnEvent(t, id, p);
    }
  }

  lemma PreludeStepExactly(sha: Sha, types: set<Str>, t: Tables, input: SealInput, k: nat, s: (Tables, seq<Str>))
    requires k < |input.preludeEvents| && Chained(input) && Prepared(sha, t, input, k, s)
    requires GetExecution(t, input.organizationId, input.executionId).Some?
    ensures PreludeStep(types, s.0, input, k, s.1).Ok? <==> ReadyAt(types, t, input, k) && (k == 0 ==> ParentsKnown(t, input))
    ensures PreludeStep(types, s.0, input, k, s.1).Ok? ==>
      Prepared(sha, t, input, k + 1, PreludeStep(types, s.0, input, k, s.1).value)
  {
    EventAcceptedExactly(sha, types, s.0, PreludeInput(input, k, s.1));
    ReadyIsRecordable(sha, types, t, input, k, s);
    if NewEvent(types, s.0, PreludeInput(input, k, s.1)).Ok? {
      PreparedGrows(sha, types, t, input, k, s);
    }
  }

  lemma PreparedGrows(sha: Sha, types: set<Str>, t: Tables, input: SealInput, k: nat, s: (Tables, seq<Str>))
    requires k < |input.preludeEvents| && Prepared(sha, t, input, k, s)
    requires NewEvent(types, s.0, PreludeInput(input, k, s.1)).Ok?
    ensures var e := NewEvent(types, s.0, PreludeInput(input, k, s.1)).value;
      Prepared(sha, t, input, k + 1, (AddEvent(s.0, e), [e.id]))
  {
    var one := PreludeInput(input, k, s.1);
    var e := NewEvent(types, s.0, one).value;
    Seals.PreludeStepKeeps(sha, types, t, input, k, s);
    EventGrows(types, s.0, one);
    var mine := EventsFor(AddEvent(s.0, e).events, input.executionId);
    assert mine[|mine| - 1].id == e.id;
    forall x ensures FindEvent(s.0.events + [e], x).None? <==>
      FindEvent(t.events, x).None? && forall j :: 0 <= j < k + 1 ==> input.preludeEvents[j].id != x
    {
      FindAppend(s.0.events, e, x);
    }
  }

  ghost predicate PreludeReady(types: set<Str>, t: Tables, input: SealInput, n: nat)
    requires n <= |input.preludeEvents|
  {
    (n > 0 ==> ParentsKnown(t, input)) && forall k :: 0 <= k < n ==> ReadyAt(types, t, input, k)
  }

  /** The prelude up to event `n`. */
  function PreludeUpTo(types: set<Str>, t: Tables, input: SealInput, n: nat): Result<(Tables, seq<Str>), Fault>
  {
    Fold(PreludeSteps(types, input), (t, input.parentEventIds), n)
  }

  lemma PreludeOneMore(types: set<Str>, t: Tables, input: SealInput, n: nat)
    ensures PreludeUpTo(types, t, input, 0) == Ok((t, input.parentEventIds))
    ensures PreludeUpTo(types, t, input, n).Err? ==> PreludeUpTo(types, t, input, n + 1).Err?
    ensures PreludeUpTo(types, t, input, n).Ok? ==>
      var (u, parents) := PreludeUpTo(types, t, input, n).value;
      PreludeUpTo(types, t, input, n + 1) == PreludeStep(types, u, input, n, parents)
  {
  }

  lemma PreparedAtStart(sha: Sha, t: Tables, input: SealInput)
    requires Kept(sha, t)
    ensures Prepared(sha, t, input, 0, (t, input.parentEventIds))
  {
  }

  lemma ReadyOneMore(types: set<Str>, t: Tables, input: SealInput, n: nat)
    requires n < |input.preludeEvents|
    ensures PreludeReady(types, t, input, n + 1)
       <==> PreludeReady(types, t, input, n) && ReadyAt(types, t, input, n) && (n == 0 ==> ParentsKnown(t, input))
  {
  }

  ghost predicate PreludeIs(sha: Sha, types: set<Str>, t: Tables, input: SealInput, n: nat)
    requires n <= |input.preludeEvents|
  {
    var r := PreludeUpTo(types, t, input, n);
    (r.Ok? <==> PreludeReady(types, t, input, n)) && (r.Ok? ==> Prepared(sha, t, input, n, r.value))
  }

  lemma PreludeGoesOn(sha: Sha, types: set<Str>, t: Tables, input: SealInput, n: nat)
    requires n < |input.preludeEvents| && Chained(input) && PreludeIs(sha, types, t, input, n)
    requires GetExecution(t, input.organizationId, input.executionId).Some?
    ensures PreludeIs(sha, types, t, input, n + 1)
  {
    PreludeOneMore(types, t, input, n);
    ReadyOneMore(types, t, input, n);
    if PreludeUpTo(types, t, input, n).Ok? {
      PreludeStepExactly(sha, types, t, input, n, PreludeUpTo(types, t, input, n).value);
    }
  }

  lemma {:induction false} PreludeExactly(sha: Sha, types: set<Str>, t: Tables, input: SealInput, n: nat)
    requires n <= |input.preludeEvents| && Chained(input) && Kept(sha, t)
    requires GetExecution(t, input.organizationId, input.executionId).Some?
    ensures PreludeIs(sha, types, t, input, n)
  {
    if n == 0 {
      PreludeOneMore(types, t, input, 0);
      PreparedAtStart(sha, t, input);
    } else {
      PreludeExactly(sha, types, t, input, n - 1);
      PreludeGoesOn(sha, types, t, input, n - 1);
    }
  }

  lemma {:induction false} FirstHashOk(entries: seq<LedgerEntry>, id: Str)
    requires forall i :: 0 <= i < |entries| ==> HashOk(entries[i].requestHash)
    ensures HashOk(RequestOpenedHash(entries, id))
  {
    if entries != [] {
      FirstHashOk(entries[1..], id);
    }
  }

  /** The request hash a seal repeats is well formed, since stored ones are. */
  lemma RequestHashOk(sha: Sha, t: Tables, org: Str, id: Str)
    requires Kept(sha, t)
    ensures HashOk(RequestOpenedHash(SortBy(SequenceLe, At(t.ledgers, org).entries), id))
  {
    var l := At(t.ledgers, org);
    assert ChainKept(sha, t, org);
    SoundIsDense(sha, org, l);
    DenseIsSorted(l.entries);
    forall i | 0 <= i < |l.entries| ensures HashOk(l.entries[i].requestHash) {
      assert EntrySound(sha, org, l.entries, i);
    }
    FirstHashOk(l.entries, id);
  }

  lemma HashGraphIsHash(sha: Sha, x: Execution, events: seq<Event>)
    requires Dag(events)
    ensures HashGraph(sha, x, events).Ok? && HashOk(Some(HashGraph(sha, x, events).value))
  {
    DagHashes(sha, x, events);
    Hex.HashIsSha256Hex(sha, GraphBytes(x, events));
  }

  lemma SealedMetadataPrints(input: SealInput, parents: seq<Str>, hash: Str)
    ensures Canonicalize(Obj(SealedInput(input, parents, hash).metadata)).Ok?
  {
    var m := SealedInput(input, parents, hash).metadata;
    forall x | x in m ensures InDomain(x.value) {
      assert x == m[0] || x == m[1];
    }
    PrintsExactlyDomain(Obj(m));
  }

  /** What a seal asks besides its prelude: of its sealed event, and of its ledger entry. */
  ghost predicate Sealable(types: set<Str>, t: Tables, input: SealInput)
  {
    var n, l, x := |input.preludeEvents|, At(t.ledgers, input.organizationId), GetExecution(t, input.organizationId, input.executionId);
    && x.Some? && ParentsKnown(t, input) && PreludeReady(types, t, input, n)
    && SealedType() in types && CanonicalTimestamp(input.sealedAt) && FindEvent(t.events, input.sealedId).None?
    && (forall j :: 0 <= j < n ==> input.preludeEvents[j].id != input.sealedId)
    && |EventsFor(t.events, input.executionId)| + n < MAX_INT4
    && HashOk(input.responseHash) && CanonicalTimestamp(input.createdAtCanonical)
    && |l.entries| < MAX_INT4 && !EntryIdTaken(l, input.entryId)
    && MayBecome(x.value.status, StatusText(input.executionStatus))
  }

  lemma SealedEventExactly(sha: Sha, types: set<Str>, t: Tables, input: SealInput, s: (Tables, seq<Str>), hash: Str)
    requires Prepared(sha, t, input, |input.preludeEvents|, s) && HashOk(Some(hash))
    requires GetExecution(t, input.organizationId, input.executionId).Some?
    requires input.preludeEvents != [] ==> ParentsKnown(t, input)
    ensures NewEvent(types, s.0, SealedInput(input, s.1, hash)).Ok? <==>
      && SealedType() in types && CanonicalTimestamp(input.sealedAt) && FindEvent(t.events, input.sealedId).None?
      && (forall j :: 0 <= j < |input.preludeEvents| ==> input.preludeEvents[j].id != input.sealedId)
      && |EventsFor(t.events, input.executionId)| + |input.preludeEvents| < MAX_INT4 && ParentsKnown(t, input)
  {
    var one, id := SealedInput(input, s.1, hash), input.executionId;
    EventAcceptedExactly(sha, types, s.0, one);
    SealedMetadataPrints(input, s.1, hash);
    if input.preludeEvents == [] {
      assert EventsFor(s.0.events, id) == EventsFor(t.events, id);
      assert forall p :: OwnEvent(s.0, id, p) <==> OwnEvent(t, id, p);
    }
  }

  lemma SealEntryExactly(sha: Sha, t: Tables, v: Tables, input: SealInput, requestHash: Option<Str>, hash: Str)
    requires Kept(sha, v) && v.ledgers == t.ledgers && v.executions == t.executions && HashOk(requestHash) && HashOk(Some(hash))
    requires GetExecution(t, input.organizationId, input.executionId).Some?
    ensures AppendEntry(sha, v, SealEntry(input, requestHash, hash)).Ok? <==>
      && HashOk(input.responseHash) && CanonicalTimestamp(input.createdAtCanonical)
      && |At(t.ledgers, input.organizationId).entries| < MAX_INT4 && !EntryIdTaken(At(t.ledgers, input.organizationId), input.entryId)
      && MayBecome(t.executions[input.executionId].status, StatusText(input.executionStatus))
  {
    EntryAcceptedExactly(sha, v, SealEntry(input, requestHash, hash));
  }

  /** The hashes of a seal never fail. */
  lemma SealHashes(sha: Sha, types: set<Str>, w: Tables, input: SealInput, x: Execution, parents: seq<Str>) returns (pre: Str)
    requires Kept(sha, w) && GetExecution(w, input.organizationId, input.executionId).Some?
    ensures HashGraph(sha, x, ListEvents(w.events, input.organizationId, input.executionId)) == Ok(pre) && HashOk(Some(pre))
    ensures var sealed := NewEvent(types, w, SealedInput(input, parents, pre));
      sealed.Ok? ==>
        && Kept(sha, AddEvent(w, sealed.value))
        && HashGraph(sha, x, ListEvents(w.events, input.organizationId, input.executionId) + [sealed.value]).Ok?
        && HashOk(Some(HashGraph(sha, x, ListEvents(w.events, input.organizationId, input.executionId) + [sealed.value]).value))
  {
    var id := input.executionId;
    assert ExecutionSound(w, id);
    ListIsFor(w, input.organizationId, id);
    HashGraphIsHash(sha, x, EventsFor(w.events, id));
    pre := HashGraph(sha, x, EventsFor(w.events, id)).value;
    var last := SealedInput(input, parents, pre);
    if NewEvent(types, w, last).Ok? {
      EventKept(sha, types, w, last);
      EventGrows(types, w, last);
      assert ExecutionSound(AddEvent(w, NewEvent(types, w, last).value), id);
      HashGraphIsHash(sha, x, EventsFor(w.events, id) + [NewEvent(types, w, last).value]);
    }
  }

  /** From the prelude on. */
  lemma FinishExactly(sha: Sha, types: set<Str>, t: Tables, input: SealInput, x: Execution, s: (Tables, seq<Str>))
    requires Prepared(sha, t, input, |input.preludeEvents|, s) && PreludeReady(types, t, input, |input.preludeEvents|)
    requires GetExecution(t, input.organizationId, input.executionId) == Some(x)
    ensures FinishSeal(sha, types, s.0, input, x, s.1).Ok? <==> Sealable(types, t, input)
  {
    var org, id := input.organizationId, input.executionId;
    var pre := SealHashes(sha, types, s.0, input, AsSealed(x, input), s.1);
    SealedEventExactly(sha, types, t, input, s, pre);
    var sealed := NewEvent(types, s.0, SealedInput(input, s.1, pre));
    if sealed.Ok? {
      RequestHashOk(sha, s.0, org, id);
      SealEntryExactly(sha, t, AddEvent(s.0, sealed.value), input,
                       RequestOpenedHash(SortBy(SequenceLe, At(s.0.ledgers, org).entries), id),
                       HashGraph(sha, AsSealed(x, input), ListEvents(s.0.events, org, id) + [sealed.value]).value);
    }
  }

  /** A seal whose prelude the service built succeeds exactly when its events and its entry can be
      appended and the status may become the final one. */
  lemma SealAcceptedExactly(sha: Sha, types: set<Str>, t: Tables, input: SealInput)
    requires Kept(sha, t) && Chained(input)
    ensures SealExecution(sha, types, t, input).Ok? <==> Sealable(types, t, input)
  {
    var n := |input.preludeEvents|;
    if GetExecution(t, input.organizationId, input.executionId).Some? {
      PreludeExactly(sha, types, t, input, n);
      if Prelude(types, t, input).Ok? {
        FinishExactly(sha, types, t, input, GetExecution(t, input.organizationId, input.executionId).value, Prelude(types, t, input).value);
      }
    }
  }
}
