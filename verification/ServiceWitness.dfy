/** The input for a seal that does not last: open, ask for an approval, finalize as failed, decide. */
module ServiceWitness {
  import opened Basics
  import opened Canonical
  import opened Records
  import opened Ledgers
  import opened Evidence
  import opened Kernel
  import opened VerifyGraphs
  import opened Reachable
  import opened Admission
  import opened Service
  import opened ServiceSeals
  import O = Outcomes
  import Exports
  import LateEvents
  import Seals

  // ---------------------------------------------------------------- where a run stands

  /** Status, event ids and entry ids after some calls, of the one execution there is. */
  datatype Marks = Marks(status: Str, events: seq<Str>, entries: seq<Str>)

  ghost predicate Stands(sha: Sha, t: Tables, org: Str, id: Str, m: Marks)
  {
    && Kept(sha, t) && GetExecution(t, org, id).Some? && t.executions[id].status == m.status
    && |EventsFor(t.events, id)| == |m.events| && (forall x :: FindEvent(t.events, x).None? <==> x !in m.events)
    && |At(t.ledgers, org).entries| == |m.entries| && (forall x :: EntryIdTaken(At(t.ledgers, org), x) <==> x in m.entries)
  }

  lemma EventStands(sha: Sha, types: set<Str>, t: Tables, input: EventInput, m: Marks)
    requires Stands(sha, t, input.organizationId, input.executionId, m)
    requires EvidenceFault(types, input).None? && input.id !in m.events && |m.events| < 100
    requires forall p :: p in input.parentEventIds ==> OwnEvent(t, input.executionId, p)
    ensures NewEvent(types, t, input).Ok?
    ensures var e := NewEvent(types, t, input).value;
      && Stands(sha, AddEvent(t, e), input.organizationId, input.executionId, m.(events := m.events + [input.id]))
      && OwnEvent(AddEvent(t, e), input.executionId, e.id) && e.id == input.id
  {
    EventAcceptedExactly(sha, types, t, input);
    var e := NewEvent(types, t, input).value;
    EventKept(sha, types, t, input);
    EventGrows(types, t, input);
    forall x ensures FindEvent(t.events + [e], x).None? <==> x !in m.events + [input.id] {
      FindAppend(t.events, e, x);
    }
    var mine := EventsFor(AddEvent(t, e).events, input.executionId);
    assert mine[|mine| - 1].id == e.id;
  }

  lemma IdsGrow(l: Ledger, k: Ledger, e: LedgerEntry, ids: seq<Str>)
    requires k.entries == l.entries + [e] && forall x :: EntryIdTaken(l, x) <==> x in ids
    ensures forall x :: EntryIdTaken(k, x) <==> x in ids + [e.id]
  {
    forall x ensures EntryIdTaken(k, x) <==> EntryIdTaken(l, x) || x == e.id {
      assert k.entries[|l.entries|] == e;
      if EntryIdTaken(l, x) {
        var i :| 0 <= i < |l.entries| && l.entries[i].id == x;
        assert k.entries[i].id == x;
      }
    }
  }

  lemma EntryStands(sha: Sha, t: Tables, input: EntryInput, m: Marks)
    requires Stands(sha, t, input.organizationId, input.executionId, m)
    requires EvidenceOk(input) && IsEntryType(input.entryType) && input.entryId !in m.entries && |m.entries| < 100
    requires StatusEffect(input).Some? && MayBecome(m.status, StatusEffect(input).value.0)
    ensures AppendEntry(sha, t, input).Ok?
    ensures Stands(sha, AppendEntry(sha, t, input).value, input.organizationId, input.executionId,
                   Marks(StatusEffect(input).value.0, m.events, m.entries + [input.entryId]))
  {
    EntryAcceptedExactly(sha, t, input);
    var u, org := AppendEntry(sha, t, input).value, input.organizationId;
    EntryKept(sha, t, u, input);
    AppendEntryEffect(sha, t, input);
    AppendedEntry(sha, t, u, input);
    assert LastEntry(u, org).id == input.entryId;
    IdsGrow(At(t.ledgers, org), At(u.ledgers, org), LastEntry(u, org), m.entries);
  }

  lemma LastIsOwn(sha: Sha, t: Tables, org: Str, id: Str)
    requires Kept(sha, t) && GetExecution(t, org, id).Some?
    ensures forall p :: p in LastParents(t, org, id) ==> OwnEvent(t, id, p)
  {
    assert ExecutionSound(t, id);
    ListIsFor(t, org, id);
    var mine := EventsFor(t.events, id);
    if mine != [] {
      assert mine[|mine| - 1].id == LastParents(t, org, id)[0];
    }
  }

  // ---------------------------------------------------------------- the calls of the run

  /** What the run draws: events, entries and the seal. */
  datatype Drawn = Drawn(organizationId: Str, id: Str, recordId: Str, drafts: seq<EventInput>, opening: EntryInput, asking: EntryInput,
                         seal: SealInput)

  predicate DraftOk(d: EventInput)
  {
    && HashOk(d.inputHash) && HashOk(d.outputHash) && Canonicalize(Obj(d.metadata)).Ok? && CanonicalTimestamp(d.occurredAtCanonical)
  }

  function RunTypes(allow: bool): seq<Str>
  {
    OpenTypes() + [AskType(), DecisionType(allow), SealedType()] + FinalTypes(O.FailedOutcome)
  }

  /** Well-formed evidence, ids that differ, and event types the kernel knows. */
  predicate WellDrawn(types: set<Str>, d: Drawn, allow: bool)
  {
    && |d.drafts| == 8 && (forall i :: 0 <= i < 8 ==> DraftOk(d.drafts[i]) && d.drafts[i].id != d.seal.sealedId)
    && (forall i, j :: 0 <= i < j < 8 ==> d.drafts[i].id != d.drafts[j].id)
    && (forall i :: 0 <= i < |RunTypes(allow)| ==> RunTypes(allow)[i] in types)
    && HashOk(d.opening.requestHash) && CanonicalTimestamp(d.opening.createdAtCanonical)
    && CanonicalTimestamp(d.asking.createdAtCanonical)
    && HashOk(d.seal.responseHash) && CanonicalTimestamp(d.seal.createdAtCanonical) && CanonicalTimestamp(d.seal.sealedAt)
    && d.opening.entryId != d.asking.entryId && d.opening.entryId != d.seal.entryId && d.asking.entryId != d.seal.entryId
  }

  function FailingRun(d: Drawn, allow: bool): seq<ServiceCall>
    requires |d.drafts| == 8
  {
    [Open(d.organizationId, d.id, d.recordId, d.drafts[..2], d.opening),
     AskApproval(d.organizationId, d.id, d.drafts[2], d.asking),
     Finalize(d.organizationId, d.id, O.FailedOutcome, d.drafts[3..7], d.seal),
     Decide(d.organizationId, d.id, allow, d.drafts[7])]
  }

  lemma TypesKnown(types: set<Str>, d: Drawn, allow: bool)
    requires WellDrawn(types, d, allow)
    ensures OpenTypes()[0] in types && OpenTypes()[1] in types && AskType() in types && DecisionType(allow) in types
    ensures SealedType() in types && |FinalTypes(O.FailedOutcome)| == 4 && forall i :: 0 <= i < 4 ==> FinalTypes(O.FailedOutcome)[i] in types
  {
    var names := RunTypes(allow);
    assert names[0] == OpenTypes()[0] && names[1] == OpenTypes()[1] && names[2] == AskType();
    assert names[3] == DecisionType(allow) && names[4] == SealedType();
    forall i | 0 <= i < 4 ensures FinalTypes(O.FailedOutcome)[i] in types {
      assert names[5 + i] == FinalTypes(O.FailedOutcome)[i];
    }
  }

  lemma PlacedIsEvidence(types: set<Str>, draft: EventInput, org: Str, id: Str, name: Str, parents: seq<Str>)
    requires DraftOk(draft) && name in types
    ensures EvidenceFault(types, Placed(draft, org, id, name, parents)).None?
  {
  }

  lemma DraftStands(sha: Sha, types: set<Str>, t: Tables, org: Str, id: Str, draft: EventInput, name: Str, parents: seq<Str>, m: Marks)
    requires Stands(sha, t, org, id, m) && DraftOk(draft) && name in types && draft.id !in m.events && |m.events| < 100
    requires forall p :: p in parents ==> OwnEvent(t, id, p)
    ensures NewEvent(types, t, Placed(draft, org, id, name, parents)).Ok?
    ensures var e := NewEvent(types, t, Placed(draft, org, id, name, parents)).value;
      && Stands(sha, AddEvent(t, e), org, id, m.(events := m.events + [draft.id])) && OwnEvent(AddEvent(t, e), id, e.id)
  {
    PlacedIsEvidence(types, draft, org, id, name, parents);
    EventStands(sha, types, t, Placed(draft, org, id, name, parents), m);
  }

  function IdsOf(drafts: seq<EventInput>): (r: seq<Str>)
    ensures |r| == |drafts|
  {
    seq(|drafts|, i requires 0 <= i < |drafts| => drafts[i].id)
  }

  /** New drafts, each with an id of its own. */
  predicate Fresh(drafts: seq<EventInput>, used: seq<Str>)
  {
    && (forall i :: 0 <= i < |drafts| ==> DraftOk(drafts[i]) && drafts[i].id !in used)
    && (forall i, j :: 0 <= i < j < |drafts| ==> drafts[i].id != drafts[j].id)
  }

  lemma FreshRest(drafts: seq<EventInput>, used: seq<Str>)
    requires Fresh(drafts, used) && drafts != []
    ensures Fresh(drafts[1..], used + [drafts[0].id]) && used + [drafts[0].id] + IdsOf(drafts[1..]) == used + IdsOf(drafts)
  {
    assert [drafts[0].id] + IdsOf(drafts[1..]) == IdsOf(drafts);
  }

  lemma {:induction false} ChainStands(sha: Sha, types: set<Str>, t: Tables, org: Str, id: Str, names: seq<Str>, drafts: seq<EventInput>,
                                       parents: seq<Str>, m: Marks)
    requires Stands(sha, t, org, id, m) && |names| == |drafts| && |m.events| + |names| <= 100 && Fresh(drafts, m.events)
    requires (forall i :: 0 <= i < |names| ==> names[i] in types) && forall p :: p in parents ==> OwnEvent(t, id, p)
    ensures Stands(sha, Chain(types, t, org, id, names, drafts, parents), org, id, m.(events := m.events + IdsOf(drafts)))
    decreases |names|
  {
    if names == [] {
      assert m.events + IdsOf(drafts) == m.events;
    } else {
      DraftStands(sha, types, t, org, id, drafts[0], names[0], parents, m);
      FreshRest(drafts, m.events);
      var e := NewEvent(types, t, Placed(drafts[0], org, id, names[0], parents)).value;
      ChainStands(sha, types, AddEvent(t, e), org, id, names[1..], drafts[1..], [e.id], m.(events := m.events + [drafts[0].id]));
    }
  }

  lemma StatusSteps()
    ensures MayBecome(Created(), Running()) && MayBecome(Running(), WaitingApproval()) && MayBecome(WaitingApproval(), Failed())
    ensures !Terminal(Running()) && !Terminal(WaitingApproval()) && Terminal(Failed())
  {
    OpenStatuses();
    assert |Running()| == 7 && |WaitingApproval()| == 16 && |Created()| == 7;
    assert Running()[0] == 114 && Created()[0] == 99;
  }

  lemma StartStands(sha: Sha, types: set<Str>, org: Str, id: Str, recordId: Str)
    ensures OpenExecution(NoRows(), org, id, recordId).Ok?
    ensures Stands(sha, OpenExecution(NoRows(), org, id, recordId).value, org, id, Marks(Created(), [], []))
  {
    Seals.RunIsKept(sha, types, []);
    OpenKept(sha, NoRows(), id, Execution(id, recordId, org, Created(), None));
  }

  lemma Opened(sha: Sha, types: set<Str>, d: Drawn, allow: bool)
    requires WellDrawn(types, d, allow)
    ensures Stands(sha, OpenGoverned(sha, types, NoRows(), d.organizationId, d.id, d.recordId, d.drafts[..2], d.opening),
                   d.organizationId, d.id, Marks(Running(), IdsOf(d.drafts[..2]), [d.opening.entryId]))
  {
    var org, id, two := d.organizationId, d.id, d.drafts[..2];
    TypesKnown(types, d, allow);
    StatusSteps();
    StartStands(sha, types, org, id, d.recordId);
    var t := OpenExecution(NoRows(), org, id, d.recordId).value;
    ChainStands(sha, types, t, org, id, OpenTypes(), two, [], Marks(Created(), [], []));
    assert [] + IdsOf(two) == IdsOf(two);
    EntryStands(sha, Chain(types, t, org, id, OpenTypes(), two, []), EntryFor(d.opening, org, id, RequestOpened(), None),
                Marks(Created(), IdsOf(two), []));
  }

  /** Whatever the marks, an approval request of an open execution. */
  lemma AskStands(sha: Sha, types: set<Str>, t: Tables, org: Str, id: Str, draft: EventInput, entry: EntryInput, m: Marks)
    requires Stands(sha, t, org, id, m) && DraftOk(draft) && AskType() in types && draft.id !in m.events && |m.events| < 100
    requires MayBecome(m.status, WaitingApproval())
    requires CanonicalTimestamp(entry.createdAtCanonical) && entry.entryId !in m.entries && |m.entries| < 100
    ensures Stands(sha, AskFor(sha, types, t, org, id, draft, entry), org, id,
                   Marks(WaitingApproval(), m.events + [draft.id], m.entries + [entry.entryId]))
  {
    LastIsOwn(sha, t, org, id);
    DraftStands(sha, types, t, org, id, draft, AskType(), LastParents(t, org, id), m);
    var v := AddEvent(t, NewEvent(types, t, Placed(draft, org, id, AskType(), LastParents(t, org, id))).value);
    RequestHashOk(sha, t, org, id);
    OpenStatuses();
    EntryStands(sha, v, AskEntry(t, entry, org, id), m.(events := m.events + [draft.id]));
  }

  /** Well-formed arguments of a seal on these marks. */
  predicate SealFresh(types: set<Str>, input: SealInput, m: Marks)
  {
    && Chained(input) && (forall k :: 0 <= k < |input.preludeEvents| ==> EvidenceFault(types, input.preludeEvents[k]).None?)
    && Fresh(input.preludeEvents, m.events + [input.sealedId]) && input.sealedId !in m.events
    && SealedType() in types && CanonicalTimestamp(input.sealedAt) && |m.events| + |input.preludeEvents| < 100
    && HashOk(input.responseHash) && CanonicalTimestamp(input.createdAtCanonical)
    && input.entryId !in m.entries && |m.entries| < 100 && MayBecome(m.status, StatusText(input.executionStatus))
  }

  lemma FreshIsReady(sha: Sha, types: set<Str>, t: Tables, input: SealInput, m: Marks)
    requires Stands(sha, t, input.organizationId, input.executionId, m) && SealFresh(types, input, m)
    requires forall p :: p in FirstParents(input) ==> OwnEvent(t, input.executionId, p)
    ensures Sealable(types, t, input)
  {
    forall k | 0 <= k < |input.preludeEvents|
      ensures ReadyAt(types, t, input, k) && input.preludeEvents[k].id != input.sealedId
    {
      var e := input.preludeEvents[k];
      assert e.id !in m.events + [input.sealedId] && input.sealedId == (m.events + [input.sealedId])[|m.events|];
    }
  }

  /** After such a seal: the execution has ended, and only these event ids are used. */
  ghost predicate StandsSealed(sha: Sha, u: Tables, input: SealInput, m: Marks)
  {
    && Kept(sha, u) && GetExecution(u, input.organizationId, input.executionId).Some?
    && u.executions[input.executionId].status == StatusText(input.executionStatus)
    && |EventsFor(u.events, input.executionId)| == |m.events| + |input.preludeEvents| + 1
    && forall x :: FindEvent(u.events, x).None? <==> x !in m.events && x !in IdsOf(input.preludeEvents) && x != input.sealedId
  }

  lemma SealStands(sha: Sha, types: set<Str>, t: Tables, input: SealInput, m: Marks)
    requires Stands(sha, t, input.organizationId, input.executionId, m) && SealFresh(types, input, m)
    requires forall p :: p in FirstParents(input) ==> OwnEvent(t, input.executionId, p)
    ensures SealExecution(sha, types, t, input).Ok?
    ensures StandsSealed(sha, SealExecution(sha, types, t, input).value, input, m)
  {
    var org, id, n := input.organizationId, input.executionId, |input.preludeEvents|;
    FreshIsReady(sha, types, t, input, m);
    SealAcceptedExactly(sha, types, t, input);
    PreludeExactly(sha, types, t, input, n);
    var u, s := SealExecution(sha, types, t, input).value, Prelude(types, t, input).value;
    var events, pre, sealed, hash, entry := Seals.FinishSealSteps(sha, types, s.0, input, GetExecution(t, org, id).value, s.1);
    SealedIds(types, t, input, m, s.0, SealedInput(input, s.1, pre), sealed);
    SealedStands(sha, types, t, u, input);
    var requestHash :| entry == SealEntry(input, requestHash, hash);
    AppendEntryEffect(sha, AddEvent(s.0, sealed), entry);
  }

  lemma InIds(drafts: seq<EventInput>, x: Str)
    ensures x in IdsOf(drafts) <==> exists j :: 0 <= j < |drafts| && drafts[j].id == x
  {
    if j :| 0 <= j < |drafts| && drafts[j].id == x {
      assert IdsOf(drafts)[j] == x;
    }
  }

  lemma SealedIds(types: set<Str>, t: Tables, input: SealInput, m: Marks, w: Tables, last: EventInput, sealed: Event)
    requires NewEvent(types, w, last) == Ok(sealed) && last.id == input.sealedId && last.executionId == input.executionId
    requires |EventsFor(w.events, input.executionId)| == |m.events| + |input.preludeEvents|
    requires forall x :: FindEvent(t.events, x).None? <==> x !in m.events
    requires forall x :: FindEvent(w.events, x).None? <==>
      FindEvent(t.events, x).None? && forall j :: 0 <= j < |input.preludeEvents| ==> input.preludeEvents[j].id != x
    ensures |EventsFor(AddEvent(w, sealed).events, input.executionId)| == |m.events| + |input.preludeEvents| + 1
    ensures forall x :: FindEvent(AddEvent(w, sealed).events, x).None? <==>
      x !in m.events && x !in IdsOf(input.preludeEvents) && x != input.sealedId
  {
    EventGrows(types, w, last);
    forall x
      ensures FindEvent(w.events + [sealed], x).None? <==> x !in m.events && x !in IdsOf(input.preludeEvents) && x != input.sealedId
    {
      FindAppend(w.events, sealed, x);
      InIds(input.preludeEvents, x);
    }
  }

  lemma SealedStands(sha: Sha, types: set<Str>, t: Tables, u: Tables, input: SealInput)
    requires Kept(sha, t) && SealExecution(sha, types, t, input) == Ok(u)
    ensures Kept(sha, u) && GetExecution(u, input.organizationId, input.executionId).Some?
    ensures u.executions[input.executionId].status == StatusText(input.executionStatus)
  {
    Seals.SealRecords(sha, types, t, u, input);
    var v, x, hash, entry := Seals.SealStages(sha, types, t, u, input);
    Seals.SealedEntryOk(sha, v, u, x, input, entry, hash);
  }

  // ---------------------------------------------------------------- the run

  function WaitingMarks(d: Drawn): Marks
    requires |d.drafts| == 8
  {
    Marks(WaitingApproval(), IdsOf(d.drafts[..2]) + [d.drafts[2].id], [d.opening.entryId] + [d.asking.entryId])
  }

  function FailingSeal(d: Drawn, parents: seq<Str>): SealInput
    requires |d.drafts| == 8 && |FinalTypes(O.FailedOutcome)| == 4
  {
    FinalSeal(parents, d.organizationId, d.id, O.FailedOutcome, d.drafts[3..7], d.seal)
  }

  lemma FailingPrelude(types: set<Str>, d: Drawn, allow: bool, parents: seq<Str>, k: nat)
    requires WellDrawn(types, d, allow) && |FinalTypes(O.FailedOutcome)| == 4 && k < 4
    ensures var e := FailingSeal(d, parents).preludeEvents[k];
      EvidenceFault(types, e).None? && DraftOk(e) && e.id == d.drafts[3 + k].id && (k > 0 ==> e.parentEventIds == [])
  {
    TypesKnown(types, d, allow);
    assert FailingSeal(d, parents).preludeEvents[k].eventType == FinalTypes(O.FailedOutcome)[k];
  }

  lemma WaitingEvents(d: Drawn)
    requires |d.drafts| == 8
    ensures WaitingMarks(d).events == [d.drafts[0].id, d.drafts[1].id, d.drafts[2].id]
    ensures WaitingMarks(d).events + [d.seal.sealedId] == [d.drafts[0].id, d.drafts[1].id, d.drafts[2].id, d.seal.sealedId]
  {
  }

  lemma FailureIsFresh(types: set<Str>, d: Drawn, allow: bool, parents: seq<Str>)
    requires WellDrawn(types, d, allow) && |FinalTypes(O.FailedOutcome)| == 4
    ensures SealFresh(types, FailingSeal(d, parents), WaitingMarks(d))
  {
    var prelude := FailingSeal(d, parents).preludeEvents;
    TypesKnown(types, d, allow);
    StatusSteps();
    WaitingEvents(d);
    forall k | 0 <= k < 4
      ensures EvidenceFault(types, prelude[k]).None? && DraftOk(prelude[k])
      ensures prelude[k].id == d.drafts[3 + k].id && (k > 0 ==> prelude[k].parentEventIds == [])
    {
      FailingPrelude(types, d, allow, parents, k);
    }
  }

  lemma DecisionIsNew(types: set<Str>, d: Drawn, allow: bool, parents: seq<Str>)
    requires WellDrawn(types, d, allow) && |FinalTypes(O.FailedOutcome)| == 4
    ensures d.drafts[7].id !in WaitingMarks(d).events && d.drafts[7].id !in IdsOf(FailingSeal(d, parents).preludeEvents)
  {
    WaitingEvents(d);
    InIds(FailingSeal(d, parents).preludeEvents, d.drafts[7].id);
  }

  /** The execution has ended, and the decision's event can still be recorded. */
  ghost predicate Decidable(sha: Sha, t: Tables, d: Drawn)
    requires |d.drafts| == 8
  {
    && Kept(sha, t) && GetExecution(t, d.organizationId, d.id).Some? && Ended(t, d.id)
    && FindEvent(t.events, d.drafts[7].id).None? && |EventsFor(t.events, d.id)| == 8
  }

  lemma SealedIsDecidable(sha: Sha, types: set<Str>, u: Tables, d: Drawn, allow: bool, parents: seq<Str>)
    requires WellDrawn(types, d, allow) && |FinalTypes(O.FailedOutcome)| == 4
    requires StandsSealed(sha, u, FailingSeal(d, parents), WaitingMarks(d))
    ensures Decidable(sha, u, d)
  {
    StatusSteps();
    DecisionIsNew(types, d, allow, parents);
  }

  lemma WaitingIsFinalizable(t: Tables, org: Str, id: Str)
    requires GetExecution(t, org, id).Some? && t.executions[id].status == WaitingApproval()
    ensures Finalizable(t, org, id, O.FailedOutcome)
  {
    StatusSteps();
  }

  lemma ServesFinalize(sha: Sha, types: set<Str>, t: Tables, org: Str, id: Str, o: FinalOutcome, drafts: seq<EventInput>, seal: SealInput)
    requires Finalizable(t, org, id, o)
    ensures Serve(sha, types, t, Finalize(org, id, o, drafts, seal))
         == SealFrom(sha, types, t, org, id, o, LastParents(t, org, id), drafts, seal)
  {
  }

  lemma SealFromIs(sha: Sha, types: set<Str>, t: Tables, org: Str, id: Str, o: FinalOutcome, parents: seq<Str>, drafts: seq<EventInput>,
                   seal: SealInput, u: Tables)
    requires |drafts| == |FinalTypes(o)| && SealExecution(sha, types, t, FinalSeal(parents, org, id, o, drafts, seal)) == Ok(u)
    ensures SealFrom(sha, types, t, org, id, o, parents, drafts, seal) == u
  {
  }

  lemma FailingSealStands(sha: Sha, types: set<Str>, t: Tables, d: Drawn, allow: bool, parents: seq<Str>)
    requires WellDrawn(types, d, allow) && Stands(sha, t, d.organizationId, d.id, WaitingMarks(d)) && |FinalTypes(O.FailedOutcome)| == 4
    requires parents == LastParents(t, d.organizationId, d.id)
    ensures SealExecution(sha, types, t, FailingSeal(d, parents)).Ok?
    ensures Decidable(sha, SealExecution(sha, types, t, FailingSeal(d, parents)).value, d)
  {
    FailureIsFresh(types, d, allow, parents);
    LastIsOwn(sha, t, d.organizationId, d.id);
    SealStands(sha, types, t, FailingSeal(d, parents), WaitingMarks(d));
    SealedIsDecidable(sha, types, SealExecution(sha, types, t, FailingSeal(d, parents)).value, d, allow, parents);
  }

  lemma Finalized(sha: Sha, types: set<Str>, t: Tables, d: Drawn, allow: bool, u: Tables)
    requires WellDrawn(types, d, allow) && Stands(sha, t, d.organizationId, d.id, WaitingMarks(d))
    requires u == SealFrom(sha, types, t, d.organizationId, d.id, O.FailedOutcome, LastParents(t, d.organizationId, d.id),
                           d.drafts[3..7], d.seal)
    ensures Decidable(sha, u, d)
  {
    var parents := LastParents(t, d.organizationId, d.id);
    TypesKnown(types, d, allow);
    FailingSealStands(sha, types, t, d, allow, parents);
    SealFromIs(sha, types, t, d.organizationId, d.id, O.FailedOutcome, parents, d.drafts[3..7], d.seal,
               SealExecution(sha, types, t, FailingSeal(d, parents)).value);
  }

  lemma DecidedLate(sha: Sha, types: set<Str>, t: Tables, d: Drawn, allow: bool)
    requires WellDrawn(types, d, allow) && Decidable(sha, t, d)
    ensures AppendsLate(types, t, FailingRun(d, allow)[3])
    ensures GetExecution(Serve(sha, types, t, FailingRun(d, allow)[3]), d.organizationId, d.id).Some?
  {
    var org, id := d.organizationId, d.id;
    TypesKnown(types, d, allow);
    LastIsOwn(sha, t, org, id);
    PlacedIsEvidence(types, d.drafts[7], org, id, DecisionType(allow), LastParents(t, org, id));
  }

  lemma LastCall(sha: Sha, types: set<Str>, calls: seq<ServiceCall>, k: nat)
    requires k < |calls|
    ensures ServeAll(sha, types, calls[..k + 1]) == Serve(sha, types, ServeAll(sha, types, calls[..k]), calls[k])
    ensures ServeAll(sha, types, calls[..0]) == NoRows() && calls[..|calls|] == calls
  {
    assert calls[..k + 1][..k] == calls[..k];
  }

  lemma AfterOpening(sha: Sha, types: set<Str>, d: Drawn, allow: bool)
    requires WellDrawn(types, d, allow)
    ensures Stands(sha, ServeAll(sha, types, FailingRun(d, allow)[..1]), d.organizationId, d.id,
                   Marks(Running(), IdsOf(d.drafts[..2]), [d.opening.entryId]))
  {
    LastCall(sha, types, FailingRun(d, allow), 0);
    Opened(sha, types, d, allow);
  }

  lemma ServesAsk(sha: Sha, types: set<Str>, t: Tables, org: Str, id: Str, draft: EventInput, entry: EntryInput)
    requires GetExecution(t, org, id).Some? && t.executions[id].status == Running()
    ensures Serve(sha, types, t, AskApproval(org, id, draft, entry)) == AskFor(sha, types, t, org, id, draft, entry)
  {
    StatusSteps();
  }

  lemma AfterAsking(sha: Sha, types: set<Str>, d: Drawn, allow: bool)
    requires WellDrawn(types, d, allow)
    ensures Stands(sha, ServeAll(sha, types, FailingRun(d, allow)[..2]), d.organizationId, d.id, WaitingMarks(d))
  {
    LastCall(sha, types, FailingRun(d, allow), 1);
    AfterOpening(sha, types, d, allow);
    Asking(sha, types, ServeAll(sha, types, FailingRun(d, allow)[..1]), d, allow);
  }

  lemma Asking(sha: Sha, types: set<Str>, t: Tables, d: Drawn, allow: bool)
    requires WellDrawn(types, d, allow)
    requires Stands(sha, t, d.organizationId, d.id, Marks(Running(), IdsOf(d.drafts[..2]), [d.opening.entryId]))
    ensures Stands(sha, Serve(sha, types, t, FailingRun(d, allow)[1]), d.organizationId, d.id, WaitingMarks(d))
  {
    var m := Marks(Running(), IdsOf(d.drafts[..2]), [d.opening.entryId]);
    ServesAsk(sha, types, t, d.organizationId, d.id, d.drafts[2], d.asking);
    StatusSteps();
    TypesKnown(types, d, allow);
    assert IdsOf(d.drafts[..2]) == [d.drafts[0].id, d.drafts[1].id];
    AskStands(sha, types, t, d.organizationId, d.id, d.drafts[2], d.asking, m);
  }

  lemma BeforeDecision(sha: Sha, types: set<Str>, d: Drawn, allow: bool)
    requires WellDrawn(types, d, allow)
    ensures Decidable(sha, ServeAll(sha, types, FailingRun(d, allow)[..3]), d)
  {
    var t := ServeAll(sha, types, FailingRun(d, allow)[..2]);
    LastCall(sha, types, FailingRun(d, allow), 2);
    AfterAsking(sha, types, d, allow);
    WaitingIsFinalizable(t, d.organizationId, d.id);
    ServesFinalize(sha, types, t, d.organizationId, d.id, O.FailedOutcome, d.drafts[3..7], d.seal);
    Finalized(sha, types, t, d, allow, ServeAll(sha, types, FailingRun(d, allow)[..3]));
  }

  /** The input: every call of the run succeeds, and the last one appends behind the seal. */
  lemma DecisionIsLate(sha: Sha, types: set<Str>, d: Drawn, allow: bool)
    requires WellDrawn(types, d, allow)
    ensures d.id in LateIds(sha, types, FailingRun(d, allow))
    ensures GetExecution(ServeAll(sha, types, FailingRun(d, allow)), d.organizationId, d.id).Some?
  {
    var calls := FailingRun(d, allow);
    BeforeDecision(sha, types, d, allow);
    LastCall(sha, types, calls, 3);
    DecidedLate(sha, types, ServeAll(sha, types, calls[..3]), d, allow);
    assert calls[..|calls| - 1] == calls[..3];
  }

  /** With one interval per organization its export is rejected, unless graphs collide. */
  lemma FailingRunRejected(sha: Sha, types: set<Str>, interval: Str -> int, d: Drawn, allow: bool, ids: seq<Str>)
    requires WellDrawn(types, d, allow)
    requires d.opening.interval == d.asking.interval == d.seal.interval == interval(d.organizationId)
    requires Exports.Lists(ServeAll(sha, types, FailingRun(d, allow)), d.organizationId, ids)
    requires forall x :: x in ids ==> x in ServeAll(sha, types, FailingRun(d, allow)).executions
    requires CollisionFreeOn(sha, PrefixGraphs(ServeAll(sha, types, FailingRun(d, allow))))
    ensures !LateEvents.Accepted(sha, ServeAll(sha, types, FailingRun(d, allow)), d.organizationId, ids)
  {
    var calls := FailingRun(d, allow);
    DecisionIsLate(sha, types, d, allow);
    ServiceExports(sha, types, interval, calls, d.organizationId, ids);
  }
}
