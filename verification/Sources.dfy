/** Where the events of a governed execution start: every run of service calls. */
module Sources {
  import opened Basics
  import opened Records
  import opened Ledgers
  import opened Kernel
  import opened VerifyGraphs
  import opened EventDag
  import opened Reachable
  import opened Service
  import Seals

  // ---------------------------------------------------------------- one source

  /** Every event but the first names a parent, and none but the first is `execution.created`. */
  ghost predicate Rooted(events: seq<Event>)
  {
    forall j :: 0 < j < |events| ==> events[j].parentEventIds != [] && events[j].eventType != ExecutionCreated()
  }

  ghost predicate RootedAt(t: Tables, id: Str)
  {
    ExecutionSound(t, id) && Rooted(EventsFor(t.events, id))
  }

  ghost predicate AllRooted(t: Tables)
  {
    forall id :: RootedAt(t, id)
  }

  /** Appending this keeps the execution rooted. */
  ghost predicate Fits(t: Tables, input: EventInput)
  {
    EventsFor(t.events, input.executionId) != [] ==> input.parentEventIds != [] && input.eventType != ExecutionCreated()
  }

  lemma RootedGrows(events: seq<Event>, e: Event)
    requires Rooted(events) && (events != [] ==> e.parentEventIds != [] && e.eventType != ExecutionCreated())
    ensures Rooted(events + [e])
  {
  }

  lemma StoredParents(types: set<Str>, t: Tables, input: EventInput, e: Event)
    requires NewEvent(types, t, input) == Ok(e)
    ensures input.parentEventIds != [] ==> e.parentEventIds != []
    ensures e.eventType == input.eventType && e.executionId == input.executionId && e.id == input.id
    ensures GetExecution(t, input.organizationId, input.executionId).Some?
  {
    UniqueSortedIsCanonical(input.parentEventIds);
    if input.parentEventIds != [] {
      assert input.parentEventIds[0] in UniqueSortedIds(input.parentEventIds);
    }
  }

  lemma AppendRooted(types: set<Str>, t: Tables, input: EventInput, e: Event)
    requires AllRooted(t) && NewEvent(types, t, input) == Ok(e) && Fits(t, input)
    ensures AllRooted(AddEvent(t, e))
    ensures EventsFor(AddEvent(t, e).events, input.executionId) == EventsFor(t.events, input.executionId) + [e]
    ensures forall id :: id != input.executionId ==> EventsFor(AddEvent(t, e).events, id) == EventsFor(t.events, id)
  {
    StoredParents(types, t, input, e);
    forall id
      ensures RootedAt(AddEvent(t, e), id)
      ensures EventsFor(AddEvent(t, e).events, id) == EventsFor(t.events, id) + (if id == input.executionId then [e] else [])
    {
      assert RootedAt(t, id) && RootedAt(t, input.executionId);
      EventKeepsSound(types, t, input, id);
      if id == input.executionId {
        RootedGrows(EventsFor(t.events, id), e);
      }
    }
  }

  /** Only the first of these events may be `execution.created`. */
  ghost predicate CreatesFirst(names: seq<Str>)
  {
    forall i :: 0 < i < |names| ==> names[i] != ExecutionCreated()
  }

  /** A chain keeps every execution rooted when its first event does. */
  lemma {:induction false} ChainRooted(types: set<Str>, t: Tables, org: Str, id: Str, names: seq<Str>, drafts: seq<EventInput>,
                                       parents: seq<Str>)
    requires AllRooted(t) && CreatesFirst(names)
    requires names != [] && EventsFor(t.events, id) != [] ==> parents != [] && names[0] != ExecutionCreated()
    ensures AllRooted(Chain(types, t, org, id, names, drafts, parents))
    ensures OnlyEvents(t, Chain(types, t, org, id, names, drafts, parents), id)
    ensures var events := EventsFor(Chain(types, t, org, id, names, drafts, parents).events, id);
      names != [] && EventsFor(t.events, id) == [] && events != [] ==> events[0].eventType == names[0]
    decreases |names|
  {
    if names != [] && drafts != [] {
      var input := Placed(drafts[0], org, id, names[0], parents);
      if NewEvent(types, t, input).Ok? {
        var e := NewEvent(types, t, input).value;
        AppendRooted(types, t, input, e);
        EventGrows(types, t, input);
        StoredParents(types, t, input, e);
        ChainRooted(types, AddEvent(t, e), org, id, names[1..], drafts[1..], [e.id]);
        OnlyEventsTransitive(t, AddEvent(t, e), Chain(types, t, org, id, names, drafts, parents), id);
      }
    }
  }

  // ---------------------------------------------------------------- event types of the calls

  lemma NotCreated(name: Str)
    requires |name| != 17 || name[0] != 101 || name[10] != 99
    ensures name != ExecutionCreated()
  {
    assert |ExecutionCreated()| == 17 && ExecutionCreated()[0] == 101 && ExecutionCreated()[10] == 99;
  }

  lemma PathCreatesNothing(p: Path, i: nat)
    requires i < |PathTypes(p)|
    ensures PathTypes(p)[i] != ExecutionCreated()
  {
    NotCreated(PathTypes(p)[i]);
  }

  lemma FinalCreatesNothing(o: FinalOutcome, i: nat)
    requires i < |FinalTypes(o)|
    ensures FinalTypes(o)[i] != ExecutionCreated()
  {
    NotCreated(FinalTypes(o)[i]);
  }

  lemma LastParentsNamed(t: Tables, org: Str, id: Str)
    requires ExecutionSound(t, id) && GetExecution(t, org, id).Some? && EventsFor(t.events, id) != []
    ensures LastParents(t, org, id) != []
  {
    ListIsFor(t, org, id);
  }

  // ---------------------------------------------------------------- what each call keeps

  /** The events of one execution grow at the end, starting with `first` if they start now; others
      stay as they are. */
  ghost predicate Grows(t: Tables, u: Tables, id: Str, creates: bool)
  {
    && AllRooted(u)
    && |EventsFor(t.events, id)| <= |EventsFor(u.events, id)|
    && EventsFor(u.events, id)[..|EventsFor(t.events, id)|] == EventsFor(t.events, id)
    && (forall other :: other != id ==> EventsFor(u.events, other) == EventsFor(t.events, other))
    && (EventsFor(t.events, id) == [] && EventsFor(u.events, id) != [] ==>
          (EventsFor(u.events, id)[0].eventType == ExecutionCreated() <==> creates))
  }

  lemma FollowGrows(types: set<Str>, t: Tables, org: Str, id: Str, path: Path, drafts: seq<EventInput>)
    requires AllRooted(t) && GetExecution(t, org, id).Some?
    ensures Grows(t, Chain(types, t, org, id, PathTypes(path), drafts, LastParents(t, org, id)), id, false)
  {
    assert RootedAt(t, id);
    if EventsFor(t.events, id) != [] {
      LastParentsNamed(t, org, id);
    }
    forall i | 0 <= i < |PathTypes(path)| ensures PathTypes(path)[i] != ExecutionCreated() {
      PathCreatesNothing(path, i);
    }
    ChainRooted(types, t, org, id, PathTypes(path), drafts, LastParents(t, org, id));
  }

  /** One event behind the last. */
  lemma OneGrows(types: set<Str>, t: Tables, org: Str, id: Str, draft: EventInput, name: Str, e: Event)
    requires AllRooted(t) && name != ExecutionCreated()
    requires NewEvent(types, t, Placed(draft, org, id, name, LastParents(t, org, id))) == Ok(e)
    ensures Grows(t, AddEvent(t, e), id, false) && OnlyEvents(t, AddEvent(t, e), id)
  {
    var input := Placed(draft, org, id, name, LastParents(t, org, id));
    StoredParents(types, t, input, e);
    assert RootedAt(t, id);
    if EventsFor(t.events, id) != [] {
      LastParentsNamed(t, org, id);
    }
    AppendRooted(types, t, input, e);
    EventGrows(types, t, input);
  }

  /** Changing statuses and chains, with the events as they are. */
  lemma MoveGrows(t: Tables, u: Tables, v: Tables, id: Str, moved: Str, creates: bool)
    requires Grows(t, u, id, creates) && v.events == u.events && (v.executions == u.executions || Moves(u, v, moved))
    ensures Grows(t, v, id, creates)
  {
    forall other ensures RootedAt(v, other) {
      assert RootedAt(u, other);
    }
  }

  lemma OpenGrows(sha: Sha, types: set<Str>, t: Tables, org: Str, id: Str, recordId: Str, drafts: seq<EventInput>, entry: EntryInput)
    requires AllRooted(t)
    ensures Grows(t, OpenGoverned(sha, types, t, org, id, recordId, drafts, entry), id, true)
  {
    if OpenExecution(t, org, id, recordId).Ok? {
      var created := OpenExecution(t, org, id, recordId).value;
      forall other ensures RootedAt(created, other) {
        assert RootedAt(t, other);
        OpenKeepsSound(t, id, Execution(id, recordId, org, Created(), None), other);
      }
      assert RootedAt(t, id);
      NotCreated(OpenTypes()[1]);
      ChainRooted(types, created, org, id, OpenTypes(), drafts, []);
      var u := Chain(types, created, org, id, OpenTypes(), drafts, []);
      assert Grows(t, u, id, true);
      var input := EntryFor(entry, org, id, RequestOpened(), None);
      if AppendEntry(sha, u, input).Ok? {
        AppendEntryEffect(sha, u, input);
        MoveGrows(t, u, AppendEntry(sha, u, input).value, id, id, true);
      }
    } else {
      assert RootedAt(t, id);
    }
  }

  lemma AskGrows(sha: Sha, types: set<Str>, t: Tables, org: Str, id: Str, draft: EventInput, entry: EntryInput)
    requires AllRooted(t)
    ensures Grows(t, AskFor(sha, types, t, org, id, draft, entry), id, false)
  {
    var input := Placed(draft, org, id, AskType(), LastParents(t, org, id));
    assert RootedAt(t, id);
    if NewEvent(types, t, input).Ok? {
      var e := NewEvent(types, t, input).value;
      NotCreated(AskType());
      OneGrows(types, t, org, id, draft, AskType(), e);
      var asked := AskEntry(t, entry, org, id);
      if AppendEntry(sha, AddEvent(t, e), asked).Ok? {
        AppendEntryEffect(sha, AddEvent(t, e), asked);
        MoveGrows(t, AddEvent(t, e), AppendEntry(sha, AddEvent(t, e), asked).value, id, id, false);
      }
    }
  }

  lemma DecideGrows(types: set<Str>, t: Tables, org: Str, id: Str, allow: bool, draft: EventInput)
    requires AllRooted(t)
    ensures Grows(t, DecideOn(types, t, org, id, allow, draft), id, false)
  {
    var input := Placed(draft, org, id, DecisionType(allow), LastParents(t, org, id));
    assert RootedAt(t, id);
    if NewEvent(types, t, input).Ok? {
      var e := NewEvent(types, t, input).value;
      NotCreated(DecisionType(allow));
      OneGrows(types, t, org, id, draft, DecisionType(allow), e);
      MoveGrows(t, AddEvent(t, e), DecideOn(types, t, org, id, allow, draft), id, id, false);
    }
  }

  // ---------------------------------------------------------------- finalization

  /** What the prelude carries from one event to the next: tables in order, and a parent to name. */
  ghost predicate PreludeRooted(t: Tables, id: Str, s: (Tables, seq<Str>))
  {
    && Grows(t, s.0, id, false) && OnlyEvents(t, s.0, id)
    && (EventsFor(s.0.events, id) != [] ==> s.1 != [])
  }

  lemma GrowsTransitive(t: Tables, u: Tables, v: Tables, id: Str)
    requires Grows(t, u, id, false) && Grows(u, v, id, false)
    ensures Grows(t, v, id, false)
  {
    var a, b, c := EventsFor(t.events, id), EventsFor(u.events, id), EventsFor(v.events, id);
    assert c[..|a|] == c[..|b|][..|a|];
    assert b != [] ==> c[0] == c[..|b|][0];
  }

  lemma PreludeStepRooted(types: set<Str>, t: Tables, input: SealInput, i: nat, s: (Tables, seq<Str>))
    requires PreludeRooted(t, input.executionId, s) && PreludeSteps(types, input)(i, s).Ok?
    requires forall k :: 0 <= k < |input.preludeEvents| ==> input.preludeEvents[k].eventType != ExecutionCreated()
    ensures PreludeRooted(t, input.executionId, PreludeSteps(types, input)(i, s).value)
  {
    if i < |input.preludeEvents| {
      var one := PreludeInput(input, i, s.1);
      var e := NewEvent(types, s.0, one).value;
      AppendRooted(types, s.0, one, e);
      EventGrows(types, s.0, one);
      StoredParents(types, s.0, one, e);
      GrowsTransitive(t, s.0, AddEvent(s.0, e), input.executionId);
      OnlyEventsTransitive(t, s.0, AddEvent(s.0, e), input.executionId);
    }
  }

  lemma PreludeGrows(types: set<Str>, t: Tables, input: SealInput)
    requires AllRooted(t) && Prelude(types, t, input).Ok?
    requires EventsFor(t.events, input.executionId) != [] ==> input.parentEventIds != []
    requires forall k :: 0 <= k < |input.preludeEvents| ==> input.preludeEvents[k].eventType != ExecutionCreated()
    ensures PreludeRooted(t, input.executionId, Prelude(types, t, input).value)
  {
    var steps := PreludeSteps(types, input);
    var inv := (s: (Tables, seq<Str>)) => PreludeRooted(t, input.executionId, s);
    assert RootedAt(t, input.executionId);
    forall i: nat, s: (Tables, seq<Str>) | inv(s) && steps(i, s).Ok? ensures inv(steps(i, s).value) {
      PreludeStepRooted(types, t, input, i, s);
    }
    FoldKeeps(steps, (t, input.parentEventIds), |input.preludeEvents|, inv);
  }

  lemma SealGrows(sha: Sha, types: set<Str>, t: Tables, u: Tables, input: SealInput)
    requires AllRooted(t) && SealExecution(sha, types, t, input) == Ok(u)
    requires EventsFor(t.events, input.executionId) != [] ==> input.parentEventIds != []
    requires forall k :: 0 <= k < |input.preludeEvents| ==> input.preludeEvents[k].eventType != ExecutionCreated()
    ensures Grows(t, u, input.executionId, false)
  {
    var x := GetExecution(t, input.organizationId, input.executionId).value;
    PreludeGrows(types, t, input);
    var (w, parents) := Prelude(types, t, input).value;
    var events, preSealHash, sealed, sealedHash, entry := Seals.FinishSealSteps(sha, types, w, input, x, parents);
    SealedGrows(sha, types, t, w, u, input, SealedInput(input, parents, preSealHash), sealed, entry);
  }

  lemma SealedGrows(sha: Sha, types: set<Str>, t: Tables, w: Tables, u: Tables, input: SealInput, last: EventInput, sealed: Event,
                    entry: EntryInput)
    requires Grows(t, w, input.executionId, false) && NewEvent(types, w, last) == Ok(sealed)
    requires last.executionId == input.executionId && last.eventType == SealedType()
    requires EventsFor(w.events, input.executionId) != [] ==> last.parentEventIds != []
    requires AppendEntry(sha, AddEvent(w, sealed), entry) == Ok(u)
    ensures Grows(t, u, input.executionId, false)
  {
    NotCreated(SealedType());
    AppendRooted(types, w, last, sealed);
    EventGrows(types, w, last);
    StoredParents(types, w, last, sealed);
    GrowsTransitive(t, w, AddEvent(w, sealed), input.executionId);
    AppendEntryEffect(sha, AddEvent(w, sealed), entry);
    MoveGrows(t, AddEvent(w, sealed), u, input.executionId, entry.executionId, false);
  }

  lemma FinalPreludeCreatesNothing(parents: seq<Str>, org: Str, id: Str, o: FinalOutcome, drafts: seq<EventInput>, seal: SealInput)
    requires |drafts| == |FinalTypes(o)|
    ensures var input := FinalSeal(parents, org, id, o, drafts, seal);
      forall k :: 0 <= k < |input.preludeEvents| ==> input.preludeEvents[k].eventType != ExecutionCreated()
  {
    forall k | 0 <= k < |FinalTypes(o)| ensures FinalTypes(o)[k] != ExecutionCreated() {
      FinalCreatesNothing(o, k);
    }
  }

  lemma SealFromGrows(sha: Sha, types: set<Str>, t: Tables, org: Str, id: Str, o: FinalOutcome, parents: seq<Str>,
                      drafts: seq<EventInput>, seal: SealInput)
    requires AllRooted(t) && (EventsFor(t.events, id) != [] ==> parents != [])
    ensures Grows(t, SealFrom(sha, types, t, org, id, o, parents, drafts, seal), id, false)
  {
    assert RootedAt(t, id);
    if |drafts| == |FinalTypes(o)| {
      var input := FinalSeal(parents, org, id, o, drafts, seal);
      FinalPreludeCreatesNothing(parents, org, id, o, drafts, seal);
      if SealExecution(sha, types, t, input).Ok? {
        SealGrows(sha, types, t, SealExecution(sha, types, t, input).value, input);
      }
    }
  }

  lemma ResumeGrows(types: set<Str>, t: Tables, org: Str, id: Str, path: Path, from: nat, parent: Str, drafts: seq<EventInput>)
    requires AllRooted(t)
    ensures Grows(t, Chain(types, t, org, id, RestOf(path, from), drafts, [parent]), id, false)
  {
    assert RootedAt(t, id);
    forall i | 0 <= i < |RestOf(path, from)| ensures RestOf(path, from)[i] != ExecutionCreated() {
      PathCreatesNothing(path, from + i);
    }
    ChainRooted(types, t, org, id, RestOf(path, from), drafts, [parent]);
  }

  // ---------------------------------------------------------------- every run

  lemma ServeGrows(sha: Sha, types: set<Str>, t: Tables, call: ServiceCall)
    requires AllRooted(t)
    ensures Grows(t, Serve(sha, types, t, call), call.id, call.Open?)
  {
    assert RootedAt(t, call.id);
    match call
    case Open(org, id, recordId, drafts, entry) => OpenGrows(sha, types, t, org, id, recordId, drafts, entry);
    case Follow(org, id, path, drafts) =>
      if IsOpen(t, org, id) {
        FollowGrows(types, t, org, id, path, drafts);
      }
    case AskApproval(org, id, draft, entry) =>
      if IsOpen(t, org, id) {
        AskGrows(sha, types, t, org, id, draft, entry);
      }
    case Decide(org, id, allow, draft) => DecideGrows(types, t, org, id, allow, draft);
    case Finalize(org, id, o, drafts, seal) =>
      if Finalizable(t, org, id, o) {
        if EventsFor(t.events, id) != [] {
          LastParentsNamed(t, org, id);
        }
        SealFromGrows(sha, types, t, org, id, o, LastParents(t, org, id), drafts, seal);
      }
    case Resume(org, id, path, from, parent, drafts) => ResumeGrows(types, t, org, id, path, from, parent, drafts);
    case SealChecked(org, id, o, parent, drafts, seal) => SealFromGrows(sha, types, t, org, id, o, [parent], drafts, seal);
  }

  lemma {:induction false} RunRooted(sha: Sha, types: set<Str>, calls: seq<ServiceCall>)
    ensures AllRooted(ServeAll(sha, types, calls))
  {
    if calls == [] {
      assert forall id :: RootedAt(NoRows(), id);
    } else {
      RunRooted(sha, types, calls[..|calls| - 1]);
      ServeGrows(sha, types, ServeAll(sha, types, calls[..|calls| - 1]), calls[|calls| - 1]);
    }
  }

  // ---------------------------------------------------------------- the opening call

  /** What the opening call needs to record its first event, on the tables before it. */
  predicate CanRecord(types: set<Str>, t: Tables, call: ServiceCall)
  {
    && call.Open? && call.drafts != []
    && call.id !in t.executions && !RecordTaken(t, call.recordId)
    && EvidenceFault(types, Placed(call.drafts[0], call.organizationId, call.id, ExecutionCreated(), [])).None?
    && FindEvent(t.events, call.drafts[0].id).None?
  }

  /** The first event of a new execution. */
  lemma FirstEventExactly(types: set<Str>, t: Tables, input: EventInput)
    requires ExecutionSound(t, input.executionId) && EventsFor(t.events, input.executionId) == []
    requires GetExecution(t, input.organizationId, input.executionId).Some? && input.parentEventIds == []
    ensures NewEvent(types, t, input).Ok? <==> EvidenceFault(types, input).None? && FindEvent(t.events, input.id).None?
  {
    NextSequenceIsLength(t, input);
    assert UniqueSortedIds([]) == [];
  }

  lemma OpenRecords(sha: Sha, types: set<Str>, t: Tables, call: ServiceCall)
    requires AllRooted(t) && call.Open?
    ensures EventsFor(t.events, call.id) == [] && EventsFor(Serve(sha, types, t, call).events, call.id) != [] <==> CanRecord(types, t, call)
  {
    var org, id := call.organizationId, call.id;
    assert RootedAt(t, id);
    if OpenExecution(t, org, id, call.recordId).Ok? {
      var created := OpenExecution(t, org, id, call.recordId).value;
      assert EventsFor(created.events, id) == [] && ExecutionSound(created, id);
      ChainRecords(types, created, org, id, call.drafts);
      OpenEntryKeepsEvents(sha, types, t, call);
    }
  }

  lemma ChainRecords(types: set<Str>, t: Tables, org: Str, id: Str, drafts: seq<EventInput>)
    requires ExecutionSound(t, id) && EventsFor(t.events, id) == [] && GetExecution(t, org, id).Some?
    ensures EventsFor(Chain(types, t, org, id, OpenTypes(), drafts, []).events, id) != [] <==>
      && drafts != [] && EvidenceFault(types, Placed(drafts[0], org, id, ExecutionCreated(), [])).None?
      && FindEvent(t.events, drafts[0].id).None?
  {
    if drafts != [] {
      var input := Placed(drafts[0], org, id, ExecutionCreated(), []);
      FirstEventExactly(types, t, input);
      if NewEvent(types, t, input).Ok? {
        var e := NewEvent(types, t, input).value;
        EventGrows(types, t, input);
        ChainOnlyEvents(types, AddEvent(t, e), org, id, OpenTypes()[1..], drafts[1..], [e.id]);
      }
    }
  }

  lemma {:induction false} ChainOnlyEvents(types: set<Str>, t: Tables, org: Str, id: Str, names: seq<Str>, drafts: seq<EventInput>,
                                      parents: seq<Str>)
    ensures OnlyEvents(t, Chain(types, t, org, id, names, drafts, parents), id)
    decreases |names|
  {
    if names != [] && drafts != [] {
      var input := Placed(drafts[0], org, id, names[0], parents);
      if NewEvent(types, t, input).Ok? {
        var e := NewEvent(types, t, input).value;
        EventGrows(types, t, input);
        ChainOnlyEvents(types, AddEvent(t, e), org, id, names[1..], drafts[1..], [e.id]);
        OnlyEventsTransitive(t, AddEvent(t, e), Chain(types, t, org, id, names, drafts, parents), id);
      }
    }
  }

  lemma OpenEntryKeepsEvents(sha: Sha, types: set<Str>, t: Tables, call: ServiceCall)
    requires call.Open? && OpenExecution(t, call.organizationId, call.id, call.recordId).Ok?
    ensures var created := OpenExecution(t, call.organizationId, call.id, call.recordId).value;
      Serve(sha, types, t, call).events == Chain(types, created, call.organizationId, call.id, OpenTypes(), call.drafts, []).events
  {
    var created := OpenExecution(t, call.organizationId, call.id, call.recordId).value;
    var u := Chain(types, created, call.organizationId, call.id, OpenTypes(), call.drafts, []);
    var input := EntryFor(call.entry, call.organizationId, call.id, RequestOpened(), None);
    if AppendEntry(sha, u, input).Ok? {
      AppendEntryEffect(sha, u, input);
    }
  }

  /** Some call of the run opened the execution and could record its first event. */
  predicate Recorded(sha: Sha, types: set<Str>, calls: seq<ServiceCall>, id: Str)
  {
    exists k: nat :: k < |calls| && calls[k].id == id && CanRecord(types, ServeAll(sha, types, calls[..k]), calls[k])
  }

  lemma RecordedOneMore(sha: Sha, types: set<Str>, calls: seq<ServiceCall>, id: Str)
    requires calls != []
    ensures var rest, last := calls[..|calls| - 1], calls[|calls| - 1];
      Recorded(sha, types, calls, id) <==>
        Recorded(sha, types, rest, id) || (last.id == id && CanRecord(types, ServeAll(sha, types, rest), last))
  {
    var rest := calls[..|calls| - 1];
    forall k: nat | k < |rest| ensures rest[..k] == calls[..k] && rest[k] == calls[k] {
    }
    if Recorded(sha, types, rest, id) {
      var k: nat :| k < |rest| && rest[k].id == id && CanRecord(types, ServeAll(sha, types, rest[..k]), rest[k]);
      assert calls[k].id == id && CanRecord(types, ServeAll(sha, types, calls[..k]), calls[k]);
    }
    if Recorded(sha, types, calls, id) {
      var k: nat :| k < |calls| && calls[k].id == id && CanRecord(types, ServeAll(sha, types, calls[..k]), calls[k]);
      assert k < |rest| ==> rest[k].id == id && CanRecord(types, ServeAll(sha, types, rest[..k]), rest[k]);
    }
  }

  /** The first event, if there is one, is `execution.created` exactly when the opening call could record it. */
  lemma {:induction false} FirstIsCreated(sha: Sha, types: set<Str>, calls: seq<ServiceCall>, id: Str)
    ensures var events := EventsFor(ServeAll(sha, types, calls).events, id);
      if events == [] then !Recorded(sha, types, calls, id)
      else events[0].eventType == ExecutionCreated() <==> Recorded(sha, types, calls, id)
  {
    if calls != [] {
      var rest, last := calls[..|calls| - 1], calls[|calls| - 1];
      FirstIsCreated(sha, types, rest, id);
      RunRooted(sha, types, rest);
      RecordedOneMore(sha, types, calls, id);
      FirstOneMore(sha, types, ServeAll(sha, types, rest), last, id);
    }
  }

  /** What one call does to the first event. */
  lemma FirstOneMore(sha: Sha, types: set<Str>, t: Tables, call: ServiceCall, id: Str)
    requires AllRooted(t)
    ensures var was, now := EventsFor(t.events, id), EventsFor(Serve(sha, types, t, call).events, id);
      && (was != [] ==> now != [] && now[0] == was[0] && !(call.id == id && CanRecord(types, t, call)))
      && (was == [] && now == [] ==> !(call.id == id && CanRecord(types, t, call)))
      && (was == [] && now != [] ==> (now[0].eventType == ExecutionCreated() <==> call.id == id && CanRecord(types, t, call)))
  {
    ServeGrows(sha, types, t, call);
    var was, now := EventsFor(t.events, id), EventsFor(Serve(sha, types, t, call).events, id);
    if call.id == id {
      assert was != [] ==> now[..|was|][0] == was[0];
      if call.Open? {
        OpenRecords(sha, types, t, call);
      }
    }
  }

  /** In every run, each execution's events form a dag in which the first event is the only one
      without parents and reaches all others. It is `execution.created`, and the only event of that
      type, exactly when the call that opened the execution could record it: it had drawn an event,
      both ids were unused, and the event's evidence was well formed and its id new. */
  lemma OneSource(sha: Sha, types: set<Str>, calls: seq<ServiceCall>, id: Str)
    ensures var events := EventsFor(ServeAll(sha, types, calls).events, id);
      && Dag(events) && AllDescend(events)
      && (forall j :: 0 <= j < |events| ==> (events[j].parentEventIds == [] <==> j == 0))
      && (forall j :: 0 < j < |events| ==> events[j].eventType != ExecutionCreated())
      && (events != [] ==> (events[0].eventType == ExecutionCreated() <==> Recorded(sha, types, calls, id)))
  {
    var events := EventsFor(ServeAll(sha, types, calls).events, id);
    RunRooted(sha, types, calls);
    assert RootedAt(ServeAll(sha, types, calls), id);
    FirstReachesAll(events);
    FirstIsCreated(sha, types, calls, id);
    if events != [] {
      FirstHasNoParent(events);
    }
  }

  /** Open an execution, fail before the first event, and start a skill. */
  function StrandedRun(org: Str, id: Str, recordId: Str, entry: EntryInput, draft: EventInput): seq<ServiceCall>
  {
    [Open(org, id, recordId, [], entry), Follow(org, id, SkillStarted, [draft])]
  }

  /** The input: the execution's first and only event is that of the skill. */
  lemma FirstIsNotCreated(sha: Sha, types: set<Str>, org: Str, id: Str, recordId: Str, entry: EntryInput, draft: EventInput)
    requires EvidenceFault(types, draft.(eventType := Ascii("nova.skill.started"))).None?
    ensures var events := EventsFor(ServeAll(sha, types, StrandedRun(org, id, recordId, entry, draft)).events, id);
      |events| == 1 && events[0].eventType == Ascii("nova.skill.started") && events[0].eventType != ExecutionCreated()
  {
    var calls := StrandedRun(org, id, recordId, entry, draft);
    var first := calls[..1];
    assert first == [calls[0]] && first[..|first| - 1] == [] && calls[..|calls| - 1] == first;
    var t := ServeAll(sha, types, first);
    StrandedOpens(sha, types, org, id, recordId, entry);
    assert t == Serve(sha, types, ServeAll(sha, types, first[..|first| - 1]), calls[0]);
    StrandedFollows(sha, types, t, org, id, draft);
  }

  lemma StrandedOpens(sha: Sha, types: set<Str>, org: Str, id: Str, recordId: Str, entry: EntryInput)
    ensures var t := Serve(sha, types, NoRows(), Open(org, id, recordId, [], entry));
      t.events == [] && IsOpen(t, org, id)
  {
    CreatedIsOpen();
  }

  lemma CreatedIsOpen()
    ensures !Terminal(Created())
  {
    assert |Completed()| == 9 && |Failed()| == 6 && |Blocked()| == 7 && |Cancelled()| == 9;
    assert |Created()| == 7 && Blocked()[0] == 98 && Created()[0] == 99;
  }

  lemma StrandedFollows(sha: Sha, types: set<Str>, t: Tables, org: Str, id: Str, draft: EventInput)
    requires t.events == [] && IsOpen(t, org, id)
    requires EvidenceFault(types, draft.(eventType := Ascii("nova.skill.started"))).None?
    ensures var events := EventsFor(Serve(sha, types, t, Follow(org, id, SkillStarted, [draft])).events, id);
      |events| == 1 && events[0].eventType == Ascii("nova.skill.started") && events[0].eventType != ExecutionCreated()
  {
    assert ListEvents([], org, id) == [];
    var names := PathTypes(SkillStarted);
    var input := Placed(draft, org, id, names[0], []);
    assert EvidenceFault(types, input) == EvidenceFault(types, draft.(eventType := Ascii("nova.skill.started")));
    FirstEventExactly(types, t, input);
    EventGrows(types, t, input);
    NotCreated(names[0]);
    var e := NewEvent(types, t, input).value;
    assert Chain(types, t, org, id, names, [draft], []) == Chain(types, AddEvent(t, e), org, id, names[1..], [draft][1..], [e.id]);
    assert names[1..] == [];
  }

  lemma FirstHasNoParent(events: seq<Event>)
    requires Dag(events) && events != []
    ensures events[0].parentEventIds == []
  {
    assert DagAt(events, 0);
    var parents := events[0].parentEventIds;
    assert |parents| > 0 ==> Earlier(events, 0, parents[0]);
  }

  /** The kernel itself does not ask for parents: an event appended without any to an execution that
      has events is a second source, which the first event does not reach. */
  lemma OrphanIsSecondSource(types: set<Str>, t: Tables, input: EventInput, e: Event)
    requires ExecutionSound(t, input.executionId) && NewEvent(types, t, input) == Ok(e)
    requires EventsFor(t.events, input.executionId) != [] && input.parentEventIds == []
    ensures var events := EventsFor(AddEvent(t, e).events, input.executionId);
      && Dag(events) && |events| > 1 && events[|events| - 1].parentEventIds == [] && !AllDescend(events)
  {
    EventKeepsSound(types, t, input, input.executionId);
    var events := EventsFor(AddEvent(t, e).events, input.executionId);
    assert UniqueSortedIds([]) == [];
    assert events[|events| - 1] == e && e.parentEventIds == [];
    FirstReachesAll(events);
  }
}
