/** Sealing from any good state, and every run of kernel calls. */
module Seals {
  import opened Basics
  import opened Sorting
  import opened Records
  import opened Graph
  import opened Ledgers
  import opened Evidence
  import opened Kernel
  import opened VerifyGraphs
  import opened EventDag
  import opened Reachable

  // ---------------------------------------------------------------- the prelude

  /** Prelude events keep what every call keeps, and only add events. */
  ghost predicate PreludeOk(sha: Sha, t: Tables, id: Str, u: Tables)
  {
    Kept(sha, u) && OnlyEvents(t, u, id)
  }

  lemma PreludeStepKeeps(sha: Sha, types: set<Str>, t: Tables, input: SealInput, i: nat, s: (Tables, seq<Str>))
    requires PreludeOk(sha, t, input.executionId, s.0) && PreludeSteps(types, input)(i, s).Ok?
    ensures PreludeOk(sha, t, input.executionId, PreludeSteps(types, input)(i, s).value.0)
  {
    if i < |input.preludeEvents| {
      var one := PreludeInput(input, i, s.1);
      EventKept(sha, types, s.0, one);
      EventGrows(types, s.0, one);
      OnlyEventsTransitive(t, s.0, AddEvent(s.0, NewEvent(types, s.0, one).value), input.executionId);
    }
  }

  lemma PreludeKeeps(sha: Sha, types: set<Str>, t: Tables, input: SealInput)
    requires Kept(sha, t) && Prelude(types, t, input).Ok?
    ensures PreludeOk(sha, t, input.executionId, Prelude(types, t, input).value.0)
  {
    var steps := PreludeSteps(types, input);
    var inv := (s: (Tables, seq<Str>)) => PreludeOk(sha, t, input.executionId, s.0);
    forall i: nat, s: (Tables, seq<Str>) | inv(s) && steps(i, s).Ok? ensures inv(steps(i, s).value) {
      PreludeStepKeeps(sha, types, t, input, i, s);
    }
    FoldKeeps(steps, (t, input.parentEventIds), |input.preludeEvents|, inv);
  }

  // ---------------------------------------------------------------- the seal

  /** The values a successful seal goes through. */
  lemma FinishSealSteps(sha: Sha, types: set<Str>, t: Tables, input: SealInput, x: Execution, parents: seq<Str>)
    returns (events: seq<Event>, preSealHash: Str, sealed: Event, sealedHash: Str, entry: EntryInput)
    requires FinishSeal(sha, types, t, input, x, parents).Ok?
    ensures events == ListEvents(t.events, input.organizationId, input.executionId)
    ensures HashGraph(sha, AsSealed(x, input), events) == Ok(preSealHash)
    ensures NewEvent(types, t, SealedInput(input, parents, preSealHash)) == Ok(sealed)
    ensures HashGraph(sha, AsSealed(x, input), events + [sealed]) == Ok(sealedHash)
    ensures entry == SealEntry(input, RequestOpenedHash(SortBy(SequenceLe, At(t.ledgers, input.organizationId).entries),
                                                        input.executionId), sealedHash)
    ensures AppendEntry(sha, AddEvent(t, sealed), entry) == FinishSeal(sha, types, t, input, x, parents)
  {
    events := ListEvents(t.events, input.organizationId, input.executionId);
    preSealHash := HashGraph(sha, AsSealed(x, input), events).value;
    sealed := NewEvent(types, t, SealedInput(input, parents, preSealHash)).value;
    sealedHash := HashGraph(sha, AsSealed(x, input), events + [sealed]).value;
    entry := SealEntry(input, RequestOpenedHash(SortBy(SequenceLe, At(t.ledgers, input.organizationId).entries),
                                                input.executionId), sealedHash);
  }

  /** What a seal leaves behind: the last event is the sealed one and carries the hash of the
      graph over exactly the events before it; the new ledger entry carries the hash of the graph
      over exactly all events. */
  ghost predicate SealRecorded(sha: Sha, t: Tables, org: Str, id: Str)
  {
    var events, x := EventsFor(t.events, id), GetExecution(t, org, id);
    && x.Some? && events != [] && events[|events| - 1].outputHash.Some? && At(t.ledgers, org).entries != []
    && HashGraph(sha, x.value, events[..|events| - 1]) == Ok(events[|events| - 1].outputHash.value)
    && LastEntry(t, org).executionId == id && GraphBearing(LastEntry(t, org))
    && HashGraph(sha, x.value, events) == Ok(LastEntry(t, org).executionGraphHash.value)
  }

  /** After the status change the execution is as the sealed graphs show it. */
  lemma AsSealedSame(sha: Sha, v: Tables, u: Tables, x: Execution, input: SealInput, hash: Str)
    requires GetExecution(v, input.organizationId, input.executionId) == Some(x) && Moves(v, u, input.executionId)
    requires u.executions[input.executionId].status == StatusText(input.executionStatus)
    requires HashGraph(sha, AsSealed(x, input), EventsFor(v.events, input.executionId)) == Ok(hash)
    ensures HashGraph(sha, u.executions[input.executionId], EventsFor(u.events, input.executionId)) == Ok(hash)
  {
  }

  /** The sealed event closes the events, which are then all hashed. */
  ghost predicate Closes(sha: Sha, x: Execution, input: SealInput, events: seq<Event>, hash: Str)
  {
    && events != [] && events[|events| - 1].outputHash.Some?
    && HashGraph(sha, AsSealed(x, input), events[..|events| - 1]) == Ok(events[|events| - 1].outputHash.value)
    && HashGraph(sha, AsSealed(x, input), events) == Ok(hash)
  }

  lemma SealedEventCloses(sha: Sha, types: set<Str>, w: Tables, x: Execution, input: SealInput, last: EventInput, sealed: Event,
                          preSealHash: Str, hash: Str)
    requires Kept(sha, w) && NewEvent(types, w, last) == Ok(sealed) && last.outputHash == Some(preSealHash)
    requires last.organizationId == input.organizationId && last.executionId == input.executionId
    requires var events := ListEvents(w.events, input.organizationId, input.executionId);
      HashGraph(sha, AsSealed(x, input), events) == Ok(preSealHash) && HashGraph(sha, AsSealed(x, input), events + [sealed]) == Ok(hash)
    ensures Kept(sha, AddEvent(w, sealed)) && OnlyEvents(w, AddEvent(w, sealed), input.executionId)
    ensures EventsFor(AddEvent(w, sealed).events, input.executionId) == EventsFor(w.events, input.executionId) + [sealed]
    ensures Closes(sha, x, input, EventsFor(AddEvent(w, sealed).events, input.executionId), hash)
  {
    assert ExecutionSound(w, input.executionId);
    ListIsFor(w, input.organizationId, input.executionId);
    EventKept(sha, types, w, last);
    EventGrows(types, w, last);
    var events := EventsFor(w.events, input.executionId);
    assert (events + [sealed])[..|events|] == events;
  }

  /** A seal appends events to its execution, the last of which closes them, and then one entry. */
  lemma SealStages(sha: Sha, types: set<Str>, t: Tables, u: Tables, input: SealInput)
    returns (v: Tables, x: Execution, hash: Str, entry: EntryInput)
    requires Kept(sha, t) && SealExecution(sha, types, t, input) == Ok(u)
    ensures GetExecution(t, input.organizationId, input.executionId) == Some(x)
    ensures Kept(sha, v) && OnlyEvents(t, v, input.executionId)
    ensures |EventsFor(v.events, input.executionId)| > |EventsFor(t.events, input.executionId)|
    ensures Closes(sha, x, input, EventsFor(v.events, input.executionId), hash)
    ensures exists requestHash :: entry == SealEntry(input, requestHash, hash)
    ensures AppendEntry(sha, v, entry) == Ok(u)
  {
    x := GetExecution(t, input.organizationId, input.executionId).value;
    PreludeKeeps(sha, types, t, input);
    var (w, parents) := Prelude(types, t, input).value;
    var events, preSealHash, sealed, sealedHash, last := FinishSealSteps(sha, types, w, input, x, parents);
    SealedEventCloses(sha, types, w, x, input, SealedInput(input, parents, preSealHash), sealed, preSealHash, sealedHash);
    v, hash, entry := AddEvent(w, sealed), sealedHash, last;
    OnlyEventsTransitive(t, w, v, input.executionId);
  }

  /** The entry of a seal is right, and its execution has ended. */
  lemma SealedEntryOk(sha: Sha, v: Tables, u: Tables, x: Execution, input: SealInput, entry: EntryInput, hash: Str)
    requires AppendEntry(sha, v, entry) == Ok(u) && exists requestHash :: entry == SealEntry(input, requestHash, hash)
    requires GetExecution(v, input.organizationId, input.executionId) == Some(x)
    requires Closes(sha, x, input, EventsFor(v.events, input.executionId), hash)
    ensures At(u.ledgers, input.organizationId).entries != []
    ensures var e := LastEntry(u, input.organizationId);
      && OneMore(v, u, entry, e) && e.executionGraphHash == Some(hash) && GraphBearing(e) && SealedOk(sha, u, e)
    ensures u.events == v.events && SameExecution(u.executions[input.executionId], AsSealed(x, input))
  {
    var requestHash :| entry == SealEntry(input, requestHash, hash);
    AppendEntryEffect(sha, v, entry);
    AppendedEntry(sha, v, u, entry);
    AsSealedSame(sha, v, u, x, input, hash);
  }

  lemma RecordedFrom(sha: Sha, u: Tables, x: Execution, input: SealInput, hash: Str)
    requires Closes(sha, x, input, EventsFor(u.events, input.executionId), hash)
    requires GetExecution(u, input.organizationId, input.executionId).Some?
    requires SameExecution(u.executions[input.executionId], AsSealed(x, input))
    requires At(u.ledgers, input.organizationId).entries != []
    requires var e := LastEntry(u, input.organizationId);
      e.executionId == input.executionId && e.executionGraphHash == Some(hash) && GraphBearing(e)
    ensures SealRecorded(sha, u, input.organizationId, input.executionId)
  {
    var events := EventsFor(u.events, input.executionId);
    SameExecutionSameGraph(sha, u.executions[input.executionId], AsSealed(x, input), events[..|events| - 1]);
    SameExecutionSameGraph(sha, u.executions[input.executionId], AsSealed(x, input), events);
  }

  /** Sealing, whatever was sealed before: all events of the execution are recorded in the new entry. */
  lemma SealRecords(sha: Sha, types: set<Str>, t: Tables, u: Tables, input: SealInput)
    requires Kept(sha, t) && SealExecution(sha, types, t, input) == Ok(u)
    ensures Kept(sha, u) && SealRecorded(sha, u, input.organizationId, input.executionId)
  {
    var v, x, hash, entry := SealStages(sha, types, t, u, input);
    EntryKept(sha, v, u, entry);
    SealedEntryOk(sha, v, u, x, input, entry, hash);
    RecordedFrom(sha, u, x, input, hash);
  }

  /** Sealing an execution that is not sealed keeps every invariant and records its events. */
  lemma SealKeeps(sha: Sha, interval: Str -> int, types: set<Str>, t: Tables, u: Tables, input: SealInput)
    requires Good(sha, interval, t) && !IsSealed(t, input.executionId)
    requires input.interval == interval(input.organizationId)
    requires SealExecution(sha, types, t, input) == Ok(u)
    ensures Good(sha, interval, u) && SealRecorded(sha, u, input.organizationId, input.executionId)
  {
    SealRecords(sha, types, t, u, input);
    var v, x, hash, entry := SealStages(sha, types, t, u, input);
    EventsKeepGood(sha, interval, t, v, input.executionId);
    SealedEntryOk(sha, v, u, x, input, entry, hash);
    AppendKeeps(sha, interval, v, u, entry);
  }

  // ---------------------------------------------------------------- runs

  datatype Call =
    | OpenCall(organizationId: Str, id: Str, recordId: Str)
    | EventCall(event: EventInput)
    | EntryCall(entry: EntryInput)
    | StatusCall(organizationId: Str, id: Str, status: Str)
    | SealCall(seal: SealInput)

  function Outcome(sha: Sha, types: set<Str>, t: Tables, call: Call): Result<Tables, Fault>
  {
    match call
    case OpenCall(org, id, recordId) => OpenExecution(t, org, id, recordId)
    case EventCall(input) =>
      (match NewEvent(types, t, input) case Ok(e) => Ok(AddEvent(t, e)) case Err(f) => Err(f))
    case EntryCall(input) => AppendEntry(sha, t, input)
    case StatusCall(org, id, status) => SetStatus(t, org, id, status, None)
    case SealCall(input) => SealExecution(sha, types, t, input)
  }

  /** A call that throws is rolled back. */
  function After(sha: Sha, types: set<Str>, t: Tables, call: Call): Tables
  {
    var r := Outcome(sha, types, t, call);
    if r.Ok? then r.value else t
  }

  function AfterAll(sha: Sha, types: set<Str>, calls: seq<Call>): Tables
  {
    if calls == [] then NoRows()
    else After(sha, types, AfterAll(sha, types, calls[..|calls| - 1]), calls[|calls| - 1])
  }

  /** What the kernel leaves to its callers: one checkpoint interval per organization, no event and
      no second seal after a seal, and graph hashes on final entries only from seals. */
  ghost predicate Disciplined(interval: Str -> int, t: Tables, call: Call)
  {
    match call
    case EventCall(input) => !IsSealed(t, input.executionId)
    case EntryCall(input) =>
      && input.interval == interval(input.organizationId)
      && (input.entryType == Final() || input.entryType == FailureEntry() ==> input.executionGraphHash.None?)
    case SealCall(input) =>
      input.interval == interval(input.organizationId) && !IsSealed(t, input.executionId)
    case _ => true
  }

  ghost predicate AllDisciplined(sha: Sha, types: set<Str>, interval: Str -> int, calls: seq<Call>)
  {
    calls == [] || (
      && AllDisciplined(sha, types, interval, calls[..|calls| - 1])
      && Disciplined(interval, AfterAll(sha, types, calls[..|calls| - 1]), calls[|calls| - 1]))
  }

  lemma EntryCallKeeps(sha: Sha, interval: Str -> int, t: Tables, u: Tables, input: EntryInput)
    requires Good(sha, interval, t) && AppendEntry(sha, t, input) == Ok(u)
    requires input.interval == interval(input.organizationId)
    requires input.entryType == Final() || input.entryType == FailureEntry() ==> input.executionGraphHash.None?
    ensures Good(sha, interval, u)
  {
    AppendedEntry(sha, t, u, input);
    AppendKeeps(sha, interval, t, u, input);
  }

  lemma CallKeeps(sha: Sha, types: set<Str>, interval: Str -> int, t: Tables, call: Call)
    requires Good(sha, interval, t) && Disciplined(interval, t, call)
    ensures Good(sha, interval, After(sha, types, t, call))
  {
    if Outcome(sha, types, t, call).Ok? {
      match call
      case OpenCall(org, id, recordId) => OpenKeeps(sha, interval, t, id, Execution(id, recordId, org, Created(), None));
      case EventCall(input) => EventKeeps(sha, interval, types, t, input);
      case EntryCall(input) => EntryCallKeeps(sha, interval, t, After(sha, types, t, call), input);
      case StatusCall(org, id, status) =>
        StatusKeeps(sha, interval, t, After(sha, types, t, call), id);
      case SealCall(input) => SealKeeps(sha, interval, types, t, After(sha, types, t, call), input);
    }
  }

  lemma CallKept(sha: Sha, types: set<Str>, t: Tables, call: Call)
    requires Kept(sha, t)
    ensures Kept(sha, After(sha, types, t, call))
  {
    if Outcome(sha, types, t, call).Ok? {
      match call
      case OpenCall(org, id, recordId) => OpenKept(sha, t, id, Execution(id, recordId, org, Created(), None));
      case EventCall(input) => EventKept(sha, types, t, input);
      case EntryCall(input) => EntryKept(sha, t, After(sha, types, t, call), input);
      case StatusCall(org, id, status) => StatusKept(sha, t, After(sha, types, t, call), id);
      case SealCall(input) => SealRecords(sha, types, t, After(sha, types, t, call), input);
    }
  }

  /** Every run at all. */
  lemma {:induction false} RunIsKept(sha: Sha, types: set<Str>, calls: seq<Call>)
    ensures Kept(sha, AfterAll(sha, types, calls))
  {
    if calls == [] {
    } else {
      RunIsKept(sha, types, calls[..|calls| - 1]);
      CallKept(sha, types, AfterAll(sha, types, calls[..|calls| - 1]), calls[|calls| - 1]);
    }
  }

  /** The one clause of the discipline on intervals: each organization keeps to its own. */
  predicate KeepsInterval(interval: Str -> int, call: Call)
  {
    match call
    case EntryCall(input) => input.interval == interval(input.organizationId)
    case SealCall(input) => input.interval == interval(input.organizationId)
    case _ => true
  }

  lemma CallTiled(sha: Sha, types: set<Str>, interval: Str -> int, t: Tables, call: Call)
    requires Kept(sha, t) && AllTiled(sha, interval, t) && KeepsInterval(interval, call)
    ensures AllTiled(sha, interval, After(sha, types, t, call))
  {
    var u := After(sha, types, t, call);
    if Outcome(sha, types, t, call).Ok? {
      match call
      case EntryCall(input) => EntryTiled(sha, interval, t, u, input);
      case SealCall(input) =>
        var v, x, hash, entry := SealStages(sha, types, t, u, input);
        TiledStay(sha, interval, t, v);
        EntryTiled(sha, interval, v, u, entry);
      case _ => TiledStay(sha, interval, t, u);
    }
  }

  /** Every run whose organizations keep to their intervals, whatever it appends and seals. */
  lemma {:induction false} RunIsTiled(sha: Sha, types: set<Str>, interval: Str -> int, calls: seq<Call>)
    requires forall i :: 0 <= i < |calls| ==> KeepsInterval(interval, calls[i])
    ensures AllTiled(sha, interval, AfterAll(sha, types, calls))
  {
    if calls == [] {
    } else {
      RunIsKept(sha, types, calls[..|calls| - 1]);
      RunIsTiled(sha, types, interval, calls[..|calls| - 1]);
      CallTiled(sha, types, interval, AfterAll(sha, types, calls[..|calls| - 1]), calls[|calls| - 1]);
    }
  }

  /** Every state a disciplined run reaches is good. */
  lemma {:induction false} RunIsGood(sha: Sha, types: set<Str>, interval: Str -> int, calls: seq<Call>)
    requires AllDisciplined(sha, types, interval, calls)
    ensures Good(sha, interval, AfterAll(sha, types, calls))
  {
    if calls == [] {
    } else {
      RunIsGood(sha, types, interval, calls[..|calls| - 1]);
      CallKeeps(sha, types, interval, AfterAll(sha, types, calls[..|calls| - 1]), calls[|calls| - 1]);
    }
  }
}
