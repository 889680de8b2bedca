/** Inputs for what the kernel lets its callers do: two calls seal an execution, and a third appends behind
    the seal. */
module Witnesses {
  import opened Basics
  import opened Records
  import opened Ledgers
  import opened Evidence
  import opened Kernel
  import opened VerifyGraphs
  import opened Reachable
  import opened Admission
  import opened Seals
  import Exports

  /** Well-formed arguments of a seal without a prelude, of an execution that was only opened. */
  predicate PlainSeal(types: set<Str>, s: SealInput)
  {
    && SealedType() in types && s.preludeEvents == [] && s.parentEventIds == []
    && CanonicalTimestamp(s.sealedAt) && CanonicalTimestamp(s.createdAtCanonical) && HashOk(s.responseHash)
    && s.executionStatus.SealFailed?
  }

  /** Open, then seal. */
  function SealingRun(recordId: Str, s: SealInput): seq<Call>
  {
    [OpenCall(s.organizationId, s.executionId, recordId), SealCall(s)]
  }

  function OpenState(recordId: Str, s: SealInput): Tables
  {
    Tables(map[], map[s.executionId := Execution(s.executionId, recordId, s.organizationId, Created(), None)], [])
  }

  lemma Opens(sha: Sha, types: set<Str>, recordId: Str, s: SealInput)
    ensures AfterAll(sha, types, SealingRun(recordId, s)[..1]) == OpenState(recordId, s)
    ensures Kept(sha, OpenState(recordId, s)) && EventsFor(OpenState(recordId, s).events, s.executionId) == []
  {
    var first := SealingRun(recordId, s)[..1];
    assert first == [OpenCall(s.organizationId, s.executionId, recordId)] && first[..0] == [];
    assert NoRows().executions[s.executionId := Execution(s.executionId, recordId, s.organizationId, Created(), None)]
        == OpenState(recordId, s).executions;
    RunIsKept(sha, types, first);
  }

  lemma FailsFromCreated()
    ensures MayBecome(Created(), Failed()) && Terminal(Failed())
  {
  }

  lemma SealSucceeds(sha: Sha, types: set<Str>, recordId: Str, s: SealInput)
    requires PlainSeal(types, s)
    ensures SealExecution(sha, types, OpenState(recordId, s), s).Ok?
  {
    var t := OpenState(recordId, s);
    Opens(sha, types, recordId, s);
    FailsFromCreated();
    SealAcceptedExactly(sha, types, t, s);
  }

  lemma AfterOneMore(sha: Sha, types: set<Str>, calls: seq<Call>, call: Call)
    ensures AfterAll(sha, types, calls + [call]) == After(sha, types, AfterAll(sha, types, calls), call)
  {
    assert (calls + [call])[..|calls|] == calls;
  }

  lemma AfterCall(sha: Sha, types: set<Str>, t: Tables, call: Call, r: Result<Tables, Fault>)
    requires Outcome(sha, types, t, call) == r && r.Ok?
    ensures r == Ok(After(sha, types, t, call))
  {
  }

  lemma OutcomeOfSeal(sha: Sha, types: set<Str>, t: Tables, s: SealInput)
    ensures Outcome(sha, types, t, SealCall(s)) == SealExecution(sha, types, t, s)
  {
  }

  lemma SecondCall(sha: Sha, types: set<Str>, recordId: Str, s: SealInput)
    ensures AfterAll(sha, types, SealingRun(recordId, s)) == After(sha, types, OpenState(recordId, s), SealCall(s))
  {
    var first := SealingRun(recordId, s)[..1];
    Opens(sha, types, recordId, s);
    AfterOneMore(sha, types, first, SealCall(s));
    assert first + [SealCall(s)] == SealingRun(recordId, s);
  }

  lemma SealedOnce(sha: Sha, types: set<Str>, recordId: Str, s: SealInput)
    requires PlainSeal(types, s)
    ensures SealExecution(sha, types, OpenState(recordId, s), s) == Ok(AfterAll(sha, types, SealingRun(recordId, s)))
  {
    SealSucceeds(sha, types, recordId, s);
    SecondCall(sha, types, recordId, s);
    OutcomeOfSeal(sha, types, OpenState(recordId, s), s);
    AfterCall(sha, types, OpenState(recordId, s), SealCall(s), SealExecution(sha, types, OpenState(recordId, s), s));
  }

  /** The tables afterwards: one event, one entry, and the execution failed. */
  lemma SealedTables(sha: Sha, types: set<Str>, recordId: Str, s: SealInput, u: Tables)
    requires PlainSeal(types, s) && SealExecution(sha, types, OpenState(recordId, s), s) == Ok(u)
    ensures |u.events| == 1 && u.events[0].id == s.sealedId && u.events[0].executionId == s.executionId
    ensures |At(u.ledgers, s.organizationId).entries| == 1 && At(u.ledgers, s.organizationId).entries[0].id == s.entryId
    ensures GetExecution(u, s.organizationId, s.executionId).Some? && u.executions[s.executionId].status == Failed()
  {
    var t := OpenState(recordId, s);
    var x := GetExecution(t, s.organizationId, s.executionId).value;
    PreludeOneMore(types, t, s, 0);
    var (w, parents) := Prelude(types, t, s).value;
    var events, pre, sealed, hash, entry := FinishSealSteps(sha, types, w, s, x, parents);
    EntryOnce(sha, AddEvent(w, sealed), u, s, entry, hash);
  }

  lemma EntryOnce(sha: Sha, v: Tables, u: Tables, s: SealInput, entry: EntryInput, hash: Str)
    requires AppendEntry(sha, v, entry) == Ok(u) && exists requestHash :: entry == SealEntry(s, requestHash, hash)
    requires v.ledgers == map[] && s.executionStatus.SealFailed?
    ensures u.events == v.events
    ensures |At(u.ledgers, s.organizationId).entries| == 1 && At(u.ledgers, s.organizationId).entries[0].id == s.entryId
    ensures GetExecution(u, s.organizationId, s.executionId).Some? && u.executions[s.executionId].status == Failed()
  {
    var requestHash :| entry == SealEntry(s, requestHash, hash);
    AppendEntryEffect(sha, v, entry);
  }

  lemma RunOfTwo(sha: Sha, types: set<Str>, interval: Str -> int, recordId: Str, s: SealInput)
    requires PlainSeal(types, s) && s.interval == interval(s.organizationId)
    ensures Good(sha, interval, AfterAll(sha, types, SealingRun(recordId, s)))
  {
    var calls := SealingRun(recordId, s);
    Opens(sha, types, recordId, s);
    var first := calls[..1];
    assert first[..0] == [] && calls[..|calls| - 1] == first && first[..|first| - 1] == [];
    assert AllDisciplined(sha, types, interval, []);
    assert AllDisciplined(sha, types, interval, first);
    forall org, i: nat ensures !Bearing(OpenState(recordId, s), org, i) {
    }
    RunIsGood(sha, types, interval, calls);
  }

  /** One event, one entry, one execution, which has failed. */
  ghost predicate OneOfEach(sha: Sha, s: SealInput, u: Tables)
  {
    && Kept(sha, u) && |EventsFor(u.events, s.executionId)| == 1
    && (forall x :: x != s.sealedId ==> FindEvent(u.events, x).None?)
    && |At(u.ledgers, s.organizationId).entries| == 1 && At(u.ledgers, s.organizationId).entries[0].id == s.entryId
    && GetExecution(u, s.organizationId, s.executionId).Some? && u.executions[s.executionId].status == Failed()
  }

  /** What the two calls leave: a good state in which the one execution is sealed. */
  ghost predicate AfterSeal(sha: Sha, interval: Str -> int, s: SealInput, u: Tables)
  {
    && Good(sha, interval, u) && IsSealed(u, s.executionId) && Exports.Lists(u, s.organizationId, [s.executionId])
    && OneOfEach(sha, s, u)
  }

  lemma OneEvent(sha: Sha, s: SealInput, u: Tables)
    requires |u.events| == 1 && u.events[0].id == s.sealedId && u.events[0].executionId == s.executionId
    ensures |EventsFor(u.events, s.executionId)| == 1
    ensures forall x :: x != s.sealedId ==> FindEvent(u.events, x).None?
  {
    assert u.events[1..] == [];
  }

  lemma SealedState(sha: Sha, types: set<Str>, interval: Str -> int, recordId: Str, s: SealInput) returns (u: Tables)
    requires PlainSeal(types, s) && s.interval == interval(s.organizationId)
    ensures u == AfterAll(sha, types, SealingRun(recordId, s)) && AfterSeal(sha, interval, s, u)
  {
    u := AfterAll(sha, types, SealingRun(recordId, s));
    RunOfTwo(sha, types, interval, recordId, s);
    SealedOnce(sha, types, recordId, s);
    Opens(sha, types, recordId, s);
    SealRecords(sha, types, OpenState(recordId, s), u, s);
    SealedTables(sha, types, recordId, s, u);
    OneEvent(sha, s, u);
    assert Bearing(u, s.organizationId, 0);
    OnlyExecution(sha, types, recordId, s, u);
  }

  lemma OnlyExecution(sha: Sha, types: set<Str>, recordId: Str, s: SealInput, u: Tables)
    requires PlainSeal(types, s) && SealExecution(sha, types, OpenState(recordId, s), s) == Ok(u)
    requires GetExecution(u, s.organizationId, s.executionId).Some?
    ensures Exports.Lists(u, s.organizationId, [s.executionId])
  {
    Opens(sha, types, recordId, s);
    var v, x, hash, entry := SealStages(sha, types, OpenState(recordId, s), u, s);
    AppendEntryEffect(sha, v, entry);
  }

  // ---------------------------------------------------------------- what a third call may do

  /** Well-formed arguments of an event of the execution with an id of its own. */
  predicate FreshEvent(types: set<Str>, s: SealInput, e: EventInput)
  {
    && e.organizationId == s.organizationId && e.executionId == s.executionId && e.parentEventIds == []
    && EvidenceFault(types, e).None? && e.id != s.sealedId
  }

  lemma EventTaken(sha: Sha, types: set<Str>, s: SealInput, e: EventInput, u: Tables)
    requires OneOfEach(sha, s, u) && FreshEvent(types, s, e)
    ensures NewEvent(types, u, e).Ok?
  {
    EventAcceptedExactly(sha, types, u, e);
  }

  /** The input: any event at all is accepted behind a seal. Without parents, it is also a second source. */
  lemma EventBehindSeal(sha: Sha, types: set<Str>, interval: Str -> int, recordId: Str, s: SealInput, e: EventInput)
    returns (u: Tables)
    requires PlainSeal(types, s) && s.interval == interval(s.organizationId) && FreshEvent(types, s, e)
    ensures u == AfterAll(sha, types, SealingRun(recordId, s)) && AfterSeal(sha, interval, s, u)
    ensures EventsFor(u.events, e.executionId) != [] && NewEvent(types, u, e).Ok?
  {
    u := SealedState(sha, types, interval, recordId, s);
    EventTaken(sha, types, s, e, u);
  }

  lemma SealTaken(sha: Sha, types: set<Str>, s: SealInput, again: SealInput, u: Tables)
    requires OneOfEach(sha, s, u) && PlainSeal(types, again)
    requires again.organizationId == s.organizationId && again.executionId == s.executionId
    requires again.sealedId != s.sealedId && again.entryId != s.entryId
    ensures SealExecution(sha, types, u, again).Ok?
  {
    SealAcceptedExactly(sha, types, u, again);
  }

  /** The input: any second seal with the same status. */
  lemma SealBehindSeal(sha: Sha, types: set<Str>, interval: Str -> int, recordId: Str, s: SealInput, again: SealInput)
    returns (u: Tables)
    requires PlainSeal(types, s) && s.interval == interval(s.organizationId) && PlainSeal(types, again)
    requires again.organizationId == s.organizationId && again.executionId == s.executionId
    requires again.sealedId != s.sealedId && again.entryId != s.entryId
    ensures u == AfterAll(sha, types, SealingRun(recordId, s)) && AfterSeal(sha, interval, s, u)
    ensures SealExecution(sha, types, u, again).Ok?
  {
    u := SealedState(sha, types, interval, recordId, s);
    SealTaken(sha, types, s, again, u);
  }

  /** A second final entry with any well-formed hash for a graph hash. */
  predicate FreshEntry(s: SealInput, entry: EntryInput)
  {
    && entry.organizationId == s.organizationId && entry.executionId == s.executionId && entry.entryId != s.entryId
    && entry.entryType == FailureEntry() && entry.executionStatus == None && EvidenceOk(entry) && entry.executionGraphHash.Some?
  }

  lemma EntryTaken(sha: Sha, s: SealInput, entry: EntryInput, u: Tables)
    requires OneOfEach(sha, s, u) && FreshEntry(s, entry)
    ensures AppendEntry(sha, u, entry).Ok?
  {
    FailureIsLast();
    EntryAcceptedExactly(sha, u, entry);
  }

  lemma FailureIsLast()
    ensures FailureEntry() != RequestOpened() && FailureEntry() != ApprovalRequested() && FailureEntry() != Final()
  {
    assert |FailureEntry()| == 7 && |RequestOpened()| == 14 && |ApprovalRequested()| == 18 && |Final()| == 5;
  }

  /** The input: a final entry with a graph hash of the caller's choice. */
  lemma AnyHashBehindSeal(sha: Sha, types: set<Str>, interval: Str -> int, recordId: Str, s: SealInput, entry: EntryInput)
    returns (u: Tables)
    requires PlainSeal(types, s) && s.interval == interval(s.organizationId) && FreshEntry(s, entry)
    ensures u == AfterAll(sha, types, SealingRun(recordId, s)) && AfterSeal(sha, interval, s, u)
    ensures AppendEntry(sha, u, entry).Ok?
  {
    u := SealedState(sha, types, interval, recordId, s);
    EntryTaken(sha, s, entry, u);
  }
}
