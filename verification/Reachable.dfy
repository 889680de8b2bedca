/** Every state the kernel can reach: what each call keeps, and what a disciplined caller keeps
    besides. Failed calls roll back, so they leave the tables alone. */
module Reachable {
  import opened Basics
  import opened Records
  import opened Graph
  import opened Ledgers
  import opened Checkpoints
  import opened Evidence
  import opened Kernel
  import opened VerifyGraphs
  import opened EventDag

  // ---------------------------------------------------------------- events

  /** The execution's events are a dag of its organization. */
  ghost predicate ExecutionSound(t: Tables, id: Str)
  {
    var events := EventsFor(t.events, id);
    && Dag(events)
    && (events != [] ==> id in t.executions && AllIn(events, t.executions[id].organizationId))
  }

  lemma ParentIsEarlier(t: Tables, input: EventInput, e: Event, k: nat)
    requires k < |e.parentEventIds| && e.executionId == input.executionId
    requires ParentsFault(t.events, input, e.eventSequence, e.parentEventIds) == None
    ensures Earlier(EventsFor(t.events, e.executionId), |EventsFor(t.events, e.executionId)|, e.parentEventIds[k])
  {
    var mine, p := EventsFor(t.events, e.executionId), e.parentEventIds[k];
    ParentsFaultNone(t.events, input, e.eventSequence, e.parentEventIds, k);
    FindEventFinds(t.events, p);
    var parent := FindEvent(t.events, p).value;
    EventsForFinds(t.events, e.executionId);
    var m :| 0 <= m < |mine| && mine[m] == parent;
  }

  lemma NextSequenceIsLength(t: Tables, input: EventInput)
    requires ExecutionSound(t, input.executionId)
    requires GetExecution(t, input.organizationId, input.executionId).Some?
    ensures NextSequence(t, input) == |EventsFor(t.events, input.executionId)| + 1
    ensures EventsOf(t.events, input.organizationId, input.executionId) == EventsFor(t.events, input.executionId)
  {
    EventsOfIsFor(t.events, input.organizationId, input.executionId);
    DagMax(EventsFor(t.events, input.executionId));
  }

  /** An appended event joins the dag of its execution and touches no other. */
  lemma EventKeepsSound(types: set<Str>, t: Tables, input: EventInput, id: Str)
    requires ExecutionSound(t, id) && ExecutionSound(t, input.executionId) && NewEvent(types, t, input).Ok?
    ensures ExecutionSound(AddEvent(t, NewEvent(types, t, input).value), id)
    ensures EventsFor(AddEvent(t, NewEvent(types, t, input).value).events, id)
         == EventsFor(t.events, id) + (if input.executionId == id then [NewEvent(types, t, input).value] else [])
  {
    var e := NewEvent(types, t, input).value;
    EventsForAppend(t.events, e, id);
    if id == input.executionId {
      NextSequenceIsLength(t, input);
      var mine := EventsFor(t.events, id);
      forall k | 0 <= k < |e.parentEventIds| ensures Earlier(mine, |mine|, e.parentEventIds[k]) {
        ParentIsEarlier(t, input, e, k);
      }
      DagExtends(mine, e);
    } else {
      assert EventsFor(t.events, id) + [] == EventsFor(t.events, id);
    }
  }

  lemma ListIsFor(t: Tables, org: Str, id: Str)
    requires ExecutionSound(t, id) && GetExecution(t, org, id).Some?
    ensures ListEvents(t.events, org, id) == EventsFor(t.events, id)
  {
    EventsOfIsFor(t.events, org, id);
    DagIsSorted(EventsFor(t.events, id));
  }

  // ---------------------------------------------------------------- what holds of every state

  predicate Bearing(t: Tables, org: Str, i: nat)
  {
    i < |At(t.ledgers, org).entries| && GraphBearing(At(t.ledgers, org).entries[i])
  }

  /** A graph-bearing entry names an execution of its organization and carries a hash. */
  predicate Named(t: Tables, e: LedgerEntry)
  {
    && GetExecution(t, e.organizationId, e.executionId).Some?
    && e.executionGraphHash.Some? && e.executionGraphHash.value != []
  }

  ghost predicate DistinctEntryIds(entries: seq<LedgerEntry>)
  {
    forall i, j :: 0 <= i < j < |entries| ==> entries[i].id != entries[j].id
  }

  ghost predicate ChainKept(sha: Sha, t: Tables, org: Str)
  {
    var l := At(t.ledgers, org);
    Sound(sha, org, l) && Closed(sha, l) && DistinctEntryIds(l.entries)
  }

  /** What every call keeps, whoever makes it. */
  ghost predicate Kept(sha: Sha, t: Tables)
  {
    && (forall org :: ChainKept(sha, t, org))
    && (forall id :: ExecutionSound(t, id))
    && (forall id :: id in t.executions ==> t.executions[id].id == id)
    && DistinctIds(t.events)
    && (forall org, i: nat :: Bearing(t, org, i) ==> Named(t, At(t.ledgers, org).entries[i]))
  }

  // ---------------------------------------------------------------- what holds of disciplined states

  /** The entry's graph hash is the hash of the graph over all of its execution's events. */
  ghost predicate RightEntry(sha: Sha, t: Tables, e: LedgerEntry)
  {
    && e.executionId in t.executions && EventsFor(t.events, e.executionId) != [] && e.executionGraphHash.Some?
    && HashGraph(sha, t.executions[e.executionId], EventsFor(t.events, e.executionId)) == Ok(e.executionGraphHash.value)
  }

  ghost predicate AllRight(sha: Sha, t: Tables, org: Str)
  {
    forall i: nat :: Bearing(t, org, i) ==> RightEntry(sha, t, At(t.ledgers, org).entries[i])
  }

  /** And the execution has ended. */
  ghost predicate SealedOk(sha: Sha, t: Tables, e: LedgerEntry)
  {
    RightEntry(sha, t, e) && Terminal(t.executions[e.executionId].status)
  }

  /** Some entry seals this execution. */
  ghost predicate IsSealed(t: Tables, id: Str)
  {
    exists org, i: nat :: Bearing(t, org, i) && At(t.ledgers, org).entries[i].executionId == id
  }

  /** Every organization keeps to its interval. */
  ghost predicate AllTiled(sha: Sha, interval: Str -> int, t: Tables)
  {
    forall org :: Tiled(sha, interval(org), At(t.ledgers, org))
  }

  ghost predicate Good(sha: Sha, interval: Str -> int, t: Tables)
  {
    && Kept(sha, t) && AllTiled(sha, interval, t)
    && (forall org, i: nat :: Bearing(t, org, i) ==> SealedOk(sha, t, At(t.ledgers, org).entries[i]))
  }

  // ---------------------------------------------------------------- status changes and new executions

  /** At most the row of `id` changed, in status and final entry, and only as the table allows. */
  predicate RowMoves(t: Tables, u: Tables, id: Str)
  {
    && id in t.executions && u.executions.Keys == t.executions.Keys
    && (forall other :: other in t.executions && other != id ==> u.executions[other] == t.executions[other])
    && u.executions[id].id == t.executions[id].id
    && u.executions[id].verityRecordId == t.executions[id].verityRecordId
    && u.executions[id].organizationId == t.executions[id].organizationId
    && MayBecome(t.executions[id].status, u.executions[id].status)
  }

  /** A status change. */
  predicate Moves(t: Tables, u: Tables, id: Str)
  {
    RowMoves(t, u, id) && u.events == t.events
  }

  lemma MoveKeepsSound(t: Tables, u: Tables, id: Str, other: Str)
    requires Moves(t, u, id) && ExecutionSound(t, other)
    ensures ExecutionSound(u, other)
  {
  }

  /** Nothing leaves a terminal status. */
  lemma TerminalAbsorbs(from: Str, to: Str)
    ensures Terminal(from) && MayBecome(from, to) ==> to == from
  {
    assert |Completed()| == 9 && |Failed()| == 6 && |Blocked()| == 7 && |Cancelled()| == 9;
    assert |Created()| == 7 && |Running()| == 7 && |WaitingApproval()| == 16;
    assert Completed()[1] == 111 && Cancelled()[1] == 97;
    assert Blocked()[0] == 98 && Created()[0] == 99 && Running()[0] == 114;
  }

  lemma StatusKept(sha: Sha, t: Tables, u: Tables, id: Str)
    requires Kept(sha, t) && Moves(t, u, id) && u.ledgers == t.ledgers
    ensures Kept(sha, u)
  {
    forall org ensures ChainKept(sha, u, org) {
      assert ChainKept(sha, t, org);
    }
    forall other ensures ExecutionSound(u, other) {
      MoveKeepsSound(t, u, id, other);
    }
    forall org, i: nat | Bearing(u, org, i) ensures Named(u, At(u.ledgers, org).entries[i]) {
      assert Bearing(t, org, i);
    }
  }

  /** What is sealed has ended, and what has ended keeps its status. */
  lemma MoveKeepsSealed(sha: Sha, t: Tables, u: Tables, id: Str, e: LedgerEntry)
    requires u.executions == t.executions || Moves(t, u, id)
    requires u.events == t.events && SealedOk(sha, t, e)
    ensures SealedOk(sha, u, e)
  {
    if u.executions != t.executions {
      TerminalAbsorbs(t.executions[e.executionId].status, u.executions[e.executionId].status);
      SameExecutionSameGraph(sha, t.executions[e.executionId], u.executions[e.executionId], EventsFor(t.events, e.executionId));
    }
  }

  lemma StatusKeeps(sha: Sha, interval: Str -> int, t: Tables, u: Tables, id: Str)
    requires Good(sha, interval, t) && Moves(t, u, id) && u.ledgers == t.ledgers
    ensures Good(sha, interval, u)
  {
    StatusKept(sha, t, u, id);
    TiledStay(sha, interval, t, u);
    forall org, i: nat | Bearing(u, org, i) ensures SealedOk(sha, u, At(u.ledgers, org).entries[i]) {
      assert Bearing(t, org, i);
      MoveKeepsSealed(sha, t, u, id, At(t.ledgers, org).entries[i]);
    }
  }

  lemma TiledStay(sha: Sha, interval: Str -> int, t: Tables, u: Tables)
    requires AllTiled(sha, interval, t) && u.ledgers == t.ledgers
    ensures AllTiled(sha, interval, u)
  {
    forall org ensures Tiled(sha, interval(org), At(u.ledgers, org)) {
      assert Tiled(sha, interval(org), At(t.ledgers, org));
    }
  }

  lemma OpenKeepsSound(t: Tables, id: Str, x: Execution, other: Str)
    requires id !in t.executions && ExecutionSound(t, other)
    ensures ExecutionSound(t.(executions := t.executions[id := x]), other)
  {
  }

  lemma OpenKept(sha: Sha, t: Tables, id: Str, x: Execution)
    requires Kept(sha, t) && id !in t.executions && x.id == id
    ensures Kept(sha, t.(executions := t.executions[id := x]))
    ensures !IsSealed(t.(executions := t.executions[id := x]), id) && EventsFor(t.events, id) == []
  {
    var u := t.(executions := t.executions[id := x]);
    forall org ensures ChainKept(sha, u, org) {
      assert ChainKept(sha, t, org);
    }
    forall other ensures ExecutionSound(u, other) {
      OpenKeepsSound(t, id, x, other);
    }
    forall org, i: nat | Bearing(u, org, i)
      ensures Named(u, At(u.ledgers, org).entries[i]) && At(u.ledgers, org).entries[i].executionId != id
    {
      assert Bearing(t, org, i);
    }
    assert ExecutionSound(t, id);
  }

  lemma OpenKeeps(sha: Sha, interval: Str -> int, t: Tables, id: Str, x: Execution)
    requires Good(sha, interval, t) && id !in t.executions && x.id == id
    ensures Good(sha, interval, t.(executions := t.executions[id := x]))
  {
    var u := t.(executions := t.executions[id := x]);
    OpenKept(sha, t, id, x);
    TiledStay(sha, interval, t, u);
    forall org, i: nat | Bearing(u, org, i) ensures SealedOk(sha, u, At(u.ledgers, org).entries[i]) {
      assert Bearing(t, org, i);
    }
  }

  // ---------------------------------------------------------------- events

  /** What appends to one execution do to the tables: its events grow at the end, all else stays. */
  ghost predicate OnlyEvents(t: Tables, u: Tables, id: Str)
  {
    && u.executions == t.executions && u.ledgers == t.ledgers
    && |EventsFor(t.events, id)| <= |EventsFor(u.events, id)|
    && EventsFor(u.events, id)[..|EventsFor(t.events, id)|] == EventsFor(t.events, id)
    && forall other :: other != id ==> EventsFor(u.events, other) == EventsFor(t.events, other)
  }

  lemma OnlyEventsTransitive(t: Tables, u: Tables, v: Tables, id: Str)
    requires OnlyEvents(t, u, id) && OnlyEvents(u, v, id)
    ensures OnlyEvents(t, v, id)
  {
    var a, b, c := EventsFor(t.events, id), EventsFor(u.events, id), EventsFor(v.events, id);
    assert c[..|a|] == c[..|b|][..|a|];
  }

  /** One event more, behind the others of its execution. */
  lemma EventGrows(types: set<Str>, t: Tables, input: EventInput)
    requires NewEvent(types, t, input).Ok?
    ensures var u, id := AddEvent(t, NewEvent(types, t, input).value), input.executionId;
      && OnlyEvents(t, u, id) && EventsFor(u.events, id) == EventsFor(t.events, id) + [NewEvent(types, t, input).value]
  {
    var e := NewEvent(types, t, input).value;
    forall id ensures EventsFor(t.events + [e], id) == EventsFor(t.events, id) + (if id == e.executionId then [e] else []) {
      EventsForAppend(t.events, e, id);
    }
  }

  lemma IdStaysDistinct(events: seq<Event>, e: Event)
    requires DistinctIds(events) && FindEvent(events, e.id).None?
    ensures DistinctIds(events + [e])
  {
    FindEventFinds(events, e.id);
  }

  lemma EventKept(sha: Sha, types: set<Str>, t: Tables, input: EventInput)
    requires Kept(sha, t) && NewEvent(types, t, input).Ok?
    ensures Kept(sha, AddEvent(t, NewEvent(types, t, input).value))
  {
    var e := NewEvent(types, t, input).value;
    var u := AddEvent(t, e);
    forall org ensures ChainKept(sha, u, org) {
      assert ChainKept(sha, t, org);
    }
    forall id ensures ExecutionSound(u, id) {
      EventKeepsSound(types, t, input, id);
    }
    IdStaysDistinct(t.events, e);
    forall org, i: nat | Bearing(u, org, i) ensures Named(u, At(u.ledgers, org).entries[i]) {
      assert Bearing(t, org, i);
    }
  }

  /** Events appended to an execution that is not sealed leave every seal right. */
  lemma EventsKeepGood(sha: Sha, interval: Str -> int, t: Tables, u: Tables, id: Str)
    requires Good(sha, interval, t) && Kept(sha, u) && OnlyEvents(t, u, id) && !IsSealed(t, id)
    ensures Good(sha, interval, u) && !IsSealed(u, id)
  {
    TiledStay(sha, interval, t, u);
    forall org, i: nat | Bearing(u, org, i)
      ensures SealedOk(sha, u, At(u.ledgers, org).entries[i]) && At(u.ledgers, org).entries[i].executionId != id
    {
      assert Bearing(t, org, i);
    }
  }

  lemma EventKeeps(sha: Sha, interval: Str -> int, types: set<Str>, t: Tables, input: EventInput)
    requires Good(sha, interval, t) && NewEvent(types, t, input).Ok? && !IsSealed(t, input.executionId)
    ensures Good(sha, interval, AddEvent(t, NewEvent(types, t, input).value))
    ensures !IsSealed(AddEvent(t, NewEvent(types, t, input).value), input.executionId)
  {
    EventKept(sha, types, t, input);
    EventGrows(types, t, input);
    EventsKeepGood(sha, interval, t, AddEvent(t, NewEvent(types, t, input).value), input.executionId);
  }

  // ---------------------------------------------------------------- ledger entries

  function LastEntry(t: Tables, org: Str): LedgerEntry
    requires At(t.ledgers, org).entries != []
  {
    At(t.ledgers, org).entries[|At(t.ledgers, org).entries| - 1]
  }

  /** What a successful append does: one more entry on its organization's chain, and at most a
      status change of its execution. */
  lemma AppendEntryEffect(sha: Sha, t: Tables, input: EntryInput)
    requires AppendEntry(sha, t, input).Ok?
    ensures var u, org := AppendEntry(sha, t, input).value, input.organizationId;
      && Append(sha, At(t.ledgers, org), input).Ok?
      && u.ledgers == t.ledgers[org := Append(sha, At(t.ledgers, org), input).value]
      && u.events == t.events && u.executions.Keys == t.executions.Keys
      && input.executionId in t.executions
      && (u.executions == t.executions || Moves(t, u, input.executionId))
    ensures StatusEffect(input).Some? ==>
      AppendEntry(sha, t, input).value.executions[input.executionId].status == StatusEffect(input).value.0
      && Moves(t, AppendEntry(sha, t, input).value, input.executionId)
      && t.executions[input.executionId].organizationId == input.organizationId
    ensures StatusEffect(input).None? ==> AppendEntry(sha, t, input).value.executions == t.executions
    ensures !EntryIdTaken(At(t.ledgers, input.organizationId), input.entryId)
  {
    var org := input.organizationId;
    var v := t.(ledgers := t.ledgers[org := Append(sha, At(t.ledgers, org), input).value]);
    if StatusEffect(input).Some? {
      var (status, finalEntryId) := StatusEffect(input).value;
    }
  }

  /** `e` is the one entry more, as the input says. */
  ghost predicate OneMore(t: Tables, u: Tables, input: EntryInput, e: LedgerEntry)
  {
    && At(u.ledgers, input.organizationId).entries == At(t.ledgers, input.organizationId).entries + [e]
    && (forall org :: org != input.organizationId ==> At(u.ledgers, org) == At(t.ledgers, org))
    && e.organizationId == input.organizationId && e.executionId == input.executionId && e.entryType == input.entryType
    && e.executionGraphHash == input.executionGraphHash && HashOk(e.executionGraphHash)
  }

  lemma AppendedEntry(sha: Sha, t: Tables, u: Tables, input: EntryInput)
    requires AppendEntry(sha, t, input) == Ok(u)
    ensures At(u.ledgers, input.organizationId).entries != []
    ensures OneMore(t, u, input, LastEntry(u, input.organizationId))
  {
    var l := At(t.ledgers, input.organizationId);
    AppendEntryEffect(sha, t, input);
    StageFacts(sha, input, l.latestSequence, l.latestEntryHash, Prior(l, input));
  }

  /** An entry of one of the two final types names an execution of its organization. */
  lemma FinalIsNamed(sha: Sha, t: Tables, u: Tables, input: EntryInput, e: LedgerEntry)
    requires AppendEntry(sha, t, input) == Ok(u) && OneMore(t, u, input, e) && GraphBearing(e)
    ensures Named(u, e)
  {
    AppendEntryEffect(sha, t, input);
  }

  lemma NamedStay(sha: Sha, t: Tables, u: Tables, input: EntryInput, org: Str, i: nat)
    requires Kept(sha, t) && AppendEntry(sha, t, input) == Ok(u) && Bearing(u, org, i)
    ensures Named(u, At(u.ledgers, org).entries[i])
  {
    AppendEntryEffect(sha, t, input);
    AppendedEntry(sha, t, u, input);
    if Bearing(t, org, i) {
      assert Named(t, At(t.ledgers, org).entries[i]);
    } else {
      FinalIsNamed(sha, t, u, input, LastEntry(u, input.organizationId));
    }
  }

  lemma EntryKept(sha: Sha, t: Tables, u: Tables, input: EntryInput)
    requires Kept(sha, t) && AppendEntry(sha, t, input) == Ok(u)
    ensures Kept(sha, u)
  {
    AppendEntryEffect(sha, t, input);
    forall org ensures ChainKept(sha, u, org) {
      ChainGrows(sha, t, u, input, org);
    }
    forall id ensures ExecutionSound(u, id) {
      assert ExecutionSound(t, id);
    }
    forall org, i: nat | Bearing(u, org, i) ensures Named(u, At(u.ledgers, org).entries[i]) {
      NamedStay(sha, t, u, input, org, i);
    }
  }

  lemma ChainGrows(sha: Sha, t: Tables, u: Tables, input: EntryInput, org: Str)
    requires ChainKept(sha, t, org) && Append(sha, At(t.ledgers, input.organizationId), input).Ok?
    requires u.ledgers == t.ledgers[input.organizationId := Append(sha, At(t.ledgers, input.organizationId), input).value]
    requires !EntryIdTaken(At(t.ledgers, input.organizationId), input.entryId)
    ensures ChainKept(sha, u, org)
  {
    if org == input.organizationId {
      AppendKeepsSound(sha, At(t.ledgers, org), input);
      AppendKeepsClosed(sha, org, At(t.ledgers, org), input);
      AppendKeepsIds(sha, At(t.ledgers, org), input);
    }
  }

  lemma AppendKeepsIds(sha: Sha, l: Ledger, input: EntryInput)
    requires DistinctEntryIds(l.entries) && !EntryIdTaken(l, input.entryId) && Append(sha, l, input).Ok?
    ensures DistinctEntryIds(Append(sha, l, input).value.entries)
  {
    StageFacts(sha, input, l.latestSequence, l.latestEntryHash, Prior(l, input));
    var m := Append(sha, l, input).value;
    forall i, j | 0 <= i < j < |m.entries| ensures m.entries[i].id != m.entries[j].id {
      assert j < |l.entries| ==> m.entries[j] == l.entries[j];
    }
  }

  lemma EntryTiled(sha: Sha, interval: Str -> int, t: Tables, u: Tables, input: EntryInput)
    requires Kept(sha, t) && AllTiled(sha, interval, t) && AppendEntry(sha, t, input) == Ok(u)
    requires input.interval == interval(input.organizationId)
    ensures AllTiled(sha, interval, u)
  {
    AppendEntryEffect(sha, t, input);
    forall org ensures Tiled(sha, interval(org), At(u.ledgers, org)) {
      assert Tiled(sha, interval(org), At(t.ledgers, org)) && ChainKept(sha, t, org);
      if org == input.organizationId {
        AppendKeepsTiled(sha, org, At(t.ledgers, org), input);
      }
    }
  }

  /** An append keeps the invariant when its entry bears no graph, or the right one. */
  lemma AppendKeeps(sha: Sha, interval: Str -> int, t: Tables, u: Tables, input: EntryInput)
    requires Good(sha, interval, t) && AppendEntry(sha, t, input) == Ok(u)
    requires input.interval == interval(input.organizationId)
    requires var entries := At(u.ledgers, input.organizationId).entries;
      |entries| > 0 && (GraphBearing(entries[|entries| - 1]) ==> SealedOk(sha, u, entries[|entries| - 1]))
    ensures Good(sha, interval, u)
  {
    EntryKept(sha, t, u, input);
    EntryTiled(sha, interval, t, u, input);
    AppendEntryEffect(sha, t, input);
    AppendedEntry(sha, t, u, input);
    forall org, i: nat | Bearing(u, org, i) ensures SealedOk(sha, u, At(u.ledgers, org).entries[i]) {
      if Bearing(t, org, i) {
        MoveKeepsSealed(sha, t, u, input.executionId, At(t.ledgers, org).entries[i]);
      }
    }
  }
}
