/** The kernel accepts an event after a seal, a second seal, and any graph hash on a final entry. When
    exactly the verifier still accepts the result. */
module LateEvents {
  import opened Basics
  import opened Records
  import opened Graph
  import opened Ledgers
  import opened Kernel
  import opened EventDag
  import opened Reachable
  import opened Exports
  import opened VerifyGraphs
  import opened Completeness
  import Seals

  /** The export of a state is accepted without an issue. */
  predicate Accepted(sha: Sha, t: Tables, org: Str, ids: seq<Str>)
    requires forall x :: x in ids ==> x in t.executions
  {
    var b := Export(sha, t, org, ids);
    b.Some? && BundleIssues(sha, b.value) == Some([])
  }

  // ---------------------------------------------------------------- more events under a seal

  lemma SealOf(sha: Sha, t: Tables, id: Str) returns (i: nat)
    requires Kept(sha, t) && IsSealed(t, id)
    ensures id in t.executions && Bearing(t, t.executions[id].organizationId, i)
    ensures At(t.ledgers, t.executions[id].organizationId).entries[i].executionId == id
  {
    var org, k: nat :| Bearing(t, org, k) && At(t.ledgers, org).entries[k].executionId == id;
    assert ChainKept(sha, t, org) && EntrySound(sha, org, At(t.ledgers, org).entries, k);
    i := k;
  }

  /** More events than a hash was made over: the entry is no longer right, unless the graphs collide. */
  lemma MoreEventsWrong(sha: Sha, t: Tables, u: Tables, e: LedgerEntry)
    requires RightEntry(sha, t, e) && e.executionId in u.executions
    requires SameExecution(t.executions[e.executionId], u.executions[e.executionId])
    requires |EventsFor(u.events, e.executionId)| != |EventsFor(t.events, e.executionId)| && Dag(EventsFor(u.events, e.executionId))
    requires CollisionFreeOn(sha, {GraphBytes(t.executions[e.executionId], EventsFor(t.events, e.executionId)),
                                   GraphBytes(t.executions[e.executionId], EventsFor(u.events, e.executionId))})
    ensures !RightEntry(sha, u, e)
  {
    var x, was, now := t.executions[e.executionId], EventsFor(t.events, e.executionId), EventsFor(u.events, e.executionId);
    DagHashes(sha, x, now);
    MoreEventsOtherHash(sha, x, was, now);
    SameExecutionSameGraph(sha, x, u.executions[e.executionId], now);
  }

  /** After an event the export of its organization is accepted exactly when the execution was not
      sealed, unless the graph with the event collides with the one without. */
  lemma LateEventExactly(sha: Sha, interval: Str -> int, types: set<Str>, t: Tables, input: EventInput, ids: seq<Str>)
    requires Good(sha, interval, t) && NewEvent(types, t, input).Ok?
    requires Lists(t, input.organizationId, ids) && forall x :: x in ids ==> x in t.executions
    requires var u, id := AddEvent(t, NewEvent(types, t, input).value), input.executionId;
      CollisionFreeOn(sha, {GraphBytes(t.executions[id], EventsFor(t.events, id)), GraphBytes(t.executions[id], EventsFor(u.events, id))})
    ensures Accepted(sha, AddEvent(t, NewEvent(types, t, input).value), input.organizationId, ids) <==> !IsSealed(t, input.executionId)
  {
    var org, id, u := input.organizationId, input.executionId, AddEvent(t, NewEvent(types, t, input).value);
    EventKept(sha, types, t, input);
    EventGrows(types, t, input);
    TiledStay(sha, interval, t, u);
    TiledAccepted(sha, interval, u, org, ids);
    if IsSealed(t, id) {
      var i := SealOf(sha, t, id);
      assert ExecutionSound(u, id);
      MoreEventsWrong(sha, t, u, At(t.ledgers, org).entries[i]);
      assert Bearing(u, org, i);
    } else {
      EventKeeps(sha, interval, types, t, input);
      GoodIsRight(sha, interval, u, org);
    }
  }

  // ---------------------------------------------------------------- a second seal

  lemma MovedLists(t: Tables, u: Tables, org: Str, id: Str, ids: seq<Str>)
    requires Lists(t, org, ids) && (u.executions == t.executions || RowMoves(t, u, id))
    ensures Lists(u, org, ids) && forall x :: x in ids ==> x in u.executions
  {
    forall x ensures GetExecution(u, org, x).Some? <==> GetExecution(t, org, x).Some? {
    }
  }

  lemma StillEnded(t: Tables, u: Tables, id: Str)
    requires id in t.executions && Terminal(t.executions[id].status)
    requires u.executions == t.executions || RowMoves(t, u, id)
    ensures id in u.executions && SameExecution(t.executions[id], u.executions[id])
  {
    if u.executions != t.executions {
      TerminalAbsorbs(t.executions[id].status, u.executions[id].status);
    }
  }

  /** What a seal does, seen from outside. */
  ghost predicate Sealing(t: Tables, u: Tables, org: Str, id: Str)
  {
    && (u.executions == t.executions || RowMoves(t, u, id))
    && |EventsFor(u.events, id)| > |EventsFor(t.events, id)|
    && |At(t.ledgers, org).entries| < |At(u.ledgers, org).entries|
    && At(u.ledgers, org).entries[..|At(t.ledgers, org).entries|] == At(t.ledgers, org).entries
  }

  lemma SealEffect(sha: Sha, interval: Str -> int, types: set<Str>, t: Tables, u: Tables, input: SealInput)
    requires Kept(sha, t) && AllTiled(sha, interval, t) && SealExecution(sha, types, t, input) == Ok(u)
    requires input.interval == interval(input.organizationId)
    ensures Kept(sha, u) && AllTiled(sha, interval, u) && Sealing(t, u, input.organizationId, input.executionId)
  {
    var v, x, hash, entry := Seals.SealStages(sha, types, t, u, input);
    TiledStay(sha, interval, t, v);
    EntryTiled(sha, interval, v, u, entry);
    EntryKept(sha, v, u, entry);
    AppendEntryEffect(sha, v, entry);
    AppendedEntry(sha, v, u, entry);
  }

  lemma SecondSealWrong(sha: Sha, t: Tables, u: Tables, org: Str, id: Str, i: nat)
    requires Kept(sha, u) && Sealing(t, u, org, id) && Bearing(t, org, i) && At(t.ledgers, org).entries[i].executionId == id
    requires SealedOk(sha, t, At(t.ledgers, org).entries[i])
    requires CollisionFreeOn(sha, {GraphBytes(t.executions[id], EventsFor(t.events, id)), GraphBytes(t.executions[id], EventsFor(u.events, id))})
    ensures !AllRight(sha, u, org)
  {
    var e := At(t.ledgers, org).entries[i];
    assert At(u.ledgers, org).entries[i] == At(u.ledgers, org).entries[..|At(t.ledgers, org).entries|][i];
    StillEnded(t, u, id);
    assert ExecutionSound(u, id);
    MoreEventsWrong(sha, t, u, e);
    assert Bearing(u, org, i);
  }

  /** After a seal the export is accepted exactly when the execution was not sealed before, unless the
      graph of the first seal collides with that of all events now there. */
  lemma SecondSealExactly(sha: Sha, interval: Str -> int, types: set<Str>, t: Tables, u: Tables, input: SealInput, ids: seq<Str>)
    requires Good(sha, interval, t) && SealExecution(sha, types, t, input) == Ok(u)
    requires input.interval == interval(input.organizationId)
    requires Lists(t, input.organizationId, ids) && input.executionId in t.executions
    requires var x, id := t.executions[input.executionId], input.executionId;
      CollisionFreeOn(sha, {GraphBytes(x, EventsFor(t.events, id)), GraphBytes(x, EventsFor(u.events, id))})
    ensures forall x :: x in ids ==> x in u.executions
    ensures Accepted(sha, u, input.organizationId, ids) <==> !IsSealed(t, input.executionId)
  {
    var org, id := input.organizationId, input.executionId;
    SealEffect(sha, interval, types, t, u, input);
    MovedLists(t, u, org, id, ids);
    TiledAccepted(sha, interval, u, org, ids);
    if IsSealed(t, id) {
      var i := SealOf(sha, t, id);
      assert GetExecution(t, org, id).Some?;
      SecondSealWrong(sha, t, u, org, id, i);
    } else {
      Seals.SealKeeps(sha, interval, types, t, u, input);
      GoodIsRight(sha, interval, u, org);
    }
  }

  // ---------------------------------------------------------------- any graph hash

  lemma OnlyNewMatters(sha: Sha, interval: Str -> int, t: Tables, u: Tables, input: EntryInput)
    requires Good(sha, interval, t) && AppendEntry(sha, t, input) == Ok(u)
    requires (input.entryType == Final() || input.entryType == FailureEntry()) && input.executionGraphHash.Some?
    ensures At(u.ledgers, input.organizationId).entries != []
    ensures AllRight(sha, u, input.organizationId) <==> RightEntry(sha, u, LastEntry(u, input.organizationId))
  {
    var org := input.organizationId;
    AppendEntryEffect(sha, t, input);
    AppendedEntry(sha, t, u, input);
    assert Bearing(u, org, |At(t.ledgers, org).entries|);
    forall i: nat | Bearing(t, org, i) ensures RightEntry(sha, u, At(u.ledgers, org).entries[i]) {
      MoveKeepsSealed(sha, t, u, input.executionId, At(t.ledgers, org).entries[i]);
    }
  }

  /** After a final entry with whatever graph hash the export is accepted exactly when it is the hash of
      the graph over all of its execution's events, of which there is one. */
  lemma AnyHashExactly(sha: Sha, interval: Str -> int, t: Tables, u: Tables, input: EntryInput, ids: seq<Str>)
    requires Good(sha, interval, t) && AppendEntry(sha, t, input) == Ok(u) && input.interval == interval(input.organizationId)
    requires input.entryType == Final() || input.entryType == FailureEntry()
    requires input.executionGraphHash.Some? && Lists(t, input.organizationId, ids)
    ensures forall x :: x in ids ==> x in u.executions
    ensures input.executionId in u.executions
    ensures Accepted(sha, u, input.organizationId, ids) <==>
      && EventsFor(t.events, input.executionId) != []
      && HashGraph(sha, u.executions[input.executionId], EventsFor(t.events, input.executionId)) == Ok(input.executionGraphHash.value)
  {
    var org, id := input.organizationId, input.executionId;
    EntryKept(sha, t, u, input);
    EntryTiled(sha, interval, t, u, input);
    AppendEntryEffect(sha, t, input);
    AppendedEntry(sha, t, u, input);
    MovedLists(t, u, org, id, ids);
    TiledAccepted(sha, interval, u, org, ids);
    OnlyNewMatters(sha, interval, t, u, input);
  }
}
