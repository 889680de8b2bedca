/** A sealed execution's record: it is linked right after the seal, and stays linked and in its
    final status through every call that does not concern it. */
module Linked {
  import opened Basics
  import opened Sorting
  import opened Records
  import opened Graph
  import opened Ledgers
  import opened Kernel
  import opened VerifyGraphs
  import opened Reachable
  import opened Seals
  import LateEvents

  function RowsOf(entries: seq<LedgerEntry>, id: Str): seq<LedgerEntry>
  {
    if entries == [] then []
    else
      var rest, last := RowsOf(entries[..|entries| - 1], id), entries[|entries| - 1];
      if last.executionId == id then rest + [last] else rest
  }

  function FindRow(rows: seq<LedgerEntry>, id: Option<Str>): Option<LedgerEntry>
  {
    if rows == [] then None else if Some(rows[0].id) == id then Some(rows[0]) else FindRow(rows[1..], id)
  }

  function FinalEntry(t: Tables, org: Str, x: Execution): Option<LedgerEntry>
  {
    FindRow(RowsOf(SortBy(SequenceLe, At(t.ledgers, org).entries), x.id), x.finalEntryId)
  }

  /** `provenance_status === "linked"`: the graph over the execution's events hashes to what its
      final ledger entry says. */
  predicate IsLinked(sha: Sha, t: Tables, org: Str, id: Str)
  {
    var x := GetExecution(t, org, id);
    x.Some? && (
      var events, final := ListEvents(t.events, org, id), FinalEntry(t, org, x.value);
      && events != [] && final.Some? && final.value.executionGraphHash.Some? && final.value.executionGraphHash.value != []
      && HashGraph(sha, x.value, events) == Ok(final.value.executionGraphHash.value))
  }

  lemma {:induction false} FindRowPrefix(xs: seq<LedgerEntry>, ys: seq<LedgerEntry>, id: Option<Str>)
    requires |xs| <= |ys| && ys[..|xs|] == xs && FindRow(xs, id).Some?
    ensures FindRow(ys, id) == FindRow(xs, id)
  {
    assert ys[0] == xs[0];
    if Some(xs[0].id) != id {
      FindRowPrefix(xs[1..], ys[1..], id);
    }
  }

  lemma {:induction false} FindRowSkips(rows: seq<LedgerEntry>, e: LedgerEntry)
    requires forall i :: 0 <= i < |rows| ==> rows[i].id != e.id
    ensures FindRow(rows + [e], Some(e.id)) == Some(e)
  {
    if rows != [] {
      assert (rows + [e])[1..] == rows[1..] + [e];
      FindRowSkips(rows[1..], e);
    }
  }

  lemma {:induction false} RowsOfMembers(entries: seq<LedgerEntry>, id: Str)
    ensures forall i :: 0 <= i < |RowsOf(entries, id)| ==> RowsOf(entries, id)[i] in entries
  {
    if entries != [] {
      RowsOfMembers(entries[..|entries| - 1], id);
    }
  }

  ghost predicate SoundEverywhere(sha: Sha, t: Tables)
  {
    forall org :: Sound(sha, org, At(t.ledgers, org))
  }

  // ---------------------------------------------------------------- right after a seal

  lemma LastIsFinal(sha: Sha, t: Tables, org: Str, x: Execution)
    requires Sound(sha, org, At(t.ledgers, org)) && At(t.ledgers, org).entries != []
    requires LastEntry(t, org).executionId == x.id && x.finalEntryId == Some(LastEntry(t, org).id)
    requires forall i :: 0 <= i < |At(t.ledgers, org).entries| - 1 ==> At(t.ledgers, org).entries[i].id != LastEntry(t, org).id
    ensures FinalEntry(t, org, x) == Some(LastEntry(t, org))
  {
    var entries := At(t.ledgers, org).entries;
    var before, last := entries[..|entries| - 1], LastEntry(t, org);
    SoundIsDense(sha, org, At(t.ledgers, org));
    DenseIsSorted(entries);
    RowsOfMembers(before, x.id);
    var rows := RowsOf(before, x.id);
    forall i | 0 <= i < |rows| ensures rows[i].id != last.id {
      assert rows[i] in before;
    }
    FindRowSkips(rows, last);
  }

  lemma SealedRow(sha: Sha, v: Tables, u: Tables, input: SealInput, requestHash: Option<Str>, hash: Str)
    requires AppendEntry(sha, v, SealEntry(input, requestHash, hash)) == Ok(u)
    ensures GetExecution(u, input.organizationId, input.executionId).Some?
    ensures u.executions[input.executionId].finalEntryId == Some(input.entryId)
    ensures At(u.ledgers, input.organizationId).entries != [] && LastEntry(u, input.organizationId).id == input.entryId
    ensures forall i :: 0 <= i < |At(u.ledgers, input.organizationId).entries| - 1 ==>
      At(u.ledgers, input.organizationId).entries[i].id != input.entryId
  {
    AppendEntryEffect(sha, v, SealEntry(input, requestHash, hash));
  }

  lemma SealSetsFinal(sha: Sha, types: set<Str>, t: Tables, u: Tables, input: SealInput)
    requires SealExecution(sha, types, t, input) == Ok(u)
    ensures GetExecution(u, input.organizationId, input.executionId).Some?
    ensures u.executions[input.executionId].finalEntryId == Some(input.entryId)
    ensures At(u.ledgers, input.organizationId).entries != [] && LastEntry(u, input.organizationId).id == input.entryId
    ensures forall i :: 0 <= i < |At(u.ledgers, input.organizationId).entries| - 1 ==>
      At(u.ledgers, input.organizationId).entries[i].id != input.entryId
  {
    var x := GetExecution(t, input.organizationId, input.executionId).value;
    var (w, parents) := Prelude(types, t, input).value;
    var events, preSealHash, sealed, sealedHash, entry := FinishSealSteps(sha, types, w, input, x, parents);
    var requestHash :| entry == SealEntry(input, requestHash, sealedHash);
    SealedRow(sha, AddEvent(w, sealed), u, input, requestHash, sealedHash);
  }

  lemma RecordedIsLinked(sha: Sha, u: Tables, org: Str, id: Str)
    requires SealRecorded(sha, u, org, id) && ExecutionSound(u, id) && u.executions[id].id == id
    requires Sound(sha, org, At(u.ledgers, org))
    requires u.executions[id].finalEntryId == Some(LastEntry(u, org).id)
    requires forall i :: 0 <= i < |At(u.ledgers, org).entries| - 1 ==> At(u.ledgers, org).entries[i].id != LastEntry(u, org).id
    ensures IsLinked(sha, u, org, id)
  {
    LastIsFinal(sha, u, org, u.executions[id]);
    ListIsFor(u, org, id);
  }

  /** A seal leaves its execution linked and ended. */
  lemma SealLinks(sha: Sha, interval: Str -> int, types: set<Str>, t: Tables, u: Tables, input: SealInput)
    requires Good(sha, interval, t) && !IsSealed(t, input.executionId)
    requires input.interval == interval(input.organizationId)
    requires SealExecution(sha, types, t, input) == Ok(u)
    ensures IsLinked(sha, u, input.organizationId, input.executionId)
    ensures Terminal(u.executions[input.executionId].status)
  {
    var org, id := input.organizationId, input.executionId;
    SealKeeps(sha, interval, types, t, u, input);
    SealSetsFinal(sha, types, t, u, input);
    assert ChainKept(sha, u, org) && ExecutionSound(u, id);
    RecordedIsLinked(sha, u, org, id);
    var last: nat := |At(u.ledgers, org).entries| - 1;
    assert Bearing(u, org, last);
    assert SealedOk(sha, u, At(u.ledgers, org).entries[last]);
  }

  // ---------------------------------------------------------------- what linked means

  lemma {:induction false} RowsOfExactly(entries: seq<LedgerEntry>, id: Str)
    ensures forall e :: e in RowsOf(entries, id) <==> e in entries && e.executionId == id
  {
    if entries != [] {
      RowsOfExactly(entries[..|entries| - 1], id);
      assert entries == entries[..|entries| - 1] + [entries[|entries| - 1]];
    }
  }

  lemma {:induction false} FindRowExactly(rows: seq<LedgerEntry>, id: Option<Str>)
    ensures FindRow(rows, id).None? <==> forall e :: e in rows ==> Some(e.id) != id
    ensures FindRow(rows, id).Some? ==> FindRow(rows, id).value in rows && Some(FindRow(rows, id).value.id) == id
  {
    if rows != [] && Some(rows[0].id) != id {
      FindRowExactly(rows[1..], id);
      assert rows == [rows[0]] + rows[1..];
    }
  }

  /** Entry `i` is the execution's final one, as its row names it. */
  predicate IsFinal(t: Tables, org: Str, id: Str, i: nat)
  {
    && id in t.executions && i < |At(t.ledgers, org).entries|
    && At(t.ledgers, org).entries[i].executionId == id && Some(At(t.ledgers, org).entries[i].id) == t.executions[id].finalEntryId
  }

  lemma FinalEntryExactly(sha: Sha, t: Tables, org: Str, id: Str, i: nat)
    requires Kept(sha, t) && IsFinal(t, org, id, i)
    ensures FinalEntry(t, org, t.executions[id]) == Some(At(t.ledgers, org).entries[i])
  {
    var entries, x := At(t.ledgers, org).entries, t.executions[id];
    assert ChainKept(sha, t, org);
    SoundOrder(sha, org, At(t.ledgers, org));
    RowsOfExactly(entries, id);
    FindRowExactly(RowsOf(entries, id), x.finalEntryId);
    assert entries[i] in RowsOf(entries, id);
    var found := FindRow(RowsOf(entries, id), x.finalEntryId).value;
    var j :| 0 <= j < |entries| && entries[j] == found;
  }

  /** In every state calls can lead to, an execution is linked exactly when its final entry carries the hash
      of the graph over all its events, of which there is one. */
  lemma LinkedExactly(sha: Sha, t: Tables, org: Str, id: Str)
    requires Kept(sha, t) && GetExecution(t, org, id).Some?
    ensures IsLinked(sha, t, org, id) <==> exists i: nat :: IsFinal(t, org, id, i) && RightEntry(sha, t, At(t.ledgers, org).entries[i])
  {
    var entries, x := At(t.ledgers, org).entries, t.executions[id];
    assert ChainKept(sha, t, org) && ExecutionSound(t, id);
    ListIsFor(t, org, id);
    if IsLinked(sha, t, org, id) {
      SoundOrder(sha, org, At(t.ledgers, org));
      RowsOfExactly(entries, id);
      FindRowExactly(RowsOf(entries, id), x.finalEntryId);
      var found := FinalEntry(t, org, x).value;
      var i :| 0 <= i < |entries| && entries[i] == found;
      assert IsFinal(t, org, id, i) && RightEntry(sha, t, entries[i]);
    }
    if i: nat :| IsFinal(t, org, id, i) && RightEntry(sha, t, entries[i]) {
      FinalEntryExactly(sha, t, org, id, i);
      HashIsText(sha, x, EventsFor(t.events, id));
    }
  }

  lemma HashIsText(sha: Sha, x: Execution, events: seq<Event>)
    ensures HashGraph(sha, x, events).Ok? ==> HashGraph(sha, x, events).value != []
  {
  }

  /** An event appended to a linked execution unlinks it, unless the two graphs collide, and no other. */
  lemma EventUnlinks(sha: Sha, types: set<Str>, t: Tables, input: EventInput)
    requires Kept(sha, t) && NewEvent(types, t, input).Ok? && IsLinked(sha, t, input.organizationId, input.executionId)
    requires var u, id := AddEvent(t, NewEvent(types, t, input).value), input.executionId;
      CollisionFreeOn(sha, {GraphBytes(t.executions[id], EventsFor(t.events, id)), GraphBytes(t.executions[id], EventsFor(u.events, id))})
    ensures !IsLinked(sha, AddEvent(t, NewEvent(types, t, input).value), input.organizationId, input.executionId)
  {
    var org, id, u := input.organizationId, input.executionId, AddEvent(t, NewEvent(types, t, input).value);
    EventKept(sha, types, t, input);
    EventGrows(types, t, input);
    LinkedExactly(sha, t, org, id);
    LinkedExactly(sha, u, org, id);
    var i: nat :| IsFinal(t, org, id, i) && RightEntry(sha, t, At(t.ledgers, org).entries[i]);
    assert ExecutionSound(u, id);
    LateEvents.MoreEventsWrong(sha, t, u, At(t.ledgers, org).entries[i]);
    forall j: nat | IsFinal(u, org, id, j) ensures !RightEntry(sha, u, At(u.ledgers, org).entries[j]) {
      assert ChainKept(sha, u, org) && IsFinal(u, org, id, i);
      OneFinal(sha, u, org, id, i, j);
    }
  }

  lemma OneFinal(sha: Sha, t: Tables, org: Str, id: Str, i: nat, j: nat)
    requires ChainKept(sha, t, org) && IsFinal(t, org, id, i) && IsFinal(t, org, id, j)
    ensures i == j
  {
  }

  // ---------------------------------------------------------------- ever after

  /** The call neither appends an event to the execution nor writes another final entry for it. */
  predicate LeavesAlone(call: Call, id: Str)
  {
    match call
    case EventCall(input) => input.executionId != id
    case EntryCall(input) => input.executionId != id || (input.entryType != Final() && input.entryType != FailureEntry())
    case SealCall(input) => input.executionId != id
    case _ => true
  }

  /** What linkage depends on is the same in both states; chains may have grown. */
  ghost predicate SameRecord(sha: Sha, t: Tables, u: Tables, org: Str, id: Str)
  {
    && id in t.executions && id in u.executions && u.executions[id] == t.executions[id]
    && EventsOf(u.events, org, id) == EventsOf(t.events, org, id)
    && |At(t.ledgers, org).entries| <= |At(u.ledgers, org).entries|
    && At(u.ledgers, org).entries[..|At(t.ledgers, org).entries|] == At(t.ledgers, org).entries
  }

  lemma {:induction false} RowsGrow(a: seq<LedgerEntry>, b: seq<LedgerEntry>, id: Str)
    requires |a| <= |b| && b[..|a|] == a
    ensures |RowsOf(a, id)| <= |RowsOf(b, id)| && RowsOf(b, id)[..|RowsOf(a, id)|] == RowsOf(a, id)
  {
    if |a| < |b| {
      assert b[..|b| - 1][..|a|] == a;
      RowsGrow(a, b[..|b| - 1], id);
    } else {
      assert a == b;
    }
  }

  lemma FindGrows(a: seq<LedgerEntry>, b: seq<LedgerEntry>, id: Str, final: Option<Str>)
    requires |a| <= |b| && b[..|a|] == a && FindRow(RowsOf(a, id), final).Some?
    ensures FindRow(RowsOf(b, id), final) == FindRow(RowsOf(a, id), final)
  {
    RowsGrow(a, b, id);
    FindRowPrefix(RowsOf(a, id), RowsOf(b, id), final);
  }

  lemma SoundOrder(sha: Sha, org: Str, l: Ledger)
    requires Sound(sha, org, l)
    ensures SortBy(SequenceLe, l.entries) == l.entries
  {
    SoundIsDense(sha, org, l);
    DenseIsSorted(l.entries);
  }

  lemma FinalEntryGrows(sha: Sha, t: Tables, u: Tables, org: Str, x: Execution)
    requires Sound(sha, org, At(t.ledgers, org)) && Sound(sha, org, At(u.ledgers, org))
    requires |At(t.ledgers, org).entries| <= |At(u.ledgers, org).entries|
    requires At(u.ledgers, org).entries[..|At(t.ledgers, org).entries|] == At(t.ledgers, org).entries
    requires FinalEntry(t, org, x).Some?
    ensures FinalEntry(u, org, x) == FinalEntry(t, org, x)
  {
    SoundOrder(sha, org, At(t.ledgers, org));
    SoundOrder(sha, org, At(u.ledgers, org));
    FindGrows(At(t.ledgers, org).entries, At(u.ledgers, org).entries, x.id, x.finalEntryId);
  }

  lemma SameRecordLinked(sha: Sha, t: Tables, u: Tables, org: Str, id: Str)
    requires SameRecord(sha, t, u, org, id) && IsLinked(sha, t, org, id)
    requires Sound(sha, org, At(t.ledgers, org)) && Sound(sha, org, At(u.ledgers, org))
    ensures IsLinked(sha, u, org, id)
  {
    FinalEntryGrows(sha, t, u, org, t.executions[id]);
  }

  lemma EventElsewhere(sha: Sha, t: Tables, e: Event, org: Str, id: Str)
    requires id in t.executions && e.executionId != id
    ensures SameRecord(sha, t, AddEvent(t, e), org, id)
  {
    assert (t.events + [e])[..|t.events|] == t.events;
  }

  lemma StatusElsewhere(sha: Sha, t: Tables, org: Str, other: Str, moved: Str, status: Str, id: Str)
    requires id in t.executions && Terminal(t.executions[id].status)
    requires SetStatus(t, other, moved, status, None).Ok?
    ensures SameRecord(sha, t, SetStatus(t, other, moved, status, None).value, org, id)
  {
    TerminalAbsorbs(t.executions[id].status, status);
  }

  lemma EntryElsewhere(sha: Sha, t: Tables, u: Tables, input: EntryInput, org: Str, id: Str)
    requires id in t.executions && Terminal(t.executions[id].status) && AppendEntry(sha, t, input) == Ok(u)
    requires input.executionId != id || (input.entryType != Final() && input.entryType != FailureEntry())
    ensures SameRecord(sha, t, u, org, id)
  {
    AppendEntryEffect(sha, t, input);
    if input.executionId == id && StatusEffect(input).Some? {
      TerminalAbsorbs(t.executions[id].status, StatusEffect(input).value.0);
    }
    EntryKeepsRow(sha, t, u, input, id);
  }

  lemma EntryKeepsRow(sha: Sha, t: Tables, u: Tables, input: EntryInput, id: Str)
    requires id in t.executions && Terminal(t.executions[id].status) && AppendEntry(sha, t, input) == Ok(u)
    requires input.executionId != id || (input.entryType != Final() && input.entryType != FailureEntry())
    ensures id in u.executions && u.executions[id] == t.executions[id]
  {
    if input.executionId == id && StatusEffect(input).Some? {
      assert StatusEffect(input).value.1 == None;
      TerminalAbsorbs(t.executions[id].status, StatusEffect(input).value.0);
    }
  }

  lemma PreludeStepElsewhere(sha: Sha, types: set<Str>, input: SealInput, i: nat, s: (Tables, seq<Str>), org: Str, id: Str)
    requires id in s.0.executions && input.executionId != id && PreludeSteps(types, input)(i, s).Ok?
    ensures SameRecord(sha, s.0, PreludeSteps(types, input)(i, s).value.0, org, id)
    ensures PreludeSteps(types, input)(i, s).value.0.executions == s.0.executions
  {
    if i < |input.preludeEvents| {
      var e := NewEvent(types, s.0, PreludeInput(input, i, s.1)).value;
      NewEventOwner(types, s.0, PreludeInput(input, i, s.1), e);
      EventElsewhere(sha, s.0, e, org, id);
    } else {
      RecordReflexive(sha, s.0, org, id);
    }
  }

  lemma RecordReflexive(sha: Sha, t: Tables, org: Str, id: Str)
    requires id in t.executions
    ensures SameRecord(sha, t, t, org, id)
  {
  }

  ghost predicate PreludeApart(sha: Sha, t: Tables, org: Str, id: Str, u: Tables)
  {
    SameRecord(sha, t, u, org, id) && u.executions == t.executions
  }

  lemma PreludeElsewhere(sha: Sha, types: set<Str>, t: Tables, input: SealInput, org: Str, id: Str)
    requires id in t.executions && input.executionId != id && Prelude(types, t, input).Ok?
    ensures PreludeApart(sha, t, org, id, Prelude(types, t, input).value.0)
  {
    var steps := PreludeSteps(types, input);
    var inv := (s: (Tables, seq<Str>)) => PreludeApart(sha, t, org, id, s.0);
    forall i: nat, s: (Tables, seq<Str>) | inv(s) && steps(i, s).Ok? ensures inv(steps(i, s).value) {
      PreludeStepElsewhere(sha, types, input, i, s, org, id);
      RecordTransitive(sha, t, s.0, steps(i, s).value.0, org, id);
    }
    FoldKeeps(steps, (t, input.parentEventIds), |input.preludeEvents|, inv);
  }

  lemma RecordTransitive(sha: Sha, t: Tables, u: Tables, v: Tables, org: Str, id: Str)
    requires SameRecord(sha, t, u, org, id) && SameRecord(sha, u, v, org, id)
    ensures SameRecord(sha, t, v, org, id)
  {
    var a, b, c := At(t.ledgers, org).entries, At(u.ledgers, org).entries, At(v.ledgers, org).entries;
    assert c[..|a|] == c[..|b|][..|a|];
  }

  lemma NewEventOwner(types: set<Str>, t: Tables, input: EventInput, e: Event)
    requires NewEvent(types, t, input) == Ok(e)
    ensures e.executionId == input.executionId
  {
  }

  lemma FinishElsewhere(sha: Sha, types: set<Str>, w: Tables, u: Tables, input: SealInput, x: Execution, parents: seq<Str>,
                        org: Str, id: Str)
    requires id in w.executions && Terminal(w.executions[id].status) && input.executionId != id
    requires FinishSeal(sha, types, w, input, x, parents) == Ok(u)
    ensures SameRecord(sha, w, u, org, id)
  {
    var events, preSealHash, sealed, sealedHash, entry := FinishSealSteps(sha, types, w, input, x, parents);
    NewEventOwner(types, w, SealedInput(input, parents, preSealHash), sealed);
    SealedElsewhere(sha, w, u, sealed, entry, org, id);
  }

  lemma SealedElsewhere(sha: Sha, w: Tables, u: Tables, sealed: Event, entry: EntryInput, org: Str, id: Str)
    requires id in w.executions && Terminal(w.executions[id].status)
    requires sealed.executionId != id && entry.executionId != id && AppendEntry(sha, AddEvent(w, sealed), entry) == Ok(u)
    ensures SameRecord(sha, w, u, org, id)
  {
    EventElsewhere(sha, w, sealed, org, id);
    EntryElsewhere(sha, AddEvent(w, sealed), u, entry, org, id);
    RecordTransitive(sha, w, AddEvent(w, sealed), u, org, id);
  }

  lemma SealElsewhere(sha: Sha, types: set<Str>, t: Tables, u: Tables, input: SealInput, org: Str, id: Str)
    requires id in t.executions && Terminal(t.executions[id].status) && input.executionId != id
    requires SealExecution(sha, types, t, input) == Ok(u)
    ensures SameRecord(sha, t, u, org, id)
  {
    var x := GetExecution(t, input.organizationId, input.executionId).value;
    var (w, parents) := Prelude(types, t, input).value;
    PreludeElsewhere(sha, types, t, input, org, id);
    FinishElsewhere(sha, types, w, u, input, x, parents, org, id);
    RecordTransitive(sha, t, w, u, org, id);
  }

  lemma OpenElsewhere(sha: Sha, t: Tables, u: Tables, o: Str, newId: Str, recordId: Str, org: Str, id: Str)
    requires id in t.executions && OpenExecution(t, o, newId, recordId) == Ok(u)
    ensures SameRecord(sha, t, u, org, id)
  {
  }

  /** Calls that are not a seal. */
  lemma SimpleElsewhere(sha: Sha, types: set<Str>, t: Tables, u: Tables, call: Call, org: Str, id: Str)
    requires id in t.executions && Terminal(t.executions[id].status) && LeavesAlone(call, id)
    requires Outcome(sha, types, t, call) == Ok(u) && !call.SealCall?
    ensures SameRecord(sha, t, u, org, id)
  {
    match call
    case OpenCall(o, i, recordId) => OpenElsewhere(sha, t, u, o, i, recordId, org, id);
    case EventCall(input) => EventElsewhere(sha, t, NewEvent(types, t, input).value, org, id);
    case EntryCall(input) => EntryElsewhere(sha, t, u, input, org, id);
    case StatusCall(other, moved, status) => StatusElsewhere(sha, t, org, other, moved, status, id);
  }

  lemma CallElsewhere(sha: Sha, types: set<Str>, t: Tables, call: Call, org: Str, id: Str)
    requires id in t.executions && Terminal(t.executions[id].status) && LeavesAlone(call, id)
    ensures SameRecord(sha, t, After(sha, types, t, call), org, id)
  {
    var r := Outcome(sha, types, t, call);
    if r.Ok? && call.SealCall? {
      SealElsewhere(sha, types, t, r.value, call.seal, org, id);
    } else if r.Ok? {
      SimpleElsewhere(sha, types, t, r.value, call, org, id);
    }
  }

  // ---------------------------------------------------------------- chains stay sound under any calls

  lemma EntrySoundEverywhere(sha: Sha, t: Tables, u: Tables, input: EntryInput)
    requires SoundEverywhere(sha, t) && AppendEntry(sha, t, input) == Ok(u)
    ensures SoundEverywhere(sha, u)
  {
    AppendEntryEffect(sha, t, input);
    forall org ensures Sound(sha, org, At(u.ledgers, org)) {
      assert Sound(sha, org, At(t.ledgers, org));
      if org == input.organizationId {
        AppendKeepsSound(sha, At(t.ledgers, org), input);
      }
    }
  }

  lemma PreludeLedgers(types: set<Str>, t: Tables, input: SealInput)
    requires Prelude(types, t, input).Ok?
    ensures Prelude(types, t, input).value.0.ledgers == t.ledgers
  {
    var steps := PreludeSteps(types, input);
    var inv := (s: (Tables, seq<Str>)) => s.0.ledgers == t.ledgers;
    forall i: nat, s: (Tables, seq<Str>) | inv(s) && steps(i, s).Ok? ensures inv(steps(i, s).value) {
    }
    FoldKeeps(steps, (t, input.parentEventIds), |input.preludeEvents|, inv);
  }

  lemma SealSoundEverywhere(sha: Sha, types: set<Str>, t: Tables, u: Tables, input: SealInput)
    requires SoundEverywhere(sha, t) && SealExecution(sha, types, t, input) == Ok(u)
    ensures SoundEverywhere(sha, u)
  {
    PreludeLedgers(types, t, input);
    var x := GetExecution(t, input.organizationId, input.executionId).value;
    var (w, parents) := Prelude(types, t, input).value;
    var events, preSealHash, sealed, sealedHash, entry := FinishSealSteps(sha, types, w, input, x, parents);
    assert SoundEverywhere(sha, AddEvent(w, sealed)) by {
      forall org ensures Sound(sha, org, At(AddEvent(w, sealed).ledgers, org)) {
        assert Sound(sha, org, At(t.ledgers, org));
      }
    }
    EntrySoundEverywhere(sha, AddEvent(w, sealed), u, entry);
  }

  lemma CallSoundEverywhere(sha: Sha, types: set<Str>, t: Tables, call: Call)
    requires SoundEverywhere(sha, t)
    ensures SoundEverywhere(sha, After(sha, types, t, call))
  {
    var u := After(sha, types, t, call);
    if Outcome(sha, types, t, call).Ok? && call.EntryCall? {
      EntrySoundEverywhere(sha, t, u, call.entry);
    } else if Outcome(sha, types, t, call).Ok? && call.SealCall? {
      SealSoundEverywhere(sha, types, t, u, call.seal);
    } else {
      forall org ensures Sound(sha, org, At(u.ledgers, org)) {
        assert Sound(sha, org, At(t.ledgers, org));
      }
    }
  }

  // ---------------------------------------------------------------- the theorem

  function AfterFrom(sha: Sha, types: set<Str>, t: Tables, calls: seq<Call>): Tables
  {
    if calls == [] then t
    else After(sha, types, AfterFrom(sha, types, t, calls[..|calls| - 1]), calls[|calls| - 1])
  }

  lemma PreludeExecutions(types: set<Str>, t: Tables, input: SealInput)
    requires Prelude(types, t, input).Ok?
    ensures Prelude(types, t, input).value.0.executions == t.executions
  {
    var steps := PreludeSteps(types, input);
    var inv := (s: (Tables, seq<Str>)) => s.0.executions == t.executions;
    forall i: nat, s: (Tables, seq<Str>) | inv(s) && steps(i, s).Ok? ensures inv(steps(i, s).value) {
    }
    FoldKeeps(steps, (t, input.parentEventIds), |input.preludeEvents|, inv);
  }

  predicate SameStatus(t: Tables, u: Tables, id: Str)
    requires id in t.executions
  {
    id in u.executions && u.executions[id].status == t.executions[id].status
  }

  lemma EntryAfterEnd(sha: Sha, t: Tables, u: Tables, input: EntryInput, id: Str)
    requires id in t.executions && Terminal(t.executions[id].status) && AppendEntry(sha, t, input) == Ok(u)
    ensures SameStatus(t, u, id)
  {
    AppendEntryEffect(sha, t, input);
    if id in u.executions {
      TerminalAbsorbs(t.executions[id].status, u.executions[id].status);
    }
  }

  lemma SealAfterEnd(sha: Sha, types: set<Str>, t: Tables, u: Tables, input: SealInput, id: Str)
    requires id in t.executions && Terminal(t.executions[id].status) && SealExecution(sha, types, t, input) == Ok(u)
    ensures SameStatus(t, u, id)
  {
    PreludeExecutions(types, t, input);
    var x := GetExecution(t, input.organizationId, input.executionId).value;
    var (w, parents) := Prelude(types, t, input).value;
    var events, preSealHash, sealed, sealedHash, entry := FinishSealSteps(sha, types, w, input, x, parents);
    EntryAfterEnd(sha, AddEvent(w, sealed), u, entry, id);
  }

  lemma CallAfterEnd(sha: Sha, types: set<Str>, t: Tables, call: Call, id: Str)
    requires id in t.executions && Terminal(t.executions[id].status)
    ensures SameStatus(t, After(sha, types, t, call), id)
  {
    if Outcome(sha, types, t, call).Ok? {
      var u := After(sha, types, t, call);
      match call
      case EntryCall(input) => EntryAfterEnd(sha, t, u, input, id);
      case SealCall(input) => SealAfterEnd(sha, types, t, u, input, id);
      case StatusCall(org, moved, status) =>
        TerminalAbsorbs(t.executions[id].status, status);
      case _ =>
    }
  }

  /** An execution that has ended keeps its status through any calls at all, sealing it again included. */
  lemma {:induction false} EndedForever(sha: Sha, types: set<Str>, t: Tables, calls: seq<Call>, id: Str)
    requires id in t.executions && Terminal(t.executions[id].status)
    ensures SameStatus(t, AfterFrom(sha, types, t, calls), id)
  {
    if calls != [] {
      EndedForever(sha, types, t, calls[..|calls| - 1], id);
      CallAfterEnd(sha, types, AfterFrom(sha, types, t, calls[..|calls| - 1]), calls[|calls| - 1], id);
    }
  }

  /** A linked, ended execution keeps its status and stays linked through any calls, disciplined
      or not, in any organization, as long as they leave the execution itself alone. */
  lemma {:induction false} LinkedPersists(sha: Sha, types: set<Str>, t: Tables, calls: seq<Call>, org: Str, id: Str)
    requires SoundEverywhere(sha, t) && IsLinked(sha, t, org, id) && Terminal(t.executions[id].status)
    requires forall i :: 0 <= i < |calls| ==> LeavesAlone(calls[i], id)
    ensures SoundEverywhere(sha, AfterFrom(sha, types, t, calls))
    ensures IsLinked(sha, AfterFrom(sha, types, t, calls), org, id)
    ensures AfterFrom(sha, types, t, calls).executions[id].status == t.executions[id].status
  {
    if calls != [] {
      var rest, call := calls[..|calls| - 1], calls[|calls| - 1];
      LinkedPersists(sha, types, t, rest, org, id);
      var before := AfterFrom(sha, types, t, rest);
      CallElsewhere(sha, types, before, call, org, id);
      CallSoundEverywhere(sha, types, before, call);
      SameRecordLinked(sha, before, After(sha, types, before, call), org, id);
    }
  }
}
