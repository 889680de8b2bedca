/** What a seal and an approval request write: the events in order, each behind the one before, and the
    ledger entry, which repeats the request hash the execution was opened with. */
module SealRows {
  import opened Basics
  import opened Sorting
  import opened Canonical
  import opened Records
  import opened Ledgers
  import opened Rows
  import opened Admission
  import K = Kernel
  import Seals

  // ---------------------------------------------------------------- the hash of the request

  predicate Opens(e: LedgerEntry, id: Str)
  {
    e.executionId == id && e.entryType == Ascii("request_opened")
  }

  /** The request hash of the entry with the least sequence that opened the execution; none without one. */
  ghost predicate OpeningHash(entries: seq<LedgerEntry>, id: Str, h: Option<Str>)
  {
    && ((forall i :: 0 <= i < |entries| ==> !Opens(entries[i], id)) ==> h == None)
    && ((exists i :: 0 <= i < |entries| && Opens(entries[i], id)) ==> exists i :: FirstOpening(entries, id, i) && entries[i].requestHash == h)
  }

  predicate FirstOpening(entries: seq<LedgerEntry>, id: Str, i: int)
  {
    && 0 <= i < |entries| && Opens(entries[i], id)
    && forall j :: 0 <= j < |entries| && Opens(entries[j], id) ==> entries[i].organizationSequence <= entries[j].organizationSequence
  }

  lemma {:induction false} FirstMatch(entries: seq<LedgerEntry>, id: Str)
    ensures (forall i :: 0 <= i < |entries| ==> !Opens(entries[i], id)) ==> K.RequestOpenedHash(entries, id) == None
    ensures (exists i :: 0 <= i < |entries| && Opens(entries[i], id)) ==>
      exists i :: 0 <= i < |entries| && Opens(entries[i], id) && entries[i].requestHash == K.RequestOpenedHash(entries, id)
                  && forall j :: 0 <= j < i ==> !Opens(entries[j], id)
  {
    if entries != [] && !Opens(entries[0], id) {
      FirstMatch(entries[1..], id);
      if k :| 0 <= k < |entries| && Opens(entries[k], id) {
        assert entries[1..][k - 1] == entries[k];
        var i :| 0 <= i < |entries[1..]| && Opens(entries[1..][i], id)
                 && entries[1..][i].requestHash == K.RequestOpenedHash(entries[1..], id)
                 && forall j :: 0 <= j < i ==> !Opens(entries[1..][j], id);
        forall j | 0 <= j < i + 1 ensures !Opens(entries[j], id) {
          assert j > 0 ==> entries[1..][j - 1] == entries[j];
        }
        assert entries[i + 1] == entries[1..][i];
      }
    }
  }

  /** The first opening in sequence order has the least sequence. */
  lemma LeastOpening(entries: seq<LedgerEntry>, sorted: seq<LedgerEntry>, id: Str, i: nat)
    requires sorted == SortBy(SequenceLe, entries) && i < |sorted| && Opens(sorted[i], id)
    requires forall j :: 0 <= j < i ==> !Opens(sorted[j], id)
    ensures exists m :: FirstOpening(entries, id, m) && entries[m] == sorted[i]
  {
    SortKeeps(SequenceLe, entries);
    SortSorts(SequenceLe, entries);
    assert sorted[i] in entries;
    var m :| 0 <= m < |entries| && entries[m] == sorted[i];
    forall j | 0 <= j < |entries| && Opens(entries[j], id)
      ensures entries[m].organizationSequence <= entries[j].organizationSequence
    {
      assert entries[j] in sorted;
      var n :| 0 <= n < |sorted| && sorted[n] == entries[j];
      assert n > i ==> SequenceLe(sorted[i], sorted[n]);
    }
    assert FirstOpening(entries, id, m);
  }

  lemma RequestHashIsFirst(entries: seq<LedgerEntry>, id: Str)
    ensures OpeningHash(entries, id, K.RequestOpenedHash(SortBy(SequenceLe, entries), id))
  {
    var sorted := SortBy(SequenceLe, entries);
    SortKeeps(SequenceLe, entries);
    FirstMatch(sorted, id);
    if exists i :: 0 <= i < |sorted| && Opens(sorted[i], id) {
      var i :| 0 <= i < |sorted| && Opens(sorted[i], id) && sorted[i].requestHash == K.RequestOpenedHash(sorted, id)
               && forall j :: 0 <= j < i ==> !Opens(sorted[j], id);
      LeastOpening(entries, sorted, id, i);
    } else {
      NoneOpens(entries, sorted, id);
    }
  }

  lemma NoneOpens(entries: seq<LedgerEntry>, sorted: seq<LedgerEntry>, id: Str)
    requires (forall e :: e in sorted <==> e in entries) && forall i :: 0 <= i < |sorted| ==> !Opens(sorted[i], id)
    ensures forall i :: 0 <= i < |entries| ==> !Opens(entries[i], id)
  {
    forall i | 0 <= i < |entries| ensures !Opens(entries[i], id) {
      assert entries[i] in sorted;
      var k :| 0 <= k < |sorted| && sorted[k] == entries[i];
    }
  }

  // ---------------------------------------------------------------- the events of a seal

  /** The parents given to event `k` of a seal: its own, or the event before it, or the seal's. */
  function GivenParents(input: K.SealInput, added: seq<Event>, k: nat): seq<Str>
    requires k <= |added|
  {
    if k < |input.preludeEvents| && input.preludeEvents[k].parentEventIds != [] then input.preludeEvents[k].parentEventIds
    else if k == 0 then input.parentEventIds
    else [added[k - 1].id]
  }

  /** Event `k` of the prelude, behind `events` and the `k` before it. */
  ghost predicate PreludeSays(events: seq<Event>, input: K.SealInput, added: seq<Event>, k: nat)
    requires k < |added| && k < |input.preludeEvents|
  {
    EventSays(events + added[..k],
              input.preludeEvents[k].(organizationId := input.organizationId, executionId := input.executionId,
                                      parentEventIds := GivenParents(input, added, k)), added[k])
  }

  function EntryTypeName(k: K.SealType): Str { match k case SealFinal => Ascii("final") case SealFailure => Ascii("failure") }

  function StatusName(s: K.SealStatus): Str
  {
    match s
    case SealCompleted => Ascii("completed")
    case SealFailed => Ascii("failed")
    case SealBlocked => Ascii("blocked")
    case SealCancelled => Ascii("cancelled")
  }

  /** The sealed event: it carries the hash over the graph before it and says how the execution ended. */
  ghost predicate SealedSays(events: seq<Event>, input: K.SealInput, added: seq<Event>, hash: Str)
    requires |added| == |input.preludeEvents| + 1
  {
    var n := |input.preludeEvents|;
    EventSays(events + added[..n],
              K.EventInput(id := input.sealedId, organizationId := input.organizationId, executionId := input.executionId,
                           eventType := Ascii("audit.checkpoint.sealed"), status := Ascii("ok"),
                           parentEventIds := GivenParents(input, added, n), inputHash := None, outputHash := Some(hash),
                           metadata := [Member(Ascii("entry_type"), Text(EntryTypeName(input.entryType))),
                                        Member(Ascii("execution_status"), Text(StatusName(input.executionStatus)))],
                           occurredAtCanonical := input.sealedAt), added[n])
  }

  /** What the first `k` events of the prelude do. */
  ghost predicate PreludeWritten(t: K.Tables, input: K.SealInput, k: nat, u: K.Tables, parents: seq<Str>, added: seq<Event>)
    requires k <= |input.preludeEvents|
  {
    && u == t.(events := t.events + added) && |added| == k
    && (forall i :: 0 <= i < k ==> PreludeSays(t.events, input, added, i))
    && parents == if k == 0 then input.parentEventIds else [added[k - 1].id]
  }

  lemma PreludeSaysMore(events: seq<Event>, input: K.SealInput, added: seq<Event>, e: Event, i: nat)
    requires i < |added| && i < |input.preludeEvents| && PreludeSays(events, input, added, i)
    ensures PreludeSays(events, input, added + [e], i)
  {
    assert (added + [e])[..i] == added[..i];
    assert GivenParents(input, added + [e], i) == GivenParents(input, added, i);
  }

  lemma NothingWritten(t: K.Tables, input: K.SealInput)
    ensures PreludeWritten(t, input, 0, t, input.parentEventIds, [])
  {
    assert t.events + [] == t.events;
  }

  ghost predicate WrittenUpTo(types: set<Str>, t: K.Tables, input: K.SealInput, k: nat)
    requires k <= |input.preludeEvents|
  {
    var r := PreludeUpTo(types, t, input, k);
    r.Ok? ==> exists added :: PreludeWritten(t, input, k, r.value.0, r.value.1, added)
  }

  lemma WrittenGoesOn(types: set<Str>, t: K.Tables, input: K.SealInput, k: nat)
    requires k < |input.preludeEvents| && WrittenUpTo(types, t, input, k)
    ensures WrittenUpTo(types, t, input, k + 1)
  {
    PreludeOneMore(types, t, input, k);
    if PreludeUpTo(types, t, input, k + 1).Ok? {
      var s := PreludeUpTo(types, t, input, k).value;
      var before :| PreludeWritten(t, input, k, s.0, s.1, before);
      var added := PreludeStepWrites(types, t, input, k, s, before);
    }
  }

  lemma {:induction false} PreludeWrites(types: set<Str>, t: K.Tables, input: K.SealInput, k: nat)
    requires k <= |input.preludeEvents|
    ensures WrittenUpTo(types, t, input, k)
  {
    if k == 0 {
      PreludeOneMore(types, t, input, 0);
      NothingWritten(t, input);
    } else {
      PreludeWrites(types, t, input, k - 1);
      WrittenGoesOn(types, t, input, k - 1);
    }
  }

  lemma PreludeStepWrites(types: set<Str>, t: K.Tables, input: K.SealInput, k: nat, s: (K.Tables, seq<Str>), before: seq<Event>)
    returns (added: seq<Event>)
    requires k < |input.preludeEvents| && PreludeWritten(t, input, k, s.0, s.1, before)
    requires K.PreludeStep(types, s.0, input, k, s.1).Ok?
    ensures var (u, parents) := K.PreludeStep(types, s.0, input, k, s.1).value;
      PreludeWritten(t, input, k + 1, u, parents, added)
  {
    var one := K.PreludeInput(input, k, s.1);
    var e := K.NewEvent(types, s.0, one).value;
    EventWrites(types, s.0, one, e);
    added := before + [e];
    assert t.events + before + [e] == t.events + added;
    assert added[..k] == before;
    assert one.parentEventIds == GivenParents(input, added, k);
    forall i | 0 <= i < k + 1 ensures PreludeSays(t.events, input, added, i) {
      if i < k {
        PreludeSaysMore(t.events, input, before, e, i);
      }
    }
  }

  // ---------------------------------------------------------------- the entry of a seal

  /** What the entry of a seal is given. */
  function FinalInput(input: K.SealInput, requestHash: Option<Str>, hash: Str): EntryInput
  {
    EntryInput(entryId := input.entryId, checkpointId := input.checkpointId, organizationId := input.organizationId,
               executionId := input.executionId, entryType := EntryTypeName(input.entryType), requestHash := requestHash,
               responseHash := input.responseHash, executionGraphHash := Some(hash), interval := input.interval,
               createdAtCanonical := input.createdAtCanonical, kernelVersion := input.kernelVersion,
               executionStatus := Some(StatusName(input.executionStatus)))
  }

  /** The ledger entry of a seal. */
  ghost predicate SealEntrySays(sha: Sha, t: K.Tables, v: K.Tables, u: K.Tables, input: K.SealInput, requestHash: Option<Str>, hash: Str)
  {
    && OpeningHash(At(t.ledgers, input.organizationId).entries, input.executionId, requestHash)
    && EntryWritten(sha, v, u, FinalInput(input, requestHash, hash))
  }

  /** A seal writes its prelude, its sealed event and one final entry; the two hashes are those of the graph
      before and after the sealed event, under the final status. */
  ghost predicate SealWritten(sha: Sha, t: K.Tables, u: K.Tables, input: K.SealInput)
  {
    exists added, before, after, requestHash :: SealParts(sha, t, u, input, added, before, after, requestHash)
  }

  ghost predicate SealParts(sha: Sha, t: K.Tables, u: K.Tables, input: K.SealInput, added: seq<Event>, before: Str, after: Str,
                            requestHash: Option<Str>)
  {
    var org, id, n := input.organizationId, input.executionId, |input.preludeEvents|;
    && u.events == t.events + added && |added| == n + 1
    && (forall k :: 0 <= k < n ==> PreludeSays(t.events, input, added, k))
    && SealedSays(t.events, input, added, before)
    && id in t.executions && t.executions[id].organizationId == org
    && var x := t.executions[id].(status := StatusName(input.executionStatus));
       var listed := K.ListEvents(t.events + added[..n], org, id);
       && K.HashGraph(sha, x, listed) == Ok(before) && K.HashGraph(sha, x, listed + [added[n]]) == Ok(after)
       && SealEntrySays(sha, t, t.(events := u.events), u, input, requestHash, after)
  }

  lemma SealWrites(sha: Sha, types: set<Str>, t: K.Tables, u: K.Tables, input: K.SealInput)
    requires K.SealExecution(sha, types, t, input) == Ok(u)
    ensures SealWritten(sha, t, u, input)
  {
    var x := K.GetExecution(t, input.organizationId, input.executionId).value;
    PreludeWrites(types, t, input, |input.preludeEvents|);
    var (w, parents) := K.Prelude(types, t, input).value;
    var prelude :| PreludeWritten(t, input, |input.preludeEvents|, w, parents, prelude);
    var listed, before, sealed, after, entry := Seals.FinishSealSteps(sha, types, w, input, x, parents);
    EventWrites(types, w, K.SealedInput(input, parents, before), sealed);
    EventsWritten(t, w, input, parents, prelude, before, sealed);
    SealEntryWrites(sha, t, w, u, input, sealed, entry, after);
    PartsWritten(sha, t, w, u, input, x, prelude, sealed, before, after);
  }

  lemma PartsWritten(sha: Sha, t: K.Tables, w: K.Tables, u: K.Tables, input: K.SealInput, x: Execution, prelude: seq<Event>,
                     sealed: Event, before: Str, after: Str)
    requires K.GetExecution(t, input.organizationId, input.executionId) == Some(x)
    requires w.events == t.events + prelude && u.events == w.events + [sealed] && |prelude| == |input.preludeEvents|
    requires var listed := K.ListEvents(w.events, input.organizationId, input.executionId);
      && K.HashGraph(sha, K.AsSealed(x, input), listed) == Ok(before)
      && K.HashGraph(sha, K.AsSealed(x, input), listed + [sealed]) == Ok(after)
    requires forall k :: 0 <= k < |prelude| ==> PreludeSays(t.events, input, prelude + [sealed], k)
    requires SealedSays(t.events, input, prelude + [sealed], before)
    requires exists requestHash: Option<Str> :: SealEntrySays(sha, t, t.(events := u.events), u, input, requestHash, after)
    ensures SealWritten(sha, t, u, input)
  {
    var added := prelude + [sealed];
    var requestHash: Option<Str> :| SealEntrySays(sha, t, t.(events := u.events), u, input, requestHash, after);
    assert added[..|prelude|] == prelude && t.events + prelude + [sealed] == t.events + added;
    assert SealParts(sha, t, u, input, added, before, after, requestHash);
  }

  lemma EventsWritten(t: K.Tables, w: K.Tables, input: K.SealInput, parents: seq<Str>, prelude: seq<Event>, before: Str, sealed: Event)
    requires PreludeWritten(t, input, |input.preludeEvents|, w, parents, prelude)
    requires EventSays(w.events, K.SealedInput(input, parents, before), sealed)
    ensures var n, added := |input.preludeEvents|, prelude + [sealed];
      && |added| == n + 1 && K.AddEvent(w, sealed) == t.(events := t.events + added)
      && (forall k :: 0 <= k < n ==> PreludeSays(t.events, input, added, k)) && SealedSays(t.events, input, added, before)
  {
    var n, added := |input.preludeEvents|, prelude + [sealed];
    assert added[..n] == prelude && t.events + prelude + [sealed] == t.events + added;
    forall k | 0 <= k < n ensures PreludeSays(t.events, input, added, k) {
      PreludeSaysMore(t.events, input, prelude, sealed, k);
    }
    assert GivenParents(input, added, n) == parents;
  }

  lemma SealEntryWrites(sha: Sha, t: K.Tables, w: K.Tables, u: K.Tables, input: K.SealInput, sealed: Event, entry: EntryInput, after: Str)
    requires w.ledgers == t.ledgers && w.executions == t.executions
    requires entry == K.SealEntry(input, K.RequestOpenedHash(SortBy(SequenceLe, At(w.ledgers, input.organizationId).entries),
                                                             input.executionId), after)
    requires K.AppendEntry(sha, K.AddEvent(w, sealed), entry) == Ok(u)
    ensures u.events == w.events + [sealed]
    ensures exists requestHash: Option<Str> :: SealEntrySays(sha, t, t.(events := u.events), u, input, requestHash, after)
  {
    var entries := At(t.ledgers, input.organizationId).entries;
    RequestHashIsFirst(entries, input.executionId);
    EntryWrites(sha, K.AddEvent(w, sealed), u, entry);
    assert entry == FinalInput(input, K.RequestOpenedHash(SortBy(SequenceLe, entries), input.executionId), after);
    assert t.(events := u.events) == K.AddEvent(w, sealed);
    assert SealEntrySays(sha, t, t.(events := u.events), u, input, K.RequestOpenedHash(SortBy(SequenceLe, entries), input.executionId), after);
  }
}
