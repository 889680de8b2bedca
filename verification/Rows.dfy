/** What the kernel's calls write, column by column. */
module Rows {
  import opened Basics
  import opened HashFormat
  import opened Records
  import opened Ledgers
  import opened PrintedForm
  import K = Kernel
  import EventDag
  import Merkle

  // ---------------------------------------------------------------- executions

  /** Every row but this one is as it was. */
  predicate OnlyExecution(t: K.Tables, u: K.Tables, id: Str)
  {
    && id in u.executions && u.events == t.events && u.ledgers == t.ledgers
    && u.executions.Keys == t.executions.Keys + {id}
    && forall other :: other in t.executions && other != id ==> u.executions[other] == t.executions[other]
  }

  /** A new row, in the first status. */
  predicate Opened(t: K.Tables, u: K.Tables, org: Str, id: Str, recordId: Str)
  {
    && OnlyExecution(t, u, id) && id !in t.executions
    && u.executions[id].id == id && u.executions[id].organizationId == org && u.executions[id].verityRecordId == recordId
    && u.executions[id].status == Ascii("created") && u.executions[id].finalEntryId == None
  }

  lemma OpenWrites(t: K.Tables, u: K.Tables, org: Str, id: Str, recordId: Str)
    requires K.OpenExecution(t, org, id, recordId) == Ok(u)
    ensures Opened(t, u, org, id, recordId)
  {
  }

  predicate IsStatus(s: Str)
  {
    s == Ascii("created") || s == Ascii("running") || s == Ascii("waiting_approval") || IsEnd(s)
  }

  predicate IsEnd(s: Str)
  {
    s == Ascii("completed") || s == Ascii("failed") || s == Ascii("blocked") || s == Ascii("cancelled")
  }

  /** Which status may follow which: none an end, `created` none but itself, and an execution that was only
      created neither waits nor completes. */
  predicate MayFollow(from: Str, to: Str)
  {
    || from == to
    || (&& !IsEnd(from) && to != Ascii("created")
        && !(from == Ascii("created") && (to == Ascii("waiting_approval") || to == Ascii("completed"))))
  }

  lemma StatusesDiffer()
    ensures Ascii("created") != Ascii("running") && Ascii("created") != Ascii("waiting_approval")
    ensures Ascii("running") != Ascii("waiting_approval")
    ensures !IsEnd(Ascii("created")) && !IsEnd(Ascii("running")) && !IsEnd(Ascii("waiting_approval"))
    ensures Ascii("completed") != Ascii("failed") && Ascii("completed") != Ascii("blocked") && Ascii("completed") != Ascii("cancelled")
    ensures Ascii("failed") != Ascii("blocked") && Ascii("failed") != Ascii("cancelled") && Ascii("blocked") != Ascii("cancelled")
  {
    var completed, failed, blocked, cancelled := Ascii("completed"), Ascii("failed"), Ascii("blocked"), Ascii("cancelled");
    var created, running, waiting := Ascii("created"), Ascii("running"), Ascii("waiting_approval");
    assert |completed| == 9 && |failed| == 6 && |blocked| == 7 && |cancelled| == 9;
    assert |created| == 7 && |running| == 7 && |waiting| == 16;
    assert completed[1] == 111 && cancelled[1] == 97;
    assert blocked[0] == 98 && created[0] == 99 && running[0] == 114;
  }

  /** The transition table, among the statuses there are. */
  lemma TableExactly(from: Str, to: Str)
    requires IsStatus(from) && IsStatus(to)
    ensures K.MayBecome(from, to) <==> MayFollow(from, to)
  {
    StatusesDiffer();
  }

  /** One row changes its status, and its final entry if one is given. */
  predicate StatusSet(t: K.Tables, u: K.Tables, org: Str, id: Str, status: Str, finalEntryId: Option<Str>)
  {
    && OnlyExecution(t, u, id) && id in t.executions && t.executions[id].organizationId == org
    && u.executions[id].id == t.executions[id].id && u.executions[id].organizationId == org
    && u.executions[id].verityRecordId == t.executions[id].verityRecordId && u.executions[id].status == status
    && (finalEntryId.Some? ==> u.executions[id].finalEntryId == finalEntryId)
    && (finalEntryId.None? ==> u.executions[id].finalEntryId == t.executions[id].finalEntryId)
  }

  lemma StatusWrites(t: K.Tables, u: K.Tables, org: Str, id: Str, status: Str, finalEntryId: Option<Str>)
    requires K.SetStatus(t, org, id, status, finalEntryId) == Ok(u)
    ensures StatusSet(t, u, org, id, status, finalEntryId) && K.MayBecome(t.executions[id].status, status)
  {
  }

  // ---------------------------------------------------------------- events

  predicate OfExecution(e: Event, org: Str, id: Str) { e.organizationId == org && e.executionId == id }

  /** One more than the greatest sequence of the execution's events; 1 without any, or if that is more. */
  ghost predicate NextIn(events: seq<Event>, org: Str, id: Str, sequence: int)
  {
    && (forall i :: 0 <= i < |events| && OfExecution(events[i], org, id) ==> events[i].eventSequence < sequence)
    && ((forall i :: 0 <= i < |events| ==> !OfExecution(events[i], org, id)) ==> sequence == 1)
    && ((exists i :: 0 <= i < |events| && OfExecution(events[i], org, id)) ==>
          exists i :: 0 <= i < |events| && OfExecution(events[i], org, id) && events[i].eventSequence + 1 == sequence)
  }

  /** The same ids, each once, in increasing order. */
  ghost predicate SameIdsSorted(stored: seq<Str>, given: seq<Str>)
  {
    && (forall p :: p in stored <==> p in given)
    && forall i, j :: 0 <= i < j < |stored| ==> Before(stored[i], stored[j])
  }

  /** The row says what the call was given. */
  ghost predicate EventSays(events: seq<Event>, input: K.EventInput, e: Event)
  {
    && e.id == input.id && e.organizationId == input.organizationId && e.executionId == input.executionId
    && e.eventType == input.eventType && e.status == input.status
    && e.inputHash == input.inputHash && e.outputHash == input.outputHash
    && e.metadata == input.metadata && e.occurredAtCanonical == input.occurredAtCanonical
    && SameIdsSorted(e.parentEventIds, input.parentEventIds)
    && NextIn(events, input.organizationId, input.executionId, e.eventSequence)
  }

  lemma {:induction false} EventsOfMembers(events: seq<Event>, org: Str, id: Str)
    ensures forall e :: e in K.EventsOf(events, org, id) <==> e in events && OfExecution(e, org, id)
  {
    if events != [] {
      EventsOfMembers(events[..|events| - 1], org, id);
      assert events == events[..|events| - 1] + [events[|events| - 1]];
    }
  }

  lemma {:induction false} MaxIsGreatest(events: seq<Event>)
    requires events != []
    ensures forall e :: e in events ==> e.eventSequence <= K.MaxSequence(events)
    ensures exists e :: e in events && e.eventSequence == K.MaxSequence(events)
    decreases |events|
  {
    if |events| > 1 {
      MaxIsGreatest(events[..|events| - 1]);
      assert events == events[..|events| - 1] + [events[|events| - 1]];
      var e :| e in events[..|events| - 1] && e.eventSequence == K.MaxSequence(events[..|events| - 1]);
      assert e in events && events[|events| - 1] in events;
    } else {
      assert events[0] in events;
    }
  }

  lemma NextIsNext(t: K.Tables, input: K.EventInput)
    ensures NextIn(t.events, input.organizationId, input.executionId, K.NextSequence(t, input))
  {
    var org, id := input.organizationId, input.executionId;
    var mine := K.EventsOf(t.events, org, id);
    EventsOfMembers(t.events, org, id);
    if mine == [] {
      forall i | 0 <= i < |t.events| ensures !OfExecution(t.events[i], org, id) {
        assert t.events[i] in t.events && t.events[i] !in mine;
      }
    } else {
      MaxIsGreatest(mine);
      forall i | 0 <= i < |t.events| && OfExecution(t.events[i], org, id) ensures t.events[i].eventSequence <= K.MaxSequence(mine) {
        assert t.events[i] in mine;
      }
      var e :| e in mine && e.eventSequence == K.MaxSequence(mine);
      var i :| 0 <= i < |t.events| && t.events[i] == e;
      assert OfExecution(t.events[i], org, id);
    }
  }

  lemma ParentsSorted(given: seq<Str>)
    ensures SameIdsSorted(K.UniqueSortedIds(given), given)
  {
    var stored := K.UniqueSortedIds(given);
    EventDag.UniqueSortedIsCanonical(given);
    forall i, j | 0 <= i < j < |stored| ensures Before(stored[i], stored[j]) {
      SmallerIsBefore(stored[i], stored[j]);
    }
  }

  /** An appended event carries what it was given, under the next sequence. */
  lemma EventWrites(types: set<Str>, t: K.Tables, input: K.EventInput, e: Event)
    requires K.NewEvent(types, t, input) == Ok(e)
    ensures EventSays(t.events, input, e)
  {
    NextIsNext(t, input);
    ParentsSorted(input.parentEventIds);
  }

  // ---------------------------------------------------------------- ledger entries

  /** The row says what the call was given, behind `previous`, and hashes exactly its own columns. */
  predicate EntrySays(sha: Sha, input: EntryInput, sequence: int, previous: Option<Str>, e: LedgerEntry)
  {
    && e.id == input.entryId && e.organizationId == input.organizationId && e.organizationSequence == sequence
    && e.executionId == input.executionId && e.entryType == input.entryType
    && e.requestHash == input.requestHash && e.responseHash == input.responseHash
    && e.executionGraphHash == input.executionGraphHash && e.previousEntryHash == previous
    && e.kernelVersion == input.kernelVersion && e.createdAtCanonical == input.createdAtCanonical
    && e.hashFormatVersion == Ascii("2")
    && EntryHash(sha, HashFields(organizationId := input.organizationId, ledgerSequence := sequence, executionId := input.executionId,
                                 entryType := input.entryType, requestHash := input.requestHash,
                                 responseHash := input.responseHash, executionGraphHash := input.executionGraphHash,
                                 previousEntryHash := previous, kernelVersion := input.kernelVersion,
                                 createdAtCanonical := input.createdAtCanonical)) == Some(e.entryHash)
  }

  /** A checkpoint is closed exactly when one is due; it and the entry carry the root of its leaves. */
  ghost predicate CheckpointSays(sha: Sha, input: EntryInput, prior: seq<Str>, staged: Staged)
  {
    var e := staged.entry;
    && (staged.checkpoint.Some? <==> input.interval > 0 && e.organizationSequence % input.interval == 0)
    && (staged.checkpoint.None? ==> e.merkleRoot == None)
    && (staged.checkpoint.Some? ==>
          var c := staged.checkpoint.value;
          && c.id == input.checkpointId && c.organizationId == input.organizationId
          && c.throughSequence == e.organizationSequence && c.fromSequence == e.organizationSequence - input.interval + 1
          && c.leafHashes == prior + [e.entryHash] && Merkle.MerkleRoot(sha, c.leafHashes) == Some(c.root)
          && e.merkleRoot == Some(c.root))
  }

  lemma StageWrites(sha: Sha, input: EntryInput, latestSequence: int, latestEntryHash: Option<Str>, prior: seq<Str>)
    requires Stage(sha, input, latestSequence, latestEntryHash, prior).Ok?
    ensures var staged := Stage(sha, input, latestSequence, latestEntryHash, prior).value;
      EntrySays(sha, input, latestSequence + 1, latestEntryHash, staged.entry) && CheckpointSays(sha, input, prior, staged)
  {
  }

  /** What an entry of its type does to the row of its execution. */
  ghost predicate StatusFollows(t: K.Tables, u: K.Tables, input: EntryInput)
  {
    var org, id, chosen := input.organizationId, input.executionId, input.executionStatus;
    var without := t.(ledgers := u.ledgers);
    if input.entryType == Ascii("request_opened")
    then StatusSet(without, u, org, id, if chosen.Some? then chosen.value else Ascii("running"), None)
    else if input.entryType == Ascii("approval_requested")
    then StatusSet(without, u, org, id, if chosen.Some? then chosen.value else Ascii("waiting_approval"), None)
    else if input.entryType == Ascii("final")
    then StatusSet(without, u, org, id, if chosen.Some? then chosen.value else Ascii("completed"), Some(input.entryId))
    else if input.entryType == Ascii("failure")
    then StatusSet(without, u, org, id, if chosen.Some? then chosen.value else Ascii("failed"), Some(input.entryId))
    else input.entryType == Ascii("action_completed") && u.executions == t.executions
  }

  /** One entry more on the organization's chain, which says what the call was given; other chains and all
      events stay, and the execution's row follows. */
  ghost predicate EntryWritten(sha: Sha, t: K.Tables, u: K.Tables, input: EntryInput)
  {
    var org := input.organizationId;
    var l, m := At(t.ledgers, org), At(u.ledgers, org);
    && org in u.ledgers && u.ledgers == t.ledgers[org := m] && u.events == t.events
    && |m.entries| == |l.entries| + 1 && m.entries[..|l.entries|] == l.entries
    && EntrySays(sha, input, l.latestSequence + 1, l.latestEntryHash, m.entries[|l.entries|])
    && m.latestSequence == l.latestSequence + 1 && m.latestEntryHash == Some(m.entries[|l.entries|].entryHash)
    && (m.checkpoints == l.checkpoints || (|m.checkpoints| == |l.checkpoints| + 1 && m.checkpoints[..|l.checkpoints|] == l.checkpoints))
    && StatusFollows(t, u, input)
  }

  lemma LedgerWrites(sha: Sha, l: Ledger, input: EntryInput)
    requires Append(sha, l, input).Ok?
    ensures var m := Append(sha, l, input).value;
      && |m.entries| == |l.entries| + 1 && m.entries[..|l.entries|] == l.entries
      && EntrySays(sha, input, l.latestSequence + 1, l.latestEntryHash, m.entries[|l.entries|])
      && m.latestSequence == l.latestSequence + 1 && m.latestEntryHash == Some(m.entries[|l.entries|].entryHash)
      && (m.checkpoints == l.checkpoints || (|m.checkpoints| == |l.checkpoints| + 1 && m.checkpoints[..|l.checkpoints|] == l.checkpoints))
      && IsEntryType(input.entryType)
  {
    StageWrites(sha, input, l.latestSequence, l.latestEntryHash, Prior(l, input));
  }

  lemma StatusOfEntry(t: K.Tables, v: K.Tables, u: K.Tables, input: EntryInput)
    requires v == t.(ledgers := u.ledgers) && IsEntryType(input.entryType)
    requires match K.StatusEffect(input)
             case None => u == v
             case Some((status, finalEntryId)) => K.SetStatus(v, input.organizationId, input.executionId, status, finalEntryId) == Ok(u)
    ensures StatusFollows(t, u, input)
  {
    TypesDiffer();
    if K.StatusEffect(input).Some? {
      var (status, finalEntryId) := K.StatusEffect(input).value;
      StatusWrites(v, u, input.organizationId, input.executionId, status, finalEntryId);
    }
  }

  lemma TypesDiffer()
    ensures Ascii("request_opened") != Ascii("approval_requested") && Ascii("request_opened") != Ascii("final")
    ensures Ascii("request_opened") != Ascii("failure") && Ascii("approval_requested") != Ascii("final")
    ensures Ascii("approval_requested") != Ascii("failure") && Ascii("final") != Ascii("failure")
    ensures Ascii("action_completed") != Ascii("request_opened") && Ascii("action_completed") != Ascii("approval_requested")
    ensures Ascii("action_completed") != Ascii("final") && Ascii("action_completed") != Ascii("failure")
  {
    assert |Ascii("request_opened")| == 14 && |Ascii("approval_requested")| == 18 && |Ascii("final")| == 5;
    assert |Ascii("failure")| == 7 && |Ascii("action_completed")| == 16;
  }

  lemma OnlyItsLedger(sha: Sha, t: K.Tables, u: K.Tables, input: EntryInput)
    requires K.AppendEntry(sha, t, input) == Ok(u)
    ensures Append(sha, At(t.ledgers, input.organizationId), input).Ok?
    ensures u.ledgers == t.ledgers[input.organizationId := Append(sha, At(t.ledgers, input.organizationId), input).value]
    ensures match K.StatusEffect(input)
            case None => u == t.(ledgers := u.ledgers)
            case Some((status, finalEntryId)) =>
              K.SetStatus(t.(ledgers := u.ledgers), input.organizationId, input.executionId, status, finalEntryId) == Ok(u)
  {
  }

  /** An appended entry. */
  lemma EntryWrites(sha: Sha, t: K.Tables, u: K.Tables, input: EntryInput)
    requires K.AppendEntry(sha, t, input) == Ok(u)
    ensures EntryWritten(sha, t, u, input)
  {
    OnlyItsLedger(sha, t, u, input);
    LedgerWrites(sha, At(t.ledgers, input.organizationId), input);
    StatusOfEntry(t, t.(ledgers := u.ledgers), u, input);
  }
}
