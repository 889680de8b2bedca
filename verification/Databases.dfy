/** The audit tables as a mutable store, and the kernel's calls as methods that change it in
    place. An `InTransaction` method may leave partial writes behind when it throws; the method
    that owns the transaction puts every row back. */
module Databases {
  import opened Basics
  import opened Sorting
  import opened Records
  import opened Ledgers
  import opened Evidence
  import opened Rows
  import opened SealRows
  import K = Kernel
  import Merkle
  import HashFormat

  class Database {
    const sha: Sha
    const types: set<Str>
    var ledgers: map<Str, Ledger>
    var executions: map<Str, Execution>
    var events: seq<Event>

    constructor (sha: Sha, types: set<Str>)
      ensures this.sha == sha && this.types == types && Rows() == K.NoRows()
    {
      this.sha, this.types := sha, types;
      ledgers, executions, events := map[], map[], [];
    }

    function Rows(): K.Tables
      reads this
    {
      K.Tables(ledgers, executions, events)
    }

    // -------------------------------------------------------------- executions

    method OpenExecution(org: Str, id: Str, recordId: Str) returns (r: Result<Execution, Fault>)
      modifies `executions
      ensures match K.OpenExecution(old(Rows()), org, id, recordId)
              case Ok(t) => Rows() == t && id in executions && r == Ok(executions[id])
              case Err(f) => r == Err(f) && Rows() == old(Rows())
      ensures r.Ok? ==> Opened(old(Rows()), Rows(), org, id, recordId)
    {
      if id in executions || K.RecordTaken(Rows(), recordId) {
        return Err(Constraint);
      }
      executions := executions[id := Execution(id, recordId, org, K.Created(), None)];
      return Ok(executions[id]);
    }

    method SetExecutionStatus(id: Str, status: Str, org: Str, finalEntryId: Option<Str>) returns (r: Result<(), Fault>)
      modifies `executions
      ensures match K.SetStatus(old(Rows()), org, id, status, finalEntryId)
              case Ok(t) => Rows() == t && r == Ok(())
              case Err(f) => r == Err(f) && Rows() == old(Rows())
      ensures r.Ok? ==> StatusSet(old(Rows()), Rows(), org, id, status, finalEntryId)
    {
      var current := K.GetExecution(Rows(), org, id);
      if current.None? {
        return Err(ExecutionNotFound);
      }
      if !K.MayBecome(current.value.status, status) {
        return Err(InvalidTransition);
      }
      var coalesced := if finalEntryId.Some? then finalEntryId else current.value.finalEntryId;
      executions := executions[id := current.value.(status := status, finalEntryId := coalesced)];
      return Ok(());
    }

    // -------------------------------------------------------------- events

    method CheckParents(input: K.EventInput, sequence: int, parents: seq<Str>) returns (fault: Option<Fault>)
      ensures fault == K.ParentsFault(events, input, sequence, parents)
    {
      for i := 0 to |parents|
        invariant K.ParentsFault(events, input, sequence, parents) == K.ParentsFault(events, input, sequence, parents[i..])
      {
        var parent := K.FindEvent(events, parents[i]);
        assert parents[i..][1..] == parents[i + 1..];
        if parent.None? {
          return Some(ParentNotFound);
        }
        if parent.value.organizationId != input.organizationId {
          return Some(ParentCrossOrganization);
        }
        if parent.value.executionId != input.executionId {
          return Some(ParentCrossExecution);
        }
        if parent.value.eventSequence >= sequence {
          return Some(ParentSequence);
        }
      }
      return None;
    }

    method AppendExecutionEventInTransaction(input: K.EventInput) returns (r: Result<Event, Fault>)
      modifies `events
      ensures r == K.NewEvent(types, old(Rows()), input)
      ensures Rows() == if r.Ok? then K.AddEvent(old(Rows()), r.value) else old(Rows())
      ensures r.Ok? ==> EventSays(old(events), input, r.value)
    {
      ghost var before := Rows();
      var evidence := K.EvidenceFault(types, input);
      if evidence.Some? {
        return Err(evidence.value);
      }
      var parentEventIds := K.UniqueSortedIds(input.parentEventIds);
      var locked := K.GetExecution(Rows(), input.organizationId, input.executionId);
      if locked.None? {
        return Err(ExecutionNotFound);
      }
      var nextSequence := K.MaxSequence(K.EventsOf(events, input.organizationId, input.executionId)) + 1;
      var fault := CheckParents(input, nextSequence, parentEventIds);
      if fault.Some? {
        return Err(fault.value);
      }
      if K.FindEvent(events, input.id).Some? || nextSequence > MAX_INT4 {
        return Err(Constraint);
      }
      var row := K.EventRow(input, nextSequence, parentEventIds);
      EventWrites(types, before, input, row);
      events := events + [row];
      return Ok(row);
    }

    // -------------------------------------------------------------- ledger entries

    /** The rows to insert, computed from the locked chain state and the prior hashes. */
    method StageEntry(input: EntryInput, latestSequence: int, previousEntryHash: Option<Str>, prior: seq<Str>)
      returns (r: Result<Staged, Fault>)
      ensures r == Stage(sha, input, latestSequence, previousEntryHash, prior)
      ensures r.Ok? ==>
        EntrySays(sha, input, latestSequence + 1, previousEntryHash, r.value.entry) && CheckpointSays(sha, input, prior, r.value)
    {
      if !EvidenceOk(input) || !HashOk(previousEntryHash) {
        return Err(InvalidEvidence);
      }
      var nextSequence := latestSequence + 1;
      var entryHash := HashFormat.EntryHash(sha, FieldsOf(input, nextSequence, previousEntryHash));
      if entryHash.None? {
        return Err(PrinterThrows);
      }
      if nextSequence > MAX_INT4 || !IsEntryType(input.entryType) {
        return Err(Constraint);
      }
      var merkleRoot: Option<Str> := None;
      var checkpoint: Option<Checkpoint> := None;
      if CheckpointDue(input.interval, nextSequence) {
        var leaves := prior + [entryHash.value];
        merkleRoot := Merkle.ComputeMerkleRoot(sha, leaves);
        if merkleRoot.None? {
          return Err(MerkleThrows);
        }
        checkpoint := Some(Checkpoint(input.checkpointId, input.organizationId, nextSequence - input.interval + 1,
                                      nextSequence, merkleRoot.value, leaves));
      }
      return Ok(Staged(RowOf(input, nextSequence, previousEntryHash, entryHash.value, merkleRoot), checkpoint));
    }

    method InsertEntry(input: EntryInput) returns (r: Result<LedgerEntry, Fault>)
      modifies `ledgers
      ensures match Append(sha, At(old(ledgers), input.organizationId), input)
              case Err(f) => r == Err(f)
              case Ok(l) =>
                if input.executionId !in executions || K.EntryIdTaken(At(old(ledgers), input.organizationId), input.entryId)
                then r == Err(Constraint)
                else r == Ok(l.entries[|l.entries| - 1]) && ledgers == old(ledgers)[input.organizationId := l]
    {
      var org := input.organizationId;
      ghost var before := ledgers;
      if org !in ledgers {
        ledgers := ledgers[org := EmptyLedger()];
      }
      var locked := ledgers[org];
      var staged := StageEntry(input, locked.latestSequence, locked.latestEntryHash, Prior(locked, input));
      if staged.Err? {
        return Err(staged.error);
      }
      if input.executionId !in executions || K.EntryIdTaken(locked, input.entryId) {
        return Err(Constraint);
      }
      ledgers := ledgers[org := InsertRows(locked, staged.value)];
      assert ledgers == before[org := InsertRows(locked, staged.value)];
      return Ok(staged.value.entry);
    }

    method AppendLedgerEntryInTransaction(input: EntryInput) returns (r: Result<LedgerEntry, Fault>)
      modifies this
      ensures match K.AppendEntry(sha, old(Rows()), input)
              case Ok(t) => r.Ok? && Rows() == t
              case Err(f) => r == Err(f)
      ensures r.Ok? ==> EntryWritten(sha, old(Rows()), Rows(), input) && r.value in At(ledgers, input.organizationId).entries
    {
      ghost var before := Rows();
      r := InsertEntry(input);
      if r.Err? {
        return;
      }
      var effect := K.StatusEffect(input);
      if effect.Some? {
        var moved := SetExecutionStatus(input.executionId, effect.value.0, input.organizationId, effect.value.1);
        if moved.Err? {
          return Err(moved.error);
        }
      }
      EntryWrites(sha, before, Rows(), input);
    }

    method AppendLedgerEntry(input: EntryInput) returns (r: Result<LedgerEntry, Fault>)
      modifies this
      ensures match K.AppendEntry(sha, old(Rows()), input)
              case Ok(t) => r.Ok? && Rows() == t
              case Err(f) => r == Err(f) && Rows() == old(Rows())
      ensures r.Ok? ==> EntryWritten(sha, old(Rows()), Rows(), input) && r.value in At(ledgers, input.organizationId).entries
    {
      var ledgersBefore, executionsBefore, eventsBefore := ledgers, executions, events;
      r := AppendLedgerEntryInTransaction(input);
      if r.Err? {
        ledgers, executions, events := ledgersBefore, executionsBefore, eventsBefore;
      }
    }

    // -------------------------------------------------------------- sealing

    method AppendOnePrelude(input: K.SealInput, i: nat, chained: seq<Str>) returns (r: Result<seq<Str>, Fault>)
      requires i < |input.preludeEvents|
      modifies `events
      ensures match K.PreludeStep(types, old(Rows()), input, i, chained)
              case Ok((t, parents)) => r == Ok(parents) && Rows() == t
              case Err(f) => r == Err(f)
    {
      var recorded := AppendExecutionEventInTransaction(K.PreludeInput(input, i, chained));
      r := if recorded.Ok? then Ok([recorded.value.id]) else Err(recorded.error);
    }

    method AppendPrelude(input: K.SealInput) returns (r: Result<seq<Str>, Fault>)
      modifies `events
      ensures match K.Prelude(types, old(Rows()), input)
              case Ok((t, parents)) => r == Ok(parents) && Rows() == t
              case Err(f) => r == Err(f)
    {
      var parentEventIds := input.parentEventIds;
      ghost var steps, start := K.PreludeSteps(types, input), (Rows(), parentEventIds);
      for i := 0 to |input.preludeEvents|
        invariant Fold(steps, start, i) == Ok((Rows(), parentEventIds))
      {
        ghost var before := Rows();
        var recorded := AppendOnePrelude(input, i, parentEventIds);
        if recorded.Err? {
          FoldStops(steps, start, i, |input.preludeEvents|, (before, parentEventIds), recorded.error);
          return Err(recorded.error);
        }
        parentEventIds := recorded.value;
      }
      return Ok(parentEventIds);
    }

    method FinishSeal(input: K.SealInput, execution: Execution, parentEventIds: seq<Str>) returns (r: Result<LedgerEntry, Fault>)
      modifies this
      ensures match K.FinishSeal(sha, types, old(Rows()), input, execution, parentEventIds)
              case Ok(t) => r.Ok? && Rows() == t
              case Err(f) => r == Err(f)
    {
      var listed := K.ListEvents(events, input.organizationId, input.executionId);
      var preSealHash := K.HashGraph(sha, K.AsSealed(execution, input), listed);
      if preSealHash.Err? {
        return Err(preSealHash.error);
      }
      var sealed := AppendExecutionEventInTransaction(K.SealedInput(input, parentEventIds, preSealHash.value));
      if sealed.Err? {
        return Err(sealed.error);
      }
      var sealedHash := K.HashGraph(sha, K.AsSealed(execution, input), listed + [sealed.value]);
      if sealedHash.Err? {
        return Err(sealedHash.error);
      }
      var requestHash := K.RequestOpenedHash(SortBy(SequenceLe, At(ledgers, input.organizationId).entries), input.executionId);
      r := AppendLedgerEntryInTransaction(K.SealEntry(input, requestHash, sealedHash.value));
    }

    /** `hookThrows` is the outcome of the caller's `beforeCommit` hook. */
    method SealExecution(input: K.SealInput, hookThrows: bool) returns (r: Result<LedgerEntry, Fault>)
      modifies this
      ensures match K.SealExecution(sha, types, old(Rows()), input)
              case Ok(t) => if hookThrows then r.Err? && Rows() == old(Rows()) else r.Ok? && Rows() == t
              case Err(f) => r == Err(f) && Rows() == old(Rows())
      ensures r.Ok? ==> SealWritten(sha, old(Rows()), Rows(), input)
    {
      ghost var before := Rows();
      var execution := K.GetExecution(Rows(), input.organizationId, input.executionId);
      if execution.None? {
        return Err(ExecutionNotFound);
      }
      var ledgersBefore, executionsBefore, eventsBefore := ledgers, executions, events;
      var parents := AppendPrelude(input);
      if parents.Ok? {
        r := FinishSeal(input, execution.value, parents.value);
      } else {
        r := Err(parents.error);
      }
      if r.Ok? {
        SealWrites(sha, types, before, Rows(), input);
      }
      if r.Ok? && hookThrows {
        r := Err(Constraint);
      }
      if r.Err? {
        ledgers, executions, events := ledgersBefore, executionsBefore, eventsBefore;
      }
    }
  }
}
