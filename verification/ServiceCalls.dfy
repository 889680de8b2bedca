/** The service's calls as methods that append and seal step by step on the store. */
module ServiceCalls {
  import opened Basics
  import opened Records
  import opened Ledgers
  import opened VerifyGraphs
  import opened Databases
  import opened Service
  import K = Kernel

  class ExecutionService {
    const db: Database

    constructor (db: Database)
      ensures this.db == db
    {
      this.db := db;
    }

    method LastEventId(org: Str, id: Str) returns (parents: seq<Str>)
      ensures parents == LastParents(db.Rows(), org, id)
    {
      var events := K.ListEvents(db.events, org, id);
      parents := if |events| > 0 then [events[|events| - 1].id] else [];
    }

    /** Appends one event after another; the first exception ends it. */
    method RecordChain(org: Str, id: Str, names: seq<Str>, drafts: seq<K.EventInput>, parents: seq<Str>)
      modifies db
      ensures db.Rows() == Chain(db.types, old(db.Rows()), org, id, names, drafts, parents)
    {
      var parentEventIds, i := parents, 0;
      ghost var whole := Chain(db.types, db.Rows(), org, id, names, drafts, parents);
      assert names[0..] == names && drafts[0..] == drafts;
      while i < |names| && i < |drafts|
        invariant 0 <= i <= |names| && i <= |drafts|
        invariant Chain(db.types, db.Rows(), org, id, names[i..], drafts[i..], parentEventIds) == whole
      {
        assert names[i..][1..] == names[i + 1..] && drafts[i..][1..] == drafts[i + 1..];
        var recorded := db.AppendExecutionEventInTransaction(Placed(drafts[i], org, id, names[i], parentEventIds));
        if recorded.Err? {
          return;
        }
        parentEventIds := [recorded.value.id];
        i := i + 1;
      }
    }

    method OpenGovernedExecution(org: Str, id: Str, recordId: Str, drafts: seq<K.EventInput>, entry: EntryInput)
      modifies db
      ensures db.Rows() == Serve(db.sha, db.types, old(db.Rows()), Open(org, id, recordId, drafts, entry))
    {
      var execution := db.OpenExecution(org, id, recordId);
      if execution.Err? {
        return;
      }
      RecordChain(org, id, OpenTypes(), drafts, []);
      if |EventsFor(db.events, id)| < |OpenTypes()| {
        return;
      }
      var requestOpened := db.AppendLedgerEntry(EntryFor(entry, org, id, RequestOpened(), None));
    }

    method FollowExecution(org: Str, id: Str, path: Path, drafts: seq<K.EventInput>)
      modifies db
      ensures db.Rows() == Serve(db.sha, db.types, old(db.Rows()), Follow(org, id, path, drafts))
    {
      if !IsOpen(db.Rows(), org, id) {
        return;
      }
      var parents := LastEventId(org, id);
      RecordChain(org, id, PathTypes(path), drafts, parents);
    }

    /** Event and ledger entry in one transaction. */
    method RequestExecutionApproval(org: Str, id: Str, draft: K.EventInput, entry: EntryInput)
      modifies db
      ensures db.Rows() == Serve(db.sha, db.types, old(db.Rows()), AskApproval(org, id, draft, entry))
    {
      if !IsOpen(db.Rows(), org, id) {
        return;
      }
      var ledgersBefore, executionsBefore, eventsBefore := db.ledgers, db.executions, db.events;
      var asked := AskEntry(db.Rows(), entry, org, id);
      var parents := LastEventId(org, id);
      var recorded := db.AppendExecutionEventInTransaction(Placed(draft, org, id, AskType(), parents));
      if recorded.Ok? {
        var appended := db.AppendLedgerEntryInTransaction(asked);
        if appended.Err? {
          db.ledgers, db.executions, db.events := ledgersBefore, executionsBefore, eventsBefore;
        }
      }
    }

    method DecideExecutionApproval(org: Str, id: Str, allow: bool, draft: K.EventInput)
      modifies db
      ensures db.Rows() == Serve(db.sha, db.types, old(db.Rows()), Decide(org, id, allow, draft))
    {
      var execution := K.GetExecution(db.Rows(), org, id);
      var parents := LastEventId(org, id);
      var recorded := db.AppendExecutionEventInTransaction(Placed(draft, org, id, DecisionType(allow), parents));
      if recorded.Err? {
        return;
      }
      if allow && execution.value.status == K.WaitingApproval() {
        var moved := db.SetExecutionStatus(id, K.Running(), org, None);
      }
    }

    /** The prelude grows event by event. */
    method BuildPrelude(names: seq<Str>, drafts: seq<K.EventInput>, parents: seq<Str>) returns (prelude: seq<K.EventInput>)
      requires |drafts| == |names|
      ensures prelude == PreludeDrafts(names, drafts, parents)
    {
      prelude := [];
      for i := 0 to |names|
        invariant |prelude| == i && forall k :: 0 <= k < i ==> prelude[k] == PreludeDrafts(names, drafts, parents)[k]
      {
        prelude := prelude + [drafts[i].(eventType := names[i], parentEventIds := if i == 0 then parents else [])];
      }
    }

    /** From the prelude on; `injectFailure` is the hook that throws before the commit. */
    method SealFinalized(org: Str, id: Str, outcome: FinalOutcome, parents: seq<Str>, drafts: seq<K.EventInput>, seal: K.SealInput,
                         injectFailure: bool)
      requires |drafts| == |FinalTypes(outcome)|
      modifies db
      ensures db.Rows()
           == if injectFailure then old(db.Rows())
              else SealFrom(db.sha, db.types, old(db.Rows()), org, id, outcome, parents, drafts, seal)
    {
      var prelude := BuildPrelude(FinalTypes(outcome), drafts, parents);
      var sealed := db.SealExecution(
        seal.(organizationId := org, executionId := id, entryType := OutcomeSeal(outcome).0,
              executionStatus := OutcomeSeal(outcome).1, parentEventIds := parents, preludeEvents := prelude),
        injectFailure);
    }

    method FinalizeGovernedExecution(org: Str, id: Str, outcome: FinalOutcome, drafts: seq<K.EventInput>, seal: K.SealInput,
                                     injectFailure: bool)
      requires |drafts| == |FinalTypes(outcome)|
      modifies db
      ensures db.Rows()
           == if injectFailure then old(db.Rows())
              else Serve(db.sha, db.types, old(db.Rows()), Finalize(org, id, outcome, drafts, seal))
    {
      if !Finalizable(db.Rows(), org, id, outcome) {
        return;
      }
      var parents := LastEventId(org, id);
      SealFinalized(org, id, outcome, parents, drafts, seal, injectFailure);
    }

    // -------------------------------------------------------------- in flight

    /** What is left of a call when its foreign call returns, as `Resume` serves it. */
    method ResumeExecution(org: Str, id: Str, path: Path, from: nat, parent: Str, drafts: seq<K.EventInput>)
      modifies db
      ensures db.Rows() == Chain(db.types, old(db.Rows()), org, id, RestOf(path, from), drafts, [parent])
    {
      RecordChain(org, id, RestOf(path, from), drafts, [parent]);
    }

    method SealCheckedExecution(org: Str, id: Str, outcome: FinalOutcome, parent: Str, drafts: seq<K.EventInput>, seal: K.SealInput)
      requires |drafts| == |FinalTypes(outcome)|
      modifies db
      ensures db.Rows() == Serve(db.sha, db.types, old(db.Rows()), SealChecked(org, id, outcome, parent, drafts, seal))
    {
      SealFinalized(org, id, outcome, [parent], drafts, seal, false);
    }
  }
}
