/** What a whole run leaves of a governed execution, told from its calls: whose approvals they are, how they were
    decided and by whom, and what the execution's status is. */
module LifecycleRuns {
  import opened Basics
  import opened Policy
  import opened Outcomes
  import opened Lifecycle
  import Hex

  function Before(start: State, calls: seq<Call>, k: nat): State
    requires k <= |calls|
  {
    AfterCalls(start, calls, k)
  }

  // ---------------------------------------------------------------- the calls that count

  /** Call `k` asks for this approval: a member's call for well-formed bytes and an id not yet taken, while the
      execution runs or waits. */
  predicate AsksAt(start: State, calls: seq<Call>, k: nat, id: Str)
  {
    && k < |calls| && calls[k].RequestApprovalCall? && calls[k].approvalId == id
    && calls[k].member && Hex.IsSha256Hex(calls[k].artifactHash)
    && var s := Before(start, calls, k); (s.status.Running? || s.status.WaitingApproval?) && id !in s.approvals
  }

  /** Call `k` decides this approval: pending until then, another actor's, authorized, and over the bytes asked for
      unless the call names only the approval. */
  predicate DecidesAt(start: State, calls: seq<Call>, k: nat, id: Str, allow: bool)
  {
    && k < |calls| && Before(start, calls, k).approvals.Keys >= {id}
    && var a := Before(start, calls, k).approvals[id];
    && a.status == Pending
    && match calls[k]
       case DecideCall(named, actor, authorized, hash, allowed) =>
         named == id && allowed == allow && authorized && actor != a.requestedBy && Hex.IsSha256Hex(hash) && a.artifactHash == Some(hash)
       case DecideByIdCall(named, actor, authorized, allowed) =>
         named == id && allowed == allow && authorized && actor != a.requestedBy
       case _ => false
  }

  /** Call `k` grants some approval for its bytes. */
  predicate GrantsAt(start: State, calls: seq<Call>, k: nat)
  {
    k < |calls| && calls[k].DecideCall? && DecidesAt(start, calls, k, calls[k].approvalId, true)
  }

  /** Call `k` ends the execution: not again, and with success only a running one. */
  predicate EndsAt(start: State, calls: seq<Call>, k: nat, o: FinalOutcome)
  {
    && k < |calls| && calls[k] == FinalizeCall(o)
    && var status := Before(start, calls, k).status;
       status.Running? || (!o.CompletedOutcome? && (status.Created? || status.WaitingApproval?))
  }

  lemma StatusesMove(from: Status)
    ensures MayMove(from, WaitingApproval) <==> from.Running? || from.WaitingApproval?
    ensures MayMove(Created, FailedStatus) && MayMove(Created, Blocked) && !MayMove(Created, Completed)
    ensures MayMove(Running, Completed) && MayMove(Running, FailedStatus) && MayMove(Running, Blocked)
    ensures MayMove(WaitingApproval, FailedStatus) && MayMove(WaitingApproval, Blocked)
  {
    Moves(from, WaitingApproval);
    Moves(Running, Completed);
    Moves(Running, FailedStatus);
    Moves(Running, Blocked);
    Moves(WaitingApproval, FailedStatus);
    Moves(WaitingApproval, Blocked);
  }

  lemma FinalizesExactly(s: State, o: FinalOutcome)
    ensures Finalizable(s, o) <==>
      s.status.Running? || (!o.CompletedOutcome? && (s.status.Created? || s.status.WaitingApproval?))
  {
    StatusesMove(s.status);
  }

  lemma AsksExactly(start: State, calls: seq<Call>, k: nat)
    requires k < |calls| && calls[k].RequestApprovalCall?
    ensures var c := calls[k];
      AsksAt(start, calls, k, c.approvalId) <==> Requestable(Before(start, calls, k), c.approvalId, c.member, c.artifactHash)
  {
    StatusesMove(Before(start, calls, k).status);
  }

  // ---------------------------------------------------------------- approvals

  function ActorOf(call: Call): Str
    requires call.DecideCall? || call.DecideByIdCall?
  {
    call.actor
  }

  ghost predicate Asked(start: State, calls: seq<Call>, n: nat, id: Str)
  {
    exists k: nat :: k < n && AsksAt(start, calls, k, id)
  }

  lemma AskedNext(start: State, calls: seq<Call>, n: nat, id: Str)
    ensures Asked(start, calls, n + 1, id) <==> Asked(start, calls, n, id) || AsksAt(start, calls, n, id)
  {
  }

  lemma KeptOrAsked(start: State, calls: seq<Call>, k: nat, id: Str)
    requires k < |calls|
    ensures id in Before(start, calls, k + 1).approvals <==> id in Before(start, calls, k).approvals || AsksAt(start, calls, k, id)
  {
    AfterNext(start, calls, k);
    if calls[k].RequestApprovalCall? {
      AsksExactly(start, calls, k);
    }
  }

  /** After `n` calls the approval is there exactly when one of them asked for it. */
  lemma {:induction false} AskedExactly(start: State, calls: seq<Call>, n: nat, id: Str)
    requires Begins(start) && n <= |calls|
    ensures id in Before(start, calls, n).approvals <==> Asked(start, calls, n, id)
  {
    if n == 0 {
      assert calls[..0] == [];
    } else {
      AskedExactly(start, calls, n - 1, id);
      AskedNext(start, calls, n - 1, id);
      KeptOrAsked(start, calls, n - 1, id);
    }
  }

  /** The row of an approval that call `k` asked for: what that call said, and nothing decided. */
  predicate RowAsked(start: State, call: Call, id: Str, a: Approval)
    requires call.RequestApprovalCall?
  {
    && a.id == id && a.organizationId == start.organizationId && a.executionId == start.executionId
    && a.requestedBy == call.requestedBy && a.artifactHash == Some(call.artifactHash)
  }

  ghost predicate DecidedAs(start: State, calls: seq<Call>, n: nat, id: Str, allow: bool)
  {
    exists j: nat :: j < n && DecidesAt(start, calls, j, id, allow)
  }

  ghost predicate DecidedBy(start: State, calls: seq<Call>, n: nat, id: Str, decider: Option<Str>)
  {
    forall j: nat, allow :: j < n && DecidesAt(start, calls, j, id, allow) ==> decider == Some(ActorOf(calls[j]))
  }

  /** After `n` calls, one of which asked for the approval. */
  ghost predicate RowDecided(start: State, calls: seq<Call>, n: nat, id: Str, a: Approval)
  {
    && (a.status == Approved <==> DecidedAs(start, calls, n, id, true))
    && (a.status == Denied <==> DecidedAs(start, calls, n, id, false))
    && (a.status == Pending ==> a.decidedBy == None)
    && DecidedBy(start, calls, n, id, a.decidedBy)
  }

  lemma DecidedNext(start: State, calls: seq<Call>, n: nat, id: Str, allow: bool)
    ensures DecidedAs(start, calls, n + 1, id, allow) <==> DecidedAs(start, calls, n, id, allow) || DecidesAt(start, calls, n, id, allow)
  {
  }

  lemma {:induction false} SameExecution(start: State, calls: seq<Call>, n: nat)
    requires n <= |calls|
    ensures Before(start, calls, n).organizationId == start.organizationId && Before(start, calls, n).executionId == start.executionId
  {
    if n == 0 {
      assert calls[..0] == [];
    } else {
      SameExecution(start, calls, n - 1);
      AfterNext(start, calls, n - 1);
    }
  }

  /** One call and one row: kept, decided or new. */
  lemma RowAfter(start: State, calls: seq<Call>, k: nat, id: Str)
    requires k < |calls| && id in Before(start, calls, k + 1).approvals
    ensures var s, t := Before(start, calls, k), Before(start, calls, k + 1);
      if id !in s.approvals
      then AsksAt(start, calls, k, id) && RowAsked(start, calls[k], id, t.approvals[id]) && t.approvals[id].status == Pending
           && t.approvals[id].decidedBy == None
      else if DecidesAt(start, calls, k, id, true)
      then t.approvals[id] == s.approvals[id].(status := Approved, decidedBy := Some(ActorOf(calls[k])))
      else if DecidesAt(start, calls, k, id, false)
      then t.approvals[id] == s.approvals[id].(status := Denied, decidedBy := Some(ActorOf(calls[k])))
      else t.approvals[id] == s.approvals[id]
  {
    AfterNext(start, calls, k);
    SameExecution(start, calls, k);
    if calls[k].RequestApprovalCall? {
      AsksExactly(start, calls, k);
    }
  }

  lemma DecidedStays(start: State, calls: seq<Call>, k: nat, id: Str, a: Approval, b: Approval)
    requires k < |calls| && RowDecided(start, calls, k, id, a)
    requires forall allow :: DecidesAt(start, calls, k, id, allow) ==>
      a.status == Pending && b.status == (if allow then Approved else Denied) && b.decidedBy == Some(ActorOf(calls[k]))
    requires !DecidesAt(start, calls, k, id, true) && !DecidesAt(start, calls, k, id, false) ==> b == a
    ensures RowDecided(start, calls, k + 1, id, b)
  {
    DecidedNext(start, calls, k, id, true);
    DecidedNext(start, calls, k, id, false);
    forall j: nat, allow | j < k + 1 && DecidesAt(start, calls, j, id, allow) ensures b.decidedBy == Some(ActorOf(calls[j])) {
      if j < k {
        assert DecidedAs(start, calls, k, id, allow);
      }
    }
  }

  lemma {:induction false} NoneDecides(start: State, calls: seq<Call>, n: nat, id: Str)
    requires Begins(start) && n <= |calls| && id !in Before(start, calls, n).approvals
    ensures forall j: nat, allow :: j < n ==> !DecidesAt(start, calls, j, id, allow)
  {
    if n > 0 {
      KeptOrAsked(start, calls, n - 1, id);
      NoneDecides(start, calls, n - 1, id);
    }
  }

  lemma Bare(start: State, calls: seq<Call>)
    ensures Before(start, calls, 0) == start
  {
    assert calls[..0] == [];
  }

  lemma {:induction false} DecidedExactly(start: State, calls: seq<Call>, n: nat, id: Str)
    requires Begins(start) && n <= |calls| && id in Before(start, calls, n).approvals
    ensures RowDecided(start, calls, n, id, Before(start, calls, n).approvals[id])
  {
    if n == 0 {
      Bare(start, calls);
    } else {
      RowAfter(start, calls, n - 1, id);
      var t := Before(start, calls, n).approvals[id];
      if id in Before(start, calls, n - 1).approvals {
        DecidedExactly(start, calls, n - 1, id);
        DecidedStays(start, calls, n - 1, id, Before(start, calls, n - 1).approvals[id], t);
      } else {
        NoneDecides(start, calls, n - 1, id);
      }
    }
  }

  lemma {:induction false} RowStaysAsked(start: State, calls: seq<Call>, n: nat, id: Str, k: nat)
    requires Begins(start) && k < n <= |calls| && AsksAt(start, calls, k, id) && id in Before(start, calls, n).approvals
    ensures RowAsked(start, calls[k], id, Before(start, calls, n).approvals[id])
  {
    RowAfter(start, calls, n - 1, id);
    if k < n - 1 {
      KeptOrAsked(start, calls, k, id);
      StaysThere(start, calls, k + 1, n - 1, id);
      RowStaysAsked(start, calls, n - 1, id, k);
    }
  }

  lemma {:induction false} StaysThere(start: State, calls: seq<Call>, k: nat, n: nat, id: Str)
    requires k <= n <= |calls| && id in Before(start, calls, k).approvals
    ensures id in Before(start, calls, n).approvals
  {
    if k < n {
      StaysThere(start, calls, k, n - 1, id);
      KeptOrAsked(start, calls, n - 1, id);
    }
  }

  /** Every approval of a run is as it was asked for, and approved or denied exactly when one of the calls decided so,
      by the actor of that call. */
  lemma ApprovalExactly(start: State, calls: seq<Call>, id: Str)
    requires Begins(start)
    ensures var n, rows := |calls|, ApplyAll(start, calls).approvals;
      && (id in rows <==> Asked(start, calls, n, id))
      && (id in rows ==> RowDecided(start, calls, n, id, rows[id]))
      && (id in rows ==> forall k: nat :: k < n && AsksAt(start, calls, k, id) ==> RowAsked(start, calls[k], id, rows[id]))
  {
    assert calls[..|calls|] == calls;
    AskedExactly(start, calls, |calls|, id);
    if id in ApplyAll(start, calls).approvals {
      DecidedExactly(start, calls, |calls|, id);
      forall k: nat | k < |calls| && AsksAt(start, calls, k, id) ensures RowAsked(start, calls[k], id, ApplyAll(start, calls).approvals[id]) {
        RowStaysAsked(start, calls, |calls|, id, k);
      }
    }
  }

  // ---------------------------------------------------------------- the status

  ghost predicate EndedBy(start: State, calls: seq<Call>, n: nat, o: FinalOutcome)
  {
    exists k: nat :: k < n && EndsAt(start, calls, k, o)
  }

  /** Some approval was asked for and none granted since. */
  ghost predicate Unanswered(start: State, calls: seq<Call>, n: nat)
  {
    exists k: nat, id :: k < n && AsksAt(start, calls, k, id) && forall j: nat :: k < j < n ==> !GrantsAt(start, calls, j)
  }

  ghost predicate StatusSays(start: State, calls: seq<Call>, n: nat, status: Status)
  {
    StatusFor(start.status, EndedBy(start, calls, n, CompletedOutcome), EndedBy(start, calls, n, FailedOutcome),
              EndedBy(start, calls, n, BlockedOutcome), Unanswered(start, calls, n), status)
  }

  /** The status for how the execution began, whether it was ended and how, and whether it waits for a grant. */
  predicate StatusFor(first: Status, completed: bool, failed: bool, blocked: bool, waits: bool, status: Status)
  {
    match status
    case Completed => completed && !failed && !blocked
    case FailedStatus => failed && !completed && !blocked
    case Blocked => blocked && !completed && !failed
    case WaitingApproval => !completed && !failed && !blocked && waits && first.Running?
    case Running => !completed && !failed && !blocked && !waits && first.Running?
    case Created => !completed && !failed && !blocked && !waits && first.Created?
    case Cancelled => false
  }

  lemma EndedNext(start: State, calls: seq<Call>, n: nat, o: FinalOutcome)
    ensures EndedBy(start, calls, n + 1, o) <==> EndedBy(start, calls, n, o) || EndsAt(start, calls, n, o)
  {
  }

  lemma UnansweredNext(start: State, calls: seq<Call>, n: nat)
    requires n < |calls|
    ensures Unanswered(start, calls, n + 1) <==>
      (exists id :: AsksAt(start, calls, n, id)) || (Unanswered(start, calls, n) && !GrantsAt(start, calls, n))
  {
    if k: nat, id :| k < n + 1 && AsksAt(start, calls, k, id) && forall j: nat :: k < j < n + 1 ==> !GrantsAt(start, calls, j) {
      assert k < n ==> !GrantsAt(start, calls, n);
    }
    if Unanswered(start, calls, n) && !GrantsAt(start, calls, n) {
      var k: nat, id :| k < n && AsksAt(start, calls, k, id) && forall j: nat :: k < j < n ==> !GrantsAt(start, calls, j);
      assert forall j: nat :: k < j < n + 1 ==> !GrantsAt(start, calls, j);
    }
    if id :| AsksAt(start, calls, n, id) {
      assert forall j: nat :: n < j < n + 1 ==> !GrantsAt(start, calls, j);
    }
  }

  /** One call and the status. */
  lemma StatusAfter(start: State, calls: seq<Call>, k: nat)
    requires k < |calls|
    ensures var s, t := Before(start, calls, k).status, Before(start, calls, k + 1).status;
      if exists id :: AsksAt(start, calls, k, id) then t == WaitingApproval
      else if GrantsAt(start, calls, k) then t == if s.WaitingApproval? then Running else s
      else if EndsAt(start, calls, k, CompletedOutcome) then t == Completed
      else if EndsAt(start, calls, k, FailedOutcome) then t == FailedStatus
      else if EndsAt(start, calls, k, BlockedOutcome) then t == Blocked
      else t == s
  {
    AfterNext(start, calls, k);
    var s := Before(start, calls, k);
    match calls[k]
    case RequestApprovalCall(id, requester, member, hash) => AsksExactly(start, calls, k);
    case FinalizeCall(o) => FinalizesExactly(s, o);
    case _ =>
  }

  /** What happens to the execution in one call excludes the rest. */
  lemma EndsOnlyOpen(start: State, calls: seq<Call>, k: nat)
    requires k < |calls|
    ensures (exists id :: AsksAt(start, calls, k, id)) ==> calls[k].RequestApprovalCall? && (Before(start, calls, k).status.Running? || Before(start, calls, k).status.WaitingApproval?)
    ensures forall o :: EndsAt(start, calls, k, o) ==> calls[k] == FinalizeCall(o) && !Ended(Before(start, calls, k).status)
  {
  }

  lemma {:induction false} StatusThroughout(start: State, calls: seq<Call>, n: nat)
    requires Begins(start) && n <= |calls|
    ensures StatusSays(start, calls, n, Before(start, calls, n).status)
  {
    if n == 0 {
      assert calls[..0] == [];
    } else {
      StatusThroughout(start, calls, n - 1);
      StatusAfter(start, calls, n - 1);
      UnansweredNext(start, calls, n - 1);
      EndedNext(start, calls, n - 1, CompletedOutcome);
      EndedNext(start, calls, n - 1, FailedOutcome);
      EndedNext(start, calls, n - 1, BlockedOutcome);
      EndsOnlyOpen(start, calls, n - 1);
    }
  }

  /** The status is the outcome of the one call that ended the execution; before that the execution waits exactly
      while an approval asked for is not followed by a grant. */
  lemma StatusExactly(start: State, calls: seq<Call>)
    requires Begins(start)
    ensures StatusSays(start, calls, |calls|, ApplyAll(start, calls).status)
  {
    assert calls[..|calls|] == calls;
    StatusThroughout(start, calls, |calls|);
  }
}
