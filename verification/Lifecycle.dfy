/** One governed execution through the service: its status, its approvals and the events each call
    appends. Calls are taken one at a time. */
module Lifecycle {
  import opened Basics
  import opened Policy
  import opened Outcomes
  import Kernel
  import Hex

  datatype Status = Created | Running | WaitingApproval | Completed | FailedStatus | Blocked | Cancelled

  predicate Ended(s: Status) { s.Completed? || s.FailedStatus? || s.Blocked? || s.Cancelled? }

  function StatusName(s: Status): Str
  {
    match s
    case Created => Kernel.Created()
    case Running => Kernel.Running()
    case WaitingApproval => Kernel.WaitingApproval()
    case Completed => Kernel.Completed()
    case FailedStatus => Kernel.Failed()
    case Blocked => Kernel.Blocked()
    case Cancelled => Kernel.Cancelled()
  }

  /** The kernel's transition check. */
  predicate MayMove(from: Status, to: Status)
  {
    Kernel.MayBecome(StatusName(from), StatusName(to))
  }

  /** What the service relies on of the kernel's table. */
  lemma Moves(from: Status, to: Status)
    ensures MayMove(from, from) && !MayMove(Created, Completed)
    ensures MayMove(Running, WaitingApproval) && MayMove(WaitingApproval, Running)
    ensures (from.Running? || from.WaitingApproval?) && Ended(to) ==> MayMove(from, to)
    ensures Ended(from) && MayMove(from, to) ==> to == from
  {
    assert |Kernel.Completed()| == 9 && |Kernel.Failed()| == 6 && |Kernel.Blocked()| == 7 && |Kernel.Cancelled()| == 9;
    assert |Kernel.Created()| == 7 && |Kernel.Running()| == 7 && |Kernel.WaitingApproval()| == 16;
    assert Kernel.Completed()[1] == 111 && Kernel.Cancelled()[1] == 97;
    assert Kernel.Blocked()[0] == 98 && Kernel.Created()[0] == 99 && Kernel.Running()[0] == 114;
  }

  function OutcomeStatus(o: FinalOutcome): Status
  {
    match o case CompletedOutcome => Completed case FailedOutcome => FailedStatus case BlockedOutcome => Blocked
  }

  /** The events of a finalization, the sealed event last. */
  function FinalEvents(o: FinalOutcome): seq<EventKind> { FinalPrelude(o) + [CheckpointSealed] }

  datatype State = State(organizationId: Str, executionId: Str, status: Status, events: seq<EventKind>, approvals: map<Str, Approval>)

  /** The state `openGovernedExecution` leaves. */
  function Opened(org: Str, id: Str): State
  {
    State(org, id, Running, [ExecutionCreated, IdentityAuthenticated], map[])
  }

  /** How a run starts: opened, or stopped on the way there. */
  predicate Begins(s: State)
  {
    && s.approvals == map[] && (s.status.Created? || s.status.Running?)
    && (s.events == [] || s.events == [ExecutionCreated] || s.events == [ExecutionCreated, IdentityAuthenticated])
    && (s.status.Running? ==> s == Opened(s.organizationId, s.executionId))
  }

  datatype Call =
    | RecordWork
    | RequestApprovalCall(approvalId: Str, requestedBy: Str, member: bool, artifactHash: Str)
    | DecideCall(approvalId: Str, actor: Str, authorized: bool, artifactHash: Str, allow: bool)
    | DecideByIdCall(approvalId: Str, actor: Str, authorized: bool, allow: bool)
    | FinalizeCall(outcome: FinalOutcome)

  predicate Requestable(s: State, approvalId: Str, member: bool, artifactHash: Str)
  {
    && !Ended(s.status) && Hex.IsSha256Hex(artifactHash) && member && approvalId !in s.approvals
    && MayMove(s.status, WaitingApproval)
  }

  predicate PendingIn(s: State, approvalId: Str)
  {
    approvalId in s.approvals && s.approvals[approvalId].status.Pending?
  }

  /** The route that names only the approval: it looks at neither execution nor artifact. */
  predicate DecidableById(s: State, approvalId: Str, actor: Str, authorized: bool)
  {
    PendingIn(s, approvalId) && authorized && s.approvals[approvalId].requestedBy != actor
  }

  /** There is no check that the execution is still open. */
  predicate Decidable(s: State, approvalId: Str, actor: Str, authorized: bool, artifactHash: Str)
  {
    && DecidableById(s, approvalId, actor, authorized) && Hex.IsSha256Hex(artifactHash)
    && s.approvals[approvalId].artifactHash == Some(artifactHash)
  }

  predicate Finalizable(s: State, o: FinalOutcome)
  {
    && !Ended(s.status) && !(s.status.WaitingApproval? && o.CompletedOutcome?)
    && MayMove(s.status, OutcomeStatus(o))
  }

  function Decided(a: Approval, actor: Str, allow: bool): Approval
  {
    a.(status := if allow then Approved else Denied, decidedBy := Some(actor))
  }

  /** A refused call changes nothing. */
  function Apply(s: State, call: Call): State
  {
    match call
    case RecordWork => if Ended(s.status) then s else s.(events := s.events + [Work])
    case RequestApprovalCall(id, requester, member, hash) =>
      if !Requestable(s, id, member, hash) then s
      else s.(status := WaitingApproval, events := s.events + [ApprovalRequested],
              approvals := s.approvals[id := Approval(id, s.organizationId, s.executionId, requester, None, Pending, Some(hash))])
    case DecideCall(id, actor, authorized, hash, allow) =>
      if !Decidable(s, id, actor, authorized, hash) then s
      else s.(status := if allow && s.status.WaitingApproval? then Running else s.status,
              events := s.events + [if allow then ApprovalApproved else ApprovalRejected],
              approvals := s.approvals[id := Decided(s.approvals[id], actor, allow)])
    case DecideByIdCall(id, actor, authorized, allow) =>
      if !DecidableById(s, id, actor, authorized) then s
      else s.(approvals := s.approvals[id := Decided(s.approvals[id], actor, allow)])
    case FinalizeCall(o) =>
      if !Finalizable(s, o) then s else s.(status := OutcomeStatus(o), events := s.events + FinalEvents(o))
  }

  function ApplyAll(s: State, calls: seq<Call>): State
  {
    if calls == [] then s else Apply(ApplyAll(s, calls[..|calls| - 1]), calls[|calls| - 1])
  }

  // ---------------------------------------------------------------- the store, changed in place

  class GovernedExecution {
    const organizationId: Str
    const executionId: Str
    var status: Status
    var events: seq<EventKind>
    var approvals: map<Str, Approval>

    /** Opens the execution: created, authenticated, then `request_opened` moves it to running. */
    constructor (org: Str, id: Str)
      ensures Snapshot() == Opened(org, id)
    {
      organizationId, executionId := org, id;
      status := Created;
      events := [ExecutionCreated];
      approvals := map[];
      new;
      events := events + [IdentityAuthenticated];
      status := Running;
    }

    function Snapshot(): State
      reads this
    {
      State(organizationId, executionId, status, events, approvals)
    }

    method RequestApproval(approvalId: Str, requestedBy: Str, member: bool, artifactHash: Str) returns (ok: bool)
      modifies this
      ensures ok == Requestable(old(Snapshot()), approvalId, member, artifactHash)
      ensures Snapshot() == Apply(old(Snapshot()), RequestApprovalCall(approvalId, requestedBy, member, artifactHash))
    {
      if Ended(status) || !Hex.IsSha256Hex(artifactHash) || !member || approvalId in approvals {
        return false;
      }
      var approvalsBefore, eventsBefore := approvals, events;
      approvals := approvals[approvalId := Approval(approvalId, organizationId, executionId, requestedBy, None, Pending, Some(artifactHash))];
      events := events + [ApprovalRequested];
      if !MayMove(status, WaitingApproval) {
        approvals, events := approvalsBefore, eventsBefore;
        return false;
      }
      status := WaitingApproval;
      return true;
    }

    method DecideApproval(approvalId: Str, actor: Str, authorized: bool, artifactHash: Str, allow: bool) returns (ok: bool)
      modifies this
      ensures ok == Decidable(old(Snapshot()), approvalId, actor, authorized, artifactHash)
      ensures Snapshot() == Apply(old(Snapshot()), DecideCall(approvalId, actor, authorized, artifactHash, allow))
    {
      if approvalId !in approvals || !Hex.IsSha256Hex(artifactHash) {
        return false;
      }
      var approval := approvals[approvalId];
      if approval.artifactHash != Some(artifactHash) || !authorized || approval.requestedBy == actor || !approval.status.Pending? {
        return false;
      }
      approvals := approvals[approvalId := Decided(approval, actor, allow)];
      events := events + [if allow then ApprovalApproved else ApprovalRejected];
      if allow && status.WaitingApproval? {
        status := Running;
      }
      return true;
    }

    /** The other route: only the approval row changes. */
    method DecideById(approvalId: Str, actor: Str, authorized: bool, allow: bool) returns (ok: bool)
      modifies this
      ensures ok == DecidableById(old(Snapshot()), approvalId, actor, authorized)
      ensures Snapshot() == Apply(old(Snapshot()), DecideByIdCall(approvalId, actor, authorized, allow))
    {
      if !authorized || approvalId !in approvals || approvals[approvalId].requestedBy == actor {
        return false;
      }
      if !approvals[approvalId].status.Pending? {
        return false;
      }
      approvals := approvals[approvalId := Decided(approvals[approvalId], actor, allow)];
      return true;
    }

    /** The prelude grows event by event. */
    static method BuildPrelude(outcome: FinalOutcome) returns (prelude: seq<EventKind>)
      ensures prelude + [CheckpointSealed] == FinalEvents(outcome)
    {
      prelude := [ValidationStarted];
      prelude := prelude + [if outcome.CompletedOutcome? then ValidationPassed else ValidationFailed];
      prelude := prelude + [if outcome.CompletedOutcome? then ExecutionCompleted
                            else if outcome.BlockedOutcome? then ExecutionBlocked else ExecutionFailed];
      if outcome.CompletedOutcome? {
        prelude := prelude + [ReleaseStarted, ReleaseCompleted];
      } else {
        prelude := prelude + [ReleaseBlocked];
      }
    }

    method Finalize(outcome: FinalOutcome) returns (ok: bool)
      modifies this
      ensures ok == Finalizable(old(Snapshot()), outcome)
      ensures Snapshot() == Apply(old(Snapshot()), FinalizeCall(outcome))
    {
      if Ended(status) || (status.WaitingApproval? && outcome.CompletedOutcome?) || !MayMove(status, OutcomeStatus(outcome)) {
        return false;
      }
      var prelude := BuildPrelude(outcome);
      events := events + (prelude + [CheckpointSealed]);
      status := OutcomeStatus(outcome);
      return true;
    }
  }

  // ---------------------------------------------------------------- the approval gate

  /** An approval was requested at `i` and none was granted since. */
  ghost predicate Open(events: seq<EventKind>, i: nat, n: nat)
    requires n <= |events|
  {
    i < n && events[i] == ApprovalRequested && forall k :: i < k < n ==> events[k] != ApprovalApproved
  }

  /** While a request is unanswered the execution waits, or has ended. */
  ghost predicate GateHolds(s: State)
  {
    && (forall i: nat :: Open(s.events, i, |s.events|) ==> s.status.WaitingApproval? || Ended(s.status))
    && (forall i: nat, j: nat :: i < j < |s.events| && s.events[j] == ExecutionCompleted ==> !Open(s.events, i, j))
  }

  lemma OpenExtends(events: seq<EventKind>, more: seq<EventKind>, i: nat, n: nat)
    requires n <= |events|
    ensures Open(events + more, i, n) <==> Open(events, i, n)
  {
    if Open(events + more, i, n) {
      forall k | i < k < n ensures events[k] != ApprovalApproved {
        assert (events + more)[k] == events[k];
      }
    }
    if Open(events, i, n) {
      forall k | i < k < n ensures (events + more)[k] != ApprovalApproved {
        assert (events + more)[k] == events[k];
      }
    }
  }

  /** Appending events that grant nothing and complete nothing. */
  lemma QuietKeeps(s: State, more: seq<EventKind>, status: Status, approvals: map<Str, Approval>)
    requires GateHolds(s) && ExecutionCompleted !in more
    requires ApprovalRequested in more || !status.WaitingApproval? || s.status.WaitingApproval? || Ended(status)
    requires Ended(status) || status.WaitingApproval? || (status == s.status && ApprovalRequested !in more)
    ensures GateHolds(s.(events := s.events + more, status := status, approvals := approvals))
  {
    var all := s.events + more;
    forall i: nat | Open(all, i, |all|) ensures status.WaitingApproval? || Ended(status) {
      if i < |s.events| {
        OpenExtends(s.events, more, i, |s.events|);
      } else {
        assert all[i] in more;
      }
    }
    forall j | |s.events| <= j < |all| ensures all[j] != ExecutionCompleted {
      assert all[j] in more;
    }
    forall i: nat, j: nat | i < j < |all| && all[j] == ExecutionCompleted ensures !Open(all, i, j) {
      OpenExtends(s.events, more, i, j);
    }
  }

  lemma QuietKeepsRows(s: State, approvals: map<Str, Approval>)
    requires GateHolds(s)
    ensures GateHolds(s.(approvals := approvals))
  {
  }

  lemma GrantKeeps(s: State, status: Status, approvals: map<Str, Approval>)
    requires GateHolds(s)
    ensures GateHolds(s.(events := s.events + [ApprovalApproved], status := status, approvals := approvals))
  {
    var all := s.events + [ApprovalApproved];
    forall i: nat ensures !Open(all, i, |all|) {
      assert all[|s.events|] == ApprovalApproved;
    }
    forall i: nat, j: nat | i < j < |all| && all[j] == ExecutionCompleted ensures !Open(all, i, j) {
      OpenExtends(s.events, [ApprovalApproved], i, j);
    }
  }

  lemma CompleteKeeps(s: State)
    requires GateHolds(s) && s.status.Running?
    ensures GateHolds(s.(events := s.events + FinalEvents(CompletedOutcome), status := Completed))
  {
    var more := FinalEvents(CompletedOutcome);
    var all := s.events + more;
    forall i: nat, j: nat | i < j < |all| && all[j] == ExecutionCompleted ensures !Open(all, i, j) {
      if j < |s.events| {
        OpenExtends(s.events, more, i, j);
      } else if i < |s.events| {
        if Open(all, i, j) {
          OpenExtends(s.events, more, i, |s.events|);
        }
      } else {
        assert all[i] == more[i - |s.events|];
      }
    }
  }

  lemma CallKeeps(s: State, call: Call)
    requires GateHolds(s)
    ensures GateHolds(Apply(s, call))
  {
    match call
    case RecordWork =>
      if !Ended(s.status) {
        QuietKeeps(s, [Work], s.status, s.approvals);
      }
    case RequestApprovalCall(id, requester, member, hash) =>
      if Requestable(s, id, member, hash) {
        QuietKeeps(s, [ApprovalRequested], WaitingApproval, Apply(s, call).approvals);
      }
    case DecideCall(id, actor, authorized, hash, allow) =>
      if Decidable(s, id, actor, authorized, hash) {
        if allow {
          GrantKeeps(s, Apply(s, call).status, Apply(s, call).approvals);
        } else {
          QuietKeeps(s, [ApprovalRejected], s.status, Apply(s, call).approvals);
        }
      }
    case DecideByIdCall(id, actor, authorized, allow) =>
      if DecidableById(s, id, actor, authorized) {
        QuietKeepsRows(s, Apply(s, call).approvals);
      }
    case FinalizeCall(o) =>
      if Finalizable(s, o) {
        if o.CompletedOutcome? {
          Moves(s.status, Completed);
          CompleteKeeps(s);
        } else {
          QuietKeeps(s, FinalEvents(o), OutcomeStatus(o), s.approvals);
        }
      }
  }

  lemma {:induction false} RunKeeps(start: State, calls: seq<Call>)
    requires Begins(start)
    ensures GateHolds(ApplyAll(start, calls))
  {
    if calls != [] {
      RunKeeps(start, calls[..|calls| - 1]);
      CallKeeps(ApplyAll(start, calls[..|calls| - 1]), calls[|calls| - 1]);
    }
  }

  /** Between a requested approval and a later completion there is a granted approval. */
  lemma ApprovalGate(start: State, calls: seq<Call>, i: nat, j: nat)
    requires Begins(start)
    requires var events := ApplyAll(start, calls).events;
      i < j < |events| && events[i] == ApprovalRequested && events[j] == ExecutionCompleted
    ensures exists k :: i < k < j && ApplyAll(start, calls).events[k] == ApprovalApproved
  {
    RunKeeps(start, calls);
    assert !Open(ApplyAll(start, calls).events, i, j);
  }

  // ---------------------------------------------------------------- what a completion leaves pending

  ghost predicate NonePending(s: State)
  {
    forall id :: !PendingIn(s, id)
  }

  ghost predicate OnlyPending(s: State, a: Str)
  {
    forall id :: PendingIn(s, id) ==> id == a
  }

  /** One grant lets a waiting execution complete whatever else is pending: it completes with no
      approval pending exactly when the granted one was the only one. */
  lemma GrantThenComplete(s: State, a: Str, actor: Str, authorized: bool, hash: Str)
    requires s.status.WaitingApproval? && Decidable(s, a, actor, authorized, hash)
    ensures var t := Apply(Apply(s, DecideCall(a, actor, authorized, hash, true)), FinalizeCall(CompletedOutcome));
      t.status.Completed? && (NonePending(t) <==> OnlyPending(s, a))
  {
    Moves(Running, Completed);
    var granted := Apply(s, DecideCall(a, actor, authorized, hash, true));
    var t := Apply(granted, FinalizeCall(CompletedOutcome));
    assert t.approvals == granted.approvals;
    forall id ensures PendingIn(t, id) <==> PendingIn(s, id) && id != a {
    }
  }

  lemma TwoCalls(s: State, c1: Call, c2: Call)
    ensures ApplyAll(s, [c1, c2]) == Apply(Apply(s, c1), c2)
  {
    var both := [c1, c2];
    assert both[..1] == [c1] && [c1][..0] == [];
    assert ApplyAll(s, [c1]) == Apply(s, c1);
  }

  /** The input: two requests, one grant. */
  lemma OneGrantAnswersAll(org: Str, id: Str, a: Str, b: Str, hash: Str, requester: Str, approver: Str)
    requires a != b && Hex.IsSha256Hex(hash) && requester != approver
    ensures var s := ApplyAll(Opened(org, id), [RequestApprovalCall(a, requester, true, hash), RequestApprovalCall(b, requester, true, hash)]);
      s.status.WaitingApproval? && Decidable(s, a, approver, true, hash) && PendingIn(s, b) && !OnlyPending(s, a)
  {
    Moves(Running, WaitingApproval);
    Moves(WaitingApproval, WaitingApproval);
    var c1, c2 := RequestApprovalCall(a, requester, true, hash), RequestApprovalCall(b, requester, true, hash);
    TwoCalls(Opened(org, id), c1, c2);
    assert PendingIn(ApplyAll(Opened(org, id), [c1, c2]), b);
  }

  /** The state after the first `k` calls. */
  function AfterCalls(start: State, calls: seq<Call>, k: nat): State
    requires k <= |calls|
  {
    ApplyAll(start, calls[..k])
  }

  lemma AfterNext(start: State, calls: seq<Call>, k: nat)
    requires k < |calls|
    ensures AfterCalls(start, calls, k + 1) == Apply(AfterCalls(start, calls, k), calls[k])
  {
    assert calls[..k + 1][..k] == calls[..k];
  }

  /** Call `k` completes the execution. */
  predicate Completes(start: State, calls: seq<Call>, k: nat)
    requires k < |calls|
  {
    !AfterCalls(start, calls, k).status.Completed? && AfterCalls(start, calls, k + 1).status.Completed?
  }

  ghost predicate CleanAt(start: State, calls: seq<Call>, k: nat)
    requires k <= |calls|
  {
    AfterCalls(start, calls, k).status.Completed? ==> NonePending(AfterCalls(start, calls, k))
  }

  /** At no point of the run is the execution completed with an approval pending. */
  ghost predicate AlwaysClean(start: State, calls: seq<Call>)
  {
    forall k: nat :: k <= |calls| ==> CleanAt(start, calls, k)
  }

  lemma SameRows(s: State, t: State)
    requires t.approvals == s.approvals
    ensures NonePending(s) <==> NonePending(t)
  {
    assert forall id :: PendingIn(s, id) <==> PendingIn(t, id);
  }

  /** Ended executions get no new requests, and a completion touches no approval. */
  lemma StaysClean(s: State, call: Call)
    requires Apply(s, call).status.Completed?
    ensures s.status.Completed? && NonePending(s) ==> NonePending(Apply(s, call))
    ensures !s.status.Completed? ==> Apply(s, call).approvals == s.approvals
  {
    var t := Apply(s, call);
    if s.status.Completed? && NonePending(s) {
      forall id ensures !PendingIn(t, id) {
        assert !PendingIn(s, id);
      }
    }
  }

  lemma {:induction false} CleanBefore(start: State, calls: seq<Call>, k: nat)
    requires Begins(start) && k <= |calls|
    requires forall j: nat :: j < |calls| && Completes(start, calls, j) ==> NonePending(AfterCalls(start, calls, j))
    ensures CleanAt(start, calls, k)
  {
    if k > 0 && AfterCalls(start, calls, k).status.Completed? {
      var s := AfterCalls(start, calls, k - 1);
      AfterNext(start, calls, k - 1);
      CleanBefore(start, calls, k - 1);
      StaysClean(s, calls[k - 1]);
      if !s.status.Completed? {
        assert Completes(start, calls, k - 1);
        SameRows(s, AfterCalls(start, calls, k));
      }
    }
  }

  /** A completed execution never has an approval pending exactly when the completing call was made
      with none pending. */
  lemma CleanExactly(start: State, calls: seq<Call>)
    requires Begins(start)
    ensures AlwaysClean(start, calls) <==>
      forall k: nat :: k < |calls| && Completes(start, calls, k) ==> NonePending(AfterCalls(start, calls, k))
  {
    if AlwaysClean(start, calls) {
      forall k: nat | k < |calls| && Completes(start, calls, k) ensures NonePending(AfterCalls(start, calls, k)) {
        AfterNext(start, calls, k);
        assert CleanAt(start, calls, k + 1);
        StaysClean(AfterCalls(start, calls, k), calls[k]);
        forall a ensures !PendingIn(AfterCalls(start, calls, k), a) {
          assert !PendingIn(AfterCalls(start, calls, k + 1), a);
        }
      }
    }
    if forall k: nat :: k < |calls| && Completes(start, calls, k) ==> NonePending(AfterCalls(start, calls, k)) {
      forall k: nat | k <= |calls| ensures CleanAt(start, calls, k) {
        CleanBefore(start, calls, k);
      }
    }
  }

  /** Every accepted request is made while none is pending. */
  ghost predicate OneAtATime(start: State, calls: seq<Call>)
  {
    forall k: nat :: k < |calls| ==> AskedAlone(AfterCalls(start, calls, k), calls[k])
  }

  ghost predicate AskedAlone(s: State, call: Call)
  {
    call.RequestApprovalCall? && Requestable(s, call.approvalId, call.member, call.artifactHash) ==> NonePending(s)
  }

  /** At most one approval is pending, and while it is the execution neither runs nor is completed. */
  ghost predicate Single(s: State)
  {
    && (forall a, b :: PendingIn(s, a) && PendingIn(s, b) ==> a == b)
    && (s.status.Created? || s.status.Running? || s.status.Completed? ==> NonePending(s))
  }

  lemma SingleStays(s: State, call: Call)
    requires Single(s) && AskedAlone(s, call)
    ensures Single(Apply(s, call))
  {
    var t := Apply(s, call);
    match call
    case RecordWork => assert forall a :: PendingIn(t, a) <==> PendingIn(s, a);
    case RequestApprovalCall(id, requester, member, hash) =>
      if Requestable(s, id, member, hash) {
        assert forall a :: PendingIn(t, a) <==> a == id || PendingIn(s, a);
      }
    case DecideCall(id, actor, authorized, hash, allow) =>
      assert forall a :: PendingIn(t, a) ==> PendingIn(s, a);
      if Decidable(s, id, actor, authorized, hash) {
        assert forall a :: PendingIn(t, a) ==> PendingIn(s, a) && a != id;
      }
    case DecideByIdCall(id, actor, authorized, allow) =>
      assert forall a :: PendingIn(t, a) ==> PendingIn(s, a);
    case FinalizeCall(o) =>
      assert forall a :: PendingIn(t, a) <==> PendingIn(s, a);
  }

  lemma {:induction false} SingleThroughout(start: State, calls: seq<Call>, k: nat)
    requires Begins(start) && k <= |calls| && OneAtATime(start, calls)
    ensures Single(AfterCalls(start, calls, k))
  {
    if k > 0 {
      SingleThroughout(start, calls, k - 1);
      AfterNext(start, calls, k - 1);
      SingleStays(AfterCalls(start, calls, k - 1), calls[k - 1]);
    }
  }

  /** Asking one approval at a time is enough. */
  lemma OneAtATimeIsClean(start: State, calls: seq<Call>)
    requires Begins(start) && OneAtATime(start, calls)
    ensures AlwaysClean(start, calls)
  {
    forall k: nat | k <= |calls| ensures CleanAt(start, calls, k) {
      SingleThroughout(start, calls, k);
    }
  }

  // ---------------------------------------------------------------- what releases a waiting execution

  ghost predicate AsksNothing(calls: seq<Call>)
  {
    forall k :: 0 <= k < |calls| ==> !calls[k].RequestApprovalCall?
  }

  ghost predicate Bound(s: State)
  {
    forall a :: a in s.approvals ==> s.approvals[a].artifactHash.Some? && Hex.IsSha256Hex(s.approvals[a].artifactHash.value)
  }

  lemma {:induction false} AlwaysBound(start: State, calls: seq<Call>)
    requires Begins(start)
    ensures Bound(ApplyAll(start, calls))
  {
    if calls != [] {
      AlwaysBound(start, calls[..|calls| - 1]);
    }
  }

  lemma {:induction false} Stranded(s: State, calls: seq<Call>)
    requires s.status.WaitingApproval? && NonePending(s) && AsksNothing(calls)
    ensures var t := ApplyAll(s, calls);
      NonePending(t) && (t.status.WaitingApproval? || t.status.FailedStatus? || t.status.Blocked?)
  {
    if calls != [] {
      var u, call := ApplyAll(s, calls[..|calls| - 1]), calls[|calls| - 1];
      Stranded(s, calls[..|calls| - 1]);
      assert !call.RequestApprovalCall?;
      assert forall a :: !PendingIn(u, a);
      SameRows(u, Apply(u, call));
    }
  }

  lemma Released(s: State, a: Str)
    requires s.status.WaitingApproval? && Bound(s) && PendingIn(s, a)
    ensures exists calls :: AsksNothing(calls) && ApplyAll(s, calls).status.Completed?
  {
    var hash, actor := s.approvals[a].artifactHash.value, s.approvals[a].requestedBy + [0];
    assert |actor| == |s.approvals[a].requestedBy| + 1;
    var c1, c2 := DecideCall(a, actor, true, hash, true), FinalizeCall(CompletedOutcome);
    GrantThenComplete(s, a, actor, true, hash);
    TwoCalls(s, c1, c2);
    assert AsksNothing([c1, c2]);
  }

  /** A waiting execution can still complete without a new request exactly when some approval is
      pending. A decision by id uses its approval up and releases nothing, not even when it grants. */
  lemma CompletableExactly(start: State, calls: seq<Call>)
    requires Begins(start) && ApplyAll(start, calls).status.WaitingApproval?
    ensures var s := ApplyAll(start, calls);
      (exists more :: AsksNothing(more) && ApplyAll(s, more).status.Completed?) <==> exists a :: PendingIn(s, a)
  {
    var s := ApplyAll(start, calls);
    AlwaysBound(start, calls);
    if a :| PendingIn(s, a) {
      Released(s, a);
    } else {
      assert NonePending(s);
      forall more | AsksNothing(more) ensures !ApplyAll(s, more).status.Completed? {
        Stranded(s, more);
      }
    }
  }

  /** The input: a request, and its grant by id. The execution waits with nothing pending. */
  lemma GrantByIdStrands(org: Str, id: Str, a: Str, hash: Str, requester: Str, approver: Str)
    requires Hex.IsSha256Hex(hash) && requester != approver
    ensures var s := ApplyAll(Opened(org, id), [RequestApprovalCall(a, requester, true, hash), DecideByIdCall(a, approver, true, true)]);
      s.status.WaitingApproval? && a in s.approvals && s.approvals[a].status.Approved? && NonePending(s)
  {
    Moves(Running, WaitingApproval);
    var c1, c2 := RequestApprovalCall(a, requester, true, hash), DecideByIdCall(a, approver, true, true);
    TwoCalls(Opened(org, id), c1, c2);
    var s := ApplyAll(Opened(org, id), [c1, c2]);
    assert s.approvals.Keys == {a};
    assert forall b :: !PendingIn(s, b);
  }

  // ---------------------------------------------------------------- one final entry

  /** Before the sealed event the execution is open; behind it there are only decisions. */
  ghost predicate SealShape(s: State)
  {
    if Ended(s.status)
    then exists m: nat :: m < |s.events| && s.events[m] == CheckpointSealed
           && (forall k :: 0 <= k < m ==> s.events[k] != CheckpointSealed)
           && (forall k :: m < k < |s.events| ==> s.events[k] == ApprovalApproved || s.events[k] == ApprovalRejected)
    else CheckpointSealed !in s.events
  }

  lemma SealShapeGrows(s: State, e: EventKind, status: Status, approvals: map<Str, Approval>)
    requires SealShape(s) && (Ended(status) <==> Ended(s.status)) && e != CheckpointSealed
    requires Ended(s.status) ==> e == ApprovalApproved || e == ApprovalRejected
    ensures SealShape(s.(events := s.events + [e], status := status, approvals := approvals))
  {
    if Ended(s.status) {
      var m: nat :| m < |s.events| && s.events[m] == CheckpointSealed
           && (forall k :: 0 <= k < m ==> s.events[k] != CheckpointSealed)
           && (forall k :: m < k < |s.events| ==> s.events[k] == ApprovalApproved || s.events[k] == ApprovalRejected);
      assert (s.events + [e])[m] == CheckpointSealed;
    }
  }

  lemma SealShapeStarts(s: State, o: FinalOutcome)
    requires SealShape(s) && !Ended(s.status)
    ensures SealShape(s.(events := s.events + FinalEvents(o), status := OutcomeStatus(o)))
  {
    var more := FinalEvents(o);
    var all := s.events + more;
    var m := |all| - 1;
    assert all[m] == more[|more| - 1];
    forall k | 0 <= k < m ensures all[k] != CheckpointSealed {
      if k < |s.events| {
        assert all[k] in s.events;
      } else {
        assert all[k] == more[k - |s.events|];
      }
    }
  }

  /** At most one seal, whatever is called: everything appended behind it is an approval decision,
      the one call that does not ask whether the execution is still open. */
  lemma {:induction false} SealedOnce(start: State, calls: seq<Call>)
    requires Begins(start)
    ensures SealShape(ApplyAll(start, calls))
  {
    if calls != [] {
      SealedOnce(start, calls[..|calls| - 1]);
      var s, call := ApplyAll(start, calls[..|calls| - 1]), calls[|calls| - 1];
      match call
      case RecordWork =>
        if !Ended(s.status) {
          SealShapeGrows(s, Work, s.status, s.approvals);
        }
      case RequestApprovalCall(a, requester, member, hash) =>
        if Requestable(s, a, member, hash) {
          SealShapeGrows(s, ApprovalRequested, WaitingApproval, Apply(s, call).approvals);
        }
      case DecideCall(a, actor, authorized, hash, allow) =>
        if Decidable(s, a, actor, authorized, hash) {
          SealShapeGrows(s, if allow then ApprovalApproved else ApprovalRejected, Apply(s, call).status, Apply(s, call).approvals);
        }
      case DecideByIdCall(a, actor, authorized, allow) =>
      case FinalizeCall(o) =>
        if Finalizable(s, o) {
          SealShapeStarts(s, o);
        }
    }
  }

  /** A call grows an ended execution exactly when it decides a pending approval. */
  lemma OnlyDecisionsFollow(s: State, call: Call)
    requires Ended(s.status)
    ensures Apply(s, call).events != s.events
       <==> call.DecideCall? && Decidable(s, call.approvalId, call.actor, call.authorized, call.artifactHash)
    ensures Apply(s, call).status == s.status
  {
    if call.DecideCall? && Decidable(s, call.approvalId, call.actor, call.authorized, call.artifactHash) {
      assert |Apply(s, call).events| == |s.events| + 1;
    }
  }
}
