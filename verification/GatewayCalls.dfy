/** From a request to its external call: which requests are let through, that nothing else is ever sent, and
    what one request does when nobody is in its way. */
module GatewayCalls {
  import opened Basics
  import opened Policy
  import opened Gateway
  import opened GatewayRuns
  import Hex

  // ---------------------------------------------------------------- policy

  /** The reasons to refuse, in the order they are looked at. */
  function Refusals(): seq<Reason>
  {
    [ConnectorDisabled, ClassificationBlocked, NotAllowedForSkill, ActorNotAuthorized, ApprovalMissing, ApprovalArtifactMismatch]
  }

  /** What a request is judged by. */
  datatype Case = Case(connector: Option<Connector>, classification: Classification, binding: Option<seq<Str>>, action: Str,
                       roleAllowed: bool, approval: Option<Approval>, requestedHash: Str)

  /** The fault is there, whatever else is wrong. */
  predicate Faulty(reason: Reason, q: Case)
  {
    match reason
    case ConnectorDisabled => q.connector.None? || !q.connector.value.enabled
    case ClassificationBlocked => q.connector.Some? && q.classification !in q.connector.value.allowedClasses
    case NotAllowedForSkill => q.binding.None? || (q.binding.value != [] && q.action !in q.binding.value)
    case ActorNotAuthorized => !q.roleAllowed
    case ApprovalMissing =>
      q.connector.Some? && q.connector.value.requiresApproval && (q.approval.None? || q.approval.value.status != Approved)
    case ApprovalArtifactMismatch =>
      && q.connector.Some? && q.connector.value.requiresApproval
      && (q.approval.None? || q.requestedHash == [] || q.approval.value.artifactHash != Some(q.requestedHash))
    case ConnectorAllowed => false
  }

  /** A request is refused for the first fault it has, and let through exactly when it has none. */
  lemma FirstFaultDecides(q: Case)
    ensures var verdict := EvaluateConnectorAction(q.connector, q.classification, q.binding, q.action, q.roleAllowed, q.approval, q.requestedHash);
      && (verdict == ConnectorAllowed <==> forall k :: 0 <= k < |Refusals()| ==> !Faulty(Refusals()[k], q))
      && (forall k :: 0 <= k < |Refusals()| ==>
            (verdict == Refusals()[k] <==> Faulty(Refusals()[k], q) && forall j :: 0 <= j < k ==> !Faulty(Refusals()[j], q)))
  {
    var rs := Refusals();
    assert rs[0] == ConnectorDisabled && rs[1] == ClassificationBlocked && rs[2] == NotAllowedForSkill;
    assert rs[3] == ActorNotAuthorized && rs[4] == ApprovalMissing && rs[5] == ApprovalArtifactMismatch && |rs| == 6;
    var verdict := EvaluateConnectorAction(q.connector, q.classification, q.binding, q.action, q.roleAllowed, q.approval, q.requestedHash);
    FirstFault(verdict, q);
  }

  lemma FirstFault(verdict: Reason, q: Case)
    requires verdict == EvaluateConnectorAction(q.connector, q.classification, q.binding, q.action, q.roleAllowed, q.approval, q.requestedHash)
    ensures !verdict.ConnectorAllowed? ==> Faulty(verdict, q)
    ensures verdict == ConnectorDisabled || !Faulty(ConnectorDisabled, q)
    ensures verdict in [ConnectorDisabled, ClassificationBlocked] || !Faulty(ClassificationBlocked, q)
    ensures verdict in [ConnectorDisabled, ClassificationBlocked, NotAllowedForSkill] || !Faulty(NotAllowedForSkill, q)
    ensures verdict in [ApprovalMissing, ApprovalArtifactMismatch, ConnectorAllowed] ==> !Faulty(ActorNotAuthorized, q)
    ensures verdict in [ApprovalArtifactMismatch, ConnectorAllowed] ==> !Faulty(ApprovalMissing, q)
    ensures verdict == ConnectorAllowed ==> !Faulty(ApprovalArtifactMismatch, q)
  {
  }

  /** Everything about the request is in order. */
  predicate Allows(connector: Connector, r: Request, seen: Seen, approval: Option<Approval>)
  {
    && connector.enabled && r.classification in connector.allowedClasses
    && seen.binding.Some? && (seen.binding.value == [] || r.what.action in seen.binding.value) && seen.roleAllowed
    && (connector.requiresApproval ==>
          approval.Some? && approval.value.status == Approved && approval.value.artifactHash == Some(r.what.artifactHash))
  }

  lemma AllowsExactly(connector: Connector, r: Request, seen: Seen, approval: Option<Approval>)
    requires r.what.artifactHash != []
    ensures var verdict := EvaluateConnectorAction(Some(connector), r.classification, seen.binding, r.what.action, seen.roleAllowed,
                                                   approval, r.what.artifactHash);
      verdict == ConnectorAllowed <==> Allows(connector, r, seen, approval)
  {
  }

  // ---------------------------------------------------------------- nothing else is sent

  /** The approval row that was looked at, if any. */
  predicate LookedAt(w: World, id: Option<Str>, approval: Option<Approval>)
  {
    match id
    case None => approval == None
    case Some(x) => x in w.approvals && approval == Some(w.approvals[x])
  }

  /** Step `n` checked this request against these rows, and everything was in order. */
  predicate CheckedAt(env: Env, connectors: map<Str, Connector>, steps: seq<Step>, n: nat, pass: Pass)
  {
    && n < |steps| && steps[n].CheckRequest? && steps[n].request == pass.request
    && var w := Run(env, Start(connectors), steps[..n]);
    && w.Some? && pass.request.what.connectorId in w.value.connectors
    && w.value.connectors[pass.request.what.connectorId] == pass.connector
    && LookedAt(w.value, steps[n].seen.approvalId, pass.approval) && Allows(pass.connector, pass.request, steps[n].seen, pass.approval)
  }

  ghost predicate WasChecked(env: Env, connectors: map<Str, Connector>, steps: seq<Step>, pass: Pass)
  {
    exists n: nat :: CheckedAt(env, connectors, steps, n, pass)
  }

  /** The call sends what was asked, through the connector that was checked. */
  predicate Sends(pass: Pass, s: Sent)
  {
    && s.what == pass.request.what && s.message == pass.request.message && s.classification == pass.request.classification
    && s.connector == pass.connector
  }

  ghost predicate SentChecked(env: Env, connectors: map<Str, Connector>, steps: seq<Step>, s: Sent)
  {
    exists pass :: WasChecked(env, connectors, steps, pass) && Sends(pass, s)
  }

  ghost predicate AllChecked(env: Env, connectors: map<Str, Connector>, steps: seq<Step>, w: World)
  {
    && (forall c :: c in w.clients && PassOf(w.clients[c]).Some? ==> WasChecked(env, connectors, steps, PassOf(w.clients[c]).value))
    && (forall i :: 0 <= i < |w.sent| ==> SentChecked(env, connectors, steps, w.sent[i]))
  }

  lemma CheckedStays(env: Env, connectors: map<Str, Connector>, steps: seq<Step>, pass: Pass)
    requires steps != [] && WasChecked(env, connectors, steps[..|steps| - 1], pass)
    ensures WasChecked(env, connectors, steps, pass)
  {
    var n: nat :| CheckedAt(env, connectors, steps[..|steps| - 1], n, pass);
    assert steps[..|steps| - 1][..n] == steps[..n];
    assert CheckedAt(env, connectors, steps, n, pass);
  }

  lemma SentStays(env: Env, connectors: map<Str, Connector>, steps: seq<Step>, s: Sent)
    requires steps != [] && SentChecked(env, connectors, steps[..|steps| - 1], s)
    ensures SentChecked(env, connectors, steps, s)
  {
    var pass :| WasChecked(env, connectors, steps[..|steps| - 1], pass) && Sends(pass, s);
    CheckedStays(env, connectors, steps, pass);
  }

  lemma HashNotEmpty(s: Str)
    requires Hex.IsSha256Hex(s)
    ensures s != []
  {
  }

  /** A client goes on with a request only from its check. */
  lemma PassIsChecked(env: Env, w: World, step: Step, v: World, c: Client)
    requires Next(env, w, step) == Some(v) && c in v.clients && PassOf(v.clients[c]).Some?
    requires !(c in w.clients && PassOf(w.clients[c]) == PassOf(v.clients[c]))
    ensures var pass := PassOf(v.clients[c]).value;
      && step.CheckRequest? && step.request == pass.request && pass.request.what.connectorId in w.connectors
      && w.connectors[pass.request.what.connectorId] == pass.connector
      && LookedAt(w, step.seen.approvalId, pass.approval) && Allows(pass.connector, pass.request, step.seen, pass.approval)
  {
    if step.CheckRequest? {
      HashNotEmpty(step.request.what.artifactHash);
      AllowsExactly(w.connectors[step.request.what.connectorId], step.request, step.seen, Picked(w, step.seen.approvalId));
    }
  }

  lemma CheckedNow(env: Env, connectors: map<Str, Connector>, steps: seq<Step>, c: Client)
    requires steps != [] && Run(env, Start(connectors), steps).Some?
    requires var w, v := Run(env, Start(connectors), steps[..|steps| - 1]).value, Run(env, Start(connectors), steps).value;
      c in v.clients && PassOf(v.clients[c]).Some? && !(c in w.clients && PassOf(w.clients[c]) == PassOf(v.clients[c]))
    ensures WasChecked(env, connectors, steps, PassOf(Run(env, Start(connectors), steps).value.clients[c]).value)
  {
    var w, v := Run(env, Start(connectors), steps[..|steps| - 1]).value, Run(env, Start(connectors), steps).value;
    PassIsChecked(env, w, steps[|steps| - 1], v, c);
    assert CheckedAt(env, connectors, steps, |steps| - 1, PassOf(v.clients[c]).value);
  }

  /** Only an owner's call sends. */
  lemma SentIsCalled(env: Env, w: World, step: Step, v: World)
    requires Next(env, w, step) == Some(v)
    ensures v.sent == w.sent || (
      && step.Call? && step.c in w.clients && PassOf(w.clients[step.c]).Some?
      && |v.sent| == |w.sent| + 1 && v.sent[..|w.sent|] == w.sent
      && Sends(PassOf(w.clients[step.c]).value, v.sent[|w.sent|]))
  {
  }

  lemma {:induction false} EverythingChecked(env: Env, connectors: map<Str, Connector>, steps: seq<Step>)
    requires Run(env, Start(connectors), steps).Some?
    ensures AllChecked(env, connectors, steps, Run(env, Start(connectors), steps).value)
    decreases |steps|
  {
    if steps != [] {
      var rest, step := steps[..|steps| - 1], steps[|steps| - 1];
      var w, v := Run(env, Start(connectors), rest).value, Run(env, Start(connectors), steps).value;
      EverythingChecked(env, connectors, rest);
      forall c | c in v.clients && PassOf(v.clients[c]).Some?
        ensures WasChecked(env, connectors, steps, PassOf(v.clients[c]).value)
      {
        if c in w.clients && PassOf(w.clients[c]) == PassOf(v.clients[c]) {
          CheckedStays(env, connectors, steps, PassOf(v.clients[c]).value);
        } else {
          CheckedNow(env, connectors, steps, c);
        }
      }
      SentIsCalled(env, w, step, v);
      forall i | 0 <= i < |v.sent| ensures SentChecked(env, connectors, steps, v.sent[i]) {
        if i < |w.sent| {
          assert v.sent[i] == w.sent[i];
          SentStays(env, connectors, steps, w.sent[i]);
        } else {
          assert Sends(PassOf(w.clients[step.c]).value, v.sent[i]) && SentChecked(env, connectors, rest, v.sent[i]);
          SentStays(env, connectors, steps, v.sent[i]);
        }
      }
    }
  }

  /** Behind every call of every run stands a step that checked this very request, its class, action, actor and
      approval, against the rows as they then were, and found everything in order. */
  lemma SentWasChecked(env: Env, connectors: map<Str, Connector>, steps: seq<Step>, i: nat)
    requires Run(env, Start(connectors), steps).Some? && i < |Run(env, Start(connectors), steps).value.sent|
    ensures SentChecked(env, connectors, steps, Run(env, Start(connectors), steps).value.sent[i])
  {
    EverythingChecked(env, connectors, steps);
  }

  // ---------------------------------------------------------------- who may decide

  /** The check stands on the approval's row: another's request in this organization and, unless the check names
      only the approval, for this execution and these bytes. */
  predicate MayDecide(step: Step, a: Approval)
  {
    match step
    case CheckDecision(_, org, exec, _, actor, hash, _, authorized) =>
      && authorized && a.requestedBy != actor && a.organizationId == org && a.executionId == exec
      && a.artifactHash == Some(hash) && Hex.IsSha256Hex(hash)
    case CheckDecisionById(_, org, _, actor, _, authorized) => authorized && a.requestedBy != actor && a.organizationId == org
    case _ => false
  }

  /** In every run a check of a decision goes through exactly for an idle client and a row it stands on. */
  lemma ChecksExactly(env: Env, connectors: map<Str, Connector>, steps: seq<Step>, step: Step)
    requires Run(env, Start(connectors), steps).Some? && (step.CheckDecision? || step.CheckDecisionById?)
    ensures var w := Run(env, Start(connectors), steps).value;
      Run(env, Start(connectors), steps + [step]).Some? <==>
        step.c !in w.clients && step.approvalId in w.approvals && MayDecide(step, w.approvals[step.approvalId])
  {
    assert (steps + [step])[..|steps|] == steps;
  }

  // ---------------------------------------------------------------- one request, nobody in its way

  /** From check to report. */
  function OneRequest(c: Client, r: Request, seen: Seen, rowId: Str, outcome: Outcome): seq<Step>
  {
    [CheckRequest(c, r, seen), InsertRow(c, rowId), CommitRow(c), MarkExecuting(c), Call(c, outcome), Finish(c)]
  }

  /** A well-formed request from an idle client, for an action nobody asked for or is asking for. */
  ghost predicate Unhindered(env: Env, w: World, c: Client, r: Request, seen: Seen)
  {
    && c !in w.clients && InputOk(env, w, r) && PickOk(w, r.what, seen.approvalId) && env.key(r.what) !in w.actions
    && forall d :: d in w.clients && w.clients[d].Inserted? ==> env.key(w.clients[d].pass.request.what) != env.key(r.what)
  }

  function RunFrom(env: Env, w: World, steps: seq<Step>): Option<World>
    decreases |steps|
  {
    if steps == [] then Some(w)
    else
      match Next(env, w, steps[0])
      case None => None
      case Some(v) => RunFrom(env, v, steps[1..])
  }

  lemma {:induction false} RunsOn(env: Env, start: World, first: seq<Step>, more: seq<Step>)
    requires Run(env, start, first).Some?
    ensures Run(env, start, first + more) == RunFrom(env, Run(env, start, first).value, more)
    decreases |more|
  {
    if more == [] {
      assert first + more == first;
    } else {
      var next := first + [more[0]];
      assert next[..|next| - 1] == first && next + more[1..] == first + more;
      if Run(env, start, next).Some? {
        RunsOn(env, start, next, more[1..]);
      } else {
        Stuck(env, start, next, more[1..]);
      }
    }
  }

  lemma {:induction false} Stuck(env: Env, start: World, first: seq<Step>, more: seq<Step>)
    requires Run(env, start, first).None?
    ensures Run(env, start, first + more).None?
    decreases |more|
  {
    if more == [] {
      assert first + more == first;
    } else {
      var rest := more[..|more| - 1];
      Stuck(env, start, first, rest);
      assert (first + more)[..|first + more| - 1] == first + rest;
    }
  }

  /** What a finished request leaves: one call, and its row with the outcome. */
  ghost predicate Served(env: Env, w: World, v: World, r: Request, connector: Connector, approval: Option<Approval>, rowId: Str, outcome: Outcome)
  {
    var k := env.key(r.what);
    && v.connectors == w.connectors && v.approvals == w.approvals && v.clients == w.clients
    && v.sent == w.sent + [Sent(rowId, r.what, r.message, r.classification, connector)]
    && k in v.actions && v.actions == w.actions[k := v.actions[k]]
    && v.actions[k].id == rowId && v.actions[k].what == r.what && v.actions[k].requestedBy == r.actorId
    && (approval.Some? && approval.value.status == Approved ==> v.actions[k].approvedBy == approval.value.decidedBy)
    && (approval.None? || approval.value.status != Approved ==> v.actions[k].approvedBy == None)
    && Reports(outcome, v.actions[k].status)
  }

  lemma CheckPasses(env: Env, w: World, c: Client, r: Request, seen: Seen)
    requires Unhindered(env, w, c, r, seen) && Allows(w.connectors[r.what.connectorId], r, seen, Picked(w, seen.approvalId))
    ensures Next(env, w, CheckRequest(c, r, seen))
         == Some(Put(w, c, Cleared(Pass(r, w.connectors[r.what.connectorId], Picked(w, seen.approvalId)))))
  {
    HashNotEmpty(r.what.artifactHash);
    AllowsExactly(w.connectors[r.what.connectorId], r, seen, Picked(w, seen.approvalId));
  }

  lemma RowIsTaken(env: Env, w: World, c: Client, pass: Pass, rowId: Str)
    requires env.key(pass.request.what) !in w.actions
    requires forall d :: d in w.clients && w.clients[d].Inserted? ==> env.key(w.clients[d].pass.request.what) != env.key(pass.request.what)
    ensures var k, row := env.key(pass.request.what), ActionRow(rowId, pass.request.what, pass.request.actorId, ApprovedBy(pass.approval), Authorized);
      && Next(env, Put(w, c, Cleared(pass)), InsertRow(c, rowId)) == Some(Put(w, c, Inserted(pass, row)))
      && Next(env, Put(w, c, Inserted(pass, row)), CommitRow(c))
      == Some(Put(w.(actions := w.actions[k := row]), c, Owner(pass, rowId, Begun)))
  {
    var cleared := Put(w, c, Cleared(pass));
    assert !Contended(env, cleared, c, env.key(pass.request.what));
    var row := ActionRow(rowId, pass.request.what, pass.request.actorId, ApprovedBy(pass.approval), Authorized);
    assert Put(cleared, c, Inserted(pass, row)) == Put(w, c, Inserted(pass, row));
    var committed := w.(actions := w.actions[env.key(pass.request.what) := row]);
    assert Put(w, c, Inserted(pass, row)).clients[c := Owner(pass, rowId, Begun)] == committed.clients[c := Owner(pass, rowId, Begun)];
  }

  lemma OwnerMarks(env: Env, w: World, c: Client, pass: Pass, rowId: Str)
    requires env.key(pass.request.what) in w.actions && pass.connector.configured
    ensures Next(env, Put(w, c, Owner(pass, rowId, Begun)), MarkExecuting(c))
         == Some(Put(SetStatus(w, env.key(pass.request.what), Executing), c, Owner(pass, rowId, Calling)))
  {
    assert w.clients[c := Owner(pass, rowId, Begun)][c := Owner(pass, rowId, Calling)] == w.clients[c := Owner(pass, rowId, Calling)];
  }

  lemma OwnerCalls(env: Env, w: World, c: Client, pass: Pass, rowId: Str, outcome: Outcome)
    requires env.key(pass.request.what) in w.actions
    ensures var s := Sent(rowId, pass.request.what, pass.request.message, pass.request.classification, pass.connector);
      Next(env, Put(w, c, Owner(pass, rowId, Calling)), Call(c, outcome))
      == Some(Put(w.(sent := w.sent + [s]), c, Owner(pass, rowId, Called(outcome))))
  {
    assert w.clients[c := Owner(pass, rowId, Calling)][c := Owner(pass, rowId, Called(outcome))]
        == w.clients[c := Owner(pass, rowId, Called(outcome))];
  }

  lemma OwnerReports(env: Env, w: World, c: Client, pass: Pass, rowId: Str, outcome: Outcome)
    requires c !in w.clients && env.key(pass.request.what) in w.actions
    ensures Next(env, Put(w, c, Owner(pass, rowId, Called(outcome))), Finish(c))
         == Some(SetStatus(w, env.key(pass.request.what), Verdict(outcome)))
  {
    assert w.clients[c := Owner(pass, rowId, Called(outcome))] - {c} == w.clients;
  }

  /** The last three steps, for an owner whose row is committed. */
  lemma OwnerFinishes(env: Env, w: World, c: Client, pass: Pass, rowId: Str, outcome: Outcome)
    returns (w1: World, w2: World, w3: World)
    requires c !in w.clients && env.key(pass.request.what) in w.actions && pass.connector.configured
    ensures Next(env, Put(w, c, Owner(pass, rowId, Begun)), MarkExecuting(c)) == Some(w1)
    ensures Next(env, w1, Call(c, outcome)) == Some(w2) && Next(env, w2, Finish(c)) == Some(w3)
    ensures var k := env.key(pass.request.what);
      && w3.connectors == w.connectors && w3.approvals == w.approvals && w3.clients == w.clients
      && w3.sent == w.sent + [Sent(rowId, pass.request.what, pass.request.message, pass.request.classification, pass.connector)]
      && w3.actions == w.actions[k := w.actions[k].(status := Verdict(outcome))]
  {
    var k := env.key(pass.request.what);
    var executing := SetStatus(w, k, Executing);
    var s := Sent(rowId, pass.request.what, pass.request.message, pass.request.classification, pass.connector);
    var called := executing.(sent := executing.sent + [s]);
    w1, w2, w3 := Put(executing, c, Owner(pass, rowId, Calling)), Put(called, c, Owner(pass, rowId, Called(outcome))), SetStatus(called, k, Verdict(outcome));
    OwnerMarks(env, w, c, pass, rowId);
    OwnerCalls(env, executing, c, pass, rowId, outcome);
    OwnerReports(env, called, c, pass, rowId, outcome);
  }

  /** A request that is in order and that nobody hinders makes its one call and reports what came of it. */
  lemma RequestIsServed(env: Env, start: World, first: seq<Step>, w: World, c: Client, r: Request, seen: Seen, rowId: Str, outcome: Outcome)
    requires Run(env, start, first) == Some(w)
    requires Unhindered(env, w, c, r, seen) && w.connectors[r.what.connectorId].configured
    requires Allows(w.connectors[r.what.connectorId], r, seen, Picked(w, seen.approvalId))
    ensures var v := Run(env, start, first + OneRequest(c, r, seen, rowId, outcome));
      v.Some? && Served(env, w, v.value, r, w.connectors[r.what.connectorId], Picked(w, seen.approvalId), rowId, outcome)
  {
    var connector, approval, k := w.connectors[r.what.connectorId], Picked(w, seen.approvalId), env.key(r.what);
    var pass := Pass(r, connector, approval);
    var row := ActionRow(rowId, r.what, r.actorId, ApprovedBy(approval), Authorized);
    CheckPasses(env, w, c, r, seen);
    RowIsTaken(env, w, c, pass, rowId);
    var committed := w.(actions := w.actions[k := row]);
    var w1, w2, w3 := OwnerFinishes(env, committed, c, pass, rowId, outcome);
    SixSteps(env, w, OneRequest(c, r, seen, rowId, outcome), Put(w, c, Cleared(pass)), Put(w, c, Inserted(pass, row)),
             Put(committed, c, Owner(pass, rowId, Begun)), w1, w2, w3);
    assert w3.actions == w.actions[k := w3.actions[k]];
    RunsOn(env, start, first, OneRequest(c, r, seen, rowId, outcome));
  }

  lemma SixSteps(env: Env, w: World, steps: seq<Step>, w1: World, w2: World, w3: World, w4: World, w5: World, w6: World)
    requires |steps| == 6 && Next(env, w, steps[0]) == Some(w1) && Next(env, w1, steps[1]) == Some(w2)
    requires Next(env, w2, steps[2]) == Some(w3) && Next(env, w3, steps[3]) == Some(w4)
    requires Next(env, w4, steps[4]) == Some(w5) && Next(env, w5, steps[5]) == Some(w6)
    ensures RunFrom(env, w, steps) == Some(w6)
  {
    assert RunFrom(env, w5, steps[5..]) == Some(w6);
    assert RunFrom(env, w4, steps[4..]) == Some(w6);
    assert RunFrom(env, w3, steps[3..]) == Some(w6);
    assert RunFrom(env, w2, steps[2..]) == Some(w6);
    assert RunFrom(env, w1, steps[1..]) == Some(w6);
  }
}
