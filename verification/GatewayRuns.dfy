/** What stands behind the gateway's calls, told from the steps of a run: which connector row was checked,
    who decided what, and how a finished row ended. */
module GatewayRuns {
  import opened Basics
  import opened Policy
  import opened HashFormat
  import opened Gateway
  import Hex
  import Utf8

  // ---------------------------------------------------------------- decisions

  /** The client that takes the step. */
  function ClientOf(step: Step): Option<Client>
  {
    match step
    case Configure(_) => None
    case RequestApproval(_) => None
    case CheckDecision(c, _, _, _, _, _, _, _) => Some(c)
    case CheckDecisionById(c, _, _, _, _, _) => Some(c)
    case ApplyDecision(c) => Some(c)
    case CheckRequest(c, _, _) => Some(c)
    case InsertRow(c, _) => Some(c)
    case CommitRow(c) => Some(c)
    case FailUnconfigured(c) => Some(c)
    case MarkExecuting(c) => Some(c)
    case Call(c, _) => Some(c)
    case Finish(c) => Some(c)
    case Stop(c) => Some(c)
  }

  /** Step `m` is the client's last before step `n`. */
  predicate LastOf(steps: seq<Step>, n: nat, c: Client, m: nat)
  {
    && m < n <= |steps| && ClientOf(steps[m]) == Some(c)
    && forall k :: m < k < n ==> ClientOf(steps[k]) != Some(c)
  }

  /** The check of a decision, on either route, by an authorized actor. */
  predicate Checks(step: Step, id: Str, actor: Str, allow: bool)
  {
    match step
    case CheckDecision(_, _, _, i, a, _, allowed, authorized) => i == id && a == actor && allowed == allow && authorized
    case CheckDecisionById(_, _, i, a, allowed, authorized) => i == id && a == actor && allowed == allow && authorized
    case _ => false
  }

  predicate PendingBefore(env: Env, connectors: map<Str, Connector>, steps: seq<Step>, n: nat, id: Str)
    requires n <= |steps|
  {
    var w := Run(env, Start(connectors), steps[..n]);
    w.Some? && id in w.value.approvals && w.value.approvals[id].status.Pending?
  }

  /** Step `n` applies a decision on a pending approval, which the same client checked last. */
  ghost predicate Decides(env: Env, connectors: map<Str, Connector>, steps: seq<Step>, n: nat, id: Str, actor: Str, allow: bool)
  {
    && n < |steps| && steps[n].ApplyDecision? && PendingBefore(env, connectors, steps, n, id)
    && exists m: nat :: LastOf(steps, n, steps[n].c, m) && Checks(steps[m], id, actor, allow)
  }

  ghost predicate WasDecided(env: Env, connectors: map<Str, Connector>, steps: seq<Step>, id: Str, actor: Str, allow: bool)
  {
    exists n: nat :: Decides(env, connectors, steps, n, id, actor, allow)
  }

  /** The row says that this actor granted, or denied. */
  predicate Says(w: World, id: Str, actor: Str, allow: bool)
  {
    && id in w.approvals && w.approvals[id].decidedBy == Some(actor)
    && (if allow then w.approvals[id].status.Approved? else w.approvals[id].status.Denied?)
  }

  /** A client that decides does so on its last step, the check. */
  ghost predicate ChecksKnown(steps: seq<Step>, w: World)
  {
    forall c :: c in w.clients && w.clients[c].Deciding? ==>
      exists m: nat :: LastOf(steps, |steps|, c, m) && Checks(steps[m], w.clients[c].approvalId, w.clients[c].actor, w.clients[c].allow)
  }

  lemma LastGrows(steps: seq<Step>, c: Client, m: nat)
    requires steps != [] && LastOf(steps[..|steps| - 1], |steps| - 1, c, m) && ClientOf(steps[|steps| - 1]) != Some(c)
    ensures LastOf(steps, |steps|, c, m)
  {
    forall k | m < k < |steps| ensures ClientOf(steps[k]) != Some(c) {
      assert k < |steps| - 1 ==> steps[..|steps| - 1][k] == steps[k];
    }
  }

  /** A step leaves the phases of other clients, and begins a decision only by its check. */
  lemma PhasesKept(env: Env, w: World, step: Step, v: World)
    requires Next(env, w, step) == Some(v)
    ensures forall c :: ClientOf(step) != Some(c) ==> (c in v.clients <==> c in w.clients) && (c in w.clients ==> v.clients[c] == w.clients[c])
    ensures forall c :: ClientOf(step) == Some(c) && c in v.clients && v.clients[c].Deciding? ==>
      Checks(step, v.clients[c].approvalId, v.clients[c].actor, v.clients[c].allow)
    ensures forall id, actor, allow :: Checks(step, id, actor, allow) ==>
      var c := ClientOf(step).value;
      c in v.clients && v.clients[c].Deciding? && v.clients[c].approvalId == id && v.clients[c].actor == actor && v.clients[c].allow == allow
  {
  }

  lemma {:induction false} ChecksAreKnown(env: Env, connectors: map<Str, Connector>, steps: seq<Step>)
    requires Run(env, Start(connectors), steps).Some?
    ensures ChecksKnown(steps, Run(env, Start(connectors), steps).value)
  {
    if steps != [] {
      var rest, step := steps[..|steps| - 1], steps[|steps| - 1];
      var w, v := Run(env, Start(connectors), rest).value, Run(env, Start(connectors), steps).value;
      ChecksAreKnown(env, connectors, rest);
      PhasesKept(env, w, step, v);
      forall c | c in v.clients && v.clients[c].Deciding?
        ensures exists m: nat :: LastOf(steps, |steps|, c, m) && Checks(steps[m], v.clients[c].approvalId, v.clients[c].actor, v.clients[c].allow)
      {
        if ClientOf(step) == Some(c) {
          assert LastOf(steps, |steps|, c, |steps| - 1);
        } else {
          var m: nat :| LastOf(rest, |rest|, c, m) && Checks(rest[m], w.clients[c].approvalId, w.clients[c].actor, w.clients[c].allow);
          LastGrows(steps, c, m);
        }
      }
    }
  }

  /** Between its check and its next step the client keeps deciding. */
  lemma {:induction false} StillDeciding(env: Env, connectors: map<Str, Connector>, steps: seq<Step>, c: Client, m: nat, id: Str, actor: Str,
                                         allow: bool)
    requires Run(env, Start(connectors), steps).Some? && LastOf(steps, |steps|, c, m) && Checks(steps[m], id, actor, allow)
    ensures var w := Run(env, Start(connectors), steps).value;
      c in w.clients && w.clients[c].Deciding? && w.clients[c].approvalId == id && w.clients[c].actor == actor && w.clients[c].allow == allow
    decreases |steps|
  {
    var rest, step := steps[..|steps| - 1], steps[|steps| - 1];
    PhasesKept(env, Run(env, Start(connectors), rest).value, step, Run(env, Start(connectors), steps).value);
    if m < |steps| - 1 {
      assert forall k :: 0 <= k < |rest| ==> rest[k] == steps[k];
      StillDeciding(env, connectors, rest, c, m, id, actor, allow);
    }
  }

  lemma DecidedOneMore(env: Env, connectors: map<Str, Connector>, steps: seq<Step>, id: Str, actor: Str, allow: bool)
    requires steps != []
    ensures var rest := steps[..|steps| - 1];
      WasDecided(env, connectors, steps, id, actor, allow) <==>
        WasDecided(env, connectors, rest, id, actor, allow) || Decides(env, connectors, steps, |rest|, id, actor, allow)
  {
    var rest := steps[..|steps| - 1];
    forall n: nat | n < |rest|
      ensures Decides(env, connectors, steps, n, id, actor, allow) <==> Decides(env, connectors, rest, n, id, actor, allow)
    {
      assert rest[..n] == steps[..n] && rest[n] == steps[n];
      forall m: nat, c: Client ensures LastOf(steps, n, c, m) <==> LastOf(rest, n, c, m) {
        assert forall k :: 0 <= k < n ==> rest[k] == steps[k];
      }
    }
    if n: nat :| Decides(env, connectors, rest, n, id, actor, allow) {
      assert Decides(env, connectors, steps, n, id, actor, allow);
    }
    if WasDecided(env, connectors, steps, id, actor, allow) {
      var n: nat :| Decides(env, connectors, steps, n, id, actor, allow);
      assert n < |rest| ==> Decides(env, connectors, rest, n, id, actor, allow);
    }
  }

  /** What one step writes on approvals: a decision that was checked, on a pending one. */
  lemma DecisionWrites(env: Env, connectors: map<Str, Connector>, steps: seq<Step>, id: Str, actor: Str, allow: bool)
    requires steps != [] && Run(env, Start(connectors), steps).Some?
    ensures var w, v := Run(env, Start(connectors), steps[..|steps| - 1]).value, Run(env, Start(connectors), steps).value;
      Says(v, id, actor, allow) <==> Says(w, id, actor, allow) || Decides(env, connectors, steps, |steps| - 1, id, actor, allow)
  {
    var rest, step := steps[..|steps| - 1], steps[|steps| - 1];
    var w, v := Run(env, Start(connectors), rest).value, Run(env, Start(connectors), steps).value;
    RunKeeps(env, connectors, rest);
    StepKeeps(env, w, step);
    ChecksAreKnown(env, connectors, rest);
    if step.ApplyDecision? {
      Applied(env, connectors, steps, id, actor, allow);
    } else {
      OnlyDecisions(env, w, step, v, id);
    }
  }

  lemma OnlyDecisions(env: Env, w: World, step: Step, v: World, id: Str)
    requires Next(env, w, step) == Some(v) && !step.ApplyDecision?
    ensures id in w.approvals ==> id in v.approvals && v.approvals[id] == w.approvals[id]
    ensures id in v.approvals && id !in w.approvals ==> v.approvals[id].status.Pending?
  {
  }

  lemma Applied(env: Env, connectors: map<Str, Connector>, steps: seq<Step>, id: Str, actor: Str, allow: bool)
    requires steps != [] && steps[|steps| - 1].ApplyDecision? && Run(env, Start(connectors), steps).Some?
    requires var w := Run(env, Start(connectors), steps[..|steps| - 1]).value;
      Inv(env, w) && ChecksKnown(steps[..|steps| - 1], w)
    ensures var w, v := Run(env, Start(connectors), steps[..|steps| - 1]).value, Run(env, Start(connectors), steps).value;
      Says(v, id, actor, allow) <==> Says(w, id, actor, allow) || Decides(env, connectors, steps, |steps| - 1, id, actor, allow)
  {
    var rest, c := steps[..|steps| - 1], steps[|steps| - 1].c;
    var w := Run(env, Start(connectors), rest).value;
    var p := w.clients[c];
    assert PhaseOk(env, w, p);
    AppliedExactly(env, connectors, steps, id, actor, allow);
  }

  /** The applied decision is the checked one. */
  lemma AppliedExactly(env: Env, connectors: map<Str, Connector>, steps: seq<Step>, id: Str, actor: Str, allow: bool)
    requires steps != [] && steps[|steps| - 1].ApplyDecision? && Run(env, Start(connectors), steps).Some?
    requires ChecksKnown(steps[..|steps| - 1], Run(env, Start(connectors), steps[..|steps| - 1]).value)
    ensures var w, c := Run(env, Start(connectors), steps[..|steps| - 1]).value, steps[|steps| - 1].c;
      && c in w.clients && w.clients[c].Deciding?
      && (Decides(env, connectors, steps, |steps| - 1, id, actor, allow) <==>
            && id in w.approvals && w.approvals[id].status.Pending?
            && w.clients[c].approvalId == id && w.clients[c].actor == actor && w.clients[c].allow == allow)
  {
    var rest, c, n := steps[..|steps| - 1], steps[|steps| - 1].c, |steps| - 1;
    var w := Run(env, Start(connectors), rest).value;
    assert steps[..n] == rest;
    assert forall k :: 0 <= k < n ==> rest[k] == steps[k];
    if m: nat :| LastOf(steps, n, c, m) && Checks(steps[m], id, actor, allow) {
      assert LastOf(rest, |rest|, c, m);
      StillDeciding(env, connectors, rest, c, m, id, actor, allow);
    }
    var m: nat :| LastOf(rest, |rest|, c, m) && Checks(rest[m], w.clients[c].approvalId, w.clients[c].actor, w.clients[c].allow);
    assert LastOf(steps, n, c, m);
  }

  /** In every run an approval is granted, or denied, by an actor exactly when some step applied that actor's
      decision on it while it was pending, the client's last step before being the check with this answer. */
  lemma {:induction false} DecidedExactly(env: Env, connectors: map<Str, Connector>, steps: seq<Step>, id: Str, actor: Str, allow: bool)
    requires Run(env, Start(connectors), steps).Some?
    ensures Says(Run(env, Start(connectors), steps).value, id, actor, allow) <==> WasDecided(env, connectors, steps, id, actor, allow)
    decreases |steps|
  {
    if steps != [] {
      DecidedExactly(env, connectors, steps[..|steps| - 1], id, actor, allow);
      DecidedOneMore(env, connectors, steps, id, actor, allow);
      DecisionWrites(env, connectors, steps, id, actor, allow);
    }
  }

  /** Granted, or denied, exactly by such a step; still pending exactly without one. */
  lemma ApprovalExactly(env: Env, connectors: map<Str, Connector>, steps: seq<Step>, id: Str)
    requires Run(env, Start(connectors), steps).Some? && id in Run(env, Start(connectors), steps).value.approvals
    ensures var a := Run(env, Start(connectors), steps).value.approvals[id];
      && (a.status.Approved? <==> exists actor :: WasDecided(env, connectors, steps, id, actor, true))
      && (a.status.Denied? <==> exists actor :: WasDecided(env, connectors, steps, id, actor, false))
  {
    RunKeeps(env, connectors, steps);
    var w := Run(env, Start(connectors), steps).value;
    forall actor, allow ensures Says(w, id, actor, allow) <==> WasDecided(env, connectors, steps, id, actor, allow) {
      DecidedExactly(env, connectors, steps, id, actor, allow);
    }
    var a := w.approvals[id];
    assert a.status.Approved? ==> Says(w, id, a.decidedBy.value, true);
    assert a.status.Denied? ==> Says(w, id, a.decidedBy.value, false);
  }

  // ---------------------------------------------------------------- how a row ends

  /** What the row says of the call's outcome. */
  predicate Reports(outcome: Outcome, status: ActionStatus)
  {
    || (outcome.Success? && status.Succeeded?)
    || (outcome.Definite? && status.Failed?)
    || (outcome.Ambiguous? && status.NeedsReview?)
  }

  predicate Owned(env: Env, connectors: map<Str, Connector>, steps: seq<Step>, n: nat, c: Client, k: Key)
    requires n <= |steps|
  {
    var w := Run(env, Start(connectors), steps[..n]);
    w.Some? && c in w.value.clients && w.value.clients[c].Owner? && env.key(w.value.clients[c].pass.request.what) == k
  }

  /** Step `n` ends the row: the client that owns it reports the outcome of its last step, the call, or gives
      up without one. */
  ghost predicate EndsRow(env: Env, connectors: map<Str, Connector>, steps: seq<Step>, n: nat, k: Key, status: ActionStatus)
  {
    && n < |steps| && (steps[n].Finish? || steps[n].FailUnconfigured?) && Owned(env, connectors, steps, n, steps[n].c, k)
    && (steps[n].FailUnconfigured? ==> status.Failed?)
    && (steps[n].Finish? ==>
          exists m: nat :: LastOf(steps, n, steps[n].c, m) && steps[m].Call? && Reports(steps[m].outcome, status))
  }

  ghost predicate WasEnded(env: Env, connectors: map<Str, Connector>, steps: seq<Step>, k: Key, status: ActionStatus)
  {
    exists n: nat :: EndsRow(env, connectors, steps, n, k, status)
  }

  /** A client that has called did so on its last step. */
  ghost predicate CallsKnown(steps: seq<Step>, w: World)
  {
    forall c :: c in w.clients && w.clients[c].Owner? && w.clients[c].stage.Called? ==>
      exists m: nat :: LastOf(steps, |steps|, c, m) && steps[m] == Call(c, w.clients[c].stage.outcome)
  }

  lemma CallsKept(env: Env, w: World, step: Step, v: World)
    requires Next(env, w, step) == Some(v)
    ensures forall c :: ClientOf(step) == Some(c) && c in v.clients && v.clients[c].Owner? && v.clients[c].stage.Called? ==>
      step == Call(c, v.clients[c].stage.outcome)
    ensures step.Call? ==> step.c in v.clients && v.clients[step.c].Owner? && v.clients[step.c].stage == Called(step.outcome)
  {
  }

  lemma {:induction false} CallsAreKnown(env: Env, connectors: map<Str, Connector>, steps: seq<Step>)
    requires Run(env, Start(connectors), steps).Some?
    ensures CallsKnown(steps, Run(env, Start(connectors), steps).value)
  {
    if steps != [] {
      var rest, step := steps[..|steps| - 1], steps[|steps| - 1];
      var w, v := Run(env, Start(connectors), rest).value, Run(env, Start(connectors), steps).value;
      CallsAreKnown(env, connectors, rest);
      PhasesKept(env, w, step, v);
      CallsKept(env, w, step, v);
      forall c | c in v.clients && v.clients[c].Owner? && v.clients[c].stage.Called?
        ensures exists m: nat :: LastOf(steps, |steps|, c, m) && steps[m] == Call(c, v.clients[c].stage.outcome)
      {
        if ClientOf(step) == Some(c) {
          assert LastOf(steps, |steps|, c, |steps| - 1);
        } else {
          var m: nat :| LastOf(rest, |rest|, c, m) && rest[m] == Call(c, w.clients[c].stage.outcome);
          LastGrows(steps, c, m);
        }
      }
    }
  }

  /** Between its call and its next step the client keeps the outcome. */
  lemma {:induction false} StillCalled(env: Env, connectors: map<Str, Connector>, steps: seq<Step>, c: Client, m: nat)
    requires Run(env, Start(connectors), steps).Some? && LastOf(steps, |steps|, c, m) && steps[m].Call?
    ensures var w := Run(env, Start(connectors), steps).value;
      c in w.clients && w.clients[c].Owner? && w.clients[c].stage == Called(steps[m].outcome)
    decreases |steps|
  {
    var rest, step := steps[..|steps| - 1], steps[|steps| - 1];
    PhasesKept(env, Run(env, Start(connectors), rest).value, step, Run(env, Start(connectors), steps).value);
    CallsKept(env, Run(env, Start(connectors), rest).value, step, Run(env, Start(connectors), steps).value);
    if m < |steps| - 1 {
      assert forall k :: 0 <= k < |rest| ==> rest[k] == steps[k];
      StillCalled(env, connectors, rest, c, m);
    }
  }

  lemma EndedOneMore(env: Env, connectors: map<Str, Connector>, steps: seq<Step>, k: Key, status: ActionStatus)
    requires steps != []
    ensures var rest := steps[..|steps| - 1];
      WasEnded(env, connectors, steps, k, status) <==>
        WasEnded(env, connectors, rest, k, status) || EndsRow(env, connectors, steps, |rest|, k, status)
  {
    var rest := steps[..|steps| - 1];
    forall n: nat | n < |rest|
      ensures EndsRow(env, connectors, steps, n, k, status) <==> EndsRow(env, connectors, rest, n, k, status)
    {
      assert rest[..n] == steps[..n] && rest[n] == steps[n];
      forall m: nat, c: Client ensures LastOf(steps, n, c, m) <==> LastOf(rest, n, c, m) {
        assert forall i :: 0 <= i < n ==> rest[i] == steps[i];
      }
    }
    if n: nat :| EndsRow(env, connectors, rest, n, k, status) {
      assert EndsRow(env, connectors, steps, n, k, status);
    }
    if WasEnded(env, connectors, steps, k, status) {
      var n: nat :| EndsRow(env, connectors, steps, n, k, status);
      assert n < |rest| ==> EndsRow(env, connectors, rest, n, k, status);
    }
  }

  /** The row has ended like this. */
  predicate Ended(w: World, k: Key, status: ActionStatus)
  {
    k in w.actions && w.actions[k].status == status && Finished(status)
  }

  predicate EndsNow(step: Step) { step.Finish? || step.FailUnconfigured? }

  /** How an owner's last step ends its row. */
  function EndOf(w: World, step: Step): ActionStatus
    requires EndsNow(step) && step.c in w.clients && w.clients[step.c].Owner? && (step.Finish? ==> w.clients[step.c].stage.Called?)
  {
    if step.Finish? then Verdict(w.clients[step.c].stage.outcome) else Failed
  }

  /** Only an owner's last step ends a row. */
  lemma OthersEndNothing(env: Env, w: World, step: Step, v: World, k: Key)
    requires Next(env, w, step) == Some(v) && !EndsNow(step)
    requires k in v.actions && Finished(v.actions[k].status)
    requires forall c :: c in w.clients ==> PhaseOk(env, w, w.clients[c])
    ensures k in w.actions && w.actions[k].status == v.actions[k].status
  {
    if step.CommitRow? {
      assert PhaseOk(env, w, w.clients[step.c]);
    }
  }

  lemma LastStepEnds(env: Env, w: World, step: Step, v: World)
    requires Next(env, w, step) == Some(v) && EndsNow(step)
    ensures step.c in w.clients && w.clients[step.c].Owner? && (step.Finish? ==> w.clients[step.c].stage.Called?)
    ensures var k := env.key(w.clients[step.c].pass.request.what);
      && Ended(v, k, EndOf(w, step))
      && forall j :: j != k ==> (j in v.actions <==> j in w.actions) && (j in w.actions ==> v.actions[j] == w.actions[j])
  {
  }

  /** What one step writes on rows that have ended. */
  lemma EndWrites(env: Env, w: World, step: Step, v: World, k: Key, status: ActionStatus)
    requires Inv(env, w) && Next(env, w, step) == Some(v)
    ensures Ended(w, k, status) ==> Ended(v, k, status)
    ensures EndsNow(step) ==> step.c in w.clients && w.clients[step.c].Owner? && (step.Finish? ==> w.clients[step.c].stage.Called?)
    ensures Ended(v, k, status) && !Ended(w, k, status) ==>
      EndsNow(step) && env.key(w.clients[step.c].pass.request.what) == k && status == EndOf(w, step)
    ensures EndsNow(step) && env.key(w.clients[step.c].pass.request.what) == k ==> Ended(v, k, EndOf(w, step))
  {
    StepKeeps(env, w, step);
    if EndsNow(step) {
      LastStepEnds(env, w, step, v);
    } else if k in v.actions && Finished(v.actions[k].status) {
      OthersEndNothing(env, w, step, v, k);
    }
  }

  lemma EndsExactly(env: Env, connectors: map<Str, Connector>, steps: seq<Step>, k: Key, status: ActionStatus)
    requires steps != [] && Run(env, Start(connectors), steps).Some?
    requires EndsNow(steps[|steps| - 1])
    requires CallsKnown(steps[..|steps| - 1], Run(env, Start(connectors), steps[..|steps| - 1]).value)
    ensures var w, step := Run(env, Start(connectors), steps[..|steps| - 1]).value, steps[|steps| - 1];
      EndsRow(env, connectors, steps, |steps| - 1, k, status) <==>
        env.key(w.clients[step.c].pass.request.what) == k && status == EndOf(w, step)
  {
    var rest, step, n := steps[..|steps| - 1], steps[|steps| - 1], |steps| - 1;
    var w, c := Run(env, Start(connectors), rest).value, step.c;
    LastStepEnds(env, w, step, Run(env, Start(connectors), steps).value);
    assert steps[..n] == rest;
    assert forall i :: 0 <= i < n ==> rest[i] == steps[i];
    if step.Finish? {
      if m: nat :| LastOf(steps, n, c, m) && steps[m].Call? && Reports(steps[m].outcome, status) {
        assert LastOf(rest, |rest|, c, m);
        StillCalled(env, connectors, rest, c, m);
      }
      var m: nat :| LastOf(rest, |rest|, c, m) && rest[m] == Call(c, w.clients[c].stage.outcome);
      assert LastOf(steps, n, c, m);
    }
  }

  /** In every run a row has succeeded, failed or needs review exactly when the client that owned it reported
      such an outcome of the call it had made just before, or, to fail, found the connector not configured. */
  lemma {:induction false} EndedExactly(env: Env, connectors: map<Str, Connector>, steps: seq<Step>, k: Key, status: ActionStatus)
    requires Run(env, Start(connectors), steps).Some? && Finished(status)
    ensures Ended(Run(env, Start(connectors), steps).value, k, status) <==> WasEnded(env, connectors, steps, k, status)
    decreases |steps|
  {
    if steps != [] {
      var rest, step := steps[..|steps| - 1], steps[|steps| - 1];
      EndedExactly(env, connectors, rest, k, status);
      EndedOneMore(env, connectors, steps, k, status);
      RunKeeps(env, connectors, rest);
      CallsAreKnown(env, connectors, rest);
      EndWrites(env, Run(env, Start(connectors), rest).value, step, Run(env, Start(connectors), steps).value, k, status);
      if EndsNow(step) {
        EndsExactly(env, connectors, steps, k, status);
      }
    }
  }

  // ---------------------------------------------------------------- connectors as checked

  /** The connector's row looked like this at some point of the run. */
  predicate WasRow(env: Env, connectors: map<Str, Connector>, steps: seq<Step>, id: Str, connector: Connector)
  {
    exists n: nat :: n <= |steps| && RowAt(env, connectors, steps, n, id, connector)
  }

  predicate RowAt(env: Env, connectors: map<Str, Connector>, steps: seq<Step>, n: nat, id: Str, connector: Connector)
    requires n <= |steps|
  {
    var w := Run(env, Start(connectors), steps[..n]);
    w.Some? && id in w.value.connectors && w.value.connectors[id] == connector
  }

  /** The request a client goes on with, once it has passed. */
  function PassOf(p: Phase): Option<Pass>
  {
    match p
    case Cleared(pass) => Some(pass)
    case Inserted(pass, _) => Some(pass)
    case Owner(pass, _, _) => Some(pass)
    case _ => None
  }

  ghost predicate RowsSeen(env: Env, connectors: map<Str, Connector>, steps: seq<Step>, w: World)
  {
    && (forall c :: c in w.clients && PassOf(w.clients[c]).Some? ==>
          WasRow(env, connectors, steps, PassOf(w.clients[c]).value.request.what.connectorId, PassOf(w.clients[c]).value.connector))
    && (forall i :: 0 <= i < |w.sent| ==> WasRow(env, connectors, steps, w.sent[i].what.connectorId, w.sent[i].connector))
  }

  lemma WasRowStays(env: Env, connectors: map<Str, Connector>, steps: seq<Step>, id: Str, connector: Connector)
    requires steps != [] && WasRow(env, connectors, steps[..|steps| - 1], id, connector)
    ensures WasRow(env, connectors, steps, id, connector)
  {
    var n: nat :| n <= |steps| - 1 && RowAt(env, connectors, steps[..|steps| - 1], n, id, connector);
    assert steps[..|steps| - 1][..n] == steps[..n];
    assert RowAt(env, connectors, steps, n, id, connector);
  }

  lemma RowIsNow(env: Env, connectors: map<Str, Connector>, steps: seq<Step>, w: World, id: Str)
    requires Run(env, Start(connectors), steps) == Some(w) && id in w.connectors
    ensures WasRow(env, connectors, steps, id, w.connectors[id])
  {
    assert steps[..|steps|] == steps;
    assert RowAt(env, connectors, steps, |steps|, id, w.connectors[id]);
  }

  /** A step gives a client a request that passed only by the check, and sends only such a one. */
  lemma PassesKept(env: Env, w: World, step: Step, v: World)
    requires Next(env, w, step) == Some(v)
    ensures forall c :: c in v.clients && PassOf(v.clients[c]).Some? ==>
      || (c in w.clients && PassOf(w.clients[c]) == PassOf(v.clients[c]))
      || (var pass := PassOf(v.clients[c]).value;
          pass.request.what.connectorId in w.connectors && w.connectors[pass.request.what.connectorId] == pass.connector)
    ensures forall i :: 0 <= i < |v.sent| ==>
      || (i < |w.sent| && v.sent[i] == w.sent[i])
      || (exists c :: c in w.clients && PassOf(w.clients[c]).Some?
            && PassOf(w.clients[c]).value.request.what == v.sent[i].what && PassOf(w.clients[c]).value.connector == v.sent[i].connector)
  {
  }

  lemma {:induction false} RowsAreSeen(env: Env, connectors: map<Str, Connector>, steps: seq<Step>)
    requires Run(env, Start(connectors), steps).Some?
    ensures RowsSeen(env, connectors, steps, Run(env, Start(connectors), steps).value)
  {
    if steps != [] {
      var rest, step := steps[..|steps| - 1], steps[|steps| - 1];
      var w, v := Run(env, Start(connectors), rest).value, Run(env, Start(connectors), steps).value;
      RowsAreSeen(env, connectors, rest);
      PassesKept(env, w, step, v);
      forall c | c in v.clients && PassOf(v.clients[c]).Some?
        ensures WasRow(env, connectors, steps, PassOf(v.clients[c]).value.request.what.connectorId, PassOf(v.clients[c]).value.connector)
      {
        if !(c in w.clients && PassOf(w.clients[c]) == PassOf(v.clients[c])) {
          RowIsNow(env, connectors, rest, w, PassOf(v.clients[c]).value.request.what.connectorId);
        }
        WasRowStays(env, connectors, steps, PassOf(v.clients[c]).value.request.what.connectorId, PassOf(v.clients[c]).value.connector);
      }
      forall i | 0 <= i < |v.sent| ensures WasRow(env, connectors, steps, v.sent[i].what.connectorId, v.sent[i].connector) {
        WasRowStays(env, connectors, steps, v.sent[i].what.connectorId, v.sent[i].connector);
      }
    }
  }

  /** An approval authorizes the call: a step of the run applied the grant, and the row names who gave it. */
  ghost predicate GrantedFor(env: Env, connectors: map<Str, Connector>, steps: seq<Step>, w: World, s: Sent, id: Str)
  {
    && id in w.approvals && Authorizes(w.approvals[id], s.what) && Approver(env, w, s) == w.approvals[id].decidedBy
    && WasDecided(env, connectors, steps, id, w.approvals[id].decidedBy.value, true)
  }

  /** Every call goes through its own connector as its row was at some point of the run, enabled for its
      class of data; if that row required approval, it sends a message whose hash an approval of that
      execution binds, which a step of the run granted, on either route, for someone other than its
      requester, and the committed row names that approver. */
  lemma ApprovedOnly(env: Env, connectors: map<Str, Connector>, steps: seq<Step>, i: nat)
    requires Run(env, Start(connectors), steps).Some? && i < |Run(env, Start(connectors), steps).value.sent|
    ensures var w := Run(env, Start(connectors), steps).value;
      && env.hash(w.sent[i].message) == w.sent[i].what.artifactHash
      && Permits(w.sent[i].what, w.sent[i].connector, w.sent[i].classification)
      && WasRow(env, connectors, steps, w.sent[i].what.connectorId, w.sent[i].connector)
      && (w.sent[i].connector.requiresApproval ==> exists id :: GrantedFor(env, connectors, steps, w, w.sent[i], id))
  {
    RunKeeps(env, connectors, steps);
    RowsAreSeen(env, connectors, steps);
    var w := Run(env, Start(connectors), steps).value;
    assert SentOk(env, w, w.sent[i]);
    if w.sent[i].connector.requiresApproval {
      var id :| id in w.approvals && Authorizes(w.approvals[id], w.sent[i].what) && Approver(env, w, w.sent[i]) == w.approvals[id].decidedBy;
      DecidedExactly(env, connectors, steps, id, w.approvals[id].decidedBy.value, true);
      assert GrantedFor(env, connectors, steps, w, w.sent[i], id);
    }
  }

  /** The input: a connector disabled after the check. The call is made all the same. */
  lemma DisabledStillCalls(env: Env, w: World, c: Client, outcome: Outcome)
    requires OwnerAt(env, w, c, Calling)
    ensures var row := w.clients[c].pass.connector.(enabled := false);
      var v := Next(env, w, Configure(row));
      && v.Some? && v.value.connectors[row.id] == row && Next(env, v.value, Call(c, outcome)).Some?
      && |Next(env, v.value, Call(c, outcome)).value.sent| == |w.sent| + 1
  {
  }

  lemma SameText(sha: Sha, a: Approval, s: Sent, approvedText: Str)
    requires Authorizes(a, s.what) && Hashing(sha).hash(s.message) == s.what.artifactHash
    requires a.artifactHash == Some(Sha256Hex(sha, approvedText))
    requires CollisionFreeOn(sha, {Utf8.Encode(approvedText), Utf8.Encode(s.message)})
    ensures Utf8.Encode(s.message) == Utf8.Encode(approvedText)
  {
    Hex.ToHexInjective(sha(Utf8.Encode(s.message)), sha(Utf8.Encode(approvedText)));
  }

  /** In every run, behind each call that needed one stands an approval, and if that approval was given
      to the hash of `approvedText`, the bytes sent are the bytes approved, unless the two collide. */
  lemma ApprovedBytes(sha: Sha, connectors: map<Str, Connector>, steps: seq<Step>, i: nat, approvedText: Str)
    requires Run(Hashing(sha), Start(connectors), steps).Some?
    requires var w := Run(Hashing(sha), Start(connectors), steps).value;
      i < |w.sent| && w.sent[i].connector.requiresApproval
      && CollisionFreeOn(sha, {Utf8.Encode(approvedText), Utf8.Encode(w.sent[i].message)})
    ensures var w := Run(Hashing(sha), Start(connectors), steps).value;
      exists id :: id in w.approvals && Authorizes(w.approvals[id], w.sent[i].what)
        && (w.approvals[id].artifactHash == Some(Sha256Hex(sha, approvedText)) ==>
              Utf8.Encode(w.sent[i].message) == Utf8.Encode(approvedText))
  {
    ApprovedOnly(Hashing(sha), connectors, steps, i);
    var w := Run(Hashing(sha), Start(connectors), steps).value;
    var id :| GrantedFor(Hashing(sha), connectors, steps, w, w.sent[i], id);
    if w.approvals[id].artifactHash == Some(Sha256Hex(sha, approvedText)) {
      SameText(sha, w.approvals[id], w.sent[i], approvedText);
    }
  }
}
