/** The connector gateway: policy, approvals, the action ledger, and external calls made by many
    clients at once, with crashes between any two steps. */
module Gateway {
  import opened Basics
  import opened Policy
  import opened HashFormat
  import opened Idempotency
  import Hex
  import Utf8

  // ---------------------------------------------------------------- policy

  /** `configured`: the connector's secret and page both resolve. */
  datatype Connector = Connector(
    id: Str,
    organizationId: Str,
    enabled: bool,
    allowedClasses: seq<Classification>,
    configured: bool,
    requiresApproval: bool)

  datatype Reason =
    | ConnectorDisabled | ClassificationBlocked | NotAllowedForSkill | ActorNotAuthorized
    | ApprovalMissing | ApprovalArtifactMismatch | ConnectorAllowed

  /** `evaluateConnectorAction` on the rows it reads: the connector, the skill's action list if the
      skill is bound to it, whether the role may use the skill, and the execution's approval. */
  function EvaluateConnectorAction(connector: Option<Connector>, classification: Classification, binding: Option<seq<Str>>,
                                   action: Str, roleAllowed: bool, approval: Option<Approval>, requestedHash: Str): Reason
  {
    if connector.None? || !connector.value.enabled then ConnectorDisabled
    else if classification !in connector.value.allowedClasses then ClassificationBlocked
    else if binding.None? || (binding.value != [] && action !in binding.value) then NotAllowedForSkill
    else if !roleAllowed then ActorNotAuthorized
    else if connector.value.requiresApproval && (approval.None? || !approval.value.status.Approved?) then ApprovalMissing
    else if connector.value.requiresApproval && (approval.value.artifactHash.None? || approval.value.artifactHash.value == []
                                                 || approval.value.artifactHash.value != requestedHash)
    then ApprovalArtifactMismatch
    else ConnectorAllowed
  }

  // ---------------------------------------------------------------- requests

  datatype Request = Request(actorId: Str, what: ActionId, message: Str, classification: Classification)

  type Key = (Str, Str)

  /** How actions are keyed and messages hashed. The state machine is the same for any two
      functions; `Hashing(sha)` is the gateway's choice. */
  datatype Env = Env(key: ActionId -> Key, hash: Str -> Str)

  function Hashing(sha: Sha): Env
  {
    Env((a: ActionId) => (a.organizationId, IdempotencyKey(sha, a)), (m: Str) => Sha256Hex(sha, m))
  }

  datatype ActionStatus = Authorized | Executing | Succeeded | Failed | NeedsReview

  predicate Finished(s: ActionStatus) { s.Succeeded? || s.Failed? || s.NeedsReview? }

  datatype ActionRow = ActionRow(id: Str, what: ActionId, requestedBy: Str, approvedBy: Option<Str>, status: ActionStatus)

  datatype Outcome = Success | Definite | Ambiguous

  /** An external call that was made. */
  datatype Sent = Sent(rowId: Str, what: ActionId, message: Str, classification: Classification, connector: Connector)

  /** A request that passed every check, with the approval row it was checked against. */
  datatype Pass = Pass(request: Request, connector: Connector, approval: Option<Approval>)

  datatype Stage = Begun | Calling | Called(outcome: Outcome)

  datatype Phase =
    | Deciding(organizationId: Str, approvalId: Str, actor: Str, allow: bool)
    | Cleared(pass: Pass)
    | Inserted(pass: Pass, row: ActionRow)
    | Owner(pass: Pass, rowId: Str, stage: Stage)
    | Replied(request: Request, row: ActionRow)

  type Client = nat

  /** A client that is not in `clients` is idle. */
  datatype World = World(
    connectors: map<Str, Connector>,
    approvals: map<Str, Approval>,
    actions: map<Key, ActionRow>,
    sent: seq<Sent>,
    clients: map<Client, Phase>)

  /** What `requestConnectorAction` reads besides the approval. */
  datatype Seen = Seen(binding: Option<seq<Str>>, roleAllowed: bool, approvalId: Option<Str>)

  datatype Step =
    | Configure(connector: Connector)
    | RequestApproval(approval: Approval)
    | CheckDecision(c: Client, organizationId: Str, executionId: Str, approvalId: Str, actor: Str, artifactHash: Str,
                    allow: bool, authorized: bool)
    | CheckDecisionById(c: Client, organizationId: Str, approvalId: Str, actor: Str, allow: bool, authorized: bool)
    | ApplyDecision(c: Client)
    | CheckRequest(c: Client, request: Request, seen: Seen)
    | InsertRow(c: Client, rowId: Str)
    | CommitRow(c: Client)
    | FailUnconfigured(c: Client)
    | MarkExecuting(c: Client)
    | Call(c: Client, outcome: Outcome)
    | Finish(c: Client)
    | Stop(c: Client)

  predicate ForExecution(a: Approval, what: ActionId)
  {
    a.organizationId == what.organizationId && a.executionId == what.executionId
  }

  /** The approval picked is one of the execution's, and none is picked only when it has none. */
  predicate PickOk(w: World, what: ActionId, id: Option<Str>)
  {
    match id
    case Some(x) => x in w.approvals && ForExecution(w.approvals[x], what)
    case None => forall x :: x in w.approvals ==> !ForExecution(w.approvals[x], what)
  }

  function Picked(w: World, id: Option<Str>): Option<Approval>
  {
    if id.Some? && id.value in w.approvals then Some(w.approvals[id.value]) else None
  }

  predicate InputOk(env: Env, w: World, r: Request)
  {
    && Hex.IsSha256Hex(r.what.artifactHash) && env.hash(r.message) == r.what.artifactHash
    && r.what.connectorId in w.connectors && w.connectors[r.what.connectorId].id == r.what.connectorId
    && w.connectors[r.what.connectorId].organizationId == r.what.organizationId
  }

  function Put(w: World, c: Client, p: Phase): World { w.(clients := w.clients[c := p]) }

  function Leave(w: World, c: Client): World { w.(clients := w.clients - {c}) }

  /** The key a client has inserted a row under and not yet let go of. */
  function Held(env: Env, p: Phase): Option<Key>
  {
    match p
    case Inserted(pass, _) => Some(env.key(pass.request.what))
    case Owner(pass, _, _) => Some(env.key(pass.request.what))
    case _ => None
  }

  /** Another client's uncommitted insert of the same key makes an insert wait. */
  predicate Contended(env: Env, w: World, c: Client, k: Key)
  {
    exists d :: d in w.clients && d != c && w.clients[d].Inserted? && Held(env, w.clients[d]) == Some(k)
  }

  function SetStatus(w: World, k: Key, s: ActionStatus): World
    requires k in w.actions
  {
    w.(actions := w.actions[k := w.actions[k].(status := s)])
  }

  function AfterCheck(env: Env, w: World, c: Client, r: Request, seen: Seen): World
    requires InputOk(env, w, r)
  {
    var k, connector := env.key(r.what), w.connectors[r.what.connectorId];
    var approval := Picked(w, seen.approvalId);
    var verdict := EvaluateConnectorAction(Some(connector), r.classification, seen.binding, r.what.action,
                                           seen.roleAllowed, approval, r.what.artifactHash);
    if k in w.actions then Put(w, c, Replied(r, w.actions[k]))
    else if verdict != ConnectorAllowed then w
    else Put(w, c, Cleared(Pass(r, connector, approval)))
  }

  function ApprovedBy(approval: Option<Approval>): Option<Str>
  {
    if approval.Some? && approval.value.status.Approved? then approval.value.decidedBy else None
  }

  function AfterInsert(env: Env, w: World, c: Client, pass: Pass, rowId: Str): World
  {
    var k := env.key(pass.request.what);
    if k in w.actions then Put(w, c, Replied(pass.request, w.actions[k]))
    else Put(w, c, Inserted(pass, ActionRow(rowId, pass.request.what, pass.request.actorId, ApprovedBy(pass.approval), Authorized)))
  }

  function Verdict(o: Outcome): ActionStatus
  {
    match o case Success => Succeeded case Definite => Failed case Ambiguous => NeedsReview
  }

  predicate OwnerAt(env: Env, w: World, c: Client, stage: Stage)
  {
    c in w.clients && w.clients[c].Owner? && w.clients[c].stage == stage
    && env.key(w.clients[c].pass.request.what) in w.actions
  }

  /** The world after an owner's call. */
  function AfterCall(w: World, c: Client, p: Phase, outcome: Outcome): World
    requires p.Owner?
  {
    var s := Sent(p.rowId, p.pass.request.what, p.pass.request.message, p.pass.request.classification, p.pass.connector);
    Put(w.(sent := w.sent + [s]), c, p.(stage := Called(outcome)))
  }

  function AfterDecision(w: World, c: Client, p: Phase): World
    requires p.Deciding?
  {
    if p.approvalId in w.approvals && w.approvals[p.approvalId].organizationId == p.organizationId
       && w.approvals[p.approvalId].status.Pending?
    then Leave(w, c).(approvals := w.approvals[p.approvalId := w.approvals[p.approvalId].(
                        status := if p.allow then Approved else Denied, decidedBy := Some(p.actor))])
    else Leave(w, c)
  }

  /** The next state; `None` when the step cannot be taken. `Stop` is a crash, an exception or the
      end of the client's call. */
  function Next(env: Env, w: World, step: Step): Option<World>
  {
    match step
    case Configure(connector) => Some(w.(connectors := w.connectors[connector.id := connector]))
    case RequestApproval(a) =>
      if a.id in w.approvals || !a.status.Pending? || a.decidedBy.Some? then None
      else Some(w.(approvals := w.approvals[a.id := a]))
    case CheckDecision(c, org, exec, id, actor, hash, allow, authorized) =>
      if c in w.clients || id !in w.approvals then None
      else
        var a := w.approvals[id];
        if a.organizationId == org && a.executionId == exec && a.artifactHash == Some(hash) && Hex.IsSha256Hex(hash)
           && authorized && a.requestedBy != actor
        then Some(Put(w, c, Deciding(org, id, actor, allow))) else None
    case CheckDecisionById(c, org, id, actor, allow, authorized) =>
      if c in w.clients || id !in w.approvals then None
      else if w.approvals[id].organizationId == org && authorized && w.approvals[id].requestedBy != actor
      then Some(Put(w, c, Deciding(org, id, actor, allow))) else None
    case ApplyDecision(c) =>
      if c in w.clients && w.clients[c].Deciding? then Some(AfterDecision(w, c, w.clients[c])) else None
    case CheckRequest(c, r, seen) =>
      if c !in w.clients && InputOk(env, w, r) && PickOk(w, r.what, seen.approvalId)
      then Some(AfterCheck(env, w, c, r, seen)) else None
    case InsertRow(c, rowId) =>
      if c in w.clients && w.clients[c].Cleared? && !Contended(env, w, c, env.key(w.clients[c].pass.request.what))
      then Some(AfterInsert(env, w, c, w.clients[c].pass, rowId)) else None
    case CommitRow(c) =>
      if c in w.clients && w.clients[c].Inserted?
      then
        var p := w.clients[c];
        Some(Put(w.(actions := w.actions[env.key(p.pass.request.what) := p.row]), c, Owner(p.pass, p.row.id, Begun)))
      else None
    case FailUnconfigured(c) =>
      if OwnerAt(env, w, c, Begun) && !w.clients[c].pass.connector.configured
      then Some(Leave(SetStatus(w, env.key(w.clients[c].pass.request.what), Failed), c)) else None
    case MarkExecuting(c) =>
      if OwnerAt(env, w, c, Begun) && w.clients[c].pass.connector.configured
      then Some(Put(SetStatus(w, env.key(w.clients[c].pass.request.what), Executing), c, w.clients[c].(stage := Calling)))
      else None
    case Call(c, outcome) =>
      if OwnerAt(env, w, c, Calling) then Some(AfterCall(w, c, w.clients[c], outcome)) else None
    case Finish(c) =>
      if c in w.clients && w.clients[c].Owner? && w.clients[c].stage.Called? && OwnerAt(env, w, c, w.clients[c].stage)
      then Some(Leave(SetStatus(w, env.key(w.clients[c].pass.request.what), Verdict(w.clients[c].stage.outcome)), c))
      else None
    case Stop(c) => if c in w.clients then Some(Leave(w, c)) else None
  }

  function Run(env: Env, start: World, steps: seq<Step>): Option<World>
  {
    if steps == [] then Some(start)
    else
      match Run(env, start, steps[..|steps| - 1])
      case None => None
      case Some(w) => Next(env, w, steps[|steps| - 1])
  }

  function Start(connectors: map<Str, Connector>): World { World(connectors, map[], map[], [], map[]) }

  // ---------------------------------------------------------------- the invariant

  /** The approval authorizes these bytes: decided, as approved, by someone other than its
      requester, for this execution and this artifact. */
  predicate Authorizes(a: Approval, what: ActionId)
  {
    && a.status.Approved? && a.artifactHash == Some(what.artifactHash) && ForExecution(a, what)
    && a.decidedBy.Some? && a.decidedBy.value != a.requestedBy
  }

  ghost predicate ApprovalOk(a: Approval)
  {
    if a.status.Pending? then a.decidedBy.None? else a.decidedBy.Some? && a.decidedBy.value != a.requestedBy
  }

  /** The action's own connector, enabled for this class of data. */
  predicate Permits(what: ActionId, connector: Connector, classification: Classification)
  {
    && connector.id == what.connectorId && connector.organizationId == what.organizationId
    && connector.enabled && classification in connector.allowedClasses
  }

  ghost predicate PassOk(env: Env, w: World, p: Pass)
  {
    && Permits(p.request.what, p.connector, p.request.classification)
    && env.hash(p.request.message) == p.request.what.artifactHash
    && (p.connector.requiresApproval ==>
          && p.approval.Some? && p.approval.value.id in w.approvals && w.approvals[p.approval.value.id] == p.approval.value
          && Authorizes(p.approval.value, p.request.what))
  }

  /** The row names who asked and, where an approval was checked, who approved. */
  ghost predicate RowNames(p: Pass, row: ActionRow)
  {
    && row.what == p.request.what && row.requestedBy == p.request.actorId
    && (p.connector.requiresApproval ==> p.approval.Some? && row.approvedBy == p.approval.value.decidedBy)
  }

  ghost predicate Unsent(env: Env, w: World, k: Key)
  {
    forall i :: 0 <= i < |w.sent| ==> env.key(w.sent[i].what) != k
  }

  ghost predicate PhaseOk(env: Env, w: World, p: Phase)
  {
    match p
    case Deciding(org, id, actor, allow) =>
      id in w.approvals && w.approvals[id].requestedBy != actor && w.approvals[id].organizationId == org
    case Cleared(pass) => PassOk(env, w, pass)
    case Inserted(pass, row) =>
      && PassOk(env, w, pass) && RowNames(pass, row) && row.status.Authorized?
      && env.key(pass.request.what) !in w.actions
    case Owner(pass, rowId, stage) =>
      var k := env.key(pass.request.what);
      && PassOk(env, w, pass) && k in w.actions && w.actions[k].id == rowId && RowNames(pass, w.actions[k])
      && (stage.Begun? ==> w.actions[k].status.Authorized?)
      && (!stage.Begun? ==> w.actions[k].status.Executing?)
      && (!stage.Called? ==> Unsent(env, w, k))
    case Replied(request, row) =>
      var k := env.key(row.what);
      k in w.actions && w.actions[k].id == row.id && env.key(request.what) == k
  }

  /** A call that was made: its row is committed past `authorized`, and if its connector requires
      approval, an approval authorizes it. */
  ghost predicate SentOk(env: Env, w: World, s: Sent)
  {
    var k := env.key(s.what);
    && k in w.actions && w.actions[k].id == s.rowId && !w.actions[k].status.Authorized?
    && env.hash(s.message) == s.what.artifactHash && Permits(s.what, s.connector, s.classification)
    && (s.connector.requiresApproval ==> Approvable(env, w, s))
  }

  /** Some approval authorizes the call, and the committed row names who gave it. */
  ghost predicate Approvable(env: Env, w: World, s: Sent)
  {
    exists id :: id in w.approvals && Authorizes(w.approvals[id], s.what) && Approver(env, w, s) == w.approvals[id].decidedBy
  }

  function Approver(env: Env, w: World, s: Sent): Option<Str>
  {
    if env.key(s.what) in w.actions then w.actions[env.key(s.what)].approvedBy else None
  }

  ghost predicate Once(env: Env, w: World)
  {
    forall i, j :: 0 <= i < j < |w.sent| ==> env.key(w.sent[i].what) != env.key(w.sent[j].what)
  }

  ghost predicate HeldOnce(env: Env, w: World)
  {
    forall c, d :: c in w.clients && d in w.clients && c != d && Held(env, w.clients[c]).Some? ==>
      Held(env, w.clients[c]) != Held(env, w.clients[d])
  }

  ghost predicate ApprovalsOk(w: World)
  {
    forall id :: id in w.approvals ==> w.approvals[id].id == id && ApprovalOk(w.approvals[id])
  }

  ghost predicate KeysOk(env: Env, w: World)
  {
    forall k :: k in w.actions ==> env.key(w.actions[k].what) == k
  }

  ghost predicate Inv(env: Env, w: World)
  {
    && ApprovalsOk(w) && KeysOk(env, w)
    && (forall c :: c in w.clients ==> PhaseOk(env, w, w.clients[c]))
    && (forall i :: 0 <= i < |w.sent| ==> SentOk(env, w, w.sent[i]))
    && Once(env, w) && HeldOnce(env, w)
  }

  // ---------------------------------------------------------------- what a step may change

  /** What a change of status leaves as it was. */
  predicate SameAction(a: ActionRow, b: ActionRow)
  {
    a.(status := Authorized) == b.(status := Authorized)
  }

  /** What a decision leaves as it was. */
  predicate SameRequest(a: Approval, b: Approval)
  {
    a.(status := Pending, decidedBy := None) == b.(status := Pending, decidedBy := None)
  }

  /** Decided approvals and action rows only ever move forward. */
  ghost predicate Forward(w: World, v: World)
  {
    && (forall id :: id in w.approvals ==> id in v.approvals && SameRequest(w.approvals[id], v.approvals[id]))
    && (forall id :: id in w.approvals && !w.approvals[id].status.Pending? ==> v.approvals[id] == w.approvals[id])
    && (forall k :: k in w.actions ==> k in v.actions && SameAction(w.actions[k], v.actions[k]))
    && (forall k :: k in w.actions && Finished(w.actions[k].status) ==> v.actions[k] == w.actions[k])
    && (forall k :: k in w.actions && !w.actions[k].status.Authorized? ==> !v.actions[k].status.Authorized?)
  }

  lemma PassStays(env: Env, w: World, v: World, p: Pass)
    requires PassOk(env, w, p) && Forward(w, v)
    ensures PassOk(env, v, p)
  {
  }

  /** Phases of clients that hold no key and are not touched by the step. */
  lemma LooseStays(env: Env, w: World, v: World, p: Phase)
    requires PhaseOk(env, w, p) && Forward(w, v) && Held(env, p).None?
    ensures PhaseOk(env, v, p)
  {
    if p.Cleared? {
      PassStays(env, w, v, p.pass);
    }
  }

  /** The step changed nothing under this key. */
  ghost predicate Untouched(env: Env, w: World, v: World, k: Key)
  {
    && (k in v.actions <==> k in w.actions) && (k in w.actions ==> v.actions[k] == w.actions[k])
    && (Unsent(env, w, k) ==> Unsent(env, v, k))
  }

  lemma OthersStay(env: Env, w: World, v: World, c: Client)
    requires Inv(env, w) && Forward(w, v) && v.clients.Keys <= w.clients.Keys + {c}
    requires forall d :: d in v.clients && d != c ==> d in w.clients && v.clients[d] == w.clients[d]
    requires forall d :: d in v.clients && d != c && Held(env, w.clients[d]).Some? ==>
      Untouched(env, w, v, Held(env, w.clients[d]).value)
    ensures forall d :: d in v.clients && d != c ==> PhaseOk(env, v, v.clients[d])
  {
    forall d | d in v.clients && d != c ensures PhaseOk(env, v, v.clients[d]) {
      var p := w.clients[d];
      if Held(env, p).Some? {
      } else {
        LooseStays(env, w, v, p);
      }
    }
  }

  lemma OneSentStays(env: Env, w: World, v: World, s: Sent)
    requires SentOk(env, w, s) && Forward(w, v)
    ensures SentOk(env, v, s)
  {
    if s.connector.requiresApproval {
      var id :| id in w.approvals && Authorizes(w.approvals[id], s.what) && Approver(env, w, s) == w.approvals[id].decidedBy;
      assert v.approvals[id] == w.approvals[id] && Approver(env, v, s) == Approver(env, w, s);
    }
  }

  lemma SentsStay(env: Env, w: World, v: World)
    requires Inv(env, w) && Forward(w, v) && |v.sent| >= |w.sent| && v.sent[..|w.sent|] == w.sent
    ensures forall i :: 0 <= i < |w.sent| ==> SentOk(env, v, v.sent[i])
  {
    forall i | 0 <= i < |w.sent| ensures SentOk(env, v, v.sent[i]) {
      assert v.sent[i] == v.sent[..|w.sent|][i] == w.sent[i];
      OneSentStays(env, w, v, w.sent[i]);
    }
  }

  // ---------------------------------------------------------------- steps

  /** Steps that change only one client's phase, to one that holds no new key. */
  lemma PhaseOnlyKeeps(env: Env, w: World, v: World, c: Client)
    requires Inv(env, w) && v == w.(clients := v.clients)
    requires v.clients.Keys <= w.clients.Keys + {c}
    requires forall d :: d in v.clients && d != c ==> d in w.clients && v.clients[d] == w.clients[d]
    requires c in v.clients ==> PhaseOk(env, v, v.clients[c])
    requires c in v.clients && Held(env, v.clients[c]).Some? ==>
      forall d :: d in w.clients && d != c ==> Held(env, w.clients[d]) != Held(env, v.clients[c])
    ensures Inv(env, v)
  {
    OthersStay(env, w, v, c);
    SentsStay(env, w, v);
  }

  lemma DecidingKeeps(env: Env, w: World, c: Client, p: Phase)
    requires Inv(env, w) && c !in w.clients && p.Deciding? && PhaseOk(env, w, p)
    ensures Inv(env, Put(w, c, p)) && Forward(w, Put(w, c, p))
  {
    PhaseOnlyKeeps(env, w, Put(w, c, p), c);
  }

  lemma StopKeeps(env: Env, w: World, c: Client)
    requires Inv(env, w) && c in w.clients
    ensures Inv(env, Leave(w, c)) && Forward(w, Leave(w, c))
  {
    PhaseOnlyKeeps(env, w, Leave(w, c), c);
  }

  /** Steps that change approval rows, and at most let clients go. */
  lemma ApprovalsKeep(env: Env, w: World, v: World)
    requires Inv(env, w) && Forward(w, v) && ApprovalsOk(v) && v.actions == w.actions && v.sent == w.sent
    requires v.clients.Keys <= w.clients.Keys && forall d :: d in v.clients ==> v.clients[d] == w.clients[d]
    ensures Inv(env, v)
  {
    forall d | d in v.clients ensures PhaseOk(env, v, v.clients[d]) {
      if Held(env, w.clients[d]).None? {
        LooseStays(env, w, v, w.clients[d]);
      }
    }
    SentsStay(env, w, v);
  }

  lemma ConfigureKeeps(env: Env, w: World, connector: Connector)
    requires Inv(env, w)
    ensures Inv(env, w.(connectors := w.connectors[connector.id := connector]))
    ensures Forward(w, w.(connectors := w.connectors[connector.id := connector]))
  {
    ApprovalsKeep(env, w, w.(connectors := w.connectors[connector.id := connector]));
  }

  lemma RequestApprovalKeeps(env: Env, w: World, a: Approval)
    requires Inv(env, w) && a.id !in w.approvals && a.status.Pending? && a.decidedBy.None?
    ensures Forward(w, w.(approvals := w.approvals[a.id := a])) && Inv(env, w.(approvals := w.approvals[a.id := a]))
  {
    ApprovalsKeep(env, w, w.(approvals := w.approvals[a.id := a]));
  }

  lemma DecisionRows(env: Env, w: World, c: Client)
    requires ApprovalsOk(w) && c in w.clients && w.clients[c].Deciding? && PhaseOk(env, w, w.clients[c])
    ensures Forward(w, AfterDecision(w, c, w.clients[c])) && ApprovalsOk(AfterDecision(w, c, w.clients[c]))
  {
  }

  lemma DecisionKeeps(env: Env, w: World, c: Client)
    requires Inv(env, w) && c in w.clients && w.clients[c].Deciding?
    ensures Forward(w, AfterDecision(w, c, w.clients[c])) && Inv(env, AfterDecision(w, c, w.clients[c]))
  {
    assert PhaseOk(env, w, w.clients[c]);
    DecisionRows(env, w, c);
    ApprovalsKeep(env, w, AfterDecision(w, c, w.clients[c]));
  }

  lemma CheckKeeps(env: Env, w: World, c: Client, r: Request, seen: Seen)
    requires Inv(env, w) && c !in w.clients && InputOk(env, w, r) && PickOk(w, r.what, seen.approvalId)
    ensures Inv(env, AfterCheck(env, w, c, r, seen)) && Forward(w, AfterCheck(env, w, c, r, seen))
  {
    var v := AfterCheck(env, w, c, r, seen);
    if v != w {
      if v.clients[c].Cleared? {
      }
      PhaseOnlyKeeps(env, w, v, c);
    }
  }

  lemma InsertKeeps(env: Env, w: World, c: Client, rowId: Str)
    requires Inv(env, w) && c in w.clients && w.clients[c].Cleared?
    requires !Contended(env, w, c, env.key(w.clients[c].pass.request.what))
    ensures Inv(env, AfterInsert(env, w, c, w.clients[c].pass, rowId))
  {
    var pass, v := w.clients[c].pass, AfterInsert(env, w, c, w.clients[c].pass, rowId);
    var k := env.key(pass.request.what);
    assert PhaseOk(env, w, w.clients[c]);
    if k !in w.actions {
      forall d | d in w.clients && d != c ensures Held(env, w.clients[d]) != Some(k) {
        assert PhaseOk(env, w, w.clients[d]);
      }
    }
    PhaseOnlyKeeps(env, w, v, c);
  }

  /** Steps that also write one row or one sent call, under a key the client holds. */
  lemma HolderKeeps(env: Env, w: World, v: World, c: Client, k: Key)
    requires Inv(env, w) && Forward(w, v) && c in w.clients && Held(env, w.clients[c]) == Some(k)
    requires v.approvals == w.approvals && v.clients.Keys <= w.clients.Keys
    requires forall d :: d in v.clients && d != c ==> v.clients[d] == w.clients[d]
    requires forall j :: j != k ==> Untouched(env, w, v, j)
    requires c in v.clients ==> PhaseOk(env, v, v.clients[c]) && Held(env, v.clients[c]) == Some(k)
    requires forall j :: j in v.actions ==> env.key(v.actions[j].what) == j
    requires |v.sent| >= |w.sent| && v.sent[..|w.sent|] == w.sent
    requires forall i :: |w.sent| <= i < |v.sent| ==> SentOk(env, v, v.sent[i])
    requires Once(env, v)
    ensures Inv(env, v)
  {
    OthersStay(env, w, v, c);
    SentsStay(env, w, v);
  }

  /** Writing a row that is absent or not finished. */
  lemma RowForward(w: World, v: World, k: Key, row: ActionRow)
    requires v.approvals == w.approvals && v.actions == w.actions[k := row]
    requires k in w.actions ==>
      && !Finished(w.actions[k].status) && SameAction(w.actions[k], row)
      && !row.status.Authorized?
    ensures Forward(w, v)
  {
  }

  lemma RowKeeps(env: Env, w: World, v: World, c: Client, k: Key, row: ActionRow)
    requires Inv(env, w) && Forward(w, v) && c in w.clients && Held(env, w.clients[c]) == Some(k)
    requires v.approvals == w.approvals && v.actions == w.actions[k := row] && v.sent == w.sent
    requires env.key(row.what) == k && v.clients.Keys <= w.clients.Keys
    requires forall d :: d in v.clients && d != c ==> v.clients[d] == w.clients[d]
    requires c in v.clients ==> PhaseOk(env, v, v.clients[c]) && Held(env, v.clients[c]) == Some(k)
    ensures Inv(env, v)
  {
    assert v.sent[..|w.sent|] == w.sent;
    HolderKeeps(env, w, v, c, k);
  }

  lemma CommitKeeps(env: Env, w: World, c: Client)
    requires Inv(env, w) && c in w.clients && w.clients[c].Inserted?
    ensures Forward(w, Next(env, w, CommitRow(c)).value) && Inv(env, Next(env, w, CommitRow(c)).value)
  {
    var p, v := w.clients[c], Next(env, w, CommitRow(c)).value;
    var k := env.key(p.pass.request.what);
    assert PhaseOk(env, w, p);
    RowForward(w, v, k, p.row);
    PassStays(env, w, v, p.pass);
    RowKeeps(env, w, v, c, k, p.row);
  }

  lemma StatusForward(env: Env, w: World, c: Client, s: ActionStatus, v: World)
    requires c in w.clients && PhaseOk(env, w, w.clients[c]) && w.clients[c].Owner? && s != Authorized
    requires v.approvals == w.approvals && env.key(w.clients[c].pass.request.what) in w.actions
    requires v.actions == SetStatus(w, env.key(w.clients[c].pass.request.what), s).actions
    ensures Forward(w, v)
  {
    var k := env.key(w.clients[c].pass.request.what);
    RowForward(w, v, k, w.actions[k].(status := s));
  }

  /** The owner's last write, after which it holds nothing. */
  lemma FinishKeeps(env: Env, w: World, c: Client, s: ActionStatus)
    requires Inv(env, w) && c in w.clients && w.clients[c].Owner? && s != Authorized
    ensures var k := env.key(w.clients[c].pass.request.what);
      k in w.actions && Forward(w, Leave(SetStatus(w, k, s), c)) && Inv(env, Leave(SetStatus(w, k, s), c))
  {
    var p := w.clients[c];
    var k := env.key(p.pass.request.what);
    assert PhaseOk(env, w, p);
    var v := Leave(SetStatus(w, k, s), c);
    StatusForward(env, w, c, s, v);
    RowKeeps(env, w, v, c, k, w.actions[k].(status := s));
  }

  lemma ExecutingKeeps(env: Env, w: World, c: Client)
    requires Inv(env, w) && c in w.clients && w.clients[c].Owner? && w.clients[c].stage.Begun?
    ensures var p := w.clients[c];
      var k := env.key(p.pass.request.what);
      k in w.actions && Forward(w, Put(SetStatus(w, k, Executing), c, p.(stage := Calling)))
      && Inv(env, Put(SetStatus(w, k, Executing), c, p.(stage := Calling)))
  {
    var p := w.clients[c];
    var k := env.key(p.pass.request.what);
    assert PhaseOk(env, w, p);
    var v := Put(SetStatus(w, k, Executing), c, p.(stage := Calling));
    StatusForward(env, w, c, Executing, v);
    PassStays(env, w, v, p.pass);
    RowKeeps(env, w, v, c, k, w.actions[k].(status := Executing));
  }

  lemma CallKeeps(env: Env, w: World, c: Client, outcome: Outcome)
    requires Inv(env, w) && c in w.clients && w.clients[c].Owner? && w.clients[c].stage.Calling?
    ensures Forward(w, AfterCall(w, c, w.clients[c], outcome)) && Inv(env, AfterCall(w, c, w.clients[c], outcome))
  {
    var p := w.clients[c];
    var v := AfterCall(w, c, p, outcome);
    var k := env.key(p.pass.request.what);
    assert PhaseOk(env, w, p);
    assert v.sent[..|w.sent|] == w.sent;
    PassStays(env, w, v, p.pass);
    NewCallOk(env, w, v, p, v.sent[|w.sent|]);
    StillOnce(env, w, v, k);
    CallTouches(env, w, c, p, outcome);
    HolderKeeps(env, w, v, c, k);
  }

  lemma CallTouches(env: Env, w: World, c: Client, p: Phase, outcome: Outcome)
    requires p.Owner?
    ensures forall j :: j != env.key(p.pass.request.what) ==> Untouched(env, w, AfterCall(w, c, p, outcome), j)
  {
    var v := AfterCall(w, c, p, outcome);
    forall j | j != env.key(p.pass.request.what) && Unsent(env, w, j) ensures Unsent(env, v, j) {
    }
  }

  lemma NewCallOk(env: Env, w: World, v: World, p: Phase, s: Sent)
    requires p.Owner? && PassOk(env, v, p.pass) && v.approvals == w.approvals && v.actions == w.actions
    requires PhaseOk(env, w, p) && p.stage.Calling?
    requires s == Sent(p.rowId, p.pass.request.what, p.pass.request.message, p.pass.request.classification, p.pass.connector)
    ensures SentOk(env, v, s)
  {
    if s.connector.requiresApproval {
      var id := p.pass.approval.value.id;
      assert Authorizes(v.approvals[id], s.what) && Approver(env, v, s) == v.approvals[id].decidedBy;
    }
  }

  lemma StillOnce(env: Env, w: World, v: World, k: Key)
    requires Once(env, w) && Unsent(env, w, k) && |v.sent| == |w.sent| + 1 && v.sent[..|w.sent|] == w.sent
    requires env.key(v.sent[|w.sent|].what) == k
    ensures Once(env, v)
  {
    forall i, j | 0 <= i < j < |v.sent| ensures env.key(v.sent[i].what) != env.key(v.sent[j].what) {
      assert v.sent[i] == v.sent[..|w.sent|][i];
      assert j < |w.sent| ==> v.sent[j] == v.sent[..|w.sent|][j];
    }
  }

  lemma RequestStepKeeps(env: Env, w: World, step: Step)
    requires Inv(env, w) && Next(env, w, step).Some?
    requires step.Configure? || step.RequestApproval? || step.CheckDecision? || step.CheckDecisionById? || step.ApplyDecision? || step.CheckRequest?
    ensures Inv(env, Next(env, w, step).value) && Forward(w, Next(env, w, step).value)
  {
    match step
    case Configure(connector) => ConfigureKeeps(env, w, connector);
    case RequestApproval(a) => RequestApprovalKeeps(env, w, a);
    case CheckDecision(c, org, _, id, actor, _, allow, _) => DecidingKeeps(env, w, c, Deciding(org, id, actor, allow));
    case CheckDecisionById(c, org, id, actor, allow, _) => DecidingKeeps(env, w, c, Deciding(org, id, actor, allow));
    case ApplyDecision(c) => DecisionKeeps(env, w, c);
    case CheckRequest(c, r, seen) => CheckKeeps(env, w, c, r, seen);
  }

  lemma StepKeeps(env: Env, w: World, step: Step)
    requires Inv(env, w) && Next(env, w, step).Some?
    ensures Inv(env, Next(env, w, step).value)
    ensures Forward(w, Next(env, w, step).value)
  {
    match step
    case InsertRow(c, rowId) => InsertKeeps(env, w, c, rowId);
    case CommitRow(c) => CommitKeeps(env, w, c);
    case FailUnconfigured(c) => FinishKeeps(env, w, c, Failed);
    case MarkExecuting(c) => ExecutingKeeps(env, w, c);
    case Call(c, outcome) => CallKeeps(env, w, c, outcome);
    case Finish(c) => FinishKeeps(env, w, c, Verdict(w.clients[c].stage.outcome));
    case Stop(c) => StopKeeps(env, w, c);
    case _ => RequestStepKeeps(env, w, step);
  }

  lemma {:induction false} RunKeeps(env: Env, connectors: map<Str, Connector>, steps: seq<Step>)
    requires Run(env, Start(connectors), steps).Some?
    ensures Inv(env, Run(env, Start(connectors), steps).value)
  {
    if steps != [] {
      RunKeeps(env, connectors, steps[..|steps| - 1]);
      StepKeeps(env, Run(env, Start(connectors), steps[..|steps| - 1]).value, steps[|steps| - 1]);
    }
  }

  // ---------------------------------------------------------------- theorems

  /** Over all interleavings and crashes, one action is called at most once, and only after its row
      was committed. */
  lemma AtMostOnce(env: Env, connectors: map<Str, Connector>, steps: seq<Step>, i: nat, j: nat)
    requires Run(env, Start(connectors), steps).Some?
    ensures var w := Run(env, Start(connectors), steps).value;
      && (i < j < |w.sent| ==> w.sent[i].what != w.sent[j].what)
      && (i < |w.sent| ==> env.key(w.sent[i].what) in w.actions && w.actions[env.key(w.sent[i].what)].id == w.sent[i].rowId)
  {
    RunKeeps(env, connectors, steps);
    var w := Run(env, Start(connectors), steps).value;
    if i < |w.sent| {
      assert SentOk(env, w, w.sent[i]);
    }
  }

  lemma ForwardTransitive(u: World, v: World, w: World)
    requires Forward(u, v) && Forward(v, w)
    ensures Forward(u, w)
  {
  }

  /** Whatever happens later, a finished row never changes, a row keeps its id, and a decision is
      never revised. */
  lemma {:induction false} HistoryStands(env: Env, connectors: map<Str, Connector>, steps: seq<Step>, n: nat)
    requires n <= |steps| && Run(env, Start(connectors), steps).Some?
    ensures Run(env, Start(connectors), steps[..n]).Some?
    ensures Forward(Run(env, Start(connectors), steps[..n]).value, Run(env, Start(connectors), steps).value)
    decreases |steps|
  {
    if n == |steps| {
      assert steps[..n] == steps;
    } else {
      var before := steps[..|steps| - 1];
      assert before[..n] == steps[..n];
      HistoryStands(env, connectors, before, n);
      RunKeeps(env, connectors, before);
      StepKeeps(env, Run(env, Start(connectors), before).value, steps[|steps| - 1]);
      ForwardTransitive(Run(env, Start(connectors), steps[..n]).value, Run(env, Start(connectors), before).value,
                        Run(env, Start(connectors), steps).value);
    }
  }

  /** Whenever a client is answered with a row instead of owning one, whether its first lookup or the
      unique key found it, the row is a committed one of the same action, unless two key texts collide. */
  lemma ReplayIsSameAction(sha: Sha, connectors: map<Str, Connector>, steps: seq<Step>, c: Client)
    requires Run(Hashing(sha), Start(connectors), steps).Some?
    requires var w := Run(Hashing(sha), Start(connectors), steps).value;
      && c in w.clients && w.clients[c].Replied?
      && CollisionFreeOn(sha, {Utf8.Encode(KeyText(w.clients[c].row.what)), Utf8.Encode(KeyText(w.clients[c].request.what))})
    ensures var w := Run(Hashing(sha), Start(connectors), steps).value;
      var row, k := w.clients[c].row, Hashing(sha).key(w.clients[c].request.what);
      && k in w.actions && w.actions[k].id == row.id && row.what == w.clients[c].request.what
  {
    RunKeeps(Hashing(sha), connectors, steps);
    var w := Run(Hashing(sha), Start(connectors), steps).value;
    assert PhaseOk(Hashing(sha), w, w.clients[c]);
    KeyBinds(sha, w.clients[c].row.what, w.clients[c].request.what);
  }

  /** Answering with a row calls nothing and writes nothing. */
  lemma ReplayCallsNothing(env: Env, w: World, step: Step, v: World, c: Client)
    requires Next(env, w, step) == Some(v) && c in v.clients && v.clients[c].Replied?
    requires c in w.clients ==> !w.clients[c].Replied?
    ensures v == w.(clients := v.clients)
  {
    match step
    case CheckRequest(d, r, seen) =>
    case InsertRow(d, rowId) =>
    case _ =>
  }
}
