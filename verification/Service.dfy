/** The execution service over the kernel: which events its calls append, with which parents, in which
    order. Each append is its own transaction unless said otherwise, so a call that throws half way
    leaves what it had appended. Other calls may come in between: a call whose guard has passed and whose
    parent is read goes on in flight, whatever has happened meanwhile. A refused call is no call. */
module Service {
  import opened Basics
  import opened Sorting
  import opened Records
  import opened Ledgers
  import opened Kernel
  import opened VerifyGraphs
  import O = Outcomes

  function ExecutionCreated(): Str { O.TypeName(O.ExecutionCreated) }

  // ---------------------------------------------------------------- the chains of the calls

  /** What a call that follows an open execution comes to; foreign calls and policy decide which. */
  datatype Path =
    | RetrievalDenied | Retrieved(insufficient: bool)
    | ModelDenied | ModelWithheld | ModelUnrouted | ModelRan(failed: bool)
    | SkillStarted | SkillCompleted | SkillFailed
    | ToolDenied | ToolRan(failed: bool)

  /** The event types the call appends, in order. */
  function PathTypes(p: Path): seq<Str>
  {
    match p
    case RetrievalDenied => [Ascii("authorization.started"), Ascii("authorization.denied")]
    case Retrieved(insufficient) =>
      [Ascii("authorization.started"), Ascii("authorization.allowed"), Ascii("risk.classified"),
       Ascii("knowledge.retrieval.started"),
       if insufficient then Ascii("knowledge.retrieval.insufficient") else Ascii("knowledge.retrieval.completed")]
    case ModelDenied => [Ascii("authorization.started"), Ascii("authorization.denied")]
    case ModelWithheld => [Ascii("authorization.started"), Ascii("authorization.allowed"), Ascii("release.blocked")]
    case ModelUnrouted =>
      [Ascii("authorization.started"), Ascii("authorization.allowed"), Ascii("model.routing.started"), Ascii("model.routing.failed")]
    case ModelRan(failed) =>
      [Ascii("authorization.started"), Ascii("authorization.allowed"), Ascii("model.routing.started"), Ascii("model.selected"),
       Ascii("model.execution.started"),
       if failed then Ascii("model.execution.failed") else Ascii("model.execution.completed")]
    case SkillStarted => [Ascii("nova.skill.started")]
    case SkillCompleted => [Ascii("nova.skill.completed")]
    case SkillFailed => [Ascii("nova.skill.failed")]
    case ToolDenied => [Ascii("tool.requested"), Ascii("tool.denied")]
    case ToolRan(failed) =>
      [Ascii("tool.requested"), Ascii("tool.authorized"), if failed then Ascii("tool.failed") else Ascii("tool.completed")]
  }

  function OpenTypes(): seq<Str> { [ExecutionCreated(), O.TypeName(O.IdentityAuthenticated)] }

  function AskType(): Str { O.TypeName(O.ApprovalRequested) }

  function DecisionType(allow: bool): Str { O.TypeName(if allow then O.ApprovalApproved else O.ApprovalRejected) }

  type FinalOutcome = O.FinalOutcome

  /** The prelude of a finalization. */
  function FinalTypes(o: FinalOutcome): (r: seq<Str>)
    ensures |r| == |O.FinalPrelude(o)|
  {
    seq(|O.FinalPrelude(o)|, i requires 0 <= i < |O.FinalPrelude(o)| => O.TypeName(O.FinalPrelude(o)[i]))
  }

  // ---------------------------------------------------------------- the calls

  /** Drafts hold what a call draws for each event: id, time, status, hashes and metadata; type, owner
and parents are set by the call. Likewise for entries and seals. */
  datatype ServiceCall =
    | Open(organizationId: Str, id: Str, recordId: Str, drafts: seq<EventInput>, entry: EntryInput)
    | Follow(organizationId: Str, id: Str, path: Path, drafts: seq<EventInput>)
    | AskApproval(organizationId: Str, id: Str, draft: EventInput, entry: EntryInput)
    | Decide(organizationId: Str, id: Str, allow: bool, draft: EventInput)
    | Finalize(organizationId: Str, id: Str, outcome: FinalOutcome, drafts: seq<EventInput>, seal: SealInput)
    | Resume(organizationId: Str, id: Str, path: Path, from: nat, parent: Str, drafts: seq<EventInput>)
    | SealChecked(organizationId: Str, id: Str, outcome: FinalOutcome, parent: Str, drafts: seq<EventInput>, seal: SealInput)

  function Placed(draft: EventInput, org: Str, id: Str, eventType: Str, parents: seq<Str>): EventInput
  {
    draft.(organizationId := org, executionId := id, eventType := eventType, parentEventIds := parents)
  }

  /** The id of the last event, as a list of parents; none before the first event. */
  function LastParents(t: Tables, org: Str, id: Str): seq<Str>
  {
    var events := ListEvents(t.events, org, id);
    if events == [] then [] else [events[|events| - 1].id]
  }

  /** Events appended one after another, each behind the one before. It ends with the first that
      throws, or with the drafts when something else in the call threw. */
  function Chain(types: set<Str>, t: Tables, org: Str, id: Str, names: seq<Str>, drafts: seq<EventInput>, parents: seq<Str>): Tables
    decreases |names|
  {
    if names == [] || drafts == [] then t
    else
      match NewEvent(types, t, Placed(drafts[0], org, id, names[0], parents))
      case Err(_) => t
      case Ok(e) => Chain(types, AddEvent(t, e), org, id, names[1..], drafts[1..], [e.id])
  }

  /** The execution exists and has not ended. */
  predicate IsOpen(t: Tables, org: Str, id: Str)
  {
    GetExecution(t, org, id).Some? && !Terminal(t.executions[id].status)
  }

  function EntryFor(entry: EntryInput, org: Str, id: Str, entryType: Str, status: Option<Str>): EntryInput
  {
    entry.(organizationId := org, executionId := id, entryType := entryType, responseHash := None, executionGraphHash := None,
           executionStatus := status)
  }

  /** The entry of an approval request repeats the request hash the execution was opened with. */
  function AskEntry(t: Tables, entry: EntryInput, org: Str, id: Str): EntryInput
  {
    EntryFor(entry, org, id, ApprovalRequested(), Some(WaitingApproval()))
      .(requestHash := RequestOpenedHash(SortBy(SequenceLe, At(t.ledgers, org).entries), id))
  }

  function OpenGoverned(sha: Sha, types: set<Str>, t: Tables, org: Str, id: Str, recordId: Str, drafts: seq<EventInput>,
                        entry: EntryInput): Tables
  {
    match OpenExecution(t, org, id, recordId)
    case Err(_) => t
    case Ok(created) =>
      var u := Chain(types, created, org, id, OpenTypes(), drafts, []);
      if |EventsFor(u.events, id)| < |OpenTypes()| then u
      else
        match AppendEntry(sha, u, EntryFor(entry, org, id, RequestOpened(), None))
        case Err(_) => u
        case Ok(v) => v
  }

  /** Event and ledger entry in one transaction. */
  function AskFor(sha: Sha, types: set<Str>, t: Tables, org: Str, id: Str, draft: EventInput, entry: EntryInput): Tables
  {
    match NewEvent(types, t, Placed(draft, org, id, AskType(), LastParents(t, org, id)))
    case Err(_) => t
    case Ok(e) =>
      match AppendEntry(sha, AddEvent(t, e), AskEntry(t, entry, org, id))
      case Err(_) => t
      case Ok(u) => u
  }

  /** There is no check that the execution is still open. */
  function DecideOn(types: set<Str>, t: Tables, org: Str, id: Str, allow: bool, draft: EventInput): Tables
  {
    match NewEvent(types, t, Placed(draft, org, id, DecisionType(allow), LastParents(t, org, id)))
    case Err(_) => t
    case Ok(e) =>
      if allow && t.executions[id].status == WaitingApproval()
      then
        match SetStatus(AddEvent(t, e), org, id, Running(), None)
        case Err(_) => AddEvent(t, e)
        case Ok(u) => u
      else AddEvent(t, e)
  }

  /** What is left of a call after its first `from` events. */
  function RestOf(path: Path, from: nat): seq<Str>
  {
    if from < |PathTypes(path)| then PathTypes(path)[from..] else []
  }

  function OutcomeSeal(o: FinalOutcome): (SealType, SealStatus)
  {
    match o
    case CompletedOutcome => (SealFinal, SealCompleted)
    case FailedOutcome => (SealFailure, SealFailed)
    case BlockedOutcome => (SealFailure, SealBlocked)
  }

  /** The growing `prelude` array: the first event names the last one recorded, the others nothing. */
  function PreludeDrafts(names: seq<Str>, drafts: seq<EventInput>, parents: seq<Str>): (r: seq<EventInput>)
    requires |drafts| == |names|
    ensures |r| == |names|
  {
    seq(|names|, i requires 0 <= i < |names| => drafts[i].(eventType := names[i], parentEventIds := if i == 0 then parents else []))
  }

  function FinalSeal(parents: seq<Str>, org: Str, id: Str, o: FinalOutcome, drafts: seq<EventInput>, seal: SealInput): SealInput
    requires |drafts| == |FinalTypes(o)|
  {
    seal.(organizationId := org, executionId := id, entryType := OutcomeSeal(o).0, executionStatus := OutcomeSeal(o).1,
          parentEventIds := parents, preludeEvents := PreludeDrafts(FinalTypes(o), drafts, parents))
  }

  /** What a finalization does once its guard has passed and its parent is read. */
  function SealFrom(sha: Sha, types: set<Str>, t: Tables, org: Str, id: Str, o: FinalOutcome, parents: seq<Str>,
                    drafts: seq<EventInput>, seal: SealInput): Tables
  {
    if |drafts| != |FinalTypes(o)| then t
    else
      match SealExecution(sha, types, t, FinalSeal(parents, org, id, o, drafts, seal))
      case Err(_) => t
      case Ok(u) => u
  }

  predicate Finalizable(t: Tables, org: Str, id: Str, o: FinalOutcome)
  {
    IsOpen(t, org, id) && !(t.executions[id].status == WaitingApproval() && o.CompletedOutcome?)
  }

  function Serve(sha: Sha, types: set<Str>, t: Tables, call: ServiceCall): Tables
  {
    match call
    case Open(org, id, recordId, drafts, entry) => OpenGoverned(sha, types, t, org, id, recordId, drafts, entry)
    case Follow(org, id, path, drafts) =>
      if IsOpen(t, org, id) then Chain(types, t, org, id, PathTypes(path), drafts, LastParents(t, org, id)) else t
    case AskApproval(org, id, draft, entry) => if IsOpen(t, org, id) then AskFor(sha, types, t, org, id, draft, entry) else t
    case Decide(org, id, allow, draft) => DecideOn(types, t, org, id, allow, draft)
    case Finalize(org, id, o, drafts, seal) =>
      if Finalizable(t, org, id, o) then SealFrom(sha, types, t, org, id, o, LastParents(t, org, id), drafts, seal) else t
    case Resume(org, id, path, from, parent, drafts) => Chain(types, t, org, id, RestOf(path, from), drafts, [parent])
    case SealChecked(org, id, o, parent, drafts, seal) => SealFrom(sha, types, t, org, id, o, [parent], drafts, seal)
  }

  function ServeAll(sha: Sha, types: set<Str>, calls: seq<ServiceCall>): Tables
  {
    if calls == [] then NoRows()
    else Serve(sha, types, ServeAll(sha, types, calls[..|calls| - 1]), calls[|calls| - 1])
  }
}
