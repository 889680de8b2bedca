/** The write side of the audit kernel: executions, events, ledger entries and seals over the
    audit tables. Each function is one call, from the tables before it to the tables after it;
    `Err` is an exception, and the caller's transaction rolls back. */
module Kernel {
  import opened Basics
  import opened Sorting
  import opened Canonical
  import opened Records
  import opened Graph
  import opened Ledgers
  import opened Evidence

  /** Rows by primary key, and events in insertion order. */
  datatype Tables = Tables(
    ledgers: map<Str, Ledger>,
    executions: map<Str, Execution>,
    events: seq<Event>)

  function NoRows(): Tables { Tables(map[], map[], []) }

  // ---------------------------------------------------------------- execution status

  function Created(): Str { Ascii("created") }
  function Running(): Str { Ascii("running") }
  function WaitingApproval(): Str { Ascii("waiting_approval") }
  function Completed(): Str { Ascii("completed") }
  function Failed(): Str { Ascii("failed") }
  function Blocked(): Str { Ascii("blocked") }
  function Cancelled(): Str { Ascii("cancelled") }

  predicate Terminal(s: Str)
  {
    s == Completed() || s == Failed() || s == Blocked() || s == Cancelled()
  }

  /** The transition table; nothing leaves a status that is not a key. */
  predicate InTable(from: Str, to: Str)
  {
    if from == Created() then to == Running() || to == Blocked() || to == Failed() || to == Cancelled()
    else if from == Running() then to == WaitingApproval() || Terminal(to)
    else if from == WaitingApproval() then to == Running() || Terminal(to)
    else false
  }

  /** Staying put is always accepted. */
  predicate MayBecome(from: Str, to: Str)
  {
    from == to || InTable(from, to)
  }

  function GetExecution(t: Tables, org: Str, id: Str): Option<Execution>
  {
    if id in t.executions && t.executions[id].organizationId == org then Some(t.executions[id]) else None
  }

  predicate RecordTaken(t: Tables, recordId: Str)
  {
    exists id :: id in t.executions && t.executions[id].verityRecordId == recordId
  }

  function OpenExecution(t: Tables, org: Str, id: Str, recordId: Str): Result<Tables, Fault>
  {
    if id in t.executions || RecordTaken(t, recordId) then Err(Constraint)
    else Ok(t.(executions := t.executions[id := Execution(id, recordId, org, Created(), None)]))
  }

  function SetStatus(t: Tables, org: Str, id: Str, status: Str, finalEntryId: Option<Str>): Result<Tables, Fault>
  {
    var x := GetExecution(t, org, id);
    if x.None? then Err(ExecutionNotFound)
    else if !MayBecome(x.value.status, status) then Err(InvalidTransition)
    else Ok(t.(executions := t.executions[id := x.value.(status := status,
              finalEntryId := if finalEntryId.Some? then finalEntryId else x.value.finalEntryId)]))
  }

  // ---------------------------------------------------------------- events

  /** Arguments of an event append; the random id and the timestamp are part of them. */
  datatype EventInput = EventInput(
    id: Str,
    organizationId: Str,
    executionId: Str,
    eventType: Str,
    status: Str,
    parentEventIds: seq<Str>,
    inputHash: Option<Str>,
    outputHash: Option<Str>,
    metadata: seq<Member>,
    occurredAtCanonical: Str)

  function Unique(ids: seq<Str>): seq<Str>
  {
    if ids == [] then []
    else
      var rest, last := Unique(ids[..|ids| - 1]), ids[|ids| - 1];
      if last in rest then rest else rest + [last]
  }

  function UniqueSortedIds(ids: seq<Str>): seq<Str>
  {
    SortBy(StrLe, Unique(ids))
  }

  function EventsOf(events: seq<Event>, org: Str, id: Str): seq<Event>
  {
    if events == [] then []
    else
      var rest, last := EventsOf(events[..|events| - 1], org, id), events[|events| - 1];
      if last.organizationId == org && last.executionId == id then rest + [last] else rest
  }

  /** `listExecutionEvents` */
  function ListEvents(events: seq<Event>, org: Str, id: Str): seq<Event>
  {
    SortBy(EventLe, EventsOf(events, org, id))
  }

  /** `COALESCE(MAX(event_sequence), 0)` */
  function MaxSequence(events: seq<Event>): int
    decreases |events|
  {
    if events == [] then 0
    else if |events| == 1 then events[0].eventSequence
    else
      var rest, last := MaxSequence(events[..|events| - 1]), events[|events| - 1].eventSequence;
      if last > rest then last else rest
  }

  function FindEvent(events: seq<Event>, id: Str): Option<Event>
  {
    if events == [] then None else if events[0].id == id then Some(events[0]) else FindEvent(events[1..], id)
  }

  function ParentFault(events: seq<Event>, input: EventInput, sequence: int, parentId: Str): Option<Fault>
  {
    var parent := FindEvent(events, parentId);
    if parent.None? then Some(ParentNotFound)
    else if parent.value.organizationId != input.organizationId then Some(ParentCrossOrganization)
    else if parent.value.executionId != input.executionId then Some(ParentCrossExecution)
    else if parent.value.eventSequence >= sequence then Some(ParentSequence)
    else None
  }

  /** The first parent that is at fault decides. */
  function ParentsFault(events: seq<Event>, input: EventInput, sequence: int, parents: seq<Str>): Option<Fault>
  {
    if parents == [] then None
    else
      var first := ParentFault(events, input, sequence, parents[0]);
      if first.Some? then first else ParentsFault(events, input, sequence, parents[1..])
  }

  function EventRow(input: EventInput, sequence: int, parents: seq<Str>): Event
  {
    Event(input.id, input.organizationId, input.executionId, sequence, input.eventType, input.status, parents,
          input.inputHash, input.outputHash, input.metadata, input.occurredAtCanonical)
  }

  function EvidenceFault(types: set<Str>, input: EventInput): Option<Fault>
  {
    if input.eventType !in types then Some(UnknownEventType)
    else if !HashOk(input.inputHash) || !HashOk(input.outputHash) || Canonicalize(Obj(input.metadata)).Err?
         || !CanonicalTimestamp(input.occurredAtCanonical)
    then Some(InvalidEvidence)
    else None
  }

  function NextSequence(t: Tables, input: EventInput): int
  {
    MaxSequence(EventsOf(t.events, input.organizationId, input.executionId)) + 1
  }

  /** The row an event append inserts under a sequence number it has read. `types` are the event
      types the kernel knows. */
  function NewEventAt(types: set<Str>, t: Tables, input: EventInput, sequence: int): Result<Event, Fault>
  {
    var parents := UniqueSortedIds(input.parentEventIds);
    if EvidenceFault(types, input).Some? then Err(EvidenceFault(types, input).value)
    else if GetExecution(t, input.organizationId, input.executionId).None? then Err(ExecutionNotFound)
    else if ParentsFault(t.events, input, sequence, parents).Some?
    then Err(ParentsFault(t.events, input, sequence, parents).value)
    else if FindEvent(t.events, input.id).Some? || sequence > MAX_INT4 then Err(Constraint)
    else Ok(EventRow(input, sequence, parents))
  }

  /** A whole event append, alone on the execution. */
  function NewEvent(types: set<Str>, t: Tables, input: EventInput): Result<Event, Fault>
  {
    NewEventAt(types, t, input, NextSequence(t, input))
  }

  function AddEvent(t: Tables, e: Event): Tables { t.(events := t.events + [e]) }

  // ---------------------------------------------------------------- ledger entries

  predicate EntryIdTaken(l: Ledger, id: Str)
  {
    exists i :: 0 <= i < |l.entries| && l.entries[i].id == id
  }

  /** The status an entry of this type moves its execution to, and whether it is the final entry. */
  function StatusEffect(input: EntryInput): Option<(Str, Option<Str>)>
  {
    var chosen := input.executionStatus;
    if input.entryType == RequestOpened() then Some((if chosen.Some? then chosen.value else Running(), None))
    else if input.entryType == ApprovalRequested()
    then Some((if chosen.Some? then chosen.value else WaitingApproval(), None))
    else if input.entryType == Final()
    then Some((if chosen.Some? then chosen.value else Completed(), Some(input.entryId)))
    else if input.entryType == FailureEntry()
    then Some((if chosen.Some? then chosen.value else Failed(), Some(input.entryId)))
    else None
  }

  function AppendEntry(sha: Sha, t: Tables, input: EntryInput): Result<Tables, Fault>
  {
    var org := input.organizationId;
    match Append(sha, At(t.ledgers, org), input)
    case Err(f) => Err(f)
    case Ok(ledger) =>
      if input.executionId !in t.executions || EntryIdTaken(At(t.ledgers, org), input.entryId) then Err(Constraint)
      else
        var u := t.(ledgers := t.ledgers[org := ledger]);
        match StatusEffect(input)
        case None => Ok(u)
        case Some((status, finalEntryId)) => SetStatus(u, org, input.executionId, status, finalEntryId)
  }

  // ---------------------------------------------------------------- sealing

  datatype SealType = SealFinal | SealFailure
  datatype SealStatus = SealCompleted | SealFailed | SealBlocked | SealCancelled

  function TypeText(k: SealType): Str { if k.SealFinal? then Final() else FailureEntry() }

  function StatusText(s: SealStatus): (r: Str)
    ensures Terminal(r)
  {
    match s
    case SealCompleted => Completed()
    case SealFailed => Failed()
    case SealBlocked => Blocked()
    case SealCancelled => Cancelled()
  }

  /** Arguments of a seal, with the ids, timestamps and configuration its inner calls draw. */
  datatype SealInput = SealInput(
    organizationId: Str,
    executionId: Str,
    entryType: SealType,
    executionStatus: SealStatus,
    responseHash: Option<Str>,
    parentEventIds: seq<Str>,
    preludeEvents: seq<EventInput>,
    sealedId: Str,
    sealedAt: Str,
    entryId: Str,
    checkpointId: Str,
    createdAtCanonical: Str,
    interval: int,
    kernelVersion: Str)

  function SealedType(): Str { Ascii("audit.checkpoint.sealed") }

  /** Prelude event `i`: its own parents, or else what the events before it chained. */
  function PreludeInput(input: SealInput, i: nat, chained: seq<Str>): EventInput
    requires i < |input.preludeEvents|
  {
    var e := input.preludeEvents[i];
    e.(organizationId := input.organizationId, executionId := input.executionId,
       parentEventIds := if |e.parentEventIds| > 0 then e.parentEventIds else chained)
  }

  /** One prelude append: the tables and the parents it chains to the next. */
  function PreludeStep(types: set<Str>, t: Tables, input: SealInput, i: nat, chained: seq<Str>)
    : Result<(Tables, seq<Str>), Fault>
  {
    if i >= |input.preludeEvents| then Ok((t, chained))
    else
      match NewEvent(types, t, PreludeInput(input, i, chained))
      case Err(f) => Err(f)
      case Ok(e) => Ok((AddEvent(t, e), [e.id]))
  }

  function PreludeSteps(types: set<Str>, input: SealInput): (nat, (Tables, seq<Str>)) -> Result<(Tables, seq<Str>), Fault>
  {
    (i: nat, s: (Tables, seq<Str>)) => PreludeStep(types, s.0, input, i, s.1)
  }

  /** The tables and the chained parents after the prelude. */
  function Prelude(types: set<Str>, t: Tables, input: SealInput): Result<(Tables, seq<Str>), Fault>
  {
    Fold(PreludeSteps(types, input), (t, input.parentEventIds), |input.preludeEvents|)
  }

  /** Building the graph and hashing it. */
  function HashGraph(sha: Sha, x: Execution, events: seq<Event>): Result<Str, Fault>
  {
    match BuildExecutionGraph(x, events)
    case None => Err(UnresolvedParents)
    case Some(g) => if GraphHash(sha, GraphValue(g)).Some? then Ok(GraphHash(sha, GraphValue(g)).value) else Err(PrinterThrows)
  }

  function SealedInput(input: SealInput, parents: seq<Str>, preSealHash: Str): EventInput
  {
    EventInput(input.sealedId, input.organizationId, input.executionId, SealedType(), Ascii("ok"), parents,
               None, Some(preSealHash),
               [ Member(Ascii("entry_type"), Text(TypeText(input.entryType))),
                 Member(Ascii("execution_status"), Text(StatusText(input.executionStatus))) ],
               input.sealedAt)
  }

  /** The request hash of the execution's first `request_opened` entry. */
  function RequestOpenedHash(entries: seq<LedgerEntry>, id: Str): Option<Str>
  {
    if entries == [] then None
    else if entries[0].executionId == id && entries[0].entryType == RequestOpened() then entries[0].requestHash
    else RequestOpenedHash(entries[1..], id)
  }

  function SealEntry(input: SealInput, requestHash: Option<Str>, graphHash: Str): EntryInput
  {
    EntryInput(input.entryId, input.checkpointId, input.organizationId, input.executionId, TypeText(input.entryType),
               requestHash, input.responseHash, Some(graphHash), input.interval, input.createdAtCanonical,
               input.kernelVersion, Some(StatusText(input.executionStatus)))
  }

  /** The execution as the sealed graphs show it. */
  function AsSealed(x: Execution, input: SealInput): Execution
  {
    x.(status := StatusText(input.executionStatus))
  }

  /** From the prelude on: seal the events listed, then append the ledger entry. */
  function FinishSeal(sha: Sha, types: set<Str>, t: Tables, input: SealInput, x: Execution, parents: seq<Str>)
    : Result<Tables, Fault>
  {
    var events := ListEvents(t.events, input.organizationId, input.executionId);
    match HashGraph(sha, AsSealed(x, input), events)
    case Err(f) => Err(f)
    case Ok(preSealHash) =>
      match NewEvent(types, t, SealedInput(input, parents, preSealHash))
      case Err(f) => Err(f)
      case Ok(sealed) =>
        match HashGraph(sha, AsSealed(x, input), events + [sealed])
        case Err(f) => Err(f)
        case Ok(sealedHash) =>
          var requestHash := RequestOpenedHash(SortBy(SequenceLe, At(t.ledgers, input.organizationId).entries), input.executionId);
          AppendEntry(sha, AddEvent(t, sealed), SealEntry(input, requestHash, sealedHash))
  }

  function SealExecution(sha: Sha, types: set<Str>, t: Tables, input: SealInput): Result<Tables, Fault>
  {
    match GetExecution(t, input.organizationId, input.executionId)
    case None => Err(ExecutionNotFound)
    case Some(x) =>
      match Prelude(types, t, input)
      case Err(f) => Err(f)
      case Ok((u, parents)) => FinishSeal(sha, types, u, input, x, parents)
  }
}
