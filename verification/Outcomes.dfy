/** How a governed execution may be finalized, and the events that say so. */
module Outcomes {
  import opened Basics

  datatype FinalOutcome = CompletedOutcome | FailedOutcome | BlockedOutcome

  /** `Work` stands for every event that neither opens, decides nor ends an execution. */
  datatype EventKind =
    | ExecutionCreated | IdentityAuthenticated
    | ApprovalRequested | ApprovalApproved | ApprovalRejected
    | ValidationStarted | ValidationPassed | ValidationFailed
    | ExecutionCompleted | ExecutionFailed | ExecutionBlocked
    | ReleaseStarted | ReleaseCompleted | ReleaseBlocked
    | CheckpointSealed
    | Work

  /** The prelude of a finalization. */
  function FinalPrelude(o: FinalOutcome): (r: seq<EventKind>)
    ensures Work !in r
  {
    match o
    case CompletedOutcome => [ValidationStarted, ValidationPassed, ExecutionCompleted, ReleaseStarted, ReleaseCompleted]
    case FailedOutcome => [ValidationStarted, ValidationFailed, ExecutionFailed, ReleaseBlocked]
    case BlockedOutcome => [ValidationStarted, ValidationFailed, ExecutionBlocked, ReleaseBlocked]
  }

  /** The event type of a kind; `Work` is not one type. */
  function TypeName(k: EventKind): Str
    requires !k.Work?
  {
    match k
    case ExecutionCreated => Ascii("execution.created")
    case IdentityAuthenticated => Ascii("identity.authenticated")
    case ApprovalRequested => Ascii("approval.requested")
    case ApprovalApproved => Ascii("approval.approved")
    case ApprovalRejected => Ascii("approval.rejected")
    case ValidationStarted => Ascii("validation.started")
    case ValidationPassed => Ascii("validation.passed")
    case ValidationFailed => Ascii("validation.failed")
    case ExecutionCompleted => Ascii("execution.completed")
    case ExecutionFailed => Ascii("execution.failed")
    case ExecutionBlocked => Ascii("execution.blocked")
    case ReleaseStarted => Ascii("release.started")
    case ReleaseCompleted => Ascii("release.completed")
    case ReleaseBlocked => Ascii("release.blocked")
    case CheckpointSealed => Ascii("audit.checkpoint.sealed")
  }
}
