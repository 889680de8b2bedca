/** Rows of the audit tables and the evidence bundle exported from them. */
module Records {
  import opened Basics
  import opened Canonical
  import opened TreeShape
  import opened HashFormat

  datatype LedgerEntry = LedgerEntry(
    id: Str,
    organizationId: Str,
    organizationSequence: int,
    executionId: Str,
    entryType: Str,
    requestHash: Option<Str>,
    responseHash: Option<Str>,
    executionGraphHash: Option<Str>,
    previousEntryHash: Option<Str>,
    entryHash: Str,
    merkleRoot: Option<Str>,
    kernelVersion: Str,
    hashFormatVersion: Str,
    createdAtCanonical: Str)
  {
    /** The fields the entry hash covers. */
    function Hashed(): HashFields
    {
      HashFields(organizationId, organizationSequence, executionId, entryType, requestHash, responseHash,
                 executionGraphHash, previousEntryHash, kernelVersion, createdAtCanonical)
    }

    function PayloadBytes(): Bytes
    {
      HashedBytes(HashPayload(Hashed()))
    }
  }

  datatype Checkpoint = Checkpoint(
    id: Str,
    organizationId: Str,
    fromSequence: int,
    throughSequence: int,
    root: Str,
    leafHashes: seq<Str>)

  datatype Execution = Execution(
    id: Str,
    verityRecordId: Str,
    organizationId: Str,
    status: Str,
    finalEntryId: Option<Str>)

  /** An execution event; `metadata` holds the members of a JSON object. */
  datatype Event = Event(
    id: Str,
    organizationId: Str,
    executionId: Str,
    eventSequence: int,
    eventType: Str,
    status: Str,
    parentEventIds: seq<Str>,
    inputHash: Option<Str>,
    outputHash: Option<Str>,
    metadata: seq<Member>,
    occurredAtCanonical: Str)

  // ---------------------------------------------------------------- the exported bundle

  datatype ExportedEntry = ExportedEntry(
    row: LedgerEntry,
    createdAt: Str,
    merkleProof: Option<seq<ProofStep<Str>>>)

  /** `graph` is whatever JSON the bundle carries. */
  datatype GraphExport = GraphExport(
    schemaVersion: Str,
    executionId: Str,
    verityRecordId: Str,
    organizationId: Str,
    status: Str,
    graphHash: Str,
    graph: Value)

  datatype Bundle = Bundle(
    organizationId: Str,
    includesPlaintext: bool,
    ledgerEntries: seq<ExportedEntry>,
    executions: seq<Execution>,
    merkleCheckpoints: seq<Checkpoint>,
    executionEvents: seq<Event>,
    executionGraphs: seq<GraphExport>)

  // ---------------------------------------------------------------- vocabulary

  function RequestOpened(): Str { Ascii("request_opened") }
  function ApprovalRequested(): Str { Ascii("approval_requested") }
  function Final(): Str { Ascii("final") }
  function FailureEntry(): Str { Ascii("failure") }
}
