# Audit kernel and governed execution: model and proofs

This project models the audit kernel of VerityOS and the guards built on it, and proves properties of
that model with Dafny's verifier. `dafny verify dfyconfig.toml` checks all of it.

## What is modelled

The audit kernel keeps one hash chain per organization. Every entry is hashed over a fixed set of
fields, printed as canonical JSON, and links to the entry before it. Every so many entries a Merkle
checkpoint is closed over their hashes. An execution's events form a dag; sealing an execution hashes
that dag into a final ledger entry. An exporter writes an organization's evidence to a bundle, and an
offline verifier, written separately, checks the bundle. On top of the kernel, a service guards the
life of an execution: approvals, finalization, and connector actions that reach the outside world.

The files follow the repository's components:

- `Basics`, `Sorting`, `Utf8`, `Hex`, `Evidence`, `Calendar`: strings as UTF-16 code units, stable
  sorting, the UTF-8 encoder and a decoder written from RFC 3629, hexadecimal text, the checks on
  evidence fields, and timestamps told by counting days.
- `Canonical`, `Parser`, `CanonicalLaws`, `PrintedForm`, `HashFormat`: the canonical JSON printer, a parser
  written from the JSON grammar, what the printer preserves, in which order and how it prints, and the
  payload of a ledger entry.
- `TreeShape`, `Merkle`: the level loop of the tree over any joining function, an independent top-down
  definition of it, proofs, and what a root binds once the joining function is SHA-256.
- `Records`, `Metadata`, `Graph`, `HashedTexts`: rows and bundles, event metadata as graphs show it, the
  canonical graph of an execution's events, and what the hashed texts say, read back member by member.
- `Reports`, `Verify`, `VerifyGraphs`, `Issues`, `Lookups`: the verifier's loops, when exactly they report
  nothing, when exactly each issue, and which rows they look at.
- `Binding`: what two verified bundles must agree on when they agree on one hash (soundness).
- `Ledgers`, `Kernel`, `Databases`: appends, events, status changes and seals as functions on table
  rows, and as methods that change a store in place and roll back.
- `Rows`, `SealRows`: what each of these calls writes, column by column, told from its arguments and the
  rows before.
- `Checkpoints`, `EventDag`, `Reachable`, `Seals`, `Admission`, `Refusals`: checkpoints under any intervals,
  what every state keeps whoever calls, what disciplined callers keep besides, when exactly each kernel
  call succeeds, and why an event is refused.
- `Exports`, `ExportRows`, `Intervals`, `Completeness`, `LateEvents`, `Linked`, `Witnesses`: that every state
  exports, what the bundle holds, exactly when the verifier accepts it (completeness), and inputs for what
  it rejects.
- `Service`, `ServiceCalls`, `ServiceRows`, `Sources`, `ServiceSeals`, `ServiceWitness`: the execution service
  on top of the kernel, calls in flight included, as functions on table rows and as methods on the store;
  what each call writes, where an execution's events start, what its seals cover, and exactly when a run
  exports without issues.
- `ConcurrentLedger`, `ConcurrentSeal`, `ConcurrentRuns`: transactions from many clients, step by step, with
  row locks, commits and rollbacks in any order.
- `Policy`, `Outcomes`, `Idempotency`, `Gateway`, `GatewayRuns`, `GatewayCalls`: the connector gateway over
  interleavings and crashes, and what stands behind its decisions, calls and rows.
- `Lifecycle`, `LifecycleRuns`: the approval gate over call traces, and what a whole run leaves.
- `RateLimit`, `Chunking`, `ChunkTexts`, `Router`: the rate limiter, the text chunker and the model router.

## How to read the statements

SHA-256 is a parameter: every statement holds of every function from byte strings to 32 bytes. It is
never assumed injective. Where equal hashes are to mean equal evidence, the statement assumes that the
function does not collide on a finite set of byte strings computed from the inputs, those the verifier
itself hashes. Read backwards, such a statement hands over the collision: if the evidence differs, two
members of that set have one digest. ("A collision exists" alone would say nothing, since by counting
one always does.)

Random ids, timestamps and the outcome of foreign calls are arguments. A JavaScript exception is
`None`, `Err` or a `Fault`.

## Findings

Properties that are false of the code as it stands, each with an input and the exact condition under
which it holds:

- **Graph hashes bind the events.** Not their whole metadata: `sortMetadata` copies members with
  `out[key] = ...`, and for the key `__proto__` that assignment sets the prototype of the copy instead
  of a member. `Binding.ProtoUnbound` gives two verified bundles, with and without the key, with one
  ledger and one tip hash. `Graph.GraphIsLossless` says what a graph binds, both ways;
  `Graph.LosslessExactly` and `Binding.HiddenMetadataUnbound` that nothing is lost exactly when no
  event's metadata has the key; `VerifyGraphs.ReportIgnoresProto` that the verifier never sees it.
- **A seal hashes all events before it.** Under interleaving exactly when its prelude is not empty
  (`ConcurrentSeal.CoversExactly`); without one it lists before it locks
  (`ConcurrentSeal.EmptyPreludeMisses`).
- **A completed execution has no approval pending.** Exactly when the completing call was made with
  none pending (`Lifecycle.CleanExactly`, `Lifecycle.GrantThenComplete`); one granted approval releases
  an execution with another still pending (`Lifecycle.OneGrantAnswersAll`).
- **A granted approval releases a waiting execution.** Not when it is decided on the route that names
  only the approval (`Lifecycle.GrantByIdStrands`): a waiting execution can still complete without a new
  request exactly when some approval is still pending (`Lifecycle.CompletableExactly`).
- **A call goes through an enabled connector.** Through one that was enabled when it was checked
  (`GatewayRuns.ApprovedOnly`); one disabled after the check is called all the same
  (`GatewayRuns.DisabledStillCalls`).
- **A window holds at most the maximum.** On a clock that may run backwards exactly for a maximum of at
  most one (`RateLimit.BoundOnAnyClock`); on nondecreasing times always (`RateLimit.WindowBound`).
- **Chunking ends.** Exactly for positive limits (`Chunking.EndsExactly`).
- **Exported checkpoints are accepted.** Exactly when no two overlap (`Intervals.AnyIntervals`), which
  an append keeps exactly when the range it closes starts behind the last one
  (`Checkpoints.AppendDisjointExactly`), and one constant interval always (`Checkpoints.TiledIsDisjoint`);
  a growing interval overlaps, from the second entry on (`Checkpoints.FirstTwoOverlap`).
- **`execution.created` is the only source of an execution's events.** The only source is the first
  event, always; it is `execution.created` exactly when the opening call drew an event, found both its ids
  unused, and that event's evidence is well formed and its id new (`Sources.OneSource`). A call that
  stops before it leaves an execution whose first event is another one (`Sources.FirstIsNotCreated`). The
  kernel alone does not ask for parents (`Sources.OrphanIsSecondSource`).
- **Sealed evidence stays valid.** The kernel takes events after a seal, a second seal, and any graph
  hash on a final entry: what its calls ask is stated exactly, and none of it is whether the execution is
  sealed (`Admission.EventAcceptedExactly`, `Admission.SealAcceptedExactly`,
  `Admission.EntryAcceptedExactly`; inputs `Witnesses.EventBehindSeal`, `Witnesses.SealBehindSeal`,
  `Witnesses.AnyHashBehindSeal`). After any run of kernel calls the verifier accepts the export exactly
  when checkpoints are disjoint and every graph-bearing entry carries the hash of the graph over all its
  execution's events, of which there is at least one (`Completeness.AnyRunAccepted`; without a
  hypothesis on the hash function where each organization keeps to one interval,
  `Completeness.OneIntervalAccepted`). So an event or a seal is harmless exactly when the execution was
  not sealed before, unless graphs collide (`LateEvents.LateEventExactly`,
  `LateEvents.SecondSealExactly`), and a caller's graph hash exactly when it is the right one over at least
  one event (`LateEvents.AnyHashExactly`). Of the service's calls it is decisions, and calls in flight when
  another finalizes, that append behind a seal: a run exports without issues exactly when none did
  (`ServiceSeals.ServiceExports`; input `ServiceWitness.FailingRunRejected`).
- **A verifying proof proves its leaf.** Exactly when the leaf is 64 characters long and the path has
  full length (`Merkle.ProofBinds`, `Merkle.ShortProofBinds`); half a leaf and any inner node verify too
  (`Merkle.HalfLeafVerifies`, `Merkle.InnerNodeVerifies`).
- **Chains do not fork.** Under the row lock never (`ConcurrentLedger.NeverForks`); in the first kernel,
  without it, for any two clients (`ConcurrentLedger.UnlockedForks`).

## Model

| member | source | states |
|---|---|---|
| Canonical.PrintsExactlyDomain | packages/audit-kernel/src/hashing/canonicalize.ts:39-69 | the printer throws on exactly the values outside the documented domain, at any depth |
| Parser.ReadPrinted | packages/audit-kernel/src/hashing/canonicalize.ts:35-69 | a parser written from the JSON grammar reads every printed value back, with any following delimiter text left over, up to member order |
| CanonicalLaws.SameTextIffSameValue | packages/audit-kernel/src/hashing/canonicalize.ts:39-69 | two values print alike if and only if they are the same value up to the order of object members |
| CanonicalLaws.SelfDelimiting | packages/audit-kernel/src/hashing/canonicalize.ts:39-69 | no printed text is a proper prefix of another followed by a delimiter: value and remainder are both determined |
| CanonicalLaws.InsertionOrderIrrelevant | packages/audit-kernel/src/hashing/canonicalize.ts:61-66 | permuting the members of an object with distinct keys does not change the printed text |
| PrintedForm.PrintsInOrder | packages/audit-kernel/src/hashing/canonicalize.ts:61-66 | the text of a value without repeated keys reads back as its members, and in every object, at any depth, each key comes before the next: at the first code unit that differs it has the smaller one, or it ends there |
| PrintedForm.IntegersPrint | packages/audit-kernel/src/hashing/canonicalize.ts:49-54 | an integer prints if and only if it lies strictly between -2^53 and 2^53 |
| PrintedForm.NumberIsShortest | packages/audit-kernel/src/hashing/canonicalize.ts:44-54 | the text of an integer is the one shortest of all texts the grammar reads as it |
| PrintedForm.StringIsShortest | packages/audit-kernel/src/hashing/canonicalize.ts:55-57 | the text of a string is the one shortest of all texts the grammar reads as it that escape what must be escaped, with lower-case hex digits |
| CanonicalLaws.SameBytesSameValue | packages/audit-kernel/src/hashing/hash.ts:9-11 | the UTF-8 bytes that are hashed determine the value up to member order |
| Utf8.EncodeInjective | packages/audit-kernel/src/hashing/hash.ts:9-11 | UTF-8 encoding loses nothing on text without lone surrogates |
| Utf8.DecodeEncoded | packages/audit-kernel/src/hashing/hash.ts:9-11 | a decoder written from RFC 3629 reads the encoded bytes back as the text, with each lone surrogate replaced by U+FFFD |
| Hex.HexAt | packages/audit-kernel/src/hashing/hash.ts:9-11 | byte i is shown by digits 2i and 2i+1, the high half first, in lower case |
| Hex.DigestTextExactly | packages/audit-kernel/src/hashing/evidence.ts:32-46 | a field is well formed if and only if it is the text of some 32 bytes |
| Hex.FromHexExactly | packages/audit-kernel/src/merkle/merkle.ts:25-31 | the decoder returns these bytes if and only if the string spells them, two digits each, in either case |
| Calendar.AcceptsExactlyInstants | packages/audit-kernel/src/hashing/evidence.ts:48-62 | a timestamp is accepted if and only if it is the toISOString text of an instant whose date counts days as ECMA-262 does |
| CanonicalLaws.TextWellFormed | packages/audit-kernel/src/hashing/canonicalize.ts:55-57 | printed text never holds a lone surrogate, so its encoding loses nothing |
| HashFormat.PayloadBinds | packages/audit-kernel/src/hashing/hash.ts:57-75 | the hashed bytes of a ledger payload determine every one of its fields, nulls included |
| HashedTexts.PayloadReads | packages/audit-kernel/src/hashing/hash.ts:57-75 | the hashed text of a ledger entry reads back as the ten members of the payload, each field under its own key, and the entry hash is over its bytes |
| HashFormat.PayloadLong | packages/audit-kernel/src/hashing/hash.ts:57-71 | every payload is longer than the 64 bytes an inner Merkle node hashes, so leaves and inner nodes cannot be confused |
| HashFormat.EntryHashBinds | packages/audit-kernel/src/hashing/hash.ts:73-75 | equal entry hashes mean equal hashed fields, unless the two payloads collide |
| TreeShape.RootIsTopDown | packages/audit-kernel/src/merkle/merkle.ts:33-56 | the bottom-up level loop computes the top-down tree over the leaves padded to a power of two by self-pairing |
| TreeShape.OddRootRepeats | packages/audit-kernel/src/merkle/merkle.ts:46-50 | an odd list longer than one and the same list with its last leaf repeated have one root |
| TreeShape.JoinLevel | packages/audit-kernel/src/merkle/merkle.ts:45-50 | the inner loop produces exactly the next level, or fails exactly when a node it joins does not decode |
| TreeShape.PathReachesRoot | packages/audit-kernel/src/merkle/merkle.ts:62-84 | climbing from leaf i past the siblings of its path, on the sides its index dictates, reaches the root |
| TreeShape.RootBinds | packages/audit-kernel/src/merkle/merkle.ts:33-60 | equal roots of lists without repetition, of any two lengths, mean equal lists, when joining is injective on the pairs joined and leaves are not inner nodes |
| TreeShape.ProofFromLayers | packages/audit-kernel/src/merkle/merkle.ts:70-82 | the loop over the layers yields the proof defined by recursion on the leaves |
| Merkle.BuildMerkleTree | packages/audit-kernel/src/merkle/merkle.ts:33-56 | the loop returns root and all layers, handles the empty list, and throws exactly when several leaves do not all decode |
| Merkle.ComputeMerkleRoot | packages/audit-kernel/src/merkle/merkle.ts:58-60 | returns the root of the recursive definition, or the exception |
| Merkle.GetMerkleProof | packages/audit-kernel/src/merkle/merkle.ts:62-84 | returns the proof and root of the leaf, or throws exactly for an index out of range or leaves that do not decode |
| Merkle.VerifyMerkleProof | packages/audit-kernel/src/merkle/merkle.ts:86-102 | the loop computes the verdict defined by climbing the proof, with its three outcomes |
| Merkle.ProofComplete | packages/audit-kernel/src/merkle/merkle.ts:62-102 | for every list of decodable leaves and every index, the generated proof verifies against the root |
| Merkle.ProofBinds | packages/audit-kernel/src/merkle/merkle.ts:86-102 | a string that verifies along a path of full length with the directions of index i is leaf i if and only if it is 64 characters long, unless a pair hashed for the proof collides with one hashed for the tree |
| Merkle.ShortProofBinds | packages/audit-kernel/src/merkle/merkle.ts:86-102 | a path k steps short proves the node k levels up and no other, under the same condition |
| Merkle.InnerNodeVerifies | packages/audit-kernel/src/merkle/merkle.ts:86-102 | the length of the path matters: every inner node verifies against the root with its own shorter path |
| Merkle.HalfLeafVerifies | packages/audit-kernel/src/merkle/merkle.ts:86-102 | the length condition is needed: half of a leaf verifies with a sibling that carries the rest |
| Merkle.RootBindsPayloads | packages/audit-kernel/src/merkle/merkle.ts:33-60 | one root over hashes of long, pairwise different payloads fixes the leaf list and every payload, across lengths, unless inputs collide |
| Merkle.ParentIs | packages/audit-kernel/src/merkle/merkle.ts:25-31 | a node is the hash of the 64 bytes its two children spell, the left one first |
| Graph.GraphHashBinds | packages/audit-kernel/src/execution/graph-v2.ts:68-75 | one graph hash fixes the graph up to metadata member order, unless the two canonical texts collide |
| HashedTexts.GraphReads | packages/audit-kernel/src/execution/graph-v2.ts:20-84 | the text a graph hash covers reads back as an envelope around the graph: the execution, one node per event in sequence order with each field under its own key, and an edge exactly from each parent to its event, as often as it is listed, ordered by where they come from and lead to |
| Metadata.SortMetadata | packages/audit-kernel/src/execution/graph-v2.ts:77-84 | the loop returns the members in key order, all of them but those with the key __proto__ |
| Metadata.SameByParts | packages/audit-kernel/src/execution/graph-v2.ts:77-84 | metadata is the same up to member order if and only if it is the same outside the dropped key and under it |
| Graph.GraphIsLossless | packages/audit-kernel/src/execution/graph-v2.ts:20-66 | two graphs are the same if and only if executions and events are, outside the dropped metadata key: fields, sequence order and parents with multiplicity |
| Graph.LosslessExactly | packages/audit-kernel/src/execution/graph-v2.ts:77-84 | among events without the dropped key a graph determines its events if and only if they do not have it either |
| Graph.GraphIgnoresListing | packages/audit-kernel/src/execution/graph-v2.ts:24-24 | the graph does not depend on the order events with distinct sequences are listed in |
| Graph.EdgeCount | packages/audit-kernel/src/execution/graph-v2.ts:42-49 | the edges into an event are its parents, each as often as it is listed |
| Verify.VerifyLedgerEntry | packages/audit-kernel/src/verify/verify.ts:16-69 | pushes no issue if and only if hash, format, link and timestamp of the entry are right, and throws exactly for a sequence that is not a safe integer |
| Verify.VerifyOrganizationChain | packages/audit-kernel/src/verify/verify.ts:71-105 | the loop collects exactly the issues of the chain in sequence order |
| Verify.ChainAccepted | packages/audit-kernel/src/verify/verify.ts:71-105 | no issues if and only if sequences are 1, 2, 3, ... and every entry has its own hash and the hash of the one before |
| Verify.VerifyMerkleCheckpoints | packages/audit-kernel/src/verify/verify.ts:107-160 | the nested loops collect exactly the issues of the checkpoints and their leaves |
| Verify.CheckpointsAccepted | packages/audit-kernel/src/verify/verify.ts:107-160 | no issues if and only if every root is the root of its leaves and every leaf is an exported entry whose proof leads to the root |
| VerifyGraphs.CompareGraphEvidence | packages/audit-kernel/src/verify/verify.ts:274-353 | pushes no issue if and only if the events build a graph whose hash the export, the embedded graph and the ledger all carry |
| VerifyGraphs.GraphEvidenceAccepted | packages/audit-kernel/src/verify/verify.ts:274-353 | no issues if and only if the events build a graph whose hash the export, the embedded graph and the ledger all carry |
| VerifyGraphs.VerifyExecutionGraphs | packages/audit-kernel/src/verify/verify.ts:188-272 | the two loops, with their map of exports and set of checked executions, collect exactly the graph issues |
| VerifyGraphs.GraphsAccepted | packages/audit-kernel/src/verify/verify.ts:188-272 | no issues if and only if every graph-bearing entry has one matching export and every other export matches its events |
| VerifyGraphs.VerifyEvidenceBundle | packages/audit-kernel/src/verify/verify.ts:162-186 | runs all checks in order and collects exactly their issues |
| VerifyGraphs.BundleAccepted | packages/audit-kernel/src/verify/verify.ts:162-186 | the verifier reports nothing if and only if the bundle is right in every respect |
| Issues.ReportsExactly | packages/audit-kernel/src/verify/verify.ts:16-353 | the verifier reports an issue, with its code, sequence and hash, if and only if the bundle has that fault |
| Lookups.ExecutionIsLast | packages/audit-kernel/src/verify/verify.ts:188-206 | the execution looked up for an id is the last row of the bundle with that id |
| Lookups.EntryIsLast | packages/audit-kernel/src/verify/verify.ts:107-118 | the entry looked up for a sequence is the last one of the bundle with that sequence |
| Lookups.ExportsAreAll | packages/audit-kernel/src/verify/verify.ts:188-206 | the graphs looked up for an execution are all that are exported for it, in order |
| Lookups.EventsAreAll | packages/audit-kernel/src/verify/verify.ts:188-272 | the events a graph is checked against are all exported events of its execution, in order |
| Lookups.BearersExactly | packages/audit-kernel/src/verify/verify.ts:188-272 | a graph is looked for if and only if a final or failure entry of the bundle has a graph hash, and an execution is skipped later if and only if it has such an entry |
| VerifyGraphs.ReportIgnoresProto | packages/audit-kernel/src/verify/verify.ts:274-353 | the report on a bundle is the report on the bundle without metadata under the dropped key |
| Binding.HistoryBinds | packages/audit-kernel/src/verify/verify.ts:71-105 | two accepted chains with one last entry hash have one length and agree on all hashed fields at every position, unless payloads collide |
| Binding.AcceptanceIgnoresListing | packages/audit-kernel/src/verify/verify.ts:79-81 | acceptance of a chain does not depend on the order its entries are listed in |
| Binding.PrefixAccepted | packages/audit-kernel/src/verify/verify.ts:71-105 | every prefix of an accepted chain is accepted |
| Binding.CheckpointBinds | packages/audit-kernel/src/verify/verify.ts:107-160 | non-empty checkpoints of two verified bundles with one root have one first sequence, one leaf list, and equal hashed fields in every covered entry, unless inputs collide |
| Binding.EventEvidenceBinds | packages/audit-kernel/src/verify/verify.ts:188-353 | one execution graph hash in two verified bundles means one execution, one final status and the same events with the same parents outside the dropped metadata key; the same altogether if and only if they also agree under that key, as when neither uses it; unless inputs collide |
| Binding.TipBindsEvidence | packages/audit-kernel/src/verify/verify.ts:162-353 | one tip hash fixes the whole ledger and, as far as graphs show them, the events behind every graph-bearing entry |
| Binding.HiddenMetadataUnbound | packages/audit-kernel/src/execution/graph-v2.ts:77-84 | metadata under the dropped key can be taken out of a verified bundle without any hash or verdict changing; the evidence changes if and only if there was some |
| Binding.ProtoUnbound | packages/audit-kernel/src/execution/graph-v2.ts:77-84 | the input: adding the key to one event of a verified bundle leaves it verified, with the same ledger and other evidence |
| Ledgers.AppendKeepsSound | packages/audit-kernel/src/ledger/append.ts:105-188 | an append keeps sequences 1..n, every link, and the chain state at the tip |
| Ledgers.AppendKeepsTiled | packages/audit-kernel/src/ledger/append.ts:126-205 | with one interval, an append keeps checkpoint k over entries k*interval+1 to (k+1)*interval, and exactly floor(n/interval) of them |
| Ledgers.BetweenIsSlice | packages/audit-kernel/src/ledger/append.ts:133-142 | on a sound chain the range query for checkpoint leaves selects exactly the entries of that range, in order |
| Checkpoints.AppendKeepsClosed | packages/audit-kernel/src/ledger/append.ts:126-205 | whatever the interval, an append keeps every checkpoint closed over exactly the entries of its range |
| Checkpoints.AppendDisjointExactly | packages/audit-kernel/src/ledger/append.ts:131-132 | an append keeps checkpoints disjoint if and only if it closes none or one that starts behind the last |
| Checkpoints.AppendSucceedsExactly | packages/audit-kernel/src/ledger/append.ts:82-177 | a sound chain takes an entry if and only if its evidence is well formed, its type known and its sequence fits the column; hashing and the Merkle root never throw there |
| Checkpoints.GrowingIntervalOverlaps | packages/audit-kernel/src/ledger/append.ts:131-132 | the input: one interval, then the next larger one; both appends succeed and the second checkpoint covers the first |
| Checkpoints.FirstTwoOverlap | packages/audit-kernel/src/ledger/append.ts:131-132 | from the empty chain, intervals 1 and 2 |
| Checkpoints.TiledIsDisjoint | packages/audit-kernel/src/ledger/append.ts:126-205 | one constant interval keeps checkpoints disjoint |
| Databases.Database.OpenExecution | packages/audit-kernel/src/execution/executions.ts:53-79 | adds one row, in the status created under both its ids, or refuses a repeated id or record id and changes nothing |
| Databases.Database.SetExecutionStatus | packages/audit-kernel/src/execution/executions.ts:81-110 | changes status and, if one is given, final entry id of one row, along the transition table; all other rows stay |
| Databases.Database.CheckParents | packages/audit-kernel/src/execution/events.ts:148-188 | the loop finds the first parent at fault and says why |
| Databases.Database.AppendExecutionEventInTransaction | packages/audit-kernel/src/execution/events.ts:119-218 | appends one row that carries every field it was given, its parents once each in order, under the next sequence of the execution; or nothing, with the fault |
| Databases.Database.StageEntry | packages/audit-kernel/src/ledger/append.ts:105-177 | the staged row carries every field it was given by name, response hash included, links to the locked tip under the next sequence, and hashes exactly its own columns; a checkpoint is staged exactly when due, over the interval that ends here, with one leaf per entry and their root |
| Databases.Database.AppendLedgerEntryInTransaction | packages/audit-kernel/src/ledger/append.ts:74-230 | one entry more on the chain of its organization that carries every field it was given, its checkpoint, and the status effect of its type on its execution; all else stays; or a fault |
| Databases.Database.AppendLedgerEntry | packages/audit-kernel/src/ledger/append.ts:51-68 | the same, and on a fault every row is as before |
| Databases.Database.AppendPrelude | packages/audit-kernel/src/execution/finalize.ts:62-74 | the loop chains each prelude event to the one before unless it names its own parents |
| Databases.Database.SealExecution | packages/audit-kernel/src/execution/finalize.ts:53-136 | the prelude chained, the sealed event with the hash over the graph before it, and one final entry with the response hash given, the request hash of the first request_opened entry and the hash over the whole graph; or a fault or a failing hook, and every row is as before |
| Rows.TableExactly | packages/audit-kernel/src/execution/executions.ts:26-51 | which status may follow which, among the statuses there are |
| Rows.StatusWrites | packages/audit-kernel/src/execution/executions.ts:81-110 | a status change writes status and final entry id of one row and nothing else |
| Rows.EventWrites | packages/audit-kernel/src/execution/events.ts:119-218 | an appended event has each field of its input by name, the sequence behind the greatest of its execution, and the given parents, each once, in increasing order |
| Rows.StageWrites | packages/audit-kernel/src/ledger/append.ts:105-177 | the new row has each field of the input by name and its entry hash is over exactly these |
| Rows.EntryWrites | packages/audit-kernel/src/ledger/append.ts:74-230 | an append adds one such entry to its organization and leaves other organizations and all events as they were; the status of its execution follows the type of the entry |
| SealRows.RequestHashIsFirst | packages/audit-kernel/src/execution/finalize.ts:35-50 | the request hash taken for a seal is that of the entry with the least sequence among those of the execution and of type request_opened, and null without one |
| SealRows.SealWrites | packages/audit-kernel/src/execution/finalize.ts:53-136 | a successful seal writes its prelude events, each as given and chained, the sealed event, and an entry with that request hash, the given response hash and the graph hash over all events |
| EventDag.UniqueSortedIsCanonical | packages/audit-kernel/src/execution/events.ts:64-66 | stored parents are the given ones, each once, in increasing order |
| EventDag.DagHashes | packages/audit-kernel/src/execution/graph-v2.ts:20-75 | events with dense sequences and only earlier parents always have a graph, and it always prints |
| EventDag.PrefixResolves | packages/audit-kernel/src/execution/graph-v2.ts:35-41 | no prefix of such events has an unresolved parent |
| EventDag.FirstReachesAll | packages/audit-kernel/src/execution/events.ts:127-188 | the first event is an ancestor of every event if and only if every later event names a parent |
| Reachable.EventKeepsSound | packages/audit-kernel/src/execution/events.ts:127-215 | an appended event joins the dag of its own execution with the next sequence and touches no other execution |
| Reachable.TerminalAbsorbs | packages/audit-kernel/src/execution/executions.ts:26-51 | nothing leaves a terminal status |
| Seals.SealKeeps | packages/audit-kernel/src/execution/finalize.ts:53-114 | sealing an unsealed execution leaves the ledger hash over exactly all its events and, in the sealed event, the hash over exactly the events before it |
| Seals.RunIsGood | packages/audit-kernel/src/ledger/append.ts:74-230 | every state a disciplined run of opens, events, entries, status changes and seals reaches has sound tiled chains, event dags, and seals that match their events |
| Seals.RunIsKept | packages/audit-kernel/src/ledger/append.ts:74-230 | every run of kernel calls at all keeps chains sound, checkpoints closed over their ranges, events dags with distinct ids, and graph-bearing entries naming an execution of their organization |
| Seals.SealRecords | packages/audit-kernel/src/execution/finalize.ts:53-114 | a seal records all events in its entry and those before its sealed event in that event, whatever was sealed before |
| Admission.EventAcceptedExactly | packages/audit-kernel/src/execution/events.ts:119-218 | an event append succeeds if and only if its evidence is well formed, the execution is known to the organization, the parents are its own events, the id is unused and the sequence fits; neither status nor seal is asked |
| Refusals.RefusedExactly | packages/audit-kernel/src/execution/events.ts:119-218 | which exception a refused event append throws: that of the first failing check, and among parents that of the least id at fault |
| Refusals.EntryTakenExactly | packages/audit-kernel/src/ledger/append.ts:74-230 | an entry append succeeds if and only if its hashes are texts of 32 bytes or null, its timestamp that of an instant, its type one of the five, its id unused, its execution there, the column wide enough, and the status its type leads to may follow |
| Admission.EntryAcceptedExactly | packages/audit-kernel/src/ledger/append.ts:74-230 | an entry append succeeds if and only if its evidence is well formed, chain and execution have room for it, and its type's status change is in the table |
| Admission.PreludeExactly | packages/audit-kernel/src/execution/finalize.ts:62-74 | a prelude chained as the service builds it can be appended if and only if each event can be, told from the tables before the first |
| Admission.SealAcceptedExactly | packages/audit-kernel/src/execution/finalize.ts:53-114 | such a seal succeeds if and only if prelude, sealed event and entry can be appended and the status may become the final one; whether it is sealed already is not asked |
| Exports.ExportOrganizationEvidence | packages/audit-kernel/src/export/bundle.ts:9-104 | the export loops compute the bundle of the specification, or its exception |
| ExportRows.ExportHolds | packages/audit-kernel/src/export/bundle.ts:9-104 | in every state calls lead to, the bundle holds all entries in sequence order, each with a proof that verifies against the first checkpoint spanning it if one does, all checkpoints, all executions with their columns, exactly the events, and one graph per execution that has any |
| Completeness.GoodExports | packages/audit-kernel/src/export/bundle.ts:9-104 | a good state exports, in any listing order of executions, to a bundle the verifier has no issue with |
| Completeness.ReachableExports | packages/audit-kernel/src/export/bundle.ts:9-104 | every state reachable by a disciplined run exports, for every organization, to a bundle without issues |
| Completeness.AcceptedExactly | packages/audit-kernel/src/export/bundle.ts:9-104 | any state any calls lead to exports for every organization in any listing order; the bundle is accepted if and only if checkpoints are disjoint and every graph-bearing entry carries the hash of all its execution's events, of which there is one |
| Completeness.AnyRunAccepted | packages/audit-kernel/src/export/bundle.ts:9-104 | the same for every run of kernel calls, with any intervals, hashes and late appends, unless the chain's inputs collide |
| Completeness.OneIntervalAccepted | packages/audit-kernel/src/export/bundle.ts:9-104 | for every run in which each organization keeps to one interval: accepted if and only if every graph hash is right, for every hash function |
| LateEvents.LateEventExactly | packages/audit-kernel/src/execution/events.ts:119-139 | after an event is appended the export is accepted if and only if the execution was not sealed, unless the two graphs collide |
| LateEvents.SecondSealExactly | packages/audit-kernel/src/execution/finalize.ts:53-114 | after a seal the export is accepted if and only if the execution was not sealed before, unless the two graphs collide |
| LateEvents.AnyHashExactly | packages/audit-kernel/src/ledger/append.ts:74-230 | after a final entry with any graph hash the export is accepted if and only if it is the hash of the graph over all the execution's events, of which there is one |
| Witnesses.EventBehindSeal | packages/audit-kernel/src/execution/events.ts:119-139 | the input: open, seal, and any well-formed event is accepted behind the seal |
| Witnesses.SealBehindSeal | packages/audit-kernel/src/execution/finalize.ts:53-114 | the input: open, seal, and any second seal with that status is accepted |
| Witnesses.AnyHashBehindSeal | packages/audit-kernel/src/ledger/append.ts:74-230 | the input: open, seal, and a final entry with any well-formed graph hash is accepted |
| Intervals.AnyIntervals | packages/audit-kernel/src/export/bundle.ts:56-67 | for every run of appends with any intervals, the exported checkpoints are accepted if and only if no two overlap, unless inputs collide |
| Linked.SealLinks | apps/core-api/src/execution/records.ts:49-62 | right after a seal the record is linked and its execution has ended |
| Linked.LinkedExactly | apps/core-api/src/execution/records.ts:49-62 | in every state calls lead to, an execution is linked if and only if the entry its row names as final carries the hash of the graph over all its events, of which there is one |
| Linked.EventUnlinks | apps/core-api/src/execution/records.ts:49-62 | an event appended to a linked execution unlinks it, unless the two graphs collide |
| Linked.LinkedPersists | apps/core-api/src/execution/records.ts:49-62 | a linked, ended execution stays linked through any calls anywhere that append no event and no second final entry to it |
| Linked.EndedForever | packages/audit-kernel/src/execution/executions.ts:81-110 | an execution that has ended keeps its status through any calls at all, a second seal included |
| ConcurrentLedger.StepKeeps | packages/audit-kernel/src/ledger/append.ts:82-205 | every step of every client keeps chain locks exclusive, what was read under a lock current, and committed rows serial |
| ConcurrentLedger.NeverForks | packages/audit-kernel/src/ledger/append.ts:82-205 | in every interleaving with commits and rollbacks an organization's rows are those of its own committed appends run alone: linked 1..n, chain state at the tip, checkpoints tiling |
| ConcurrentLedger.AppendAlone | packages/audit-kernel/src/ledger/append.ts:82-205 | in every world a schedule leads to, an idle client whose chain nobody holds appends and commits exactly what the append alone does, or is idle again with nothing changed |
| ConcurrentLedger.UnlockedForks | packages/audit-kernel/src/v1/ledger/append.ts:53-60 | reading the newest hash and inserting without a lock lets any two clients put two rows on one predecessor |
| ConcurrentSeal.SealsCover | packages/audit-kernel/src/execution/finalize.ts:53-114 | in every interleaving, a committed seal with a prelude hashed exactly the events up to its sealed event into the ledger and exactly those before into that event; committed events are a dag |
| ConcurrentSeal.EmptyPreludeMisses | packages/audit-kernel/src/execution/finalize.ts:63-82 | from any state with any events, a seal without prelude has a schedule in which an event committed in between is missing from its hash, unless graphs collide |
| ConcurrentSeal.CoversExactly | packages/audit-kernel/src/execution/finalize.ts:63-82 | from any such state a seal covers its events in every schedule if and only if its prelude is not empty, unless graphs collide |
| ConcurrentRuns.SealAlone | packages/audit-kernel/src/execution/finalize.ts:53-114 | in every world a schedule leads to, an idle client whose execution nobody has locked seals as the kernel's call does: the same events, and the same graph hash |
| Idempotency.StableIsCanonical | packages/connectors/src/hash.ts:7-17 | the gateway's sorted JSON text equals the canonical printer's wherever that one prints |
| Idempotency.KeyBinds | apps/core-api/src/connectors/gateway.ts:315-323 | one idempotency key means one organization, execution, connector, action, artifact and schedule, unless key texts collide |
| HashedTexts.KeyReads | apps/core-api/src/connectors/gateway.ts:315-323 | the text an idempotency key hashes reads back as its six members, each component under its own name |
| Gateway.StepKeeps | apps/core-api/src/connectors/gateway.ts:315-511 | every step keeps one owner per key, rows in the state their owner left them, and calls unrepeated; approvals and rows only move forward |
| Gateway.AtMostOnce | apps/core-api/src/connectors/gateway.ts:367-491 | over all interleavings and crashes an action is called at most once, and only after its row was committed |
| GatewayRuns.ApprovedOnly | apps/core-api/src/connectors/gateway.ts:269-313 | every call goes through its own connector as its row was at some point of the run, enabled then for its class of data; where that row required approval it sends a message whose hash an approval of that execution binds, which a step of the run granted, on either route, for someone other than its requester, and the committed row names that approver |
| GatewayRuns.DisabledStillCalls | apps/core-api/src/connectors/gateway.ts:452-470 | the input: a connector disabled after the check is called all the same |
| GatewayRuns.ApprovedBytes | apps/core-api/src/connectors/gateway.ts:271-273 | in every run the bytes sent are the bytes approved, unless the two texts collide |
| GatewayRuns.DecidedExactly | packages/command/src/index.ts:476-496 | in every run an approval is approved, or denied, by an actor if and only if some step applied that actor's decision while it was pending, the client's step before being the check with that answer |
| GatewayRuns.ApprovalExactly | packages/command/src/index.ts:476-496 | in every run an approval is approved if and only if a decision that allowed it was applied, and denied if and only if one that did not |
| GatewayRuns.EndedExactly | apps/core-api/src/connectors/gateway.ts:437-511 | in every run a row has succeeded, failed or needs review if and only if its owner reported that outcome of the call it had just made, or, to fail, found the connector not configured |
| GatewayCalls.FirstFaultDecides | packages/command/src/connectors.ts:79-151 | a request is refused for the first fault it has, in the order they are looked at, and let through if and only if it has none |
| GatewayCalls.SentWasChecked | apps/core-api/src/connectors/gateway.ts:300-313 | behind every call of every run stands a step that checked this very request, its class, action, role and approval, against the rows as they then were, and found everything in order |
| GatewayCalls.ChecksExactly | apps/core-api/src/execution/lifecycle.ts:204-237 | in every run a check of a decision goes through if and only if the actor is authorized and another than the requester and, on the route that names the execution, execution and bytes are those of the approval |
| GatewayCalls.RequestIsServed | apps/core-api/src/connectors/gateway.ts:367-511 | after any run, a request that is in order and that nobody hinders makes its one call and leaves a row that names requester and approver and reports the outcome |
| Gateway.HistoryStands | packages/command/src/index.ts:476-496 | whatever happens later, a decision is never revised, a row keeps its id, and a finished row never changes |
| Gateway.ReplayIsSameAction | apps/core-api/src/connectors/gateway.ts:325-328 | in every reachable state, a client answered with a row, found by the first lookup or by the unique key, got a committed row of the same action, unless key texts collide |
| Gateway.ReplayCallsNothing | apps/core-api/src/connectors/gateway.ts:415-427 | answering with a row calls nothing and writes nothing |
| Sources.OneSource | apps/core-api/src/execution/service.ts:76-90 | in every run of service calls, in flight or not, each execution's events are a dag whose first event is the only one without parents and reaches all others; it is execution.created, the only event of that type, if and only if the opening call drew an event, found both ids unused, and the event's evidence is well formed and its id new |
| Sources.FirstIsNotCreated | apps/core-api/src/execution/service.ts:68-76 | the input: a call that opens and stops, then a skill: the first event is the skill's |
| Sources.OrphanIsSecondSource | packages/audit-kernel/src/execution/events.ts:147-188 | the kernel accepts an event without parents, which the first event does not reach |
| ServiceSeals.RunSeals | apps/core-api/src/execution/service.ts:465-560 | in every run with one interval per organization each seal covers a non-empty beginning of its execution's events, all of them unless a call appended behind the end, and whatever has ended is sealed |
| ServiceSeals.ServiceExports | apps/core-api/src/execution/service.ts:465-560 | every such run exports, and an organization's bundle is accepted if and only if no call appended to one of its executions after its end, told from the tables before the call, unless graphs of beginnings of event lists collide |
| ServiceSeals.OtherOutcomeRefused | apps/core-api/src/execution/service.ts:478-486 | of two finalizations that both passed the status check, the second changes nothing unless its outcome is that of the first |
| ServiceSeals.AskOnEnded | apps/core-api/src/execution/lifecycle.ts:140-191 | an approval request of an ended execution rolls back, guard or no guard |
| ServiceWitness.FailingRunRejected | apps/core-api/src/execution/lifecycle.ts:204-255 | the input: open, ask for an approval, finalize as failed, decide: every call succeeds and the export is rejected, unless graphs collide |
| ServiceCalls.ExecutionService.RecordChain | apps/core-api/src/execution/service.ts:128-217 | the appends of one call follow each other, each naming the one before, up to the first exception |
| ServiceCalls.ExecutionService.OpenGovernedExecution | apps/core-api/src/execution/service.ts:55-102 | opens, records the two first events and the opening entry, stopping where something throws |
| ServiceCalls.ExecutionService.FollowExecution | apps/core-api/src/execution/service.ts:128-217 | the chain of one retrieval, model, skill or tool call goes behind the last event of an open execution |
| ServiceCalls.ExecutionService.RequestExecutionApproval | apps/core-api/src/execution/lifecycle.ts:107-191 | event and ledger entry in one transaction, behind the last event, for open executions only |
| ServiceCalls.ExecutionService.DecideExecutionApproval | apps/core-api/src/execution/lifecycle.ts:242-260 | an event behind the last one, and a waiting execution runs again on a grant |
| ServiceCalls.ExecutionService.FinalizeGovernedExecution | apps/core-api/src/execution/service.ts:465-560 | builds the growing prelude behind the last event and seals, or leaves every row as it was |
| ServiceCalls.ExecutionService.ResumeExecution | apps/core-api/src/connectors/gateway.ts:513-570 | the rest of a call after a foreign call is appended without another look at the execution |
| ServiceCalls.ExecutionService.SealCheckedExecution | apps/core-api/src/execution/service.ts:550-573 | a finalization whose guard passed earlier seals on whatever the tables have become |
| ServiceRows.FollowServed | apps/core-api/src/execution/service.ts:128-217 | on an open execution, and no other, the events of the call are made of its types in order, the first behind the last event there was, each other one behind the one before, up to the first that throws |
| ServiceRows.AskServed | apps/core-api/src/execution/lifecycle.ts:107-191 | a request that is not refused writes its event behind the last one and an entry with the request hash of the first request_opened entry, and the execution waits |
| ServiceRows.DecideServed | apps/core-api/src/execution/lifecycle.ts:242-260 | a decision writes its event behind the last one; a grant moves a waiting execution to running, and nothing else changes |
| ServiceRows.FinalizeServed | apps/core-api/src/execution/service.ts:465-560 | a finalization that is not refused found the execution open, and not waiting if it completes it, and writes the seal of its outcome: type, status and prelude |
| ServiceRows.OpenGovernedWrites | apps/core-api/src/execution/service.ts:55-102 | an opening that gets as far as its entry writes the row, its two events and the entry |
| Lifecycle.GovernedExecution.constructor | apps/core-api/src/execution/service.ts:68-101 | an opened execution is running, with its two first events |
| Lifecycle.GovernedExecution.RequestApproval | apps/core-api/src/execution/lifecycle.ts:107-191 | adds a pending approval and its event and waits, or is refused and changes nothing |
| Lifecycle.GovernedExecution.DecideApproval | apps/core-api/src/execution/lifecycle.ts:193-267 | decides a pending approval once, by another actor, and resumes a waiting execution only on a grant |
| Lifecycle.GovernedExecution.DecideById | apps/core-api/src/server.ts:460-482 | decides a pending approval once, by another actor, and changes nothing else |
| Lifecycle.GovernedExecution.Finalize | apps/core-api/src/execution/service.ts:465-560 | appends the events of the outcome and ends the execution, or is refused |
| Lifecycle.ApprovalGate | apps/core-api/src/execution/service.ts:481-486 | in every trace, between a requested approval and a later completion there is a granted approval |
| Lifecycle.GrantThenComplete | apps/core-api/src/execution/lifecycle.ts:256-260 | after one grant a waiting execution completes, with no approval pending if and only if the granted one was the only one |
| Lifecycle.OneGrantAnswersAll | apps/core-api/src/execution/lifecycle.ts:256-260 | the input: two requests leave an execution waiting with one approval decidable and another pending |
| Lifecycle.CleanExactly | apps/core-api/src/execution/service.ts:481-486 | over every run, a completed execution never has an approval pending if and only if the completing call was made with none pending |
| Lifecycle.OneAtATimeIsClean | apps/core-api/src/execution/lifecycle.ts:107-191 | which holds in every run that makes each request with none pending |
| Lifecycle.CompletableExactly | apps/core-api/src/server.ts:460-482 | in every reachable waiting state, the execution can complete without a new request if and only if some approval is pending: a decision by id uses its approval up and releases nothing |
| Lifecycle.GrantByIdStrands | apps/core-api/src/server.ts:460-482 | the input: a request and its grant by id leave the execution waiting with nothing pending |
| Lifecycle.SealedOnce | apps/core-api/src/execution/service.ts:481-483 | in every trace there is at most one seal, and only approval decisions follow it |
| Lifecycle.OnlyDecisionsFollow | apps/core-api/src/execution/lifecycle.ts:204-255 | a call appends to an ended execution if and only if it decides a pending approval |
| LifecycleRuns.ApprovalExactly | apps/core-api/src/execution/lifecycle.ts:193-267 | over every run an approval is there if and only if a call asked for it, as that call said, and approved or denied if and only if a later call by another, authorized actor over the same bytes decided so while it was pending; it names that actor |
| LifecycleRuns.StatusExactly | apps/core-api/src/execution/service.ts:465-560 | over every run the status is the outcome of the one call that ended the execution, and before that the execution waits if and only if an approval asked for is not followed by a grant |
| RateLimit.MemoryRateLimiter.Allow | apps/core-api/src/rate-limit.ts:12-21 | admits exactly when the key's own window has room, and leaves every other key's bucket alone |
| RateLimit.BucketIsWindow | apps/core-api/src/rate-limit.ts:12-21 | for nondecreasing times a bucket is the accepted history filtered to the window |
| RateLimit.RefusedOnlyWhenFull | apps/core-api/src/rate-limit.ts:14-17 | a call is refused if and only if the window behind it already holds the maximum of accepted calls |
| RateLimit.AdmittedExactly | apps/core-api/src/rate-limit.ts:14-17 | a call is admitted if and only if the maximum is positive and the call accepted that many calls ago, if there is one, is at least a whole window old |
| RateLimit.WindowBound | apps/core-api/src/rate-limit.ts:12-21 | every half-open window of the window's length holds at most the maximum of accepted calls |
| RateLimit.BoundOnAnyClock | apps/core-api/src/rate-limit.ts:12-21 | on a clock that may run backwards no window ever overflows if and only if the maximum is at most one |
| Chunking.CutAt | packages/knowledge/src/hashing.ts:39-43 | a cut is at the last space in the second half of the window, and inside a word only when there is none |
| Chunking.CutParagraph | packages/knowledge/src/hashing.ts:38-48 | the loop over what remains computes the cuts of the recursive definition and ends |
| Chunking.ChunkText | packages/knowledge/src/hashing.ts:23-57 | the loop over paragraphs computes the chunks of the specification |
| Chunking.ChunksConserve | packages/knowledge/src/hashing.ts:23-57 | the chunks together hold exactly the document's non-whitespace characters, in order |
| ChunkTexts.ChunksExactly | packages/knowledge/src/hashing.ts:23-57 | the chunks are those of the paragraphs, parted at whole runs of two and more newlines; the chunks of a paragraph are its words, spaced by one, cut from the front at the last space of the window, or after a full window whose second half has none |
| Chunking.ChunksFit | packages/knowledge/src/hashing.ts:23-57 | every chunk is non-empty, at most the limit long, and single-spaced without space at either end |
| Chunking.CutsAreWell | packages/knowledge/src/hashing.ts:38-48 | of a long paragraph every piece but the last is at least half the limit long |
| Chunking.CutsCount | packages/knowledge/src/hashing.ts:38-48 | which bounds the number of pieces |
| Chunking.EndsExactly | packages/knowledge/src/hashing.ts:38-48 | the loop over a paragraph ends if and only if the limit is positive, whatever integer it is |
| Router.RouteModel | packages/model-router/src/index.ts:111-202 | the loop, sort and selection compute the route of the specification |
| Router.ChosenIsLeast | packages/model-router/src/index.ts:126-187 | the chosen model is the least eligible one by deployment and key, local whenever data must stay local; none is chosen exactly when none is eligible |
| Router.RouteExactly | packages/model-router/src/index.ts:111-202 | the whole answer: the first listed of the fitting models that no fitting model precedes, local before private before cloud and by key; and the reason, told from request and deployment; without a fitting model, whether a ceiling was too low |
| Router.PreferenceIsCosmetic | packages/model-router/src/index.ts:186-188 | preferring a local model changes the reason given, never the model |
| Router.ListingIrrelevant | packages/model-router/src/index.ts:163-169 | the route does not depend on the order models are listed in, when no two compare equal |

## Left out

- HTTP, sessions, identity, the shell UI, seed scripts, logging and configuration parsing.
- SHA-256 itself, random ids, clocks and PostgreSQL: only row locks, read-committed visibility, unique keys, append-only tables, rollback and the INTEGER range are modelled.
- UNIQUE (entry_hash) and primary keys across organizations: they only make more calls fail and roll back, so every state of the real tables is a state of the model. JSONB storage refusing NUL or lone surrogates in text is the same.
- Columns no hash covers (row ids, merkle_root, started_at, actor and session of an execution) are not bound by any hash, so the binding theorems say nothing about them. An event's own organization and execution are not node fields either; the graph names them once.
- EventEvidenceBinds and TipBindsEvidence require distinct event ids in each bundle, as the table's primary key gives them; the verifier does not check it.
- A graph-bearing entry whose graph hash is the empty string is accepted by the verifier without comparison; the append refuses to write one.
- PrintsExactlyDomain: sparse arrays, whose holes `map` skips and `join` prints as nothing, are not values of the model; nor are the defaults the verifier takes for off-type bundles (`kernel_version ?? KERNEL_VERSION`, `metadata ?? {}`), which the model's bundles always carry.
- ReportsExactly: says which issues are reported, not in which order or how often; the methods it is about fix both.
- RefusedExactly: tells the exception of event appends. Of the other kernel calls it is told when they throw, and that nothing changes then.
- SealAlone, AppendAlone and RequestIsServed: one client's whole call from any reachable state; what several clients' calls come to together is NeverForks, SealsCover and the theorems on the gateway's runs.
- Completeness.AcceptedExactly: takes the export from one quiescent state.
- ReachableExports: asks of callers one checkpoint interval per organization, no event or second seal after a seal, and graph hashes on final entries only from seals; what happens without these is AnyRunAccepted, OneIntervalAccepted and LateEvents.
- OneSource, ServiceExports: a transaction of the kernel is one step. A call in flight names a parent it read, so one that read its execution before it had any event is left out; a decision reads its parent and appends in one step. Policy, membership and approval rows are not part of the state: a refused call is no call. An approval request has no form in flight: on an ended execution the kernel's status table refuses its entry and it rolls back (ServiceSeals.AskOnEnded). Nor has an opening, whose id nobody knows before it returns. The two tool events that share a transaction may also be cut between them, one more run than the source has.
- ConcurrentLedger and ConcurrentSeal are separate machines: the first follows chain rows and ledger rows, the second execution rows and events. Execution status is not part of either, since it is read without the row lock.
- SealExecution: the request hash in its argument is ignored, as in the source, which reads the first request_opened entry instead.
- Database and the event types the kernel knows: the list of names is a parameter.
- requestConnectorAction: modelled in Gateway as steps of a state machine, because its property is about interleavings and crashes; its tool events, the social item it updates and its membership lookups are not part of the state, and the approval it reads may be any of the execution's approvals. Those tool events are ServiceSeals' calls in flight.
- evaluatePolicy: only the conditions of approval decisions and connector actions; roles and classifications of other skills are arguments.
- ApprovalGate: takes API calls one at a time, from an opened execution or one whose opening stopped on the way.
- Router keys are compared by any total order; locale collation is not modelled.
- ChunkText: limits that are not integers, and what is pushed before a loop that does not end. Token counts, text hashes and embeddings are not modelled.
- Model providers, retrieval, Nova orchestration, Slack adapters and file extraction: foreign calls.
