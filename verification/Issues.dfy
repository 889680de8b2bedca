/** Which issues the verifier reports: each code exactly for its own fault, with the sequence and the hash of
    the entry at fault. */
module Issues {
  import opened Basics
  import opened Sorting
  import opened HashFormat
  import opened Records
  import opened Graph
  import opened Merkle
  import opened Reports
  import opened Verify
  import opened VerifyGraphs

  // ---------------------------------------------------------------- lists of issues

  predicate Found(r: Report, x: Issue) { r.Some? && x in r.value }

  lemma FoundInAppend(a: Report, b: Report, x: Issue)
    requires Append(a, b).Some?
    ensures Found(Append(a, b), x) <==> Found(a, x) || Found(b, x)
  {
  }

  lemma {:induction false} FoundInCollect(at: nat -> Report, n: nat, x: Issue)
    requires Collect(at, n).Some?
    ensures Found(Collect(at, n), x) <==> exists i: nat :: i < n && Found(at(i), x)
    ensures forall i: nat :: i < n ==> at(i).Some?
  {
    if n > 0 {
      FoundInCollect(at, n - 1, x);
      FoundInAppend(Collect(at, n - 1), at(n - 1), x);
    }
  }

  // ---------------------------------------------------------------- entries and the chain

  /** What is wrong with one entry. */
  ghost predicate EntryIssue(sha: Sha, entry: ExportedEntry, previous: Option<Str>, x: Issue)
  {
    x.sequence == Some(entry.row.organizationSequence) &&
    match x.code
    case EntryHashMismatch =>
      x.entryHash == Some(entry.row.entryHash) && EntryHash(sha, entry.row.Hashed()) != Some(entry.row.entryHash)
    case HashFormatUnsupported => x.entryHash == None && entry.row.hashFormatVersion != Ascii("2")
    case PreviousHashMismatch => x.entryHash == None && entry.row.previousEntryHash != previous
    case CanonicalTimestampDrift => x.entryHash == None && entry.createdAt != entry.row.createdAtCanonical
    case _ => false
  }

  lemma EntryIssuesExactly(sha: Sha, entry: ExportedEntry, previous: Option<Str>, x: Issue)
    requires EntryIssues(sha, entry, previous).Some?
    ensures Found(EntryIssues(sha, entry, previous), x) <==> EntryIssue(sha, entry, previous, x)
  {
  }

  /** Entry `i` does not follow the one before, or is itself wrong. */
  ghost predicate LinkIssue(sha: Sha, sorted: seq<ExportedEntry>, i: nat, x: Issue)
    requires i < |sorted|
  {
    var at := sorted[i].row.organizationSequence;
    || EntryIssue(sha, sorted[i], if i == 0 then None else Some(sorted[i - 1].row.entryHash), x)
    || (i > 0 && at != sorted[i - 1].row.organizationSequence + 1 && x == Issue(SequenceGap, Some(at), None))
    || (i == 0 && at != 1 && x == Issue(SequenceStart, Some(at), None))
  }

  lemma ChainStepExactly(sha: Sha, sorted: seq<ExportedEntry>, i: nat, x: Issue)
    requires i < |sorted| && ChainStep(sha, sorted, i).Some?
    ensures Found(ChainStep(sha, sorted, i), x) <==> LinkIssue(sha, sorted, i, x)
  {
    FoundInAppend(Some(SequenceIssues(sorted, i)), EntryIssues(sha, sorted[i], Previous(sorted, i)), x);
    EntryIssuesExactly(sha, sorted[i], Previous(sorted, i), x);
  }

  ghost predicate ChainIssue(sha: Sha, sorted: seq<ExportedEntry>, x: Issue)
  {
    exists i: nat :: i < |sorted| && LinkIssue(sha, sorted, i, x)
  }

  lemma {:induction false} ChainIssuesExactly(sha: Sha, sorted: seq<ExportedEntry>, x: Issue)
    requires ChainIssues(sha, sorted).Some?
    ensures Found(ChainIssues(sha, sorted), x) <==> ChainIssue(sha, sorted, x)
  {
    var steps := ChainSteps(sha, sorted);
    FoundInCollect(steps, |sorted|, x);
    forall i: nat | i < |sorted| ensures Found(steps(i), x) <==> LinkIssue(sha, sorted, i, x) {
      assert steps(i).Some? && steps(i) == ChainStep(sha, sorted, i);
      ChainStepExactly(sha, sorted, i, x);
    }
  }

  // ---------------------------------------------------------------- checkpoints

  /** What is wrong with leaf `i`: no entry, another hash, or a proof that leads elsewhere. */
  ghost predicate LeafIssue(sha: Sha, entries: map<int, ExportedEntry>, c: Checkpoint, i: nat, x: Issue)
    requires i < |c.leafHashes|
  {
    var at := c.fromSequence + i;
    x.sequence == Some(at) &&
    match x.code
    case MerkleLeafMissing => x.entryHash == None && at !in entries
    case MerkleLeafMismatch => x.entryHash == None && at in entries && entries[at].row.entryHash != c.leafHashes[i]
    case MerkleProofInvalid =>
      && at in entries && x.entryHash == Some(entries[at].row.entryHash) && entries[at].merkleProof.Some?
      && ProofVerdict(sha, entries[at].row.entryHash, entries[at].merkleProof.value, c.root) == Some(false)
    case _ => false
  }

  lemma LeafIssuesExactly(sha: Sha, entries: map<int, ExportedEntry>, c: Checkpoint, i: nat, x: Issue)
    requires i < |c.leafHashes| && LeafIssues(sha, entries, c, i).Some?
    ensures Found(LeafIssues(sha, entries, c, i), x) <==> LeafIssue(sha, entries, c, i, x)
  {
  }

  ghost predicate CheckpointIssue(sha: Sha, entries: map<int, ExportedEntry>, c: Checkpoint, x: Issue)
  {
    || (MerkleRoot(sha, c.leafHashes) != Some(c.root) && x == Issue(MerkleRootMismatch, Some(c.throughSequence), None))
    || (exists i: nat :: i < |c.leafHashes| && LeafIssue(sha, entries, c, i, x))
  }

  lemma {:induction false} CheckpointIssuesExactly(sha: Sha, entries: map<int, ExportedEntry>, c: Checkpoint, x: Issue)
    requires CheckpointIssues(sha, entries, c).Some?
    ensures Found(CheckpointIssues(sha, entries, c), x) <==> CheckpointIssue(sha, entries, c, x)
  {
    var steps, n := LeafSteps(sha, entries, c), |c.leafHashes|;
    var root := Some(Push([], MerkleRoot(sha, c.leafHashes).value != c.root, Issue(MerkleRootMismatch, Some(c.throughSequence), None)));
    FoundInAppend(root, Collect(steps, n), x);
    FoundInCollect(steps, n, x);
    forall i: nat | i < n ensures Found(steps(i), x) <==> LeafIssue(sha, entries, c, i, x) {
      assert steps(i).Some? && steps(i) == LeafIssues(sha, entries, c, i);
      LeafIssuesExactly(sha, entries, c, i, x);
    }
  }

  ghost predicate SomeCheckpointIssue(sha: Sha, b: Bundle, x: Issue)
  {
    exists k: nat :: k < |b.merkleCheckpoints| && CheckpointIssue(sha, BySequence(b.ledgerEntries), b.merkleCheckpoints[k], x)
  }

  lemma {:induction false} AllCheckpointIssuesExactly(sha: Sha, b: Bundle, x: Issue)
    requires Collect(CheckpointSteps(sha, b), |b.merkleCheckpoints|).Some?
    ensures Found(Collect(CheckpointSteps(sha, b), |b.merkleCheckpoints|), x) <==> SomeCheckpointIssue(sha, b, x)
  {
    var steps := CheckpointSteps(sha, b);
    FoundInCollect(steps, |b.merkleCheckpoints|, x);
    forall k: nat | k < |b.merkleCheckpoints|
      ensures Found(steps(k), x) <==> CheckpointIssue(sha, BySequence(b.ledgerEntries), b.merkleCheckpoints[k], x)
    {
      assert steps(k).Some? && steps(k) == CheckpointIssues(sha, BySequence(b.ledgerEntries), b.merkleCheckpoints[k]);
      CheckpointIssuesExactly(sha, BySequence(b.ledgerEntries), b.merkleCheckpoints[k], x);
    }
  }

  // ---------------------------------------------------------------- graphs

  /** What the events' graph, the exported hash, the embedded graph and the ledger disagree on. */
  ghost predicate CompareIssue(sha: Sha, execution: Execution, related: seq<Event>, exported: GraphExport, at: Option<int>,
                               entryHash: Option<Str>, expected: Option<Str>, x: Issue)
  {
    var g := BuildExecutionGraph(execution, related);
    if g.None? then x == Issue(GraphParentUnresolved, at, entryHash)
    else
      var hash := GraphHash(sha, GraphValue(g.value));
      x.sequence == at &&
      match x.code
      case GraphHashMismatch => x.entryHash == None && hash != Some(exported.graphHash)
      case GraphEvidenceMismatch =>
        && x.entryHash == None && IsObject(exported.graph)
        && (GraphHash(sha, exported.graph) != Some(exported.graphHash) || GraphHash(sha, exported.graph) != hash)
      case GraphLedgerMismatch => x.entryHash == entryHash && expected.Some? && expected != hash
      case _ => false
  }

  lemma CompareIssuesExactly(sha: Sha, execution: Execution, related: seq<Event>, exported: GraphExport, entry: Option<LedgerEntry>, x: Issue)
    requires CompareIssues(sha, execution, related, exported, entry).Some?
    ensures Found(CompareIssues(sha, execution, related, exported, entry), x) <==>
      CompareIssue(sha, execution, related, exported, SequenceOf(entry), HashOf(entry), ExpectedHash(entry), x)
  {
    var g := BuildExecutionGraph(execution, related);
    if g.Some? {
      HashesCompared(GraphHash(sha, GraphValue(g.value)), GraphHash(sha, exported.graph), exported, entry, x);
    }
  }

  lemma HashesCompared(hash: Option<Str>, embedded: Option<Str>, exported: GraphExport, entry: Option<LedgerEntry>, x: Issue)
    requires hash.Some? && (IsObject(exported.graph) ==> embedded.Some?)
    ensures var a := Push([], hash.value != exported.graphHash, Issue(GraphHashMismatch, SequenceOf(entry), None));
      var b := Push(a, IsObject(exported.graph) && (embedded.value != exported.graphHash || embedded.value != hash.value),
                    Issue(GraphEvidenceMismatch, SequenceOf(entry), None));
      var c := Push(b, ExpectedHash(entry).Some? && ExpectedHash(entry) != hash, Issue(GraphLedgerMismatch, SequenceOf(entry), HashOf(entry)));
      x in c <==> x.sequence == SequenceOf(entry) && match x.code
        case GraphHashMismatch => x.entryHash == None && hash != Some(exported.graphHash)
        case GraphEvidenceMismatch =>
          x.entryHash == None && IsObject(exported.graph) && (embedded != Some(exported.graphHash) || embedded != hash)
        case GraphLedgerMismatch => x.entryHash == HashOf(entry) && ExpectedHash(entry).Some? && ExpectedHash(entry) != hash
        case _ => false
  {
  }

  /** What is wrong with the graph of an entry that bears a hash. */
  ghost predicate BearingIssue(sha: Sha, b: Bundle, e: LedgerEntry, x: Issue)
  {
    var at, h, execution := Some(e.organizationSequence), Some(e.entryHash), ExecutionOf(b, e.executionId);
    var exported, related := ExportsFor(b.executionGraphs, e.executionId), EventsFor(b.executionEvents, e.executionId);
    var stranger := execution.None? || execution.value.organizationId != b.organizationId;
    || (x == Issue(GraphEvidenceMissing, at, h) && (stranger || |exported| == 0))
    || (x == Issue(GraphDuplicate, at, h) && |exported| > 1)
    || (x == Issue(GraphEventsMissing, at, h) && |related| == 0)
    || (|exported| == 1 && |related| > 0 && execution.Some?
        && CompareIssue(sha, execution.value, related, exported[0], at, h, ExpectedHash(Some(e)), x))
  }

  lemma BearingIssuesExactly(sha: Sha, b: Bundle, e: LedgerEntry, x: Issue)
    requires BearingIssues(sha, b, e).Some?
    ensures Found(BearingIssues(sha, b, e), x) <==> BearingIssue(sha, b, e, x)
  {
    var execution := ExecutionOf(b, e.executionId);
    var exported, related := ExportsFor(b.executionGraphs, e.executionId), EventsFor(b.executionEvents, e.executionId);
    if |exported| == 1 && |related| > 0 && execution.Some? {
      CompareIssuesExactly(sha, execution.value, related, exported[0], Some(e), x);
    }
  }

  /** What is wrong with an exported graph that no entry bears. */
  ghost predicate LooseIssue(sha: Sha, b: Bundle, exported: GraphExport, x: Issue)
  {
    var execution, related := ExecutionOf(b, exported.executionId), EventsFor(b.executionEvents, exported.executionId);
    && !IsChecked(b, exported.executionId)
    && if execution.None? || execution.value.organizationId != b.organizationId then x == Issue(GraphOrgMismatch, None, None)
       else if |related| == 0 then x == Issue(GraphEventsMissing, None, None)
       else CompareIssue(sha, execution.value, related, exported, None, None, None, x)
  }

  lemma LooseIssuesExactly(sha: Sha, b: Bundle, exported: GraphExport, x: Issue)
    requires LooseIssues(sha, b, exported).Some?
    ensures Found(LooseIssues(sha, b, exported), x) <==> LooseIssue(sha, b, exported, x)
  {
    var execution, related := ExecutionOf(b, exported.executionId), EventsFor(b.executionEvents, exported.executionId);
    if execution.Some? && CompareIssues(sha, execution.value, related, exported, None).Some? {
      CompareIssuesExactly(sha, execution.value, related, exported, None, x);
    }
  }

  ghost predicate SomeGraphIssue(sha: Sha, b: Bundle, x: Issue)
  {
    || (exists e :: e in GraphBearingEntries(b.ledgerEntries) && BearingIssue(sha, b, e, x))
    || (exists g :: g in b.executionGraphs && LooseIssue(sha, b, g, x))
  }

  lemma {:induction false} BearingLoopExactly(sha: Sha, b: Bundle, entries: seq<LedgerEntry>, x: Issue)
    requires Collect(BearingSteps(sha, b, entries), |entries|).Some?
    ensures Found(Collect(BearingSteps(sha, b, entries), |entries|), x) <==> exists e :: e in entries && BearingIssue(sha, b, e, x)
  {
    var steps := BearingSteps(sha, b, entries);
    FoundInCollect(steps, |entries|, x);
    forall i: nat | i < |entries| ensures Found(steps(i), x) <==> BearingIssue(sha, b, entries[i], x) {
      assert steps(i).Some? && steps(i) == BearingIssues(sha, b, entries[i]);
      BearingIssuesExactly(sha, b, entries[i], x);
    }
    if e :| e in entries && BearingIssue(sha, b, e, x) {
      var i :| 0 <= i < |entries| && entries[i] == e;
      assert Found(steps(i), x);
    }
  }

  lemma {:induction false} LooseLoopExactly(sha: Sha, b: Bundle, x: Issue)
    requires Collect(LooseSteps(sha, b), |b.executionGraphs|).Some?
    ensures Found(Collect(LooseSteps(sha, b), |b.executionGraphs|), x) <==> exists g :: g in b.executionGraphs && LooseIssue(sha, b, g, x)
  {
    var steps, graphs := LooseSteps(sha, b), b.executionGraphs;
    FoundInCollect(steps, |graphs|, x);
    forall k: nat | k < |graphs| ensures Found(steps(k), x) <==> LooseIssue(sha, b, graphs[k], x) {
      assert steps(k).Some? && steps(k) == LooseIssues(sha, b, graphs[k]);
      LooseIssuesExactly(sha, b, graphs[k], x);
    }
    if g :| g in graphs && LooseIssue(sha, b, g, x) {
      var k :| 0 <= k < |graphs| && graphs[k] == g;
      assert Found(steps(k), x);
    }
  }

  // ---------------------------------------------------------------- the whole report

  ghost predicate OrgIssue(b: Bundle, x: Issue)
  {
    exists i: nat :: i < |b.ledgerEntries| && b.organizationId != [] && b.ledgerEntries[i].row.organizationId != b.organizationId
      && x == Issue(OrgMismatch, Some(b.ledgerEntries[i].row.organizationSequence), None)
  }

  lemma {:induction false} OrgIssuesExactly(b: Bundle, x: Issue)
    requires Collect(OrgSteps(b), |b.ledgerEntries|).Some?
    ensures Found(Collect(OrgSteps(b), |b.ledgerEntries|), x) <==> OrgIssue(b, x)
  {
    var steps := OrgSteps(b);
    FoundInCollect(steps, |b.ledgerEntries|, x);
    forall i: nat | i < |b.ledgerEntries|
      ensures Found(steps(i), x) <==>
        (b.organizationId != [] && b.ledgerEntries[i].row.organizationId != b.organizationId
         && x == Issue(OrgMismatch, Some(b.ledgerEntries[i].row.organizationSequence), None))
    {
    }
  }

  ghost predicate BundleIssue(sha: Sha, b: Bundle, x: Issue)
  {
    || (b.includesPlaintext && x == Issue(PlaintextExport, None, None))
    || OrgIssue(b, x)
    || ChainIssue(sha, SortBy(EntryLe, b.ledgerEntries), x)
    || SomeCheckpointIssue(sha, b, x)
    || SomeGraphIssue(sha, b, x)
  }

  lemma {:induction false} GraphIssuesExactly(sha: Sha, b: Bundle, x: Issue)
    requires GraphsIssues(sha, b).Some?
    ensures Found(GraphsIssues(sha, b), x) <==> SomeGraphIssue(sha, b, x)
  {
    var entries := GraphBearingEntries(b.ledgerEntries);
    FoundInAppend(Collect(BearingSteps(sha, b, entries), |entries|), Collect(LooseSteps(sha, b), |b.executionGraphs|), x);
    BearingLoopExactly(sha, b, entries, x);
    LooseLoopExactly(sha, b, x);
  }

  /** The verifier reports an issue exactly when the bundle has that fault. */
  lemma {:induction false} ReportsExactly(sha: Sha, b: Bundle, x: Issue)
    requires BundleIssues(sha, b).Some?
    ensures Found(BundleIssues(sha, b), x) <==> BundleIssue(sha, b, x)
  {
    var plaintext := Some(Push([], b.includesPlaintext, Issue(PlaintextExport, None, None)));
    var org := Collect(OrgSteps(b), |b.ledgerEntries|);
    var chain := ChainIssues(sha, SortBy(EntryLe, b.ledgerEntries));
    var checkpoints := Collect(CheckpointSteps(sha, b), |b.merkleCheckpoints|);
    FoundInAppend(plaintext, org, x);
    FoundInAppend(Append(plaintext, org), chain, x);
    FoundInAppend(Append(Append(plaintext, org), chain), checkpoints, x);
    FoundInAppend(Append(Append(Append(plaintext, org), chain), checkpoints), GraphsIssues(sha, b), x);
    OrgIssuesExactly(b, x);
    ChainIssuesExactly(sha, SortBy(EntryLe, b.ledgerEntries), x);
    AllCheckpointIssuesExactly(sha, b, x);
    GraphIssuesExactly(sha, b, x);
  }
}
