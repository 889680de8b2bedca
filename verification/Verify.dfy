/** The offline verifier of exported evidence: chain, checkpoints, proofs and execution graphs.

    Each method runs the verifier's loops and returns the issues it pushes, in order; `None`
    is an exception. The functions beside them say which issues those are, and the lemmas say
    when there are none. */
module Verify {
  import opened Basics
  import opened Sorting
  import opened Canonical
  import opened HashFormat
  import opened Records
  import opened Merkle
  import opened Reports

  // ---------------------------------------------------------------- one entry

  function EntryIssues(sha: Sha, entry: ExportedEntry, previous: Option<Str>): Report
  {
    var row := entry.row;
    var at := Some(row.organizationSequence);
    match EntryHash(sha, row.Hashed())
    case None => None
    case Some(recomputed) =>
      var a := Push([], recomputed != row.entryHash, Issue(EntryHashMismatch, at, Some(row.entryHash)));
      var b := Push(a, row.hashFormatVersion != HashFormatVersion(), Issue(HashFormatUnsupported, at, None));
      var c := Push(b, row.previousEntryHash != previous, Issue(PreviousHashMismatch, at, None));
      Some(Push(c, entry.createdAt != row.createdAtCanonical, Issue(CanonicalTimestampDrift, at, None)))
  }

  /** The entry's own hash is right, it links to `previous`, and its timestamp is the hashed one. */
  ghost predicate EntryValid(sha: Sha, entry: ExportedEntry, previous: Option<Str>)
  {
    && EntryHash(sha, entry.row.Hashed()) == Some(entry.row.entryHash)
    && entry.row.hashFormatVersion == HashFormatVersion()
    && entry.row.previousEntryHash == previous
    && entry.createdAt == entry.row.createdAtCanonical
  }

  lemma EntryAccepted(sha: Sha, entry: ExportedEntry, previous: Option<Str>)
    ensures EntryIssues(sha, entry, previous) == Some([]) <==> EntryValid(sha, entry, previous)
  {
  }

  method VerifyLedgerEntry(sha: Sha, entry: ExportedEntry, previousEntryHash: Option<Str>) returns (r: Report)
    ensures r == EntryIssues(sha, entry, previousEntryHash)
    ensures r == Some([]) <==> EntryValid(sha, entry, previousEntryHash)
    ensures r.None? <==> !SafeInteger(entry.row.organizationSequence)
  {
    PayloadDomain(entry.row.Hashed());
    EntryAccepted(sha, entry, previousEntryHash);
    var issues: seq<Issue> := [];
    var row := entry.row;
    var recomputed := EntryHash(sha, row.Hashed());
    if recomputed.None? {
      return None;
    }
    if recomputed.value != row.entryHash {
      issues := issues + [Issue(EntryHashMismatch, Some(row.organizationSequence), Some(row.entryHash))];
    }
    if row.hashFormatVersion != HashFormatVersion() {
      issues := issues + [Issue(HashFormatUnsupported, Some(row.organizationSequence), None)];
    }
    if row.previousEntryHash != previousEntryHash {
      issues := issues + [Issue(PreviousHashMismatch, Some(row.organizationSequence), None)];
    }
    if entry.createdAt != row.createdAtCanonical {
      issues := issues + [Issue(CanonicalTimestampDrift, Some(row.organizationSequence), None)];
    }
    return Some(issues);
  }

  // ---------------------------------------------------------------- the chain

  predicate EntryLe(a: ExportedEntry, b: ExportedEntry)
  {
    a.row.organizationSequence <= b.row.organizationSequence
  }

  function Previous(sorted: seq<ExportedEntry>, i: nat): Option<Str>
    requires i < |sorted|
  {
    if i == 0 then None else Some(sorted[i - 1].row.entryHash)
  }

  function SequenceIssues(sorted: seq<ExportedEntry>, i: nat): seq<Issue>
    requires i < |sorted|
  {
    var found := sorted[i].row.organizationSequence;
    var a := Push([], i > 0 && found != sorted[i - 1].row.organizationSequence + 1, Issue(SequenceGap, Some(found), None));
    Push(a, i == 0 && found != 1, Issue(SequenceStart, Some(found), None))
  }

  function ChainStep(sha: Sha, sorted: seq<ExportedEntry>, i: nat): Report
  {
    if i >= |sorted| then Some([])
    else Append(Some(SequenceIssues(sorted, i)), EntryIssues(sha, sorted[i], Previous(sorted, i)))
  }

  function ChainSteps(sha: Sha, sorted: seq<ExportedEntry>): nat -> Report
  {
    (i: nat) => ChainStep(sha, sorted, i)
  }

  /** The issues of a chain in sequence order. */
  function ChainIssues(sha: Sha, sorted: seq<ExportedEntry>): Report
  {
    Collect(ChainSteps(sha, sorted), |sorted|)
  }

  method VerifyChainStep(sha: Sha, sorted: seq<ExportedEntry>, i: nat) returns (r: Report)
    requires i < |sorted|
    ensures r == ChainSteps(sha, sorted)(i)
  {
    var issues: seq<Issue> := [];
    var entry := sorted[i];
    var expectedSequence := if i == 0 then entry.row.organizationSequence
                            else sorted[i - 1].row.organizationSequence + 1;
    if entry.row.organizationSequence != expectedSequence && i > 0 {
      issues := issues + [Issue(SequenceGap, Some(entry.row.organizationSequence), None)];
    }
    if i == 0 && entry.row.organizationSequence != 1 {
      issues := issues + [Issue(SequenceStart, Some(entry.row.organizationSequence), None)];
    }
    var previous := if i == 0 then None else Some(sorted[i - 1].row.entryHash);
    var found := VerifyLedgerEntry(sha, entry, previous);
    return if found.None? then None else Some(issues + found.value);
  }

  method VerifyOrganizationChain(sha: Sha, entries: seq<ExportedEntry>) returns (r: Report)
    ensures r == ChainIssues(sha, SortBy(EntryLe, entries))
  {
    var issues: seq<Issue> := [];
    if |entries| == 0 {
      return Some(issues);
    }
    var sorted := SortBy(EntryLe, entries);
    ghost var steps := ChainSteps(sha, sorted);
    for i := 0 to |sorted|
      invariant Collect(steps, i) == Some(issues)
    {
      var found := VerifyChainStep(sha, sorted, i);
      if found.None? {
        CollectThrows(steps, i, |sorted|);
        return None;
      }
      issues := issues + found.value;
    }
    return Some(issues);
  }

  /** Sequences are 1, 2, 3, ... and every entry is valid on top of the one before it. */
  ghost predicate LinkedChain(sha: Sha, sorted: seq<ExportedEntry>)
  {
    && (forall i :: 0 <= i < |sorted| ==> sorted[i].row.organizationSequence == i + 1)
    && (forall i :: 0 <= i < |sorted| ==> LinkValid(sha, sorted, i))
  }

  ghost predicate LinkValid(sha: Sha, sorted: seq<ExportedEntry>, i: nat)
    requires i < |sorted|
  {
    EntryValid(sha, sorted[i], Previous(sorted, i))
  }

  lemma ChainStepEmpty(sha: Sha, sorted: seq<ExportedEntry>, i: nat)
    requires i < |sorted|
    ensures ChainStep(sha, sorted, i) == Some([]) <==>
      SequenceIssues(sorted, i) == [] && LinkValid(sha, sorted, i)
  {
    EntryAccepted(sha, sorted[i], Previous(sorted, i));
    AppendEmpty(Some(SequenceIssues(sorted, i)), EntryIssues(sha, sorted[i], Previous(sorted, i)));
  }

  lemma {:induction false} NoGaps(sorted: seq<ExportedEntry>, i: nat)
    requires i < |sorted|
    requires forall k :: 0 <= k < |sorted| ==> SequenceIssues(sorted, k) == []
    ensures sorted[i].row.organizationSequence == i + 1
  {
    assert SequenceIssues(sorted, i) == [];
    if i > 0 {
      NoGaps(sorted, i - 1);
    }
  }

  /** The chain loop reports nothing exactly for a linked chain that starts at 1. */
  lemma ChainAccepted(sha: Sha, sorted: seq<ExportedEntry>)
    ensures ChainIssues(sha, sorted) == Some([]) <==> LinkedChain(sha, sorted)
  {
    CollectEmpty(ChainSteps(sha, sorted), |sorted|);
    forall i: nat | i < |sorted|
      ensures ChainSteps(sha, sorted)(i) == Some([]) <==>
        SequenceIssues(sorted, i) == [] && LinkValid(sha, sorted, i)
    {
      ChainStepEmpty(sha, sorted, i);
    }
    if forall k :: 0 <= k < |sorted| ==> SequenceIssues(sorted, k) == [] {
      forall i | 0 <= i < |sorted| ensures sorted[i].row.organizationSequence == i + 1 {
        NoGaps(sorted, i);
      }
    }
  }

  // ---------------------------------------------------------------- checkpoints

  /** `new Map(entries.map((e) => [e.organization_sequence, e]))`: the last entry of a sequence wins. */
  function BySequence(entries: seq<ExportedEntry>): map<int, ExportedEntry>
  {
    if entries == [] then map[]
    else
      var last := entries[|entries| - 1];
      BySequence(entries[..|entries| - 1])[last.row.organizationSequence := last]
  }

  function LeafIssues(sha: Sha, bySequence: map<int, ExportedEntry>, c: Checkpoint, i: nat): Report
  {
    if i >= |c.leafHashes| then Some([])
    else
      var sequence := c.fromSequence + i;
      if sequence !in bySequence then Some([Issue(MerkleLeafMissing, Some(sequence), None)])
      else
        var entry := bySequence[sequence];
        var a := Push([], entry.row.entryHash != c.leafHashes[i], Issue(MerkleLeafMismatch, Some(sequence), None));
        if entry.merkleProof.None? then Some(a)
        else
          match ProofVerdict(sha, entry.row.entryHash, entry.merkleProof.value, c.root)
          case None => None
          case Some(ok) => Some(Push(a, !ok, Issue(MerkleProofInvalid, Some(sequence), Some(entry.row.entryHash))))
  }

  function LeafSteps(sha: Sha, bySequence: map<int, ExportedEntry>, c: Checkpoint): nat -> Report
  {
    (i: nat) => LeafIssues(sha, bySequence, c, i)
  }

  function CheckpointIssues(sha: Sha, bySequence: map<int, ExportedEntry>, c: Checkpoint): Report
  {
    match MerkleRoot(sha, c.leafHashes)
    case None => None
    case Some(recomputed) =>
      Append(Some(Push([], recomputed != c.root, Issue(MerkleRootMismatch, Some(c.throughSequence), None))),
             Collect(LeafSteps(sha, bySequence, c), |c.leafHashes|))
  }

  function CheckpointSteps(sha: Sha, bundle: Bundle): nat -> Report
  {
    (k: nat) => if k < |bundle.merkleCheckpoints|
         then CheckpointIssues(sha, BySequence(bundle.ledgerEntries), bundle.merkleCheckpoints[k])
         else Some([])
  }

  method VerifyLeaf(sha: Sha, bySequence: map<int, ExportedEntry>, checkpoint: Checkpoint, i: nat) returns (r: Report)
    requires i < |checkpoint.leafHashes|
    ensures r == LeafSteps(sha, bySequence, checkpoint)(i)
  {
    var issues: seq<Issue> := [];
    var sequence := checkpoint.fromSequence + i;
    if sequence !in bySequence {
      return Some([Issue(MerkleLeafMissing, Some(sequence), None)]);
    }
    var entry := bySequence[sequence];
    if entry.row.entryHash != checkpoint.leafHashes[i] {
      issues := issues + [Issue(MerkleLeafMismatch, Some(sequence), None)];
    }
    if entry.merkleProof.Some? {
      var ok := VerifyMerkleProof(sha, entry.row.entryHash, entry.merkleProof.value, checkpoint.root);
      if ok.None? {
        return None;
      }
      if !ok.value {
        issues := issues + [Issue(MerkleProofInvalid, Some(sequence), Some(entry.row.entryHash))];
      }
    }
    return Some(issues);
  }

  method VerifyCheckpoint(sha: Sha, bySequence: map<int, ExportedEntry>, checkpoint: Checkpoint) returns (r: Report)
    ensures r == CheckpointIssues(sha, bySequence, checkpoint)
  {
    var recomputed := ComputeMerkleRoot(sha, checkpoint.leafHashes);
    if recomputed.None? {
      return None;
    }
    var wrongRoot: seq<Issue> := [];
    if recomputed.value != checkpoint.root {
      wrongRoot := wrongRoot + [Issue(MerkleRootMismatch, Some(checkpoint.throughSequence), None)];
    }
    var issues: seq<Issue> := [];
    ghost var steps := LeafSteps(sha, bySequence, checkpoint);
    for i := 0 to |checkpoint.leafHashes|
      invariant Collect(steps, i) == Some(issues)
    {
      var found := VerifyLeaf(sha, bySequence, checkpoint, i);
      if found.None? {
        CollectThrows(steps, i, |checkpoint.leafHashes|);
        return None;
      }
      issues := issues + found.value;
    }
    return Some(wrongRoot + issues);
  }

  method VerifyMerkleCheckpoints(sha: Sha, bundle: Bundle) returns (r: Report)
    ensures r == Collect(CheckpointSteps(sha, bundle), |bundle.merkleCheckpoints|)
  {
    var issues: seq<Issue> := [];
    var bySequence := BySequence(bundle.ledgerEntries);
    ghost var steps := CheckpointSteps(sha, bundle);
    for k := 0 to |bundle.merkleCheckpoints|
      invariant Collect(steps, k) == Some(issues)
    {
      var found := VerifyCheckpoint(sha, bySequence, bundle.merkleCheckpoints[k]);
      if found.None? {
        CollectThrows(steps, k, |bundle.merkleCheckpoints|);
        return None;
      }
      issues := issues + found.value;
    }
    return Some(issues);
  }

  /** The root is the root of the leaves, and every leaf is an exported entry whose proof, if it
      carries one, leads to the root. */
  ghost predicate CheckpointValid(sha: Sha, bySequence: map<int, ExportedEntry>, c: Checkpoint)
  {
    && MerkleRoot(sha, c.leafHashes) == Some(c.root)
    && forall i: nat :: i < |c.leafHashes| ==> LeafValid(sha, bySequence, c, i)
  }

  ghost predicate LeafValid(sha: Sha, bySequence: map<int, ExportedEntry>, c: Checkpoint, i: nat)
    requires i < |c.leafHashes|
  {
    && c.fromSequence + i in bySequence
    && bySequence[c.fromSequence + i].row.entryHash == c.leafHashes[i]
    && (bySequence[c.fromSequence + i].merkleProof.Some? ==>
          ProofVerdict(sha, c.leafHashes[i], bySequence[c.fromSequence + i].merkleProof.value, c.root) == Some(true))
  }

  lemma LeafEmpty(sha: Sha, m: map<int, ExportedEntry>, c: Checkpoint, i: nat)
    requires i < |c.leafHashes|
    ensures LeafIssues(sha, m, c, i) == Some([]) <==> LeafValid(sha, m, c, i)
  {
  }

  lemma CheckpointAccepted(sha: Sha, m: map<int, ExportedEntry>, c: Checkpoint)
    ensures CheckpointIssues(sha, m, c) == Some([]) <==> CheckpointValid(sha, m, c)
  {
    CollectEmpty(LeafSteps(sha, m, c), |c.leafHashes|);
    forall i: nat | i < |c.leafHashes|
      ensures LeafSteps(sha, m, c)(i) == Some([]) <==> LeafValid(sha, m, c, i)
    {
      LeafEmpty(sha, m, c, i);
    }
    if MerkleRoot(sha, c.leafHashes).Some? {
      AppendEmpty(Some(Push([], MerkleRoot(sha, c.leafHashes).value != c.root,
                            Issue(MerkleRootMismatch, Some(c.throughSequence), None))),
                  Collect(LeafSteps(sha, m, c), |c.leafHashes|));
    }
  }

  ghost predicate CheckpointsValid(sha: Sha, bundle: Bundle)
  {
    forall k :: 0 <= k < |bundle.merkleCheckpoints| ==>
      CheckpointValid(sha, BySequence(bundle.ledgerEntries), bundle.merkleCheckpoints[k])
  }

  /** The checkpoint loops report nothing exactly when every checkpoint and every leaf is right. */
  lemma CheckpointsAccepted(sha: Sha, bundle: Bundle)
    ensures Collect(CheckpointSteps(sha, bundle), |bundle.merkleCheckpoints|) == Some([]) <==> CheckpointsValid(sha, bundle)
  {
    var steps := CheckpointSteps(sha, bundle);
    CollectEmpty(steps, |bundle.merkleCheckpoints|);
    forall k: nat | k < |bundle.merkleCheckpoints|
      ensures steps(k) == Some([]) <==>
        CheckpointValid(sha, BySequence(bundle.ledgerEntries), bundle.merkleCheckpoints[k])
    {
      CheckpointAccepted(sha, BySequence(bundle.ledgerEntries), bundle.merkleCheckpoints[k]);
    }
  }
}
