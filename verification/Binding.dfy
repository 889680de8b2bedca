/** What two verified bundles must agree on when they agree on a hash.

    Every statement assumes that SHA-256 does not collide on the byte strings the verifier
    hashed for the two bundles, a finite set computed from them. Read the other way round: when
    the evidence differs, two of those strings are a collision. */
module Binding {
  import opened Basics
  import opened Sorting
  import opened Canonical
  import opened HashFormat
  import opened Metadata
  import opened Records
  import opened Graph
  import opened Verify
  import opened VerifyGraphs
  import Merkle
  import TreeShape
  import Hex

  // ---------------------------------------------------------------- what was hashed

  ghost function Payloads(entries: seq<ExportedEntry>): set<Bytes>
  {
    set i | 0 <= i < |entries| :: entries[i].row.PayloadBytes()
  }

  ghost function CheckpointInputs(sha: Sha, checkpoints: seq<Checkpoint>): set<Bytes>
  {
    set k, x | 0 <= k < |checkpoints| && x in Merkle.TreeInputs(sha, checkpoints[k].leafHashes) :: x
  }

  /** The canonical bytes of the graph rebuilt from the events of one execution. */
  ghost function GraphInput(b: Bundle, id: Str): Bytes
  {
    if ExecutionOf(b, id).Some? then GraphBytes(ExecutionOf(b, id).value, EventsFor(b.executionEvents, id)) else []
  }

  ghost function GraphInputs(b: Bundle): set<Bytes>
  {
    set i | 0 <= i < |b.ledgerEntries| :: GraphInput(b, b.ledgerEntries[i].row.executionId)
  }

  /** Byte strings the verifier hashes to recompute entry hashes, roots and graph hashes. */
  ghost function VerifierInputs(sha: Sha, b: Bundle): set<Bytes>
  {
    Payloads(b.ledgerEntries) + CheckpointInputs(sha, b.merkleCheckpoints) + GraphInputs(b)
  }

  // ---------------------------------------------------------------- one entry

  lemma ValidEntryHash(sha: Sha, e: ExportedEntry)
    requires EntryHash(sha, e.row.Hashed()) == Some(e.row.entryHash)
    ensures SafeInteger(e.row.organizationSequence)
    ensures e.row.entryHash == Hex.Hash(sha, e.row.PayloadBytes())
    ensures |e.row.PayloadBytes()| > 64
  {
    PayloadDomain(e.row.Hashed());
    PayloadLong(e.row.Hashed());
  }

  lemma EntryBinds(sha: Sha, inputs: set<Bytes>, e: ExportedEntry, e': ExportedEntry)
    requires EntryHash(sha, e.row.Hashed()) == Some(e.row.entryHash)
    requires EntryHash(sha, e'.row.Hashed()) == Some(e'.row.entryHash)
    requires e.row.entryHash == e'.row.entryHash && CollisionFreeOn(sha, inputs)
    requires e.row.PayloadBytes() in inputs && e'.row.PayloadBytes() in inputs
    ensures e.row.Hashed() == e'.row.Hashed()
  {
    EntryHashBinds(sha, inputs, e.row.Hashed(), e'.row.Hashed());
  }

  // ---------------------------------------------------------------- history

  lemma LinkedAt(sha: Sha, xs: seq<ExportedEntry>, i: nat)
    requires LinkedChain(sha, xs) && i < |xs|
    ensures EntryHash(sha, xs[i].row.Hashed()) == Some(xs[i].row.entryHash)
    ensures xs[i].row.organizationSequence == i + 1
    ensures xs[i].row.previousEntryHash == Previous(xs, i)
    ensures xs[i].row.PayloadBytes() in Payloads(xs)
  {
    assert LinkValid(sha, xs, i);
    assert xs[i].row.PayloadBytes() in Payloads(xs);
  }

  /** Equal hashes at two places of two chains: one place, and equal hashes one step back. */
  lemma LinkedStep(sha: Sha, inputs: set<Bytes>, xs: seq<ExportedEntry>, ys: seq<ExportedEntry>, i: nat, j: nat)
    requires LinkedChain(sha, xs) && LinkedChain(sha, ys) && i < |xs| && j < |ys|
    requires CollisionFreeOn(sha, inputs) && Payloads(xs) <= inputs && Payloads(ys) <= inputs
    requires xs[i].row.entryHash == ys[j].row.entryHash
    ensures i == j && xs[i].row.Hashed() == ys[j].row.Hashed()
    ensures i > 0 ==> xs[i - 1].row.entryHash == ys[j - 1].row.entryHash
  {
    LinkedAt(sha, xs, i);
    LinkedAt(sha, ys, j);
    EntryBinds(sha, inputs, xs[i], ys[j]);
    SameHashed(xs[i].row, ys[j].row);
  }

  lemma SameHashed(a: LedgerEntry, b: LedgerEntry)
    requires a.Hashed() == b.Hashed()
    ensures a.organizationSequence == b.organizationSequence && a.previousEntryHash == b.previousEntryHash
    ensures a.executionId == b.executionId && a.entryType == b.entryType && a.executionGraphHash == b.executionGraphHash
  {
    assert a.Hashed().ledgerSequence == b.Hashed().ledgerSequence;
    assert a.Hashed().previousEntryHash == b.Hashed().previousEntryHash;
    assert a.Hashed().executionId == b.Hashed().executionId;
    assert a.Hashed().entryType == b.Hashed().entryType;
    assert a.Hashed().executionGraphHash == b.Hashed().executionGraphHash;
  }

  /** In two linked chains, entries with one hash have one position and one history. */
  lemma {:induction false} LinkedBinds(sha: Sha, inputs: set<Bytes>, xs: seq<ExportedEntry>, ys: seq<ExportedEntry>,
                                       i: nat, j: nat, k: nat)
    requires LinkedChain(sha, xs) && LinkedChain(sha, ys) && i < |xs| && j < |ys| && k <= i
    requires CollisionFreeOn(sha, inputs) && Payloads(xs) <= inputs && Payloads(ys) <= inputs
    requires xs[i].row.entryHash == ys[j].row.entryHash
    ensures i == j && xs[k].row.Hashed() == ys[k].row.Hashed()
    decreases i
  {
    LinkedStep(sha, inputs, xs, ys, i, j);
    if k < i {
      LinkedBinds(sha, inputs, xs, ys, i - 1, j - 1, k);
    }
  }

  /** One tip hash, one history: same length, same hashed fields at every position. */
  lemma HistoryBinds(sha: Sha, inputs: set<Bytes>, xs: seq<ExportedEntry>, ys: seq<ExportedEntry>, k: nat)
    requires LinkedChain(sha, xs) && LinkedChain(sha, ys) && xs != [] && ys != [] && k < |xs|
    requires CollisionFreeOn(sha, inputs) && Payloads(xs) <= inputs && Payloads(ys) <= inputs
    requires xs[|xs| - 1].row.entryHash == ys[|ys| - 1].row.entryHash
    ensures |xs| == |ys| && xs[k].row.Hashed() == ys[k].row.Hashed()
  {
    LinkedBinds(sha, inputs, xs, ys, |xs| - 1, |ys| - 1, k);
  }

  /** Whether a chain is accepted does not depend on the order its entries are listed in. */
  lemma AcceptanceIgnoresListing(sha: Sha, a: seq<ExportedEntry>, b: seq<ExportedEntry>)
    requires multiset(a) == multiset(b)
    requires ChainIssues(sha, SortBy(EntryLe, a)) == Some([])
    ensures SortBy(EntryLe, b) == SortBy(EntryLe, a)
    ensures ChainIssues(sha, SortBy(EntryLe, b)) == Some([])
  {
    ChainAccepted(sha, SortBy(EntryLe, a));
    var xs, ys := SortBy(EntryLe, a), SortBy(EntryLe, b);
    SortPermutes(EntryLe, a);
    SortPermutes(EntryLe, b);
    SortSorts(EntryLe, a);
    SortSorts(EntryLe, b);
    assert Strict(EntryLe, xs);
    SortedUnique(EntryLe, xs, ys);
  }

  lemma LinkedPrefix(sha: Sha, sorted: seq<ExportedEntry>, n: nat)
    requires LinkedChain(sha, sorted) && n <= |sorted|
    ensures LinkedChain(sha, sorted[..n])
  {
    forall i: nat | i < n ensures LinkValid(sha, sorted[..n], i) {
      assert LinkValid(sha, sorted, i);
      assert Previous(sorted[..n], i) == Previous(sorted, i);
    }
  }

  lemma LinkedSorted(sha: Sha, sorted: seq<ExportedEntry>)
    requires LinkedChain(sha, sorted)
    ensures SortBy(EntryLe, sorted) == sorted
  {
    SortSorted(EntryLe, sorted);
  }

  /** Cutting the tail off an accepted chain leaves an accepted chain. */
  lemma PrefixAccepted(sha: Sha, entries: seq<ExportedEntry>, n: nat)
    requires ChainIssues(sha, SortBy(EntryLe, entries)) == Some([]) && n <= |SortBy(EntryLe, entries)|
    ensures ChainIssues(sha, SortBy(EntryLe, SortBy(EntryLe, entries)[..n])) == Some([])
  {
    var sorted := SortBy(EntryLe, entries);
    ChainAccepted(sha, sorted);
    LinkedPrefix(sha, sorted, n);
    LinkedSorted(sha, sorted[..n]);
    ChainAccepted(sha, sorted[..n]);
  }

  // ---------------------------------------------------------------- lookups in a verified bundle

  lemma {:induction false} BySequenceFinds(entries: seq<ExportedEntry>, s: int)
    ensures s in BySequence(entries) ==>
      BySequence(entries)[s] in entries && BySequence(entries)[s].row.organizationSequence == s
  {
    if entries != [] {
      BySequenceFinds(entries[..|entries| - 1], s);
    }
  }

  /** Every entry of a verified bundle has the hash of its payload. */
  lemma VerifiedEntry(sha: Sha, b: Bundle, e: ExportedEntry)
    requires LinkedChain(sha, SortBy(EntryLe, b.ledgerEntries)) && e in b.ledgerEntries
    ensures EntryHash(sha, e.row.Hashed()) == Some(e.row.entryHash)
  {
    var sorted := SortBy(EntryLe, b.ledgerEntries);
    SortKeeps(EntryLe, b.ledgerEntries);
    assert e in sorted;
    var i :| 0 <= i < |sorted| && sorted[i] == e;
    assert LinkValid(sha, sorted, i);
  }

  lemma {:induction false} ByIdFinds(executions: seq<Execution>, id: Str)
    ensures id in ById(executions) ==> ById(executions)[id].id == id && ById(executions)[id] in executions
  {
    if executions != [] {
      ByIdFinds(executions[..|executions| - 1], id);
    }
  }

  // ---------------------------------------------------------------- checkpoints

  predicate HasLeaf(b: Bundle, c: Checkpoint, i: nat)
  {
    c.fromSequence + i in BySequence(b.ledgerEntries)
  }

  /** The exported entry under leaf `i`. */
  function Covered(b: Bundle, c: Checkpoint, i: nat): ExportedEntry
    requires HasLeaf(b, c, i)
  {
    BySequence(b.ledgerEntries)[c.fromSequence + i]
  }

  ghost predicate Covers(b: Bundle, c: Checkpoint)
  {
    forall i: nat :: i < |c.leafHashes| ==> HasLeaf(b, c, i)
  }

  ghost function CoveredPayloads(b: Bundle, c: Checkpoint): seq<Bytes>
    requires Covers(b, c)
  {
    seq(|c.leafHashes|, i requires 0 <= i < |c.leafHashes| => Covered(b, c, i).row.PayloadBytes())
  }

  lemma LeafFacts(sha: Sha, b: Bundle, c: Checkpoint, i: nat)
    requires LinkedChain(sha, SortBy(EntryLe, b.ledgerEntries))
    requires CheckpointValid(sha, BySequence(b.ledgerEntries), c) && i < |c.leafHashes|
    ensures HasLeaf(b, c, i)
    ensures Covered(b, c, i) in b.ledgerEntries
    ensures Covered(b, c, i).row.organizationSequence == c.fromSequence + i
    ensures SafeInteger(c.fromSequence + i)
    ensures c.leafHashes[i] == Hex.Hash(sha, Covered(b, c, i).row.PayloadBytes())
    ensures |Covered(b, c, i).row.PayloadBytes()| > 64
    ensures Covered(b, c, i).row.PayloadBytes() in Payloads(b.ledgerEntries)
  {
    assert LeafValid(sha, BySequence(b.ledgerEntries), c, i);
    BySequenceFinds(b.ledgerEntries, c.fromSequence + i);
    VerifiedEntry(sha, b, Covered(b, c, i));
    ValidEntryHash(sha, Covered(b, c, i));
    var k :| 0 <= k < |b.ledgerEntries| && b.ledgerEntries[k] == Covered(b, c, i);
    assert b.ledgerEntries[k].row.PayloadBytes() in Payloads(b.ledgerEntries);
  }

  /** The leaves of a verified checkpoint are the hashes of long, pairwise different payloads. */
  lemma CheckpointLeaves(sha: Sha, b: Bundle, c: Checkpoint)
    requires LinkedChain(sha, SortBy(EntryLe, b.ledgerEntries))
    requires CheckpointValid(sha, BySequence(b.ledgerEntries), c)
    ensures Covers(b, c)
    ensures Merkle.LeavesOf(sha, c.leafHashes, CoveredPayloads(b, c))
    ensures TreeShape.Distinct(CoveredPayloads(b, c))
    ensures Merkle.Members(CoveredPayloads(b, c)) <= Payloads(b.ledgerEntries)
  {
    forall i: nat | i < |c.leafHashes| ensures HasLeaf(b, c, i) {
      LeafFacts(sha, b, c, i);
    }
    var p := CoveredPayloads(b, c);
    forall i | 0 <= i < |p|
      ensures c.leafHashes[i] == Hex.Hash(sha, p[i]) && |p[i]| > 64 && p[i] in Payloads(b.ledgerEntries)
    {
      LeafFacts(sha, b, c, i);
    }
    forall i, j | 0 <= i < j < |p| ensures p[i] != p[j] {
      LeafFacts(sha, b, c, i);
      LeafFacts(sha, b, c, j);
      if p[i] == p[j] {
        PayloadBinds(Covered(b, c, i).row.Hashed(), Covered(b, c, j).row.Hashed());
      }
    }
  }

  lemma CheckpointInputsInclude(sha: Sha, checkpoints: seq<Checkpoint>, k: nat)
    requires k < |checkpoints|
    ensures Merkle.TreeInputs(sha, checkpoints[k].leafHashes) <= CheckpointInputs(sha, checkpoints)
  {
  }

  /** What two roots hash is among what the verifier hashes. */
  lemma RootInputs(sha: Sha, a: Bundle, k: nat, p: seq<Bytes>, b: Bundle, l: nat, q: seq<Bytes>)
    requires k < |a.merkleCheckpoints| && l < |b.merkleCheckpoints|
    requires Merkle.Members(p) <= Payloads(a.ledgerEntries) && Merkle.Members(q) <= Payloads(b.ledgerEntries)
    requires CollisionFreeOn(sha, VerifierInputs(sha, a) + VerifierInputs(sha, b))
    ensures CollisionFreeOn(sha, Merkle.TreeInputs(sha, a.merkleCheckpoints[k].leafHashes)
                               + Merkle.TreeInputs(sha, b.merkleCheckpoints[l].leafHashes) + Merkle.Members(p) + Merkle.Members(q))
  {
    CheckpointInputsInclude(sha, a.merkleCheckpoints, k);
    CheckpointInputsInclude(sha, b.merkleCheckpoints, l);
    CollisionFreeSubset(sha,
      Merkle.TreeInputs(sha, a.merkleCheckpoints[k].leafHashes) + Merkle.TreeInputs(sha, b.merkleCheckpoints[l].leafHashes)
        + Merkle.Members(p) + Merkle.Members(q),
      VerifierInputs(sha, a) + VerifierInputs(sha, b));
  }

  /** One checkpoint root, one stretch of the ledger: the same first sequence, the same leaves, and
      the same hashed fields in every covered entry, whatever the lengths of the two leaf lists. */
  lemma CheckpointBinds(sha: Sha, a: Bundle, k: nat, b: Bundle, l: nat)
    requires Verified(sha, a) && Verified(sha, b)
    requires k < |a.merkleCheckpoints| && l < |b.merkleCheckpoints|
    requires a.merkleCheckpoints[k].leafHashes != [] && b.merkleCheckpoints[l].leafHashes != []
    requires a.merkleCheckpoints[k].root == b.merkleCheckpoints[l].root
    requires CollisionFreeOn(sha, VerifierInputs(sha, a) + VerifierInputs(sha, b))
    ensures Covers(a, a.merkleCheckpoints[k]) && Covers(b, b.merkleCheckpoints[l])
    ensures a.merkleCheckpoints[k].fromSequence == b.merkleCheckpoints[l].fromSequence
    ensures a.merkleCheckpoints[k].leafHashes == b.merkleCheckpoints[l].leafHashes
    ensures forall i: nat :: i < |a.merkleCheckpoints[k].leafHashes| ==>
      Covered(a, a.merkleCheckpoints[k], i).row.Hashed() == Covered(b, b.merkleCheckpoints[l], i).row.Hashed()
  {
    SamePayloads(sha, a, k, b, l);
    SameCovered(sha, a, a.merkleCheckpoints[k], b, b.merkleCheckpoints[l]);
  }

  lemma SamePayloads(sha: Sha, a: Bundle, k: nat, b: Bundle, l: nat)
    requires k < |a.merkleCheckpoints| && l < |b.merkleCheckpoints|
    requires a.merkleCheckpoints[k].leafHashes != [] && b.merkleCheckpoints[l].leafHashes != []
    requires a.merkleCheckpoints[k].root == b.merkleCheckpoints[l].root
    requires LinkedChain(sha, SortBy(EntryLe, a.ledgerEntries)) && LinkedChain(sha, SortBy(EntryLe, b.ledgerEntries))
    requires CheckpointValid(sha, BySequence(a.ledgerEntries), a.merkleCheckpoints[k])
    requires CheckpointValid(sha, BySequence(b.ledgerEntries), b.merkleCheckpoints[l])
    requires CollisionFreeOn(sha, VerifierInputs(sha, a) + VerifierInputs(sha, b))
    ensures Covers(a, a.merkleCheckpoints[k]) && Covers(b, b.merkleCheckpoints[l])
    ensures a.merkleCheckpoints[k].leafHashes == b.merkleCheckpoints[l].leafHashes
    ensures CoveredPayloads(a, a.merkleCheckpoints[k]) == CoveredPayloads(b, b.merkleCheckpoints[l])
  {
    var c, d := a.merkleCheckpoints[k], b.merkleCheckpoints[l];
    CheckpointLeaves(sha, a, c);
    CheckpointLeaves(sha, b, d);
    var p, q := CoveredPayloads(a, c), CoveredPayloads(b, d);
    RootInputs(sha, a, k, p, b, l, q);
    Merkle.RootBindsPayloads(sha, c.leafHashes, d.leafHashes, p, q);
  }

  lemma SameCovered(sha: Sha, a: Bundle, c: Checkpoint, b: Bundle, d: Checkpoint)
    requires LinkedChain(sha, SortBy(EntryLe, a.ledgerEntries)) && CheckpointValid(sha, BySequence(a.ledgerEntries), c)
    requires LinkedChain(sha, SortBy(EntryLe, b.ledgerEntries)) && CheckpointValid(sha, BySequence(b.ledgerEntries), d)
    requires Covers(a, c) && Covers(b, d) && c.leafHashes != [] && |c.leafHashes| == |d.leafHashes|
    requires CoveredPayloads(a, c) == CoveredPayloads(b, d)
    ensures c.fromSequence == d.fromSequence
    ensures forall i: nat :: i < |c.leafHashes| ==> Covered(a, c, i).row.Hashed() == Covered(b, d, i).row.Hashed()
  {
    forall i: nat | i < |c.leafHashes|
      ensures Covered(a, c, i).row.Hashed() == Covered(b, d, i).row.Hashed()
    {
      LeafFacts(sha, a, c, i);
      LeafFacts(sha, b, d, i);
      assert CoveredPayloads(a, c)[i] == CoveredPayloads(b, d)[i];
      PayloadBinds(Covered(a, c, i).row.Hashed(), Covered(b, d, i).row.Hashed());
    }
    LeafFacts(sha, a, c, 0);
    LeafFacts(sha, b, d, 0);
    assert Covered(a, c, 0).row.Hashed().ledgerSequence == Covered(b, d, 0).row.Hashed().ledgerSequence;
  }

  // ---------------------------------------------------------------- events

  /** The events exported for an execution, in sequence order. */
  function EvidenceOf(b: Bundle, id: Str): seq<Event>
  {
    SortBy(EventLe, EventsFor(b.executionEvents, id))
  }

  ghost predicate DistinctEventIds(b: Bundle, id: Str)
  {
    DistinctIds(EvidenceOf(b, id))
  }

  /** The events exported for two executions are the same: identity, order, type, status, time,
      hashes, metadata and parents. */
  predicate SameEvidence(a: Bundle, id: Str, b: Bundle, id': Str)
  {
    EventsAgree(EvidenceOf(a, id), EvidenceOf(b, id'))
  }

  /** The same outside the one metadata key that graphs drop. */
  predicate SameSeenEvidence(a: Bundle, id: Str, b: Bundle, id': Str)
  {
    SeenAlike(EvidenceOf(a, id), EvidenceOf(b, id'))
  }

  /** The same under that key. */
  predicate SameHiddenEvidence(a: Bundle, id: Str, b: Bundle, id': Str)
  {
    HiddenAlike(EvidenceOf(a, id), EvidenceOf(b, id'))
  }

  /** No event of the execution uses that key. */
  predicate PlainEvidence(b: Bundle, id: Str)
  {
    Plain(EvidenceOf(b, id))
  }

  lemma BearingIsValid(sha: Sha, b: Bundle, e: ExportedEntry)
    requires GraphsValid(sha, b) && e in b.ledgerEntries && GraphBearing(e.row)
    ensures BearingValid(sha, b, e.row) && GraphInput(b, e.row.executionId) in GraphInputs(b)
  {
    BearingIsExported(b.ledgerEntries, e.row);
    var entries := GraphBearingEntries(b.ledgerEntries);
    var i :| 0 <= i < |entries| && entries[i] == e.row;
    assert BearingValid(sha, b, entries[i]);
    var k :| 0 <= k < |b.ledgerEntries| && b.ledgerEntries[k] == e;
    assert GraphInput(b, b.ledgerEntries[k].row.executionId) in GraphInputs(b);
  }

  /** A verified graph-bearing entry carries the hash of the graph of its execution's events. */
  lemma BearingGraph(sha: Sha, b: Bundle, e: ExportedEntry)
    requires BearingValid(sha, b, e.row) && GraphBearing(e.row) && e.row.executionGraphHash.value != []
    ensures ExecutionOf(b, e.row.executionId).Some? && ExecutionOf(b, e.row.executionId).value.id == e.row.executionId
    ensures BuildExecutionGraph(ExecutionOf(b, e.row.executionId).value, EventsFor(b.executionEvents, e.row.executionId)).Some?
    ensures GraphHash(sha, GraphValue(BuildExecutionGraph(ExecutionOf(b, e.row.executionId).value,
              EventsFor(b.executionEvents, e.row.executionId)).value)) == e.row.executionGraphHash
  {
    ByIdFinds(b.executions, e.row.executionId);
  }

  /** One execution graph hash in two verified bundles: one execution, one final status, and the same
      events outside one metadata key. The events are the same altogether exactly when they also
      agree under that key, which they do when neither side uses it. */
  lemma EventEvidenceBinds(sha: Sha, a: Bundle, e: ExportedEntry, b: Bundle, e': ExportedEntry)
    requires Verified(sha, a) && Verified(sha, b) && e in a.ledgerEntries && e' in b.ledgerEntries
    requires GraphBearing(e.row) && GraphBearing(e'.row)
    requires e.row.executionGraphHash == e'.row.executionGraphHash && e.row.executionGraphHash.value != []
    requires DistinctEventIds(a, e.row.executionId) && DistinctEventIds(b, e'.row.executionId)
    requires CollisionFreeOn(sha, VerifierInputs(sha, a) + VerifierInputs(sha, b))
    ensures e.row.executionId == e'.row.executionId
    ensures SameSeenEvidence(a, e.row.executionId, b, e'.row.executionId)
    ensures SameEvidence(a, e.row.executionId, b, e'.row.executionId)
       <==> SameHiddenEvidence(a, e.row.executionId, b, e'.row.executionId)
    ensures PlainEvidence(a, e.row.executionId) && PlainEvidence(b, e'.row.executionId) ==>
      SameEvidence(a, e.row.executionId, b, e'.row.executionId)
    ensures ExecutionOf(a, e.row.executionId).Some? && ExecutionOf(b, e'.row.executionId).Some?
    ensures ExecutionOf(a, e.row.executionId).value.status == ExecutionOf(b, e'.row.executionId).value.status
  {
    BearingIsValid(sha, a, e);
    BearingIsValid(sha, b, e');
    BearingGraph(sha, a, e);
    BearingGraph(sha, b, e');
    var id, id' := e.row.executionId, e'.row.executionId;
    var x, y := ExecutionOf(a, id).value, ExecutionOf(b, id').value;
    var es, es' := EventsFor(a.executionEvents, id), EventsFor(b.executionEvents, id');
    var g, h := BuildExecutionGraph(x, es).value, BuildExecutionGraph(y, es').value;
    GraphHashBinds(sha, VerifierInputs(sha, a) + VerifierInputs(sha, b), g, h);
    GraphIsLossless(x, es, y, es');
    AgreeByParts(EvidenceOf(a, id), EvidenceOf(b, id'));
  }

  /** One tip hash in two verified bundles binds everything: the whole ledger, and the events
      behind every entry that carries a graph hash. */
  lemma TipBindsEvidence(sha: Sha, a: Bundle, b: Bundle, xs: seq<ExportedEntry>, ys: seq<ExportedEntry>, k: nat)
    requires Verified(sha, a) && Verified(sha, b)
    requires xs == SortBy(EntryLe, a.ledgerEntries) && ys == SortBy(EntryLe, b.ledgerEntries)
    requires xs != [] && ys != [] && xs[|xs| - 1].row.entryHash == ys[|ys| - 1].row.entryHash
    requires CollisionFreeOn(sha, VerifierInputs(sha, a) + VerifierInputs(sha, b))
    requires forall id :: DistinctEventIds(a, id) && DistinctEventIds(b, id)
    requires k < |xs|
    ensures |xs| == |ys| && xs[k].row.Hashed() == ys[k].row.Hashed()
    ensures GraphBearing(xs[k].row) && xs[k].row.executionGraphHash.value != [] ==>
      && SameSeenEvidence(a, xs[k].row.executionId, b, xs[k].row.executionId)
      && (SameEvidence(a, xs[k].row.executionId, b, xs[k].row.executionId)
          <==> SameHiddenEvidence(a, xs[k].row.executionId, b, xs[k].row.executionId))
  {
    SortKeeps(EntryLe, a.ledgerEntries);
    SortKeeps(EntryLe, b.ledgerEntries);
    PayloadsOfSorted(a.ledgerEntries);
    PayloadsOfSorted(b.ledgerEntries);
    HistoryBinds(sha, VerifierInputs(sha, a) + VerifierInputs(sha, b), xs, ys, k);
    var e, e' := xs[k], ys[k];
    SameHashed(e.row, e'.row);
    if GraphBearing(e.row) && e.row.executionGraphHash.value != [] {
      assert e in a.ledgerEntries && e' in b.ledgerEntries;
      EventEvidenceBinds(sha, a, e, b, e');
    }
  }

  lemma PayloadsOfSorted(entries: seq<ExportedEntry>)
    ensures Payloads(SortBy(EntryLe, entries)) <= Payloads(entries)
  {
    var sorted := SortBy(EntryLe, entries);
    SortKeeps(EntryLe, entries);
    forall x | x in Payloads(sorted) ensures x in Payloads(entries) {
      var i :| 0 <= i < |sorted| && x == sorted[i].row.PayloadBytes();
      assert sorted[i] in entries;
      var j :| 0 <= j < |entries| && entries[j] == sorted[i];
      assert entries[j].row.PayloadBytes() in Payloads(entries);
    }
  }

  // ---------------------------------------------------------------- what no hash binds

  lemma ShownBytes(b: Bundle, id: Str)
    ensures GraphInput(ShownBundle(b), id) == GraphInput(b, id)
  {
    EventsForShown(b.executionEvents, id);
    if ExecutionOf(b, id).Some? {
      GraphOfShown(ExecutionOf(b, id).value, EventsFor(b.executionEvents, id));
    }
  }

  lemma ShownInputs(sha: Sha, b: Bundle)
    ensures VerifierInputs(sha, ShownBundle(b)) == VerifierInputs(sha, b)
  {
    var c := ShownBundle(b);
    forall x ensures x in GraphInputs(c) <==> x in GraphInputs(b) {
      if x in GraphInputs(b) {
        var i :| 0 <= i < |b.ledgerEntries| && x == GraphInput(b, b.ledgerEntries[i].row.executionId);
        ShownBytes(b, b.ledgerEntries[i].row.executionId);
        assert GraphInput(c, c.ledgerEntries[i].row.executionId) in GraphInputs(c);
      }
      if x in GraphInputs(c) {
        var i :| 0 <= i < |c.ledgerEntries| && x == GraphInput(c, c.ledgerEntries[i].row.executionId);
        ShownBytes(b, b.ledgerEntries[i].row.executionId);
        assert GraphInput(b, b.ledgerEntries[i].row.executionId) in GraphInputs(b);
      }
    }
    assert GraphInputs(c) == GraphInputs(b);
  }

  /** Metadata under the dropped key can be taken out of a verified bundle: the result is verified
      too, with the same ledger and the same byte strings hashed, but other evidence. */
  lemma HiddenMetadataUnbound(sha: Sha, b: Bundle, id: Str)
    requires Verified(sha, b)
    ensures Verified(sha, ShownBundle(b)) && ShownBundle(b).ledgerEntries == b.ledgerEntries
    ensures VerifierInputs(sha, ShownBundle(b)) == VerifierInputs(sha, b)
    ensures PlainEvidence(ShownBundle(b), id) && SameSeenEvidence(b, id, ShownBundle(b), id)
    ensures SameEvidence(b, id, ShownBundle(b), id) <==> PlainEvidence(b, id)
  {
    BundleAccepted(sha, b);
    ReportIgnoresProto(sha, b);
    BundleAccepted(sha, ShownBundle(b));
    ShownInputs(sha, b);
    EventsForShown(b.executionEvents, id);
    SortShown(EventsFor(b.executionEvents, id));
    ShownAgree(EvidenceOf(b, id));
  }

  /** The bundle with the member `"__proto__": v` added to the metadata of event `k`. */
  function WithProto(b: Bundle, k: nat, v: Value): Bundle
    requires k < |b.executionEvents|
  {
    var e := b.executionEvents[k];
    b.(executionEvents := b.executionEvents[k := e.(metadata := e.metadata + [Member(Proto(), v)])])
  }

  lemma AddedIsHidden(members: seq<Member>, v: Value)
    requires NoProto(members)
    ensures Visible(members + [Member(Proto(), v)]) == members == Visible(members)
  {
    FilterConcat(Shows(), members, [Member(Proto(), v)]);
    NothingHidden(members);
  }

  /** The input: two verified bundles equal apart from one event's metadata, with the key and without. */
  lemma ProtoUnbound(sha: Sha, b: Bundle, k: nat, v: Value)
    requires Verified(sha, b) && Plain(b.executionEvents) && k < |b.executionEvents|
    ensures var c, id := WithProto(b, k, v), b.executionEvents[k].executionId;
      && Verified(sha, c) && c.ledgerEntries == b.ledgerEntries && VerifierInputs(sha, c) == VerifierInputs(sha, b)
      && SameSeenEvidence(b, id, c, id) && !SameEvidence(b, id, c, id)
  {
    var c, e := WithProto(b, k, v), b.executionEvents[k];
    forall i | 0 <= i < |b.executionEvents| ensures Shown(c.executionEvents[i]) == b.executionEvents[i] {
      NothingHidden(b.executionEvents[i].metadata);
      AddedIsHidden(e.metadata, v);
    }
    assert AllShown(c.executionEvents) == b.executionEvents;
    assert ShownBundle(c) == b;
    BundleAccepted(sha, b);
    ReportIgnoresProto(sha, c);
    BundleAccepted(sha, c);
    HiddenMetadataUnbound(sha, c, e.executionId);
    NotPlain(c, k, v, e);
    SeenIsSymmetric(EvidenceOf(c, e.executionId), EvidenceOf(b, e.executionId));
  }

  lemma NotPlain(c: Bundle, k: nat, v: Value, e: Event)
    requires k < |c.executionEvents| && c.executionEvents[k] == e.(metadata := e.metadata + [Member(Proto(), v)])
    ensures !PlainEvidence(c, e.executionId)
  {
    var d, events := c.executionEvents[k], EvidenceOf(c, e.executionId);
    EventsForFinds(c.executionEvents, e.executionId);
    SortKeeps(EventLe, EventsFor(c.executionEvents, e.executionId));
    assert d in events;
    var i :| 0 <= i < |events| && events[i] == d;
    assert d.metadata[|e.metadata|].key == Proto();
  }

  lemma SeenIsSymmetric(xs: seq<Event>, ys: seq<Event>)
    requires SeenAlike(xs, ys)
    ensures SeenAlike(ys, xs) && (EventsAgree(ys, xs) ==> EventsAgree(xs, ys))
  {
  }
}
