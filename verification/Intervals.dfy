/** Exporting checkpoints closed under any intervals, and exactly when the verifier accepts them. */
module Intervals {
  import opened Basics
  import opened Sorting
  import opened Canonical
  import opened HashFormat
  import opened Records
  import opened Ledgers
  import opened Checkpoints
  import opened Exports
  import opened Verify
  import opened TreeShape
  import Binding
  import Merkle
  import Hex

  // ---------------------------------------------------------------- export

  lemma {:induction false} FindSpans(checkpoints: seq<Checkpoint>, sequence: int)
    ensures match CheckpointOf(checkpoints, sequence)
            case Some(c) => exists m :: 0 <= m < |checkpoints| && checkpoints[m] == c && Spans(c, sequence)
            case None => forall m :: 0 <= m < |checkpoints| ==> !Spans(checkpoints[m], sequence)
  {
    if checkpoints != [] && !Spans(checkpoints[0], sequence) {
      FindSpans(checkpoints[1..], sequence);
      match CheckpointOf(checkpoints, sequence)
      case Some(c) =>
        var m :| 0 <= m < |checkpoints[1..]| && checkpoints[1..][m] == c && Spans(c, sequence);
        assert checkpoints[m + 1] == c;
      case None =>
        forall m | 0 <= m < |checkpoints| ensures !Spans(checkpoints[m], sequence) {
          if m > 0 {
            assert checkpoints[m] == checkpoints[1..][m - 1];
          }
        }
    }
  }

  lemma {:induction false} ExportEntriesAt(sha: Sha, checkpoints: seq<Checkpoint>, entries: seq<LedgerEntry>)
    requires forall i :: 0 <= i < |entries| ==> ExportEntry(sha, checkpoints, entries[i]).Some?
    ensures ExportEntries(sha, checkpoints, entries).Some?
    ensures |ExportEntries(sha, checkpoints, entries).value| == |entries|
    ensures forall i :: 0 <= i < |entries| ==>
      Some(ExportEntries(sha, checkpoints, entries).value[i]) == ExportEntry(sha, checkpoints, entries[i])
  {
    if entries != [] {
      ExportEntriesAt(sha, checkpoints, entries[..|entries| - 1]);
    }
  }

  lemma {:induction false} FirstSpan(checkpoints: seq<Checkpoint>, s: int, k: nat) returns (m: nat)
    requires k < |checkpoints| && Spans(checkpoints[k], s)
    ensures m <= k && Spans(checkpoints[m], s) && CheckpointOf(checkpoints, s) == Some(checkpoints[m])
    decreases checkpoints
  {
    if Spans(checkpoints[0], s) {
      m := 0;
    } else {
      m := FirstSpan(checkpoints[1..], s, k - 1);
      m := m + 1;
    }
  }

  lemma ClosedSorted(sha: Sha, l: Ledger)
    requires Closed(sha, l)
    ensures SortBy(ThroughLe, l.checkpoints) == l.checkpoints
  {
    SortSorted(ThroughLe, l.checkpoints);
  }

  lemma LeafFacts(sha: Sha, org: Str, l: Ledger, k: nat, i: nat)
    requires Sound(sha, org, l) && Closed(sha, l) && k < |l.checkpoints| && i < |l.checkpoints[k].leafHashes|
    ensures var c, n := l.checkpoints[k], l.checkpoints[k].fromSequence - 1 + i;
      && 0 <= n < c.throughSequence && n < |l.entries| && c.leafHashes[i] == l.entries[n].entryHash
      && l.entries[n].organizationSequence == n + 1
      && EntryHash(sha, l.entries[n].Hashed()) == Some(l.entries[n].entryHash) && Hex.IsSha256Hex(l.entries[n].entryHash)
  {
    assert ClosedAt(sha, l, k);
    assert EntrySound(sha, org, l.entries, l.checkpoints[k].fromSequence - 1 + i);
  }

  lemma LeafCount(sha: Sha, l: Ledger, k: nat)
    requires Closed(sha, l) && k < |l.checkpoints|
    ensures |l.checkpoints[k].leafHashes| == l.checkpoints[k].throughSequence - l.checkpoints[k].fromSequence + 1 > 0
    ensures 1 <= l.checkpoints[k].fromSequence && l.checkpoints[k].throughSequence <= |l.entries|
    ensures Merkle.MerkleRoot(sha, l.checkpoints[k].leafHashes) == Some(l.checkpoints[k].root)
  {
    assert ClosedAt(sha, l, k);
  }

  lemma ClosedHex(sha: Sha, org: Str, l: Ledger, k: nat)
    requires Sound(sha, org, l) && Closed(sha, l) && k < |l.checkpoints|
    ensures Merkle.AllHex(l.checkpoints[k].leafHashes)
  {
    var leaves := l.checkpoints[k].leafHashes;
    forall i | 0 <= i < |leaves| ensures Merkle.IsHex(leaves[i]) {
      LeafFacts(sha, org, l, k, i);
      Merkle.Sha256IsHex(leaves[i]);
    }
  }

  /** The exported entry `n` carries the proof from the first checkpoint that spans it. */
  ghost predicate CarriesFirst(sha: Sha, l: Ledger, n: nat, e: ExportedEntry)
    requires n < |l.entries|
  {
    && e.row == l.entries[n] && e.createdAt == e.row.createdAtCanonical
    && match CheckpointOf(l.checkpoints, n + 1)
       case None => e.merkleProof.None?
       case Some(c) =>
         && 0 <= n + 1 - c.fromSequence < |c.leafHashes|
         && e.merkleProof == Some(ProofOf(Merkle.Joined(sha), c.leafHashes, n + 1 - c.fromSequence))
  }

  lemma EntryCarries(sha: Sha, org: Str, l: Ledger, n: nat)
    requires Sound(sha, org, l) && Closed(sha, l) && n < |l.entries|
    ensures ExportEntry(sha, l.checkpoints, l.entries[n]).Some?
    ensures CarriesFirst(sha, l, n, ExportEntry(sha, l.checkpoints, l.entries[n]).value)
  {
    assert EntrySound(sha, org, l.entries, n);
    FindSpans(l.checkpoints, n + 1);
    if CheckpointOf(l.checkpoints, n + 1).Some? {
      var c := CheckpointOf(l.checkpoints, n + 1).value;
      var m :| 0 <= m < |l.checkpoints| && l.checkpoints[m] == c && Spans(c, n + 1);
      LeafCount(sha, l, m);
      ClosedHex(sha, org, l, m);
    }
  }

  ghost predicate AllCarry(sha: Sha, l: Ledger, exported: seq<ExportedEntry>)
  {
    |exported| == |l.entries| && forall n :: 0 <= n < |exported| ==> CarriesFirst(sha, l, n, exported[n])
  }

  /** A sound chain always exports, however its checkpoints overlap. */
  lemma ClosedExports(sha: Sha, org: Str, l: Ledger)
    requires Sound(sha, org, l) && Closed(sha, l)
    ensures ExportEntries(sha, l.checkpoints, l.entries).Some?
    ensures AllCarry(sha, l, ExportEntries(sha, l.checkpoints, l.entries).value)
  {
    forall n | 0 <= n < |l.entries|
      ensures ExportEntry(sha, l.checkpoints, l.entries[n]).Some?
      ensures CarriesFirst(sha, l, n, ExportEntry(sha, l.checkpoints, l.entries[n]).value)
    {
      EntryCarries(sha, org, l, n);
    }
    ExportEntriesAt(sha, l.checkpoints, l.entries);
  }

  lemma SequencesRise(sha: Sha, org: Str, l: Ledger, exported: seq<ExportedEntry>)
    requires Sound(sha, org, l) && AllCarry(sha, l, exported)
    ensures forall i :: 0 <= i < |exported| ==> exported[i].row.organizationSequence == i + 1
  {
    forall i | 0 <= i < |exported| ensures exported[i].row.organizationSequence == i + 1 {
      assert CarriesFirst(sha, l, i, exported[i]);
      assert EntrySound(sha, org, l.entries, i);
    }
  }

  /** The proof leads to the root of the checkpoint it came from. */
  lemma ProofLeadsTo(sha: Sha, leaves: seq<Str>, i: nat, root: Str, other: Str)
    requires i < |leaves| && Merkle.AllHex(leaves) && Merkle.MerkleRoot(sha, leaves) == Some(root)
    ensures Merkle.ProofVerdict(sha, leaves[i], ProofOf(Merkle.Joined(sha), leaves, i), other) == Some(root == other)
  {
    Merkle.ProofComplete(sha, leaves, i);
    Merkle.VerdictReachesRoot(sha, leaves[i], ProofOf(Merkle.Joined(sha), leaves, i), root);
  }

  /** Leaf `i` of checkpoint `k` is right exactly when its entry's proof comes from a checkpoint with
      the same root. */
  lemma LeafRight(sha: Sha, org: Str, l: Ledger, exported: seq<ExportedEntry>, k: nat, i: nat, m: nat)
    requires Sound(sha, org, l) && Closed(sha, l) && AllCarry(sha, l, exported)
    requires k < |l.checkpoints| && i < |l.checkpoints[k].leafHashes| && m < |l.checkpoints|
    requires Spans(l.checkpoints[m], l.checkpoints[k].fromSequence + i)
    requires CheckpointOf(l.checkpoints, l.checkpoints[k].fromSequence + i) == Some(l.checkpoints[m])
    ensures LeafValid(sha, BySequence(exported), l.checkpoints[k], i) <==> l.checkpoints[m].root == l.checkpoints[k].root
  {
    var c, d := l.checkpoints[k], l.checkpoints[m];
    var n := c.fromSequence - 1 + i;
    LeafFacts(sha, org, l, k, i);
    LeafCount(sha, l, m);
    FoundAt(sha, org, l, exported, n);
    LeafFacts(sha, org, l, m, n + 1 - d.fromSequence);
    ClosedHex(sha, org, l, m);
    CarriedRight(sha, BySequence(exported), c, i, d, n + 1 - d.fromSequence);
  }

  lemma CarriedRight(sha: Sha, bySequence: map<int, ExportedEntry>, c: Checkpoint, i: nat, d: Checkpoint, at: nat)
    requires i < |c.leafHashes| && at < |d.leafHashes| && c.fromSequence + i in bySequence
    requires bySequence[c.fromSequence + i].row.entryHash == c.leafHashes[i] == d.leafHashes[at]
    requires bySequence[c.fromSequence + i].merkleProof == Some(ProofOf(Merkle.Joined(sha), d.leafHashes, at))
    requires Merkle.AllHex(d.leafHashes) && Merkle.MerkleRoot(sha, d.leafHashes) == Some(d.root)
    ensures LeafValid(sha, bySequence, c, i) <==> d.root == c.root
  {
    ProofLeadsTo(sha, d.leafHashes, at, d.root, c.root);
  }

  lemma {:induction false} DenseLookup(exported: seq<ExportedEntry>, s: int)
    requires forall i :: 0 <= i < |exported| ==> exported[i].row.organizationSequence == i + 1
    ensures s in BySequence(exported) <==> 1 <= s <= |exported|
    ensures s in BySequence(exported) ==> BySequence(exported)[s] == exported[s - 1]
  {
    if exported != [] {
      DenseLookup(exported[..|exported| - 1], s);
    }
  }

  /** The verifier finds entry `n` under its sequence, with the proof it was exported with. */
  lemma FoundAt(sha: Sha, org: Str, l: Ledger, exported: seq<ExportedEntry>, n: nat)
    requires Sound(sha, org, l) && AllCarry(sha, l, exported) && n < |l.entries|
    ensures n + 1 in BySequence(exported) && CarriesFirst(sha, l, n, BySequence(exported)[n + 1])
  {
    SequencesRise(sha, org, l, exported);
    DenseLookup(exported, n + 1);
    assert CarriesFirst(sha, l, n, exported[n]);
  }

  // ---------------------------------------------------------------- roots of different ranges

  /** A stretch of a sound chain. */
  ghost predicate Stretch(sha: Sha, covered: seq<LedgerEntry>, from: int)
  {
    forall i :: 0 <= i < |covered| ==>
      EntryHash(sha, covered[i].Hashed()) == Some(covered[i].entryHash) && covered[i].organizationSequence == from + i
  }

  ghost function PayloadsOf(covered: seq<LedgerEntry>): (r: seq<Bytes>)
    ensures |r| == |covered|
  {
    seq(|covered|, i requires 0 <= i < |covered| => covered[i].PayloadBytes())
  }

  lemma StretchAt(sha: Sha, covered: seq<LedgerEntry>, from: int, i: nat)
    requires Stretch(sha, covered, from) && i < |covered|
    ensures SafeInteger(covered[i].Hashed().ledgerSequence) && covered[i].Hashed().ledgerSequence == from + i
    ensures covered[i].entryHash == Hex.Hash(sha, covered[i].PayloadBytes()) && |covered[i].PayloadBytes()| > 64
  {
    PayloadDomain(covered[i].Hashed());
    PayloadLong(covered[i].Hashed());
  }

  lemma StretchLeaves(sha: Sha, covered: seq<LedgerEntry>, from: int)
    requires Stretch(sha, covered, from)
    ensures Merkle.LeavesOf(sha, HashesOf(covered), PayloadsOf(covered)) && Distinct(PayloadsOf(covered))
  {
    forall i | 0 <= i < |covered|
      ensures covered[i].entryHash == Hex.Hash(sha, PayloadsOf(covered)[i]) && |PayloadsOf(covered)[i]| > 64
    {
      StretchAt(sha, covered, from, i);
    }
    forall i, j | 0 <= i < j < |covered| ensures PayloadsOf(covered)[i] != PayloadsOf(covered)[j] {
      StretchAt(sha, covered, from, i);
      StretchAt(sha, covered, from, j);
      if covered[i].PayloadBytes() == covered[j].PayloadBytes() {
        PayloadBinds(covered[i].Hashed(), covered[j].Hashed());
      }
    }
  }

  /** Two stretches with one root are one stretch, unless inputs collide. */
  lemma StretchBinds(sha: Sha, a: seq<LedgerEntry>, from: int, b: seq<LedgerEntry>, from': int)
    requires a != [] && b != [] && Stretch(sha, a, from) && Stretch(sha, b, from')
    requires Merkle.MerkleRoot(sha, HashesOf(a)).Some? && Merkle.MerkleRoot(sha, HashesOf(a)) == Merkle.MerkleRoot(sha, HashesOf(b))
    requires CollisionFreeOn(sha, Merkle.TreeInputs(sha, HashesOf(a)) + Merkle.TreeInputs(sha, HashesOf(b))
                                  + Merkle.Members(PayloadsOf(a)) + Merkle.Members(PayloadsOf(b)))
    ensures |a| == |b| && from == from'
  {
    StretchLeaves(sha, a, from);
    StretchLeaves(sha, b, from');
    Merkle.RootBindsPayloads(sha, HashesOf(a), HashesOf(b), PayloadsOf(a), PayloadsOf(b));
    StretchAt(sha, a, from, 0);
    StretchAt(sha, b, from', 0);
    assert PayloadsOf(a)[0] == PayloadsOf(b)[0];
    PayloadBinds(a[0].Hashed(), b[0].Hashed());
  }

  ghost function EntryInputs(entries: seq<LedgerEntry>): set<Bytes>
  {
    set i | 0 <= i < |entries| :: entries[i].PayloadBytes()
  }

  /** The bytes hashed for a chain and its checkpoints. */
  ghost function LedgerInputs(sha: Sha, l: Ledger): set<Bytes>
  {
    Binding.CheckpointInputs(sha, l.checkpoints) + EntryInputs(l.entries)
  }

  /** The entries under checkpoint `k`. */
  function Under(l: Ledger, c: Checkpoint): seq<LedgerEntry>
    requires 1 <= c.fromSequence <= c.throughSequence <= |l.entries|
  {
    l.entries[c.fromSequence - 1..c.throughSequence]
  }

  lemma UnderFacts(sha: Sha, org: Str, l: Ledger, k: nat)
    requires Sound(sha, org, l) && Closed(sha, l) && k < |l.checkpoints|
    ensures var c := l.checkpoints[k];
      && 1 <= c.fromSequence <= c.throughSequence <= |l.entries| && Stretch(sha, Under(l, c), c.fromSequence)
      && c.leafHashes == HashesOf(Under(l, c)) && Merkle.MerkleRoot(sha, c.leafHashes) == Some(c.root)
      && Merkle.Members(PayloadsOf(Under(l, c))) <= EntryInputs(l.entries)
  {
    assert ClosedAt(sha, l, k);
    var c := l.checkpoints[k];
    SoundStretch(sha, org, l, c.fromSequence - 1, c.throughSequence);
    StretchInputs(l.entries, c.fromSequence - 1, c.throughSequence);
  }

  lemma SoundStretch(sha: Sha, org: Str, l: Ledger, lo: int, hi: int)
    requires Sound(sha, org, l) && 0 <= lo <= hi <= |l.entries|
    ensures Stretch(sha, l.entries[lo..hi], lo + 1)
  {
    var covered := l.entries[lo..hi];
    forall i | 0 <= i < |covered|
      ensures EntryHash(sha, covered[i].Hashed()) == Some(covered[i].entryHash) && covered[i].organizationSequence == lo + 1 + i
    {
      assert EntrySound(sha, org, l.entries, lo + i);
    }
  }

  lemma StretchInputs(entries: seq<LedgerEntry>, lo: int, hi: int)
    requires 0 <= lo <= hi <= |entries|
    ensures Merkle.Members(PayloadsOf(entries[lo..hi])) <= EntryInputs(entries)
  {
    var covered := entries[lo..hi];
    forall x | x in Merkle.Members(PayloadsOf(covered)) ensures x in EntryInputs(entries) {
      var i :| 0 <= i < |covered| && x == PayloadsOf(covered)[i];
      assert entries[lo + i].PayloadBytes() in EntryInputs(entries);
    }
  }

  /** Different checkpoints of one chain have different roots, unless inputs collide. */
  lemma RootsDiffer(sha: Sha, org: Str, l: Ledger, m: nat, k: nat)
    requires Sound(sha, org, l) && Closed(sha, l) && m < k < |l.checkpoints|
    requires CollisionFreeOn(sha, LedgerInputs(sha, l))
    ensures l.checkpoints[m].root != l.checkpoints[k].root
  {
    UnderFacts(sha, org, l, m);
    UnderFacts(sha, org, l, k);
    var a, b := Under(l, l.checkpoints[m]), Under(l, l.checkpoints[k]);
    Binding.CheckpointInputsInclude(sha, l.checkpoints, m);
    Binding.CheckpointInputsInclude(sha, l.checkpoints, k);
    CollisionFreeSubset(sha, Merkle.TreeInputs(sha, HashesOf(a)) + Merkle.TreeInputs(sha, HashesOf(b))
                             + Merkle.Members(PayloadsOf(a)) + Merkle.Members(PayloadsOf(b)),
                        LedgerInputs(sha, l));
    if l.checkpoints[m].root == l.checkpoints[k].root {
      StretchBinds(sha, a, l.checkpoints[m].fromSequence, b, l.checkpoints[k].fromSequence);
    }
  }

  // ---------------------------------------------------------------- accepted exactly when disjoint

  lemma DisjointValid(sha: Sha, org: Str, l: Ledger, exported: seq<ExportedEntry>, k: nat)
    requires Sound(sha, org, l) && Closed(sha, l) && AllCarry(sha, l, exported) && k < |l.checkpoints| && Disjoint(l)
    ensures CheckpointValid(sha, BySequence(exported), l.checkpoints[k])
  {
    var c := l.checkpoints[k];
    LeafCount(sha, l, k);
    forall i: nat | i < |c.leafHashes| ensures LeafValid(sha, BySequence(exported), c, i) {
      var m := FirstSpan(l.checkpoints, c.fromSequence + i, k);
      assert m == k;
      LeafRight(sha, org, l, exported, k, i, m);
    }
  }

  lemma OverlapInvalid(sha: Sha, org: Str, l: Ledger, exported: seq<ExportedEntry>, i: nat, j: nat)
    requires Sound(sha, org, l) && Closed(sha, l) && AllCarry(sha, l, exported)
    requires i < j < |l.checkpoints| && l.checkpoints[i].throughSequence >= l.checkpoints[j].fromSequence
    requires CollisionFreeOn(sha, LedgerInputs(sha, l))
    ensures !CheckpointValid(sha, BySequence(exported), l.checkpoints[j])
  {
    var m, at := SharedLeaf(sha, l, i, j);
    RootsDiffer(sha, org, l, m, j);
    SharedLeafInvalid(sha, org, l, exported, j, at, m);
  }

  /** Where two checkpoints overlap, a leaf of the later one is exported with an earlier one's proof. */
  lemma SharedLeaf(sha: Sha, l: Ledger, i: nat, j: nat) returns (m: nat, at: nat)
    requires Closed(sha, l) && i < j < |l.checkpoints| && l.checkpoints[i].throughSequence >= l.checkpoints[j].fromSequence
    ensures m < j && at < |l.checkpoints[j].leafHashes| && Spans(l.checkpoints[m], l.checkpoints[j].fromSequence + at)
    ensures CheckpointOf(l.checkpoints, l.checkpoints[j].fromSequence + at) == Some(l.checkpoints[m])
  {
    LeafCount(sha, l, i);
    LeafCount(sha, l, j);
    m := FirstSpan(l.checkpoints, l.checkpoints[i].throughSequence, i);
    at := l.checkpoints[i].throughSequence - l.checkpoints[j].fromSequence;
  }

  lemma SharedLeafInvalid(sha: Sha, org: Str, l: Ledger, exported: seq<ExportedEntry>, k: nat, at: nat, m: nat)
    requires Sound(sha, org, l) && Closed(sha, l) && AllCarry(sha, l, exported)
    requires k < |l.checkpoints| && at < |l.checkpoints[k].leafHashes| && m < |l.checkpoints|
    requires Spans(l.checkpoints[m], l.checkpoints[k].fromSequence + at)
    requires CheckpointOf(l.checkpoints, l.checkpoints[k].fromSequence + at) == Some(l.checkpoints[m])
    requires l.checkpoints[m].root != l.checkpoints[k].root
    ensures !CheckpointValid(sha, BySequence(exported), l.checkpoints[k])
  {
    LeafRight(sha, org, l, exported, k, at, m);
    assert !LeafValid(sha, BySequence(exported), l.checkpoints[k], at);
  }

  lemma AllDisjointValid(sha: Sha, org: Str, l: Ledger, b: Bundle)
    requires Sound(sha, org, l) && Closed(sha, l) && AllCarry(sha, l, b.ledgerEntries) && b.merkleCheckpoints == l.checkpoints
    requires Disjoint(l)
    ensures CheckpointsValid(sha, b)
  {
    forall k | 0 <= k < |l.checkpoints| ensures CheckpointValid(sha, BySequence(b.ledgerEntries), l.checkpoints[k]) {
      DisjointValid(sha, org, l, b.ledgerEntries, k);
    }
  }

  /** The verifier accepts the checkpoints of an exported chain exactly when no two overlap, unless
      inputs collide: every entry carries one proof, and two roots cannot both be meant. */
  lemma DisjointExactly(sha: Sha, org: Str, l: Ledger, b: Bundle)
    requires Sound(sha, org, l) && Closed(sha, l) && AllCarry(sha, l, b.ledgerEntries) && b.merkleCheckpoints == l.checkpoints
    requires CollisionFreeOn(sha, LedgerInputs(sha, l))
    ensures CheckpointsValid(sha, b) <==> Disjoint(l)
  {
    if Disjoint(l) {
      AllDisjointValid(sha, org, l, b);
    } else {
      var i, j :| 0 <= i < j < |l.checkpoints| && l.checkpoints[i].throughSequence >= l.checkpoints[j].fromSequence;
      OverlapInvalid(sha, org, l, b.ledgerEntries, i, j);
    }
  }

  /** An organization's chain after appends with whatever intervals; a failed append changes nothing. */
  function AppendAll(sha: Sha, inputs: seq<EntryInput>): Ledger
  {
    if inputs == [] then EmptyLedger()
    else
      var before := AppendAll(sha, inputs[..|inputs| - 1]);
      match Append(sha, before, inputs[|inputs| - 1])
      case Err(_) => before
      case Ok(l) => l
  }

  lemma {:induction false} AppendAllClosed(sha: Sha, org: Str, inputs: seq<EntryInput>)
    requires forall i :: 0 <= i < |inputs| ==> inputs[i].organizationId == org
    ensures Sound(sha, org, AppendAll(sha, inputs)) && Closed(sha, AppendAll(sha, inputs))
  {
    if inputs != [] {
      var before, last := AppendAll(sha, inputs[..|inputs| - 1]), inputs[|inputs| - 1];
      AppendAllClosed(sha, org, inputs[..|inputs| - 1]);
      if Append(sha, before, last).Ok? {
        AppendKeepsSound(sha, before, last);
        AppendKeepsClosed(sha, org, before, last);
      }
    }
  }

  /** For every run of appends with any intervals at all: the chain exports, and its checkpoints are
      accepted exactly when no two of them overlap, unless inputs collide. */
  lemma AnyIntervals(sha: Sha, org: Str, inputs: seq<EntryInput>, b: Bundle)
    requires forall i :: 0 <= i < |inputs| ==> inputs[i].organizationId == org
    requires var l := AppendAll(sha, inputs);
      && b.merkleCheckpoints == SortBy(ThroughLe, l.checkpoints)
      && Some(b.ledgerEntries) == ExportEntries(sha, b.merkleCheckpoints, SortBy(SequenceLe, l.entries))
      && CollisionFreeOn(sha, LedgerInputs(sha, l))
    ensures CheckpointsValid(sha, b) <==> Disjoint(AppendAll(sha, inputs))
  {
    var l := AppendAll(sha, inputs);
    AppendAllClosed(sha, org, inputs);
    ClosedSorted(sha, l);
    SoundIsDense(sha, org, l);
    DenseIsSorted(l.entries);
    ClosedExports(sha, org, l);
    DisjointExactly(sha, org, l, b);
  }
}
