/** Checkpoints closed under any intervals: what every append keeps without the constant interval. */
module Checkpoints {
  import opened Basics
  import opened HashFormat
  import opened Evidence
  import opened Ledgers
  import Merkle
  import Hex

  /** Checkpoint `k` covers the entries of its range and no others. */
  ghost predicate ClosedAt(sha: Sha, l: Ledger, k: nat)
    requires k < |l.checkpoints|
  {
    var c := l.checkpoints[k];
    && 1 <= c.fromSequence <= c.throughSequence <= |l.entries|
    && c.leafHashes == HashesOf(l.entries[c.fromSequence - 1..c.throughSequence])
    && Merkle.MerkleRoot(sha, c.leafHashes) == Some(c.root)
  }

  ghost predicate Closed(sha: Sha, l: Ledger)
  {
    && (forall k :: 0 <= k < |l.checkpoints| ==> ClosedAt(sha, l, k))
    && (forall i, j :: 0 <= i < j < |l.checkpoints| ==> l.checkpoints[i].throughSequence < l.checkpoints[j].throughSequence)
  }

  /** No two checkpoints share an entry. */
  ghost predicate Disjoint(l: Ledger)
  {
    forall i, j :: 0 <= i < j < |l.checkpoints| ==> l.checkpoints[i].throughSequence < l.checkpoints[j].fromSequence
  }

  // ---------------------------------------------------------------- appends with any interval

  lemma DueFits(interval: int, n: nat)
    requires CheckpointDue(interval, n + 1)
    ensures 1 <= interval <= n + 1
  {
    var q := (n + 1) / interval;
    assert n + 1 == q * interval;
    assert q >= 1;
  }

  lemma ClosedStays(sha: Sha, l: Ledger, m: Ledger, k: nat)
    requires k < |l.checkpoints| <= |m.checkpoints| && l.checkpoints[k] == m.checkpoints[k] && ClosedAt(sha, l, k)
    requires |l.entries| <= |m.entries| && l.entries == m.entries[..|l.entries|]
    ensures ClosedAt(sha, m, k)
  {
    var c := l.checkpoints[k];
    assert l.entries[c.fromSequence - 1..c.throughSequence] == m.entries[c.fromSequence - 1..c.throughSequence];
  }

  lemma NewClosed(sha: Sha, l: Ledger, staged: Staged, interval: int)
    requires Dense(l.entries) && CheckpointDue(interval, |l.entries| + 1) && staged.checkpoint.Some?
    requires var c := staged.checkpoint.value;
      && c.fromSequence == |l.entries| + 2 - interval && c.throughSequence == |l.entries| + 1
      && c.leafHashes == HashesBetween(l.entries, |l.entries| + 2 - interval, |l.entries| + 1) + [staged.entry.entryHash]
      && Merkle.MerkleRoot(sha, c.leafHashes) == Some(c.root)
    ensures ClosedAt(sha, InsertRows(l, staged), |l.checkpoints|)
  {
    DueFits(interval, |l.entries|);
    NewLeaves(l, staged, |l.entries| + 1 - interval, |l.entries| + 1);
  }

  lemma ExtendClosed(sha: Sha, l: Ledger, staged: Staged)
    requires Closed(sha, l)
    requires staged.checkpoint.Some? ==>
      ClosedAt(sha, InsertRows(l, staged), |l.checkpoints|) && staged.checkpoint.value.throughSequence == |l.entries| + 1
    ensures Closed(sha, InsertRows(l, staged))
  {
    var m := InsertRows(l, staged);
    assert l.entries == m.entries[..|l.entries|];
    forall k | 0 <= k < |l.checkpoints| ensures ClosedAt(sha, m, k) && m.checkpoints[k].throughSequence <= |l.entries| {
      ClosedStays(sha, l, m, k);
    }
  }

  /** Whatever the interval, an append keeps every checkpoint closed over its range. */
  lemma AppendKeepsClosed(sha: Sha, org: Str, l: Ledger, input: EntryInput)
    requires Sound(sha, org, l) && Closed(sha, l) && Append(sha, l, input).Ok?
    ensures Closed(sha, Append(sha, l, input).value)
  {
    SoundIsDense(sha, org, l);
    StageCheckpoint(sha, input, l.latestSequence, l.latestEntryHash, Prior(l, input));
    StagedClosed(sha, l, input, Stage(sha, input, l.latestSequence, l.latestEntryHash, Prior(l, input)).value);
  }

  lemma StagedClosed(sha: Sha, l: Ledger, input: EntryInput, staged: Staged)
    requires Dense(l.entries) && l.latestSequence == |l.entries| && Closed(sha, l)
    requires staged.checkpoint.Some? <==> CheckpointDue(input.interval, |l.entries| + 1)
    requires staged.checkpoint.Some? ==>
      var c := staged.checkpoint.value;
      && c.fromSequence == |l.entries| + 2 - input.interval && c.throughSequence == |l.entries| + 1
      && c.leafHashes == Prior(l, input) + [staged.entry.entryHash] && Merkle.MerkleRoot(sha, c.leafHashes) == Some(c.root)
    ensures Closed(sha, InsertRows(l, staged))
  {
    if staged.checkpoint.Some? {
      NewClosed(sha, l, staged, input.interval);
    }
    ExtendClosed(sha, l, staged);
  }

  /** The range about to be closed starts behind the last checkpoint. */
  predicate StartsBehind(l: Ledger, interval: int)
  {
    l.checkpoints == [] || l.checkpoints[|l.checkpoints| - 1].throughSequence + interval <= |l.entries| + 1
  }

  /** An append keeps checkpoints disjoint exactly when it closes none, or one that starts behind the
      last. */
  lemma AppendDisjointExactly(sha: Sha, org: Str, l: Ledger, input: EntryInput)
    requires Sound(sha, org, l) && Closed(sha, l) && Append(sha, l, input).Ok?
    ensures Disjoint(Append(sha, l, input).value)
       <==> Disjoint(l) && (CheckpointDue(input.interval, |l.entries| + 1) ==> StartsBehind(l, input.interval))
  {
    StageCheckpoint(sha, input, l.latestSequence, l.latestEntryHash, Prior(l, input));
    var m, n := Append(sha, l, input).value, |l.checkpoints|;
    assert forall k :: 0 <= k < n ==> m.checkpoints[k] == l.checkpoints[k];
    if Disjoint(l) && CheckpointDue(input.interval, |l.entries| + 1) && StartsBehind(l, input.interval) {
      forall i | 0 <= i < n ensures m.checkpoints[i].throughSequence < m.checkpoints[n].fromSequence {
        assert i < n - 1 ==> l.checkpoints[i].throughSequence < l.checkpoints[n - 1].throughSequence;
      }
    }
    if Disjoint(m) && CheckpointDue(input.interval, |l.entries| + 1) && n > 0 {
      assert m.checkpoints[n - 1].throughSequence < m.checkpoints[n].fromSequence;
    }
  }

  lemma ClosesNow(sha: Sha, org: Str, l: Ledger, input: EntryInput)
    requires Sound(sha, org, l) && input.interval == |l.entries| + 1 && Append(sha, l, input).Ok?
    ensures var m := Append(sha, l, input).value;
      && |m.entries| == |l.entries| + 1
      && m.checkpoints != [] && m.checkpoints[|m.checkpoints| - 1].throughSequence == |l.entries| + 1
  {
    assert (|l.entries| + 1) % input.interval == 0;
    StageCheckpoint(sha, input, l.latestSequence, l.latestEntryHash, Prior(l, input));
  }

  // ---------------------------------------------------------------- appends that succeed

  lemma EntriesAreHex(sha: Sha, org: Str, l: Ledger, lo: int, hi: int)
    requires Sound(sha, org, l) && 0 <= lo <= hi <= |l.entries|
    ensures Merkle.AllHex(HashesOf(l.entries[lo..hi]))
  {
    forall i | 0 <= i < hi - lo ensures Merkle.IsHex(HashesOf(l.entries[lo..hi])[i]) {
      assert EntrySound(sha, org, l.entries, lo + i);
      Merkle.Sha256IsHex(l.entries[lo + i].entryHash);
    }
  }

  lemma PriorIsHex(sha: Sha, org: Str, l: Ledger, input: EntryInput)
    requires Sound(sha, org, l)
    ensures Merkle.AllHex(Prior(l, input))
  {
    var n := |l.entries|;
    if CheckpointDue(input.interval, n + 1) {
      SoundIsDense(sha, org, l);
      DueFits(input.interval, n);
      BetweenIsSlice(l.entries, n + 2 - input.interval, n + 1);
      EntriesAreHex(sha, org, l, n + 1 - input.interval, n);
    }
  }

  lemma StagedRoot(sha: Sha, prior: seq<Str>, entryHash: Str)
    requires Merkle.AllHex(prior) && Hex.IsSha256Hex(entryHash)
    ensures Merkle.MerkleRoot(sha, prior + [entryHash]).Some?
  {
    Merkle.Sha256IsHex(entryHash);
  }

  lemma StageSucceeds(sha: Sha, input: EntryInput, latestSequence: nat, latestEntryHash: Option<Str>, prior: seq<Str>)
    requires HashOk(latestEntryHash) && Merkle.AllHex(prior)
    ensures Stage(sha, input, latestSequence, latestEntryHash, prior).Ok?
       <==> EvidenceOk(input) && IsEntryType(input.entryType) && latestSequence < MAX_INT4
  {
    var f := FieldsOf(input, latestSequence + 1, latestEntryHash);
    PayloadDomain(f);
    if EntryHash(sha, f).Some? {
      EntryHashIsSha(sha, f);
      StagedRoot(sha, prior, EntryHash(sha, f).value);
    }
  }

  /** A sound chain takes an entry exactly when its evidence is well formed, its type is known and the
      sequence fits its column. */
  lemma AppendSucceedsExactly(sha: Sha, org: Str, l: Ledger, input: EntryInput)
    requires Sound(sha, org, l)
    ensures Append(sha, l, input).Ok? <==> EvidenceOk(input) && IsEntryType(input.entryType) && |l.entries| < MAX_INT4
  {
    assert |l.entries| > 0 ==> EntrySound(sha, org, l.entries, |l.entries| - 1);
    PriorIsHex(sha, org, l, input);
    StageSucceeds(sha, input, l.latestSequence, l.latestEntryHash, Prior(l, input));
  }

  predicate Appendable(org: Str, input: EntryInput)
  {
    input.organizationId == org && EvidenceOk(input) && IsEntryType(input.entryType)
  }

  /** The input: one interval, then the next larger one. Both appends succeed, and the second
      checkpoint covers the first. */
  lemma GrowingIntervalOverlaps(sha: Sha, org: Str, l: Ledger, first: EntryInput, second: EntryInput)
    requires Sound(sha, org, l) && Closed(sha, l) && |l.entries| + 2 <= MAX_INT4
    requires Appendable(org, first) && first.interval == |l.entries| + 1
    requires Appendable(org, second) && second.interval == |l.entries| + 2
    ensures Append(sha, l, first).Ok? && Append(sha, Append(sha, l, first).value, second).Ok?
    ensures !Disjoint(Append(sha, Append(sha, l, first).value, second).value)
  {
    AppendSucceedsExactly(sha, org, l, first);
    var m := Append(sha, l, first).value;
    AppendKeepsSound(sha, l, first);
    AppendKeepsClosed(sha, org, l, first);
    ClosesNow(sha, org, l, first);
    AppendSucceedsExactly(sha, org, m, second);
    assert (|m.entries| + 1) % second.interval == 0;
    AppendDisjointExactly(sha, org, m, second);
  }

  /** From the empty chain: intervals 1 and 2. */
  lemma FirstTwoOverlap(sha: Sha, first: EntryInput, second: EntryInput)
    requires Appendable(first.organizationId, first) && first.interval == 1
    requires Appendable(first.organizationId, second) && second.interval == 2
    ensures Append(sha, EmptyLedger(), first).Ok? && Append(sha, Append(sha, EmptyLedger(), first).value, second).Ok?
    ensures !Disjoint(Append(sha, Append(sha, EmptyLedger(), first).value, second).value)
  {
    GrowingIntervalOverlaps(sha, first.organizationId, EmptyLedger(), first, second);
  }

  // ---------------------------------------------------------------- one interval

  lemma ThroughAt(sha: Sha, interval: int, l: Ledger, k: nat)
    requires Tiled(sha, interval, l) && k < |l.checkpoints|
    ensures l.checkpoints[k].throughSequence == (k + 1) * interval && interval > 0
  {
    assert CheckpointSound(sha, interval, l, k);
  }

  /** One interval keeps checkpoints disjoint. */
  lemma TiledIsDisjoint(sha: Sha, interval: int, l: Ledger)
    requires Tiled(sha, interval, l)
    ensures Disjoint(l)
  {
    forall i, j | 0 <= i < j < |l.checkpoints| ensures l.checkpoints[i].throughSequence < l.checkpoints[j].fromSequence {
      assert CheckpointSound(sha, interval, l, i) && CheckpointSound(sha, interval, l, j);
      ThroughAt(sha, interval, l, i);
      Below(interval, i + 1, j);
    }
  }

  lemma Below(interval: int, i: nat, j: nat)
    requires interval > 0 && i <= j
    ensures i * interval <= j * interval
  {
  }
}
