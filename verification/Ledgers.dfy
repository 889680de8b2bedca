/** One organization's hash chain: appending an entry, closing a checkpoint, and what every
    append keeps. */
module Ledgers {
  import opened Basics
  import opened Sorting
  import opened HashFormat
  import opened Records
  import opened Evidence
  import Merkle
  import Hex

  /** The `chain_state` row of an organization and its rows of the two append-only tables, in
      insertion order. */
  datatype Ledger = Ledger(
    latestSequence: int,
    latestEntryHash: Option<Str>,
    entries: seq<LedgerEntry>,
    checkpoints: seq<Checkpoint>)

  /** The row `INSERT ... ON CONFLICT DO NOTHING` makes for a new organization. */
  function EmptyLedger(): Ledger { Ledger(0, None, [], []) }

  /** An organization's chain; one that has no row yet starts empty. */
  function At(ledgers: map<Str, Ledger>, org: Str): Ledger
  {
    if org in ledgers then ledgers[org] else EmptyLedger()
  }

  /** Arguments of an append; random ids and the clock's answer are part of them. */
  datatype EntryInput = EntryInput(
    entryId: Str,
    checkpointId: Str,
    organizationId: Str,
    executionId: Str,
    entryType: Str,
    requestHash: Option<Str>,
    responseHash: Option<Str>,
    executionGraphHash: Option<Str>,
    interval: int,
    createdAtCanonical: Str,
    kernelVersion: Str,
    executionStatus: Option<Str>)

  /** The INTEGER column type holds no more. */
  const MAX_INT4 := 0x7FFF_FFFF

  function ActionCompleted(): Str { Ascii("action_completed") }

  predicate IsEntryType(t: Str)
  {
    t == RequestOpened() || t == ApprovalRequested() || t == ActionCompleted() || t == Final() || t == FailureEntry()
  }

  predicate EvidenceOk(input: EntryInput)
  {
    && HashOk(input.requestHash) && HashOk(input.responseHash) && HashOk(input.executionGraphHash)
    && CanonicalTimestamp(input.createdAtCanonical)
  }

  function FieldsOf(input: EntryInput, sequence: int, previous: Option<Str>): HashFields
  {
    HashFields(input.organizationId, sequence, input.executionId, input.entryType, input.requestHash,
               input.responseHash, input.executionGraphHash, previous, input.kernelVersion, input.createdAtCanonical)
  }

  function RowOf(input: EntryInput, sequence: int, previous: Option<Str>, entryHash: Str, root: Option<Str>): (r: LedgerEntry)
    ensures r.Hashed() == FieldsOf(input, sequence, previous)
  {
    LedgerEntry(input.entryId, input.organizationId, sequence, input.executionId, input.entryType, input.requestHash,
                input.responseHash, input.executionGraphHash, previous, entryHash, root, input.kernelVersion,
                HashFormatVersion(), input.createdAtCanonical)
  }

  predicate CheckpointDue(interval: int, sequence: int)
  {
    interval > 0 && sequence % interval == 0
  }

  // ---------------------------------------------------------------- queries

  predicate SequenceLe(a: LedgerEntry, b: LedgerEntry) { a.organizationSequence <= b.organizationSequence }

  function InRange(entries: seq<LedgerEntry>, lo: int, hi: int): seq<LedgerEntry>
  {
    if entries == [] then []
    else
      var rest, last := InRange(entries[..|entries| - 1], lo, hi), entries[|entries| - 1];
      if lo <= last.organizationSequence < hi then rest + [last] else rest
  }

  function HashesOf(entries: seq<LedgerEntry>): (r: seq<Str>)
    ensures |r| == |entries|
  {
    seq(|entries|, i requires 0 <= i < |entries| => entries[i].entryHash)
  }

  /** Hashes of the entries with `lo <= organization_sequence < hi`, in sequence order. */
  function HashesBetween(entries: seq<LedgerEntry>, lo: int, hi: int): seq<Str>
  {
    HashesOf(SortBy(SequenceLe, InRange(entries, lo, hi)))
  }

  // ---------------------------------------------------------------- the append

  datatype Staged = Staged(entry: LedgerEntry, checkpoint: Option<Checkpoint>)

  /** The rows to insert, from what was read: the locked chain state and the prior hashes. */
  function Stage(sha: Sha, input: EntryInput, latestSequence: int, latestEntryHash: Option<Str>, prior: seq<Str>)
    : Result<Staged, Fault>
  {
    var sequence := latestSequence + 1;
    if !EvidenceOk(input) || !HashOk(latestEntryHash) then Err(InvalidEvidence)
    else
      match EntryHash(sha, FieldsOf(input, sequence, latestEntryHash))
      case None => Err(PrinterThrows)
      case Some(entryHash) =>
        if sequence > MAX_INT4 || !IsEntryType(input.entryType) then Err(Constraint)
        else if !CheckpointDue(input.interval, sequence)
        then Ok(Staged(RowOf(input, sequence, latestEntryHash, entryHash, None), None))
        else
          var leaves := prior + [entryHash];
          match Merkle.MerkleRoot(sha, leaves)
          case None => Err(MerkleThrows)
          case Some(root) =>
            Ok(Staged(RowOf(input, sequence, latestEntryHash, entryHash, Some(root)),
                      Some(Checkpoint(input.checkpointId, input.organizationId, sequence - input.interval + 1,
                                      sequence, root, leaves))))
  }

  /** The hashes selected for a checkpoint at `sequence`; none when no checkpoint is due. */
  function PriorAt(entries: seq<LedgerEntry>, interval: int, sequence: int): seq<Str>
  {
    if CheckpointDue(interval, sequence) then HashesBetween(entries, sequence - interval + 1, sequence) else []
  }

  function Prior(ledger: Ledger, input: EntryInput): seq<Str>
  {
    PriorAt(ledger.entries, input.interval, ledger.latestSequence + 1)
  }

  function InsertRows(ledger: Ledger, staged: Staged): Ledger
  {
    Ledger(staged.entry.organizationSequence, Some(staged.entry.entryHash), ledger.entries + [staged.entry],
           if staged.checkpoint.Some? then ledger.checkpoints + [staged.checkpoint.value] else ledger.checkpoints)
  }

  /** A whole append, alone on the chain. */
  function Append(sha: Sha, ledger: Ledger, input: EntryInput): Result<Ledger, Fault>
  {
    match Stage(sha, input, ledger.latestSequence, ledger.latestEntryHash, Prior(ledger, input))
    case Err(f) => Err(f)
    case Ok(staged) => Ok(InsertRows(ledger, staged))
  }

  // ---------------------------------------------------------------- what every append keeps

  /** Entry `i` holds sequence `i + 1`, its own hash, and the hash of the entry before it. */
  ghost predicate EntrySound(sha: Sha, org: Str, entries: seq<LedgerEntry>, i: nat)
    requires i < |entries|
  {
    && entries[i].organizationId == org
    && entries[i].organizationSequence == i + 1
    && EntryHash(sha, entries[i].Hashed()) == Some(entries[i].entryHash)
    && entries[i].hashFormatVersion == HashFormatVersion()
    && entries[i].previousEntryHash == (if i == 0 then None else Some(entries[i - 1].entryHash))
    && Hex.IsSha256Hex(entries[i].entryHash) && HashOk(entries[i].requestHash)
  }

  /** A chain that never forked: sequences 1..n, every link in place, the row at the tip. */
  ghost predicate Sound(sha: Sha, org: Str, l: Ledger)
  {
    && l.latestSequence == |l.entries|
    && l.latestEntryHash == (if l.entries == [] then None else Some(l.entries[|l.entries| - 1].entryHash))
    && forall i :: 0 <= i < |l.entries| ==> EntrySound(sha, org, l.entries, i)
  }

  /** Checkpoint `k` covers entries `k * interval + 1` to `(k + 1) * interval` and no others. */
  ghost predicate CheckpointSound(sha: Sha, interval: int, l: Ledger, k: nat)
    requires k < |l.checkpoints|
  {
    var c := l.checkpoints[k];
    && c.fromSequence == k * interval + 1 && c.throughSequence == (k + 1) * interval
    && 0 <= k * interval <= (k + 1) * interval <= |l.entries|
    && c.leafHashes == HashesOf(l.entries[k * interval..(k + 1) * interval])
    && Merkle.MerkleRoot(sha, c.leafHashes) == Some(c.root)
  }

  /** The checkpoints tile the first `interval * (n / interval)` entries exactly. */
  ghost predicate Tiled(sha: Sha, interval: int, l: Ledger)
  {
    && |l.checkpoints| == (if interval > 0 then |l.entries| / interval else 0)
    && forall k :: 0 <= k < |l.checkpoints| ==> CheckpointSound(sha, interval, l, k)
  }

  /** The staged row: the input's fields, hashed, on top of what was read. */
  lemma StageRow(sha: Sha, input: EntryInput, latestSequence: int, latestEntryHash: Option<Str>, prior: seq<Str>)
    requires Stage(sha, input, latestSequence, latestEntryHash, prior).Ok?
    ensures var e := Stage(sha, input, latestSequence, latestEntryHash, prior).value.entry;
      && e == RowOf(input, latestSequence + 1, latestEntryHash, e.entryHash, e.merkleRoot)
      && EntryHash(sha, FieldsOf(input, latestSequence + 1, latestEntryHash)) == Some(e.entryHash)
      && IsEntryType(input.entryType)
  {
  }

  lemma EntryHashIsSha(sha: Sha, f: HashFields)
    requires EntryHash(sha, f).Some?
    ensures Hex.IsSha256Hex(EntryHash(sha, f).value)
  {
    Hex.HashIsSha256Hex(sha, HashedBytes(HashPayload(f)));
  }

  lemma StageFacts(sha: Sha, input: EntryInput, latestSequence: int, latestEntryHash: Option<Str>, prior: seq<Str>)
    requires Stage(sha, input, latestSequence, latestEntryHash, prior).Ok?
    ensures var e := Stage(sha, input, latestSequence, latestEntryHash, prior).value.entry;
      && e.organizationId == input.organizationId && e.organizationSequence == latestSequence + 1
      && EntryHash(sha, e.Hashed()) == Some(e.entryHash) && e.hashFormatVersion == HashFormatVersion()
      && e.previousEntryHash == latestEntryHash && Hex.IsSha256Hex(e.entryHash)
      && e.executionId == input.executionId && e.entryType == input.entryType && e.id == input.entryId
      && e.executionGraphHash == input.executionGraphHash && e.requestHash == input.requestHash && HashOk(e.requestHash)
  {
    StageRow(sha, input, latestSequence, latestEntryHash, prior);
    EntryHashIsSha(sha, FieldsOf(input, latestSequence + 1, latestEntryHash));
  }

  lemma ExtendSound(sha: Sha, org: Str, l: Ledger, staged: Staged)
    requires Sound(sha, org, l)
    requires var e := staged.entry;
      && e.organizationId == org && e.organizationSequence == l.latestSequence + 1
      && EntryHash(sha, e.Hashed()) == Some(e.entryHash) && e.hashFormatVersion == HashFormatVersion()
      && e.previousEntryHash == l.latestEntryHash && Hex.IsSha256Hex(e.entryHash) && HashOk(e.requestHash)
    ensures Sound(sha, org, InsertRows(l, staged))
  {
    var m := InsertRows(l, staged);
    forall i | 0 <= i < |m.entries| ensures EntrySound(sha, org, m.entries, i) {
      if i < |l.entries| {
        assert EntrySound(sha, org, l.entries, i);
      }
    }
  }

  /** An append keeps the chain linked and the chain state at its tip. */
  lemma AppendKeepsSound(sha: Sha, l: Ledger, input: EntryInput)
    requires Sound(sha, input.organizationId, l) && Append(sha, l, input).Ok?
    ensures Sound(sha, input.organizationId, Append(sha, l, input).value)
  {
    StageFacts(sha, input, l.latestSequence, l.latestEntryHash, Prior(l, input));
    ExtendSound(sha, input.organizationId, l, Stage(sha, input, l.latestSequence, l.latestEntryHash, Prior(l, input)).value);
  }

  // ---------------------------------------------------------------- checkpoints

  ghost predicate Dense(entries: seq<LedgerEntry>)
  {
    forall i :: 0 <= i < |entries| ==> entries[i].organizationSequence == i + 1
  }

  lemma SoundIsDense(sha: Sha, org: Str, l: Ledger)
    requires Sound(sha, org, l)
    ensures Dense(l.entries)
  {
    forall i | 0 <= i < |l.entries| ensures l.entries[i].organizationSequence == i + 1 {
      assert EntrySound(sha, org, l.entries, i);
    }
  }

  lemma DenseIsSorted(entries: seq<LedgerEntry>)
    requires Dense(entries)
    ensures SortBy(SequenceLe, entries) == entries
  {
    SortSorted(SequenceLe, entries);
  }

  lemma SliceOfPrefix<T>(xs: seq<T>, lo: nat, hi: nat, n: nat)
    requires lo <= hi <= n <= |xs|
    ensures xs[..n][lo..hi] == xs[lo..hi]
  {
  }

  lemma SliceGrows<T>(xs: seq<T>, lo: nat, n: nat)
    requires lo <= n < |xs|
    ensures xs[lo..n + 1] == xs[lo..n] + [xs[n]]
  {
  }

  /** On a dense chain the range query is a slice. */
  lemma {:induction false} InRangeIsSlice(entries: seq<LedgerEntry>, lo: int, hi: int)
    requires Dense(entries) && 1 <= lo <= hi
    ensures InRange(entries, lo, hi)
         == entries[Least(lo - 1, |entries|)..Least(hi - 1, |entries|)]
  {
    if entries != [] {
      var n := |entries| - 1;
      assert Dense(entries[..n]) && entries[n].organizationSequence == n + 1;
      InRangeIsSlice(entries[..n], lo, hi);
      SliceOfPrefix(entries, Least(lo - 1, n), Least(hi - 1, n), n);
      if lo <= n + 1 < hi {
        SliceGrows(entries, lo - 1, n);
      }
    }
  }

  function Least(a: int, b: int): int { if a < b then a else b }

  lemma BetweenIsSlice(entries: seq<LedgerEntry>, lo: int, hi: int)
    requires Dense(entries) && 1 <= lo <= hi <= |entries| + 1
    ensures HashesBetween(entries, lo, hi) == HashesOf(entries[lo - 1..hi - 1])
  {
    InRangeIsSlice(entries, lo, hi);
    assert Sorted(SequenceLe, entries[lo - 1..hi - 1]);
    SortSorted(SequenceLe, entries[lo - 1..hi - 1]);
  }

  lemma NextMultiple(n: nat, interval: int)
    requires interval > 0
    ensures (n + 1) % interval == 0 ==> (n + 1) / interval == n / interval + 1 && (n / interval) * interval + interval == n + 1
    ensures (n + 1) % interval != 0 ==> (n + 1) / interval == n / interval
    ensures (n / interval) * interval <= n
  {
    var q, r := n / interval, n % interval;
    assert n == q * interval + r;
    if r + 1 == interval {
      DivisionIs(n + 1, interval, q + 1, 0);
    } else {
      DivisionIs(n + 1, interval, q, r + 1);
    }
  }

  lemma DivisionIs(n: nat, d: int, q: int, r: int)
    requires d > 0 && n == q * d + r && 0 <= r < d
    ensures n / d == q && n % d == r
  {
    var e := n / d - q;
    assert n == (n / d) * d + n % d;
    assert e * d == (n / d) * d - q * d;
    assert e * d == r - n % d;
  }

  lemma CheckpointStays(sha: Sha, interval: int, l: Ledger, m: Ledger, k: nat)
    requires k < |l.checkpoints| <= |m.checkpoints| && l.checkpoints[k] == m.checkpoints[k]
    requires |l.entries| <= |m.entries| && l.entries == m.entries[..|l.entries|]
    requires CheckpointSound(sha, interval, l, k)
    ensures CheckpointSound(sha, interval, m, k)
  {
    assert l.entries[k * interval..(k + 1) * interval] == m.entries[k * interval..(k + 1) * interval];
  }

  /** A checkpoint is closed exactly when one is due, over the prior hashes and the new one. */
  lemma StageCheckpoint(sha: Sha, input: EntryInput, latestSequence: int, latestEntryHash: Option<Str>, prior: seq<Str>)
    requires Stage(sha, input, latestSequence, latestEntryHash, prior).Ok?
    ensures var staged := Stage(sha, input, latestSequence, latestEntryHash, prior).value;
      (staged.checkpoint.Some? <==> CheckpointDue(input.interval, latestSequence + 1)) &&
      (staged.checkpoint.Some? ==>
        var c := staged.checkpoint.value;
        && c.organizationId == input.organizationId
        && c.fromSequence == latestSequence + 2 - input.interval && c.throughSequence == latestSequence + 1
        && c.leafHashes == prior + [staged.entry.entryHash] && Merkle.MerkleRoot(sha, c.leafHashes) == Some(c.root))
  {
  }

  lemma NewLeaves(l: Ledger, staged: Staged, from: nat, to: nat)
    requires Dense(l.entries) && from <= |l.entries| && to == |l.entries| + 1
    ensures HashesBetween(l.entries, from + 1, to) + [staged.entry.entryHash]
         == HashesOf(InsertRows(l, staged).entries[from..to])
  {
    BetweenIsSlice(l.entries, from + 1, to);
    assert InsertRows(l, staged).entries[from..to] == l.entries[from..] + [staged.entry];
    assert l.entries[from..|l.entries|] == l.entries[from..];
    assert HashesOf(l.entries[from..] + [staged.entry]) == HashesOf(l.entries[from..]) + [staged.entry.entryHash];
  }

  lemma NewCheckpointSound(sha: Sha, j: int, l: Ledger, staged: Staged, k: nat)
    requires Dense(l.entries) && j > 0 && k == |l.checkpoints| && k * j + j == |l.entries| + 1
    requires staged.checkpoint.Some?
    requires var c := staged.checkpoint.value;
      && c.fromSequence == |l.entries| + 2 - j && c.throughSequence == |l.entries| + 1
      && c.leafHashes == HashesBetween(l.entries, |l.entries| + 2 - j, |l.entries| + 1) + [staged.entry.entryHash]
      && Merkle.MerkleRoot(sha, c.leafHashes) == Some(c.root)
    ensures CheckpointSound(sha, j, InsertRows(l, staged), k)
  {
    var from := |l.entries| + 1 - j;
    assert (k + 1) * j == |l.entries| + 1 && k * j == from;
    NewLeaves(l, staged, from, |l.entries| + 1);
  }

  lemma ExtendTiled(sha: Sha, l: Ledger, staged: Staged, j: int)
    requires Dense(l.entries) && Tiled(sha, j, l)
    requires staged.checkpoint.Some? <==> CheckpointDue(j, |l.entries| + 1)
    requires staged.checkpoint.Some? ==>
      CheckpointSound(sha, j, InsertRows(l, staged), |l.checkpoints|)
    ensures Tiled(sha, j, InsertRows(l, staged))
  {
    var m := InsertRows(l, staged);
    assert l.entries == m.entries[..|l.entries|];
    if j > 0 {
      NextMultiple(|l.entries|, j);
    }
    forall k | 0 <= k < |l.checkpoints| ensures CheckpointSound(sha, j, m, k) {
      CheckpointStays(sha, j, l, m, k);
    }
  }

  lemma StagedTiles(sha: Sha, l: Ledger, input: EntryInput, staged: Staged)
    requires Dense(l.entries) && l.latestSequence == |l.entries| && Tiled(sha, input.interval, l)
    requires staged.checkpoint.Some? <==> CheckpointDue(input.interval, |l.entries| + 1)
    requires staged.checkpoint.Some? ==>
      var c := staged.checkpoint.value;
      && c.fromSequence == |l.entries| + 2 - input.interval && c.throughSequence == |l.entries| + 1
      && c.leafHashes == Prior(l, input) + [staged.entry.entryHash] && Merkle.MerkleRoot(sha, c.leafHashes) == Some(c.root)
    ensures Tiled(sha, input.interval, InsertRows(l, staged))
  {
    if staged.checkpoint.Some? {
      NextMultiple(|l.entries|, input.interval);
      NewCheckpointSound(sha, input.interval, l, staged, |l.checkpoints|);
    }
    ExtendTiled(sha, l, staged, input.interval);
  }

  /** With one interval, appending keeps the checkpoints tiling the chain. */
  lemma AppendKeepsTiled(sha: Sha, org: Str, l: Ledger, input: EntryInput)
    requires Sound(sha, org, l) && Tiled(sha, input.interval, l) && Append(sha, l, input).Ok?
    ensures Tiled(sha, input.interval, Append(sha, l, input).value)
  {
    SoundIsDense(sha, org, l);
    StageCheckpoint(sha, input, l.latestSequence, l.latestEntryHash, Prior(l, input));
    StagedTiles(sha, l, input, Stage(sha, input, l.latestSequence, l.latestEntryHash, Prior(l, input)).value);
  }
}
