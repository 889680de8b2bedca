/** What the export of an organization holds: all its rows and no others. */
module ExportRows {
  import opened Basics
  import opened Sorting
  import opened Records
  import opened Graph
  import opened Ledgers
  import opened Kernel
  import opened VerifyGraphs
  import opened Reachable
  import opened Exports
  import opened Completeness
  import opened Rows
  import opened Checkpoints
  import opened TreeShape
  import Intervals
  import Merkle

  /** The first checkpoint, by its end, that spans entry `n`. */
  predicate FirstSpan(l: Ledger, n: nat, k: nat)
  {
    && k < |l.checkpoints| && l.checkpoints[k].fromSequence <= n + 1 <= l.checkpoints[k].throughSequence
    && forall j :: 0 <= j < k ==> !(l.checkpoints[j].fromSequence <= n + 1 <= l.checkpoints[j].throughSequence)
  }

  /** The entry of this sequence, with a proof against the root of the first checkpoint that spans it, if one does. */
  ghost predicate HoldsEntry(sha: Sha, l: Ledger, n: nat, e: ExportedEntry)
    requires n < |l.entries|
  {
    && e.row == l.entries[n] && e.createdAt == l.entries[n].createdAtCanonical
    && (e.merkleProof.Some? <==> exists k: nat :: FirstSpan(l, n, k))
    && forall k: nat :: FirstSpan(l, n, k) ==>
         Merkle.ProofVerdict(sha, l.entries[n].entryHash, e.merkleProof.value, l.checkpoints[k].root) == Some(true)
  }

  ghost predicate HoldsEntries(sha: Sha, l: Ledger, exported: seq<ExportedEntry>)
  {
    |exported| == |l.entries| && forall n :: 0 <= n < |exported| ==> HoldsEntry(sha, l, n, exported[n])
  }

  lemma {:induction false} FindsFirst(checkpoints: seq<Checkpoint>, sequence: int) returns (k: nat)
    ensures CheckpointOf(checkpoints, sequence).Some? ==> k < |checkpoints| && CheckpointOf(checkpoints, sequence) == Some(checkpoints[k]) && Spans(checkpoints[k], sequence)
    ensures CheckpointOf(checkpoints, sequence).None? ==> k == |checkpoints|
    ensures k <= |checkpoints| && forall j :: 0 <= j < k ==> !Spans(checkpoints[j], sequence)
  {
    k := 0;
    if checkpoints != [] && !Spans(checkpoints[0], sequence) {
      var m := FindsFirst(checkpoints[1..], sequence);
      k := m + 1;
      forall j | 0 <= j < k ensures !Spans(checkpoints[j], sequence) {
        assert j > 0 ==> checkpoints[j] == checkpoints[1..][j - 1];
      }
    }
  }

  lemma ProofHeld(sha: Sha, org: Str, l: Ledger, n: nat, k: nat)
    requires Sound(sha, org, l) && Closed(sha, l) && n < |l.entries| && k < |l.checkpoints| && Spans(l.checkpoints[k], n + 1)
    requires 0 <= n + 1 - l.checkpoints[k].fromSequence < |l.checkpoints[k].leafHashes|
    ensures Merkle.ProofVerdict(sha, l.entries[n].entryHash,
                                ProofOf(Merkle.Joined(sha), l.checkpoints[k].leafHashes, n + 1 - l.checkpoints[k].fromSequence),
                                l.checkpoints[k].root) == Some(true)
  {
    var i := n + 1 - l.checkpoints[k].fromSequence;
    Intervals.LeafFacts(sha, org, l, k, i);
    Intervals.LeafCount(sha, l, k);
    Intervals.ClosedHex(sha, org, l, k);
    Merkle.ProofComplete(sha, l.checkpoints[k].leafHashes, i);
  }

  lemma OneFirst(l: Ledger, n: nat) returns (k: nat)
    ensures CheckpointOf(l.checkpoints, n + 1).None? ==> forall j: nat :: !FirstSpan(l, n, j)
    ensures CheckpointOf(l.checkpoints, n + 1).Some? ==>
      && FirstSpan(l, n, k) && CheckpointOf(l.checkpoints, n + 1).value == l.checkpoints[k] && Spans(l.checkpoints[k], n + 1)
      && forall j: nat :: FirstSpan(l, n, j) ==> j == k
  {
    k := FindsFirst(l.checkpoints, n + 1);
    forall j: nat | j != k ensures !FirstSpan(l, n, j) {
      assert j < k ==> !Spans(l.checkpoints[j], n + 1);
      assert k < j < |l.checkpoints| ==> Spans(l.checkpoints[k], n + 1);
    }
  }

  lemma EntryHeld(sha: Sha, org: Str, l: Ledger, n: nat, e: ExportedEntry)
    requires Sound(sha, org, l) && Closed(sha, l) && n < |l.entries| && Intervals.CarriesFirst(sha, l, n, e)
    ensures HoldsEntry(sha, l, n, e)
  {
    var k := OneFirst(l, n);
    if CheckpointOf(l.checkpoints, n + 1).Some? {
      ProofHeld(sha, org, l, n, k);
    }
  }

  lemma {:induction false} EntriesHeld(sha: Sha, org: Str, l: Ledger, exported: seq<ExportedEntry>)
    requires Sound(sha, org, l) && Closed(sha, l) && Intervals.AllCarry(sha, l, exported)
    ensures HoldsEntries(sha, l, exported)
  {
    forall n | 0 <= n < |exported| ensures HoldsEntry(sha, l, n, exported[n]) {
      EntryHeld(sha, org, l, n, exported[n]);
    }
  }

  lemma {:induction false} EventRowsMembers(t: Tables, org: Str, ids: seq<Str>, e: Event)
    ensures e in EventRows(t, org, ids) <==> e.executionId in ids && e in t.events && e.organizationId == org
  {
    if ids != [] {
      var last := ids[|ids| - 1];
      EventRowsMembers(t, org, ids[..|ids| - 1], e);
      EventsOfMembers(t.events, org, last);
      SortKeeps(EventLe, EventsOf(t.events, org, last));
      assert ids == ids[..|ids| - 1] + [last];
    }
  }

  /** Every event of the organization belongs to one of its executions. */
  lemma {:induction false} EventIsListed(sha: Sha, t: Tables, org: Str, ids: seq<Str>, e: Event)
    requires Kept(sha, t) && Lists(t, org, ids) && e in t.events && e.organizationId == org
    ensures e.executionId in ids
  {
    var id := e.executionId;
    assert ExecutionSound(t, id);
    EventsForFinds(t.events, id);
    var mine := EventsFor(t.events, id);
    assert e in mine;
    var i :| 0 <= i < |mine| && mine[i] == e;
  }

  /** The graph of the execution's events, with the execution's own columns. */
  ghost predicate HoldsGraph(sha: Sha, x: Execution, events: seq<Event>, g: GraphExport)
  {
    && g.schemaVersion == Ascii("2") && g.executionId == x.id && g.verityRecordId == x.verityRecordId
    && g.organizationId == x.organizationId && g.status == x.status
    && BuildExecutionGraph(x, events).Some? && g.graph == GraphValue(BuildExecutionGraph(x, events).value)
    && HashGraph(sha, x, events) == Ok(g.graphHash)
  }

  lemma {:induction false} GraphHeld(sha: Sha, t: Tables, id: Str, g: GraphExport)
    requires ExportOf(sha, t, id, g)
    ensures HoldsGraph(sha, t.executions[id], EventsFor(t.events, id), g)
  {
  }

  /** One graph for each execution that has events, and no others. */
  ghost predicate HoldsGraphs(sha: Sha, t: Tables, ids: seq<Str>, graphs: seq<GraphExport>)
  {
    && (forall g :: g in graphs ==>
          && g.executionId in ids && g.executionId in t.executions && EventsFor(t.events, g.executionId) != []
          && HoldsGraph(sha, t.executions[g.executionId], EventsFor(t.events, g.executionId), g))
    && (forall id :: id in ids && EventsFor(t.events, id) != [] ==> |ExportsFor(graphs, id)| == 1)
  }

  lemma {:induction false} GraphsHeld(sha: Sha, t: Tables, org: Str, ids: seq<Str>, b: Bundle)
    requires Mirrors(sha, t, org, ids, b)
    ensures HoldsGraphs(sha, t, ids, b.executionGraphs)
  {
    forall g | g in b.executionGraphs
      ensures g.executionId in ids && g.executionId in t.executions && EventsFor(t.events, g.executionId) != []
      ensures HoldsGraph(sha, t.executions[g.executionId], EventsFor(t.events, g.executionId), g)
    {
      var k :| 0 <= k < |b.executionGraphs| && b.executionGraphs[k] == g;
      assert GraphListed(sha, t, ids, b.executionGraphs[k]);
      GraphHeld(sha, t, g.executionId, g);
    }
  }

  /** In every state calls can lead to, the export holds the organization's entries and checkpoints in order,
      its executions, exactly its events, those of each execution in sequence, and their graphs. */
  lemma {:induction false} ExportHolds(sha: Sha, t: Tables, org: Str, ids: seq<Str>)
    requires Kept(sha, t) && Lists(t, org, ids)
    requires forall x :: x in ids ==> x in t.executions
    ensures Export(sha, t, org, ids).Some?
    ensures var b, l := Export(sha, t, org, ids).value, At(t.ledgers, org);
      && b.organizationId == org && !b.includesPlaintext
      && HoldsEntries(sha, l, b.ledgerEntries) && b.merkleCheckpoints == l.checkpoints
      && |b.executions| == |ids| && (forall i :: 0 <= i < |ids| ==> b.executions[i] == t.executions[ids[i]])
      && (forall e :: e in b.executionEvents <==> e in t.events && e.organizationId == org)
      && (forall id :: id in ids ==> EventsFor(b.executionEvents, id) == EventsFor(t.events, id))
      && HoldsGraphs(sha, t, ids, b.executionGraphs)
  {
    ExportParts(sha, t, org, ids);
    var b := Export(sha, t, org, ids).value;
    assert ChainKept(sha, t, org);
    EntriesHeld(sha, org, At(t.ledgers, org), b.ledgerEntries);
    GraphsHeld(sha, t, org, ids, b);
    forall e ensures e in b.executionEvents <==> e in t.events && e.organizationId == org {
      EventRowsMembers(t, org, ids, e);
      if e in t.events && e.organizationId == org {
        EventIsListed(sha, t, org, ids, e);
      }
    }
  }
}
