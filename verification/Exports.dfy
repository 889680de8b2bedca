/** Exporting an organization's evidence from quiescent tables. */
module Exports {
  import opened Basics
  import opened Sorting
  import opened Records
  import opened Graph
  import opened Ledgers
  import opened Kernel
  import opened TreeShape
  import Merkle

  predicate ThroughLe(a: Checkpoint, b: Checkpoint) { a.throughSequence <= b.throughSequence }

  predicate Spans(c: Checkpoint, sequence: int)
  {
    c.fromSequence <= sequence <= c.throughSequence
  }

  /** `checkpoints.find(...)` */
  function CheckpointOf(checkpoints: seq<Checkpoint>, sequence: int): Option<Checkpoint>
  {
    if checkpoints == [] then None
    else if Spans(checkpoints[0], sequence) then Some(checkpoints[0])
    else CheckpointOf(checkpoints[1..], sequence)
  }

  /** The proof of the entry in the first checkpoint that spans it; `None` when `getMerkleProof`
      throws. */
  function ExportEntry(sha: Sha, checkpoints: seq<Checkpoint>, e: LedgerEntry): Option<ExportedEntry>
  {
    match CheckpointOf(checkpoints, e.organizationSequence)
    case None => Some(ExportedEntry(e, e.createdAtCanonical, None))
    case Some(c) =>
      var i := e.organizationSequence - c.fromSequence;
      if 0 <= i < |c.leafHashes| && (|c.leafHashes| == 1 || Merkle.AllHex(c.leafHashes))
      then Some(ExportedEntry(e, e.createdAtCanonical, Some(ProofOf(Merkle.Joined(sha), c.leafHashes, i))))
      else None
  }

  function ExportEntries(sha: Sha, checkpoints: seq<Checkpoint>, entries: seq<LedgerEntry>): Option<seq<ExportedEntry>>
  {
    if entries == [] then Some([])
    else
      var rest := ExportEntries(sha, checkpoints, entries[..|entries| - 1]);
      var last := ExportEntry(sha, checkpoints, entries[|entries| - 1]);
      if rest.None? || last.None? then None else Some(rest.value + [last.value])
  }

  /** `None` when the graph does not build or does not print. */
  function ExportGraph(sha: Sha, x: Execution, events: seq<Event>): Option<GraphExport>
  {
    match BuildExecutionGraph(x, events)
    case None => None
    case Some(g) =>
      match GraphHash(sha, GraphValue(g))
      case None => None
      case Some(h) =>
        Some(GraphExport(SchemaVersion(), g.executionId, g.verityRecordId, g.organizationId, g.status, h, GraphValue(g)))
  }

  /** The organization's executions, each once; `ORDER BY started_at` picks one such order. */
  ghost predicate Lists(t: Tables, org: Str, ids: seq<Str>)
  {
    && (forall i, j :: 0 <= i < j < |ids| ==> ids[i] != ids[j])
    && (forall id :: id in ids <==> GetExecution(t, org, id).Some?)
  }

  function EventRows(t: Tables, org: Str, ids: seq<Str>): seq<Event>
  {
    if ids == [] then []
    else EventRows(t, org, ids[..|ids| - 1]) + ListEvents(t.events, org, ids[|ids| - 1])
  }

  function ExecutionRows(t: Tables, ids: seq<Str>): (r: seq<Execution>)
    requires forall id :: id in ids ==> id in t.executions
    ensures |r| == |ids|
  {
    seq(|ids|, i requires 0 <= i < |ids| => t.executions[ids[i]])
  }

  /** The graphs of the executions that have events. */
  function Graphs(sha: Sha, t: Tables, org: Str, ids: seq<Str>): Option<seq<GraphExport>>
    requires forall id :: id in ids ==> id in t.executions
  {
    if ids == [] then Some([])
    else
      var rest, id := Graphs(sha, t, org, ids[..|ids| - 1]), ids[|ids| - 1];
      var events := ListEvents(t.events, org, id);
      if rest.None? || events == [] then rest
      else
        var g := ExportGraph(sha, t.executions[id], events);
        if g.None? then None else Some(rest.value + [g.value])
  }

  function Export(sha: Sha, t: Tables, org: Str, ids: seq<Str>): Option<Bundle>
    requires forall id :: id in ids ==> id in t.executions
  {
    var l := At(t.ledgers, org);
    var checkpoints := SortBy(ThroughLe, l.checkpoints);
    var entries := ExportEntries(sha, checkpoints, SortBy(SequenceLe, l.entries));
    var graphs := Graphs(sha, t, org, ids);
    if entries.None? || graphs.None? then None
    else Some(Bundle(org, false, entries.value, ExecutionRows(t, ids), checkpoints, EventRows(t, org, ids), graphs.value))
  }

  lemma StopsThere(sha: Sha, t: Tables, org: Str, ids: seq<Str>)
    requires ids != [] && forall id :: id in ids ==> id in t.executions
    requires Graphs(sha, t, org, ids[..|ids| - 1]).None?
    ensures Graphs(sha, t, org, ids).None?
  {
  }

  lemma {:induction false} GraphsStop(sha: Sha, t: Tables, org: Str, ids: seq<Str>, i: nat, n: nat)
    requires forall id :: id in ids ==> id in t.executions
    requires i <= n <= |ids| && Graphs(sha, t, org, ids[..i]).None?
    ensures Graphs(sha, t, org, ids[..n]).None?
    decreases n
  {
    if i < n {
      GraphsStop(sha, t, org, ids, i, n - 1);
      assert ids[..n][..n - 1] == ids[..n - 1];
      StopsThere(sha, t, org, ids[..n]);
    }
  }

  lemma {:induction false} EntriesStop(sha: Sha, checkpoints: seq<Checkpoint>, entries: seq<LedgerEntry>, i: nat, n: nat)
    requires i <= n <= |entries| && ExportEntries(sha, checkpoints, entries[..i]).None?
    ensures ExportEntries(sha, checkpoints, entries[..n]).None?
    decreases n
  {
    if i < n {
      EntriesStop(sha, checkpoints, entries, i, n - 1);
      assert entries[..n][..n - 1] == entries[..n - 1];
    }
  }

  method AttachProof(sha: Sha, checkpoints: seq<Checkpoint>, entry: LedgerEntry) returns (exported: Option<ExportedEntry>)
    ensures exported == ExportEntry(sha, checkpoints, entry)
  {
    var checkpoint := CheckpointOf(checkpoints, entry.organizationSequence);
    var merkleProof: Option<seq<ProofStep<Str>>> := None;
    if checkpoint.Some? {
      var index := entry.organizationSequence - checkpoint.value.fromSequence;
      var proof := Merkle.GetMerkleProof(sha, checkpoint.value.leafHashes, index);
      if proof.None? {
        return None;
      }
      merkleProof := Some(proof.value.0);
    }
    return Some(ExportedEntry(entry, entry.createdAtCanonical, merkleProof));
  }

  method MapEntries(sha: Sha, checkpoints: seq<Checkpoint>, entries: seq<LedgerEntry>) returns (r: Option<seq<ExportedEntry>>)
    ensures r == ExportEntries(sha, checkpoints, entries)
  {
    var exported: seq<ExportedEntry> := [];
    for i := 0 to |entries|
      invariant ExportEntries(sha, checkpoints, entries[..i]) == Some(exported)
    {
      assert entries[..i + 1][..i] == entries[..i];
      var one := AttachProof(sha, checkpoints, entries[i]);
      if one.None? {
        EntriesStop(sha, checkpoints, entries, i + 1, |entries|);
        assert entries[..|entries|] == entries;
        return None;
      }
      exported := exported + [one.value];
    }
    assert entries[..|entries|] == entries;
    return Some(exported);
  }

  /** The loop over executions: their events, and a graph for each that has any. */
  method CollectGraphs(sha: Sha, t: Tables, org: Str, ids: seq<Str>) returns (eventRows: seq<Event>, r: Option<seq<GraphExport>>)
    requires forall id :: id in ids ==> id in t.executions
    ensures r == Graphs(sha, t, org, ids)
    ensures r.Some? ==> eventRows == EventRows(t, org, ids)
  {
    eventRows := [];
    var graphs: seq<GraphExport> := [];
    for i := 0 to |ids|
      invariant eventRows == EventRows(t, org, ids[..i])
      invariant Graphs(sha, t, org, ids[..i]) == Some(graphs)
    {
      assert ids[..i + 1][..i] == ids[..i];
      var events := ListEvents(t.events, org, ids[i]);
      eventRows := eventRows + events;
      if |events| != 0 {
        var graph := ExportGraph(sha, t.executions[ids[i]], events);
        if graph.None? {
          GraphsStop(sha, t, org, ids, i + 1, |ids|);
          assert ids[..|ids|] == ids;
          return eventRows, None;
        }
        graphs := graphs + [graph.value];
      }
    }
    assert ids[..|ids|] == ids;
    return eventRows, Some(graphs);
  }

  /** `exportOrganizationEvidence`, reading one state of the tables. */
  method ExportOrganizationEvidence(sha: Sha, t: Tables, org: Str, ids: seq<Str>) returns (bundle: Option<Bundle>)
    requires forall id :: id in ids ==> id in t.executions
    ensures bundle == Export(sha, t, org, ids)
  {
    var entries := SortBy(SequenceLe, At(t.ledgers, org).entries);
    var checkpoints := SortBy(ThroughLe, At(t.ledgers, org).checkpoints);
    var eventRows, graphs := CollectGraphs(sha, t, org, ids);
    if graphs.None? {
      return None;
    }
    var exported := MapEntries(sha, checkpoints, entries);
    if exported.None? {
      return None;
    }
    return Some(Bundle(org, false, exported.value, ExecutionRows(t, ids), checkpoints, eventRows, graphs.value));
  }
}
