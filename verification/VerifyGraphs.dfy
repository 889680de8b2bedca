/** Verification of exported execution graphs against exported events, and of whole bundles. */
module VerifyGraphs {
  import opened Basics
  import opened Sorting
  import opened Canonical
  import opened Records
  import opened Graph
  import opened Reports
  import Verify

  // ---------------------------------------------------------------- lookups

  /** `new Map(executions.map((row) => [row.id, row]))`: the last row of an id wins. */
  function ById(executions: seq<Execution>): map<Str, Execution>
  {
    if executions == [] then map[]
    else
      var last := executions[|executions| - 1];
      ById(executions[..|executions| - 1])[last.id := last]
  }

  /** `events.filter((event) => event.execution_id === id)` */
  function EventsFor(events: seq<Event>, id: Str): seq<Event>
  {
    if events == [] then []
    else if events[0].executionId == id then [events[0]] + EventsFor(events[1..], id)
    else EventsFor(events[1..], id)
  }

  lemma {:induction false} EventsForFinds(events: seq<Event>, id: Str)
    ensures forall e :: e in EventsFor(events, id) <==> e in events && e.executionId == id
  {
    if events != [] {
      EventsForFinds(events[1..], id);
    }
  }

  function ExportsFor(graphs: seq<GraphExport>, id: Str): seq<GraphExport>
  {
    if graphs == [] then []
    else
      var rest := ExportsFor(graphs[..|graphs| - 1], id);
      var last := graphs[|graphs| - 1];
      if last.executionId == id then rest + [last] else rest
  }

  /** The exports of every execution, in bundle order. */
  function GroupOf(graphs: seq<GraphExport>): map<Str, seq<GraphExport>>
  {
    if graphs == [] then map[]
    else
      var m, g := GroupOf(graphs[..|graphs| - 1]), graphs[|graphs| - 1];
      m[g.executionId := (if g.executionId in m then m[g.executionId] else []) + [g]]
  }

  lemma {:induction false} GroupLookup(graphs: seq<GraphExport>, id: Str)
    ensures (if id in GroupOf(graphs) then GroupOf(graphs)[id] else []) == ExportsFor(graphs, id)
  {
    if graphs != [] {
      GroupLookup(graphs[..|graphs| - 1], id);
    }
  }

  method GroupExports(graphs: seq<GraphExport>) returns (m: map<Str, seq<GraphExport>>)
    ensures m == GroupOf(graphs)
  {
    m := map[];
    for k := 0 to |graphs|
      invariant m == GroupOf(graphs[..k])
    {
      assert graphs[..k + 1][..k] == graphs[..k];
      var g := graphs[k];
      var list := if g.executionId in m then m[g.executionId] else [];
      m := m[g.executionId := list + [g]];
    }
    assert graphs[..|graphs|] == graphs;
  }

  predicate GraphBearing(e: LedgerEntry)
  {
    (e.entryType == Final() || e.entryType == FailureEntry()) && e.executionGraphHash.Some?
  }

  /** Entries whose graph the verifier must find, in bundle order. */
  function GraphBearingEntries(entries: seq<ExportedEntry>): (r: seq<LedgerEntry>)
    ensures forall e :: e in r ==> GraphBearing(e)
  {
    if entries == [] then []
    else if GraphBearing(entries[0].row) then [entries[0].row] + GraphBearingEntries(entries[1..])
    else GraphBearingEntries(entries[1..])
  }

  lemma {:induction false} BearingIsExported(entries: seq<ExportedEntry>, e: LedgerEntry)
    ensures e in GraphBearingEntries(entries)
       <==> GraphBearing(e) && exists i :: 0 <= i < |entries| && entries[i].row == e
  {
    if entries != [] {
      BearingIsExported(entries[1..], e);
      if i :| 0 <= i < |entries[1..]| && entries[1..][i].row == e {
        assert entries[i + 1].row == e;
      }
      if i :| 0 < i < |entries| && entries[i].row == e {
        assert entries[1..][i - 1].row == e;
      }
    }
  }

  // ---------------------------------------------------------------- one graph

  predicate IsObject(v: Value) { v.Obj? || v.Arr? }

  /** `ledgerEntry?.execution_graph_hash`, when it is a non-empty string. */
  function ExpectedHash(entry: Option<LedgerEntry>): Option<Str>
  {
    if entry.Some? && entry.value.executionGraphHash.Some? && entry.value.executionGraphHash.value != []
    then entry.value.executionGraphHash else None
  }

  function SequenceOf(entry: Option<LedgerEntry>): Option<int>
  {
    if entry.Some? then Some(entry.value.organizationSequence) else None
  }

  function HashOf(entry: Option<LedgerEntry>): Option<Str>
  {
    if entry.Some? then Some(entry.value.entryHash) else None
  }

  function CompareIssues(sha: Sha, x: Execution, related: seq<Event>, exported: GraphExport, entry: Option<LedgerEntry>): Report
  {
    match BuildExecutionGraph(x, related)
    case None => Some([Issue(GraphParentUnresolved, SequenceOf(entry), HashOf(entry))])
    case Some(g) =>
      var recomputed := GraphHash(sha, GraphValue(g));
      var embedded := GraphHash(sha, exported.graph);
      if recomputed.None? || (IsObject(exported.graph) && embedded.None?) then None
      else
        var a := Push([], recomputed.value != exported.graphHash, Issue(GraphHashMismatch, SequenceOf(entry), None));
        var b := Push(a, IsObject(exported.graph) && (embedded.value != exported.graphHash || embedded.value != recomputed.value),
                      Issue(GraphEvidenceMismatch, SequenceOf(entry), None));
        Some(Push(b, ExpectedHash(entry).Some? && ExpectedHash(entry) != recomputed,
                  Issue(GraphLedgerMismatch, SequenceOf(entry), HashOf(entry))))
  }

  /** The exported hash, the embedded graph and the ledger all agree with the events. */
  ghost predicate GraphEvidenceValid(sha: Sha, x: Execution, related: seq<Event>, exported: GraphExport, entry: Option<LedgerEntry>)
  {
    && BuildExecutionGraph(x, related).Some?
    && GraphHash(sha, GraphValue(BuildExecutionGraph(x, related).value)) == Some(exported.graphHash)
    && (IsObject(exported.graph) ==> GraphHash(sha, exported.graph) == Some(exported.graphHash))
    && (ExpectedHash(entry).Some? ==> ExpectedHash(entry) == Some(exported.graphHash))
  }

  lemma GraphEvidenceAccepted(sha: Sha, x: Execution, related: seq<Event>, exported: GraphExport, entry: Option<LedgerEntry>)
    ensures CompareIssues(sha, x, related, exported, entry) == Some([]) <==> GraphEvidenceValid(sha, x, related, exported, entry)
  {
  }

  method CompareGraphEvidence(sha: Sha, execution: Execution, related: seq<Event>, graphExport: GraphExport,
                              ledgerEntry: Option<LedgerEntry>) returns (r: Report)
    ensures r == CompareIssues(sha, execution, related, graphExport, ledgerEntry)
    ensures r == Some([]) <==> GraphEvidenceValid(sha, execution, related, graphExport, ledgerEntry)
  {
    GraphEvidenceAccepted(sha, execution, related, graphExport, ledgerEntry);
    var issues: seq<Issue> := [];
    var reconstructed := BuildExecutionGraph(execution, related);
    if reconstructed.None? {
      return Some([Issue(GraphParentUnresolved, SequenceOf(ledgerEntry), HashOf(ledgerEntry))]);
    }
    var recomputed := GraphHash(sha, GraphValue(reconstructed.value));
    if recomputed.None? {
      return None;
    }
    if recomputed.value != graphExport.graphHash {
      issues := issues + [Issue(GraphHashMismatch, SequenceOf(ledgerEntry), None)];
    }
    if IsObject(graphExport.graph) {
      var embedded := GraphHash(sha, graphExport.graph);
      if embedded.None? {
        return None;
      }
      if embedded.value != graphExport.graphHash || embedded.value != recomputed.value {
        issues := issues + [Issue(GraphEvidenceMismatch, SequenceOf(ledgerEntry), None)];
      }
    }
    var expected := ExpectedHash(ledgerEntry);
    if expected.Some? && expected != recomputed {
      issues := issues + [Issue(GraphLedgerMismatch, SequenceOf(ledgerEntry), HashOf(ledgerEntry))];
    }
    return Some(issues);
  }

  // ---------------------------------------------------------------- graph-bearing entries

  predicate InOrganization(b: Bundle, x: Option<Execution>)
  {
    x.Some? && x.value.organizationId == b.organizationId
  }

  function ExecutionOf(b: Bundle, id: Str): Option<Execution>
  {
    if id in ById(b.executions) then Some(ById(b.executions)[id]) else None
  }

  function BearingIssues(sha: Sha, b: Bundle, entry: LedgerEntry): Report
  {
    var at, h := Some(entry.organizationSequence), Some(entry.entryHash);
    var x := ExecutionOf(b, entry.executionId);
    var exported := ExportsFor(b.executionGraphs, entry.executionId);
    var related := EventsFor(b.executionEvents, entry.executionId);
    var i1 := Push([], !InOrganization(b, x), Issue(GraphEvidenceMissing, at, h));
    var i2 := Push(i1, |exported| == 0, Issue(GraphEvidenceMissing, at, h));
    var i3 := Push(i2, |exported| > 1, Issue(GraphDuplicate, at, h));
    var i4 := Push(i3, |related| == 0, Issue(GraphEventsMissing, at, h));
    if |exported| == 1 && |related| > 0 && x.Some?
    then Append(Some(i4), CompareIssues(sha, x.value, related, exported[0], Some(entry)))
    else Some(i4)
  }

  function BearingSteps(sha: Sha, b: Bundle, entries: seq<LedgerEntry>): nat -> Report
  {
    (i: nat) => if i < |entries| then BearingIssues(sha, b, entries[i]) else Some([])
  }

  /** Issues of a graph export; those of graph-bearing entries were already compared. */
  function LooseIssues(sha: Sha, b: Bundle, exported: GraphExport): Report
  {
    if IsChecked(b, exported.executionId) then Some([])
    else
      var x := ExecutionOf(b, exported.executionId);
      var related := EventsFor(b.executionEvents, exported.executionId);
      if !InOrganization(b, x) then Some([Issue(GraphOrgMismatch, None, None)])
      else if |related| == 0 then Some([Issue(GraphEventsMissing, None, None)])
      else CompareIssues(sha, x.value, related, exported, None)
  }

  /** Executions of the first `n` entries. */
  function ExecutionsOf(entries: seq<LedgerEntry>, n: nat): set<Str>
    requires n <= |entries|
  {
    if n == 0 then {} else ExecutionsOf(entries, n - 1) + {entries[n - 1].executionId}
  }

  predicate IsChecked(b: Bundle, id: Str)
  {
    id in ExecutionsOf(GraphBearingEntries(b.ledgerEntries), |GraphBearingEntries(b.ledgerEntries)|)
  }

  function LooseSteps(sha: Sha, b: Bundle): nat -> Report
  {
    (k: nat) => if k < |b.executionGraphs| then LooseIssues(sha, b, b.executionGraphs[k]) else Some([])
  }

  function GraphsIssues(sha: Sha, b: Bundle): Report
  {
    Append(Collect(BearingSteps(sha, b, GraphBearingEntries(b.ledgerEntries)), |GraphBearingEntries(b.ledgerEntries)|),
           Collect(LooseSteps(sha, b), |b.executionGraphs|))
  }

  method VerifyBearing(sha: Sha, bundle: Bundle, graphsByExecution: map<Str, seq<GraphExport>>, entry: LedgerEntry)
    returns (r: Report)
    requires graphsByExecution == GroupOf(bundle.executionGraphs)
    ensures r == BearingIssues(sha, bundle, entry)
  {
    var issues: seq<Issue> := [];
    var exported := if entry.executionId in graphsByExecution then graphsByExecution[entry.executionId] else [];
    GroupLookup(bundle.executionGraphs, entry.executionId);
    var at, h := Some(entry.organizationSequence), Some(entry.entryHash);
    var execution := ExecutionOf(bundle, entry.executionId);
    if execution.None? || execution.value.organizationId != bundle.organizationId {
      issues := issues + [Issue(GraphEvidenceMissing, at, h)];
    }
    if |exported| == 0 {
      issues := issues + [Issue(GraphEvidenceMissing, at, h)];
    } else if |exported| > 1 {
      issues := issues + [Issue(GraphDuplicate, at, h)];
    }
    var related := EventsFor(bundle.executionEvents, entry.executionId);
    if |related| == 0 {
      issues := issues + [Issue(GraphEventsMissing, at, h)];
    }
    if |exported| == 1 && |related| > 0 && execution.Some? {
      var found := CompareGraphEvidence(sha, execution.value, related, exported[0], Some(entry));
      return if found.None? then None else Some(issues + found.value);
    }
    return Some(issues);
  }

  method VerifyLoose(sha: Sha, bundle: Bundle, checked: set<Str>, graphExport: GraphExport) returns (r: Report)
    requires graphExport.executionId in checked <==> IsChecked(bundle, graphExport.executionId)
    ensures r == LooseIssues(sha, bundle, graphExport)
  {
    if graphExport.executionId in checked {
      return Some([]);
    }
    var execution := ExecutionOf(bundle, graphExport.executionId);
    if execution.None? || execution.value.organizationId != bundle.organizationId {
      return Some([Issue(GraphOrgMismatch, None, None)]);
    }
    var related := EventsFor(bundle.executionEvents, graphExport.executionId);
    if |related| == 0 {
      return Some([Issue(GraphEventsMissing, None, None)]);
    }
    r := CompareGraphEvidence(sha, execution.value, related, graphExport, None);
  }

  method VerifyBearingStep(sha: Sha, bundle: Bundle, graphsByExecution: map<Str, seq<GraphExport>>,
                           graphBearing: seq<LedgerEntry>, i: nat) returns (r: Report)
    requires graphsByExecution == GroupOf(bundle.executionGraphs) && i < |graphBearing|
    ensures r == BearingSteps(sha, bundle, graphBearing)(i)
  {
    r := VerifyBearing(sha, bundle, graphsByExecution, graphBearing[i]);
  }

  /** The loop over graph-bearing entries; `checked` collects their executions. */
  method VerifyBearingEntries(sha: Sha, bundle: Bundle, graphsByExecution: map<Str, seq<GraphExport>>,
                              graphBearing: seq<LedgerEntry>) returns (r: Report, checked: set<Str>)
    requires graphsByExecution == GroupOf(bundle.executionGraphs)
    ensures r == Collect(BearingSteps(sha, bundle, graphBearing), |graphBearing|)
    ensures r.Some? ==> checked == ExecutionsOf(graphBearing, |graphBearing|)
  {
    var issues: seq<Issue> := [];
    checked := {};
    ghost var steps := BearingSteps(sha, bundle, graphBearing);
    for i := 0 to |graphBearing|
      invariant Collect(steps, i) == Some(issues)
      invariant checked == ExecutionsOf(graphBearing, i)
    {
      var found := VerifyBearingStep(sha, bundle, graphsByExecution, graphBearing, i);
      if found.None? {
        CollectThrows(steps, i, |graphBearing|);
        return None, checked;
      }
      assert Collect(steps, i + 1) == Append(Collect(steps, i), found) && steps(i) == found;
      assert ExecutionsOf(graphBearing, i + 1) == ExecutionsOf(graphBearing, i) + {graphBearing[i].executionId};
      issues := issues + found.value;
      checked := checked + {graphBearing[i].executionId};
    }
    r := Some(issues);
  }

  method VerifyLooseGraphs(sha: Sha, bundle: Bundle, checked: set<Str>) returns (r: Report)
    requires forall id :: id in checked <==> IsChecked(bundle, id)
    ensures r == Collect(LooseSteps(sha, bundle), |bundle.executionGraphs|)
  {
    var issues: seq<Issue> := [];
    ghost var steps := LooseSteps(sha, bundle);
    for k := 0 to |bundle.executionGraphs|
      invariant Collect(steps, k) == Some(issues)
    {
      var found := VerifyLoose(sha, bundle, checked, bundle.executionGraphs[k]);
      if found.None? {
        CollectThrows(steps, k, |bundle.executionGraphs|);
        return None;
      }
      issues := issues + found.value;
    }
    return Some(issues);
  }

  method VerifyExecutionGraphs(sha: Sha, bundle: Bundle) returns (r: Report)
    ensures r == GraphsIssues(sha, bundle)
  {
    var graphsByExecution := GroupExports(bundle.executionGraphs);
    var graphBearing := GraphBearingEntries(bundle.ledgerEntries);
    var bearing, checked := VerifyBearingEntries(sha, bundle, graphsByExecution, graphBearing);
    if bearing.None? {
      return None;
    }
    var loose := VerifyLooseGraphs(sha, bundle, checked);
    return if loose.None? then None else Some(bearing.value + loose.value);
  }

  /** A graph-bearing entry: its execution is in the organization, exactly one graph is exported
      for it, events are present, and all of them agree. */
  ghost predicate BearingValid(sha: Sha, b: Bundle, entry: LedgerEntry)
  {
    var x := ExecutionOf(b, entry.executionId);
    var exported := ExportsFor(b.executionGraphs, entry.executionId);
    var related := EventsFor(b.executionEvents, entry.executionId);
    && InOrganization(b, x) && |exported| == 1 && |related| > 0
    && GraphEvidenceValid(sha, x.value, related, exported[0], Some(entry))
  }

  ghost predicate LooseValid(sha: Sha, b: Bundle, exported: GraphExport)
  {
    var x := ExecutionOf(b, exported.executionId);
    var related := EventsFor(b.executionEvents, exported.executionId);
    IsChecked(b, exported.executionId) ||
    (InOrganization(b, x) && |related| > 0 && GraphEvidenceValid(sha, x.value, related, exported, None))
  }

  lemma BearingAccepted(sha: Sha, b: Bundle, entry: LedgerEntry)
    ensures BearingIssues(sha, b, entry) == Some([]) <==> BearingValid(sha, b, entry)
  {
    var x := ExecutionOf(b, entry.executionId);
    var exported := ExportsFor(b.executionGraphs, entry.executionId);
    var related := EventsFor(b.executionEvents, entry.executionId);
    if |exported| == 1 && |related| > 0 && x.Some? {
      GraphEvidenceAccepted(sha, x.value, related, exported[0], Some(entry));
      var at, h := Some(entry.organizationSequence), Some(entry.entryHash);
      AppendEmpty(Some(Push([], !InOrganization(b, x), Issue(GraphEvidenceMissing, at, h))),
                  CompareIssues(sha, x.value, related, exported[0], Some(entry)));
    }
  }

  lemma LooseAccepted(sha: Sha, b: Bundle, exported: GraphExport)
    ensures LooseIssues(sha, b, exported) == Some([]) <==> LooseValid(sha, b, exported)
  {
    var x := ExecutionOf(b, exported.executionId);
    if x.Some? {
      GraphEvidenceAccepted(sha, x.value, EventsFor(b.executionEvents, exported.executionId), exported, None);
    }
  }

  ghost predicate GraphsValid(sha: Sha, b: Bundle)
  {
    && (forall i :: 0 <= i < |GraphBearingEntries(b.ledgerEntries)| ==>
          BearingValid(sha, b, GraphBearingEntries(b.ledgerEntries)[i]))
    && (forall k :: 0 <= k < |b.executionGraphs| ==> LooseValid(sha, b, b.executionGraphs[k]))
  }

  lemma GraphsAccepted(sha: Sha, b: Bundle)
    ensures GraphsIssues(sha, b) == Some([]) <==> GraphsValid(sha, b)
  {
    var entries := GraphBearingEntries(b.ledgerEntries);
    var bearing, loose := BearingSteps(sha, b, entries), LooseSteps(sha, b);
    AppendEmpty(Collect(bearing, |entries|), Collect(loose, |b.executionGraphs|));
    CollectEmpty(bearing, |entries|);
    CollectEmpty(loose, |b.executionGraphs|);
    forall i: nat | i < |entries| ensures bearing(i) == Some([]) <==> BearingValid(sha, b, entries[i]) {
      BearingAccepted(sha, b, entries[i]);
    }
    forall k: nat | k < |b.executionGraphs| ensures loose(k) == Some([]) <==> LooseValid(sha, b, b.executionGraphs[k]) {
      LooseAccepted(sha, b, b.executionGraphs[k]);
    }
  }

  // ---------------------------------------------------------------- the whole bundle

  function OrgSteps(b: Bundle): nat -> Report
  {
    (i: nat) =>
      if i < |b.ledgerEntries| && b.organizationId != [] && b.ledgerEntries[i].row.organizationId != b.organizationId
      then Some([Issue(OrgMismatch, Some(b.ledgerEntries[i].row.organizationSequence), None)])
      else Some([])
  }

  function BundleIssues(sha: Sha, b: Bundle): Report
  {
    Append(Append(Append(Append(
      Some(Push([], b.includesPlaintext, Issue(PlaintextExport, None, None))),
      Collect(OrgSteps(b), |b.ledgerEntries|)),
      Verify.ChainIssues(sha, SortBy(Verify.EntryLe, b.ledgerEntries))),
      Collect(Verify.CheckpointSteps(sha, b), |b.merkleCheckpoints|)),
      GraphsIssues(sha, b))
  }

  method VerifyOrganization(bundle: Bundle) returns (issues: seq<Issue>)
    ensures Some(issues) == Collect(OrgSteps(bundle), |bundle.ledgerEntries|)
  {
    issues := [];
    ghost var steps := OrgSteps(bundle);
    for i := 0 to |bundle.ledgerEntries|
      invariant Collect(steps, i) == Some(issues)
    {
      var entry := bundle.ledgerEntries[i].row;
      assert issues + [] == issues;
      if bundle.organizationId != [] && entry.organizationId != bundle.organizationId {
        issues := issues + [Issue(OrgMismatch, Some(entry.organizationSequence), None)];
      }
    }
  }

  method VerifyEvidenceBundle(sha: Sha, bundle: Bundle) returns (r: Report)
    ensures r == BundleIssues(sha, bundle)
  {
    var issues: seq<Issue> := [];
    if bundle.includesPlaintext {
      issues := issues + [Issue(PlaintextExport, None, None)];
    }
    var org := VerifyOrganization(bundle);
    issues := issues + org;
    var chain := Verify.VerifyOrganizationChain(sha, bundle.ledgerEntries);
    if chain.None? {
      return None;
    }
    issues := issues + chain.value;
    var checkpoints := Verify.VerifyMerkleCheckpoints(sha, bundle);
    if checkpoints.None? {
      return None;
    }
    issues := issues + checkpoints.value;
    var graphs := VerifyExecutionGraphs(sha, bundle);
    if graphs.None? {
      return None;
    }
    return Some(issues + graphs.value);
  }

  /** What a bundle without issues is. */
  ghost predicate Verified(sha: Sha, b: Bundle)
  {
    && !b.includesPlaintext
    && (b.organizationId != [] ==>
          forall i :: 0 <= i < |b.ledgerEntries| ==> b.ledgerEntries[i].row.organizationId == b.organizationId)
    && Verify.LinkedChain(sha, SortBy(Verify.EntryLe, b.ledgerEntries))
    && Verify.CheckpointsValid(sha, b)
    && GraphsValid(sha, b)
  }

  lemma OrgAccepted(b: Bundle)
    ensures Collect(OrgSteps(b), |b.ledgerEntries|) == Some([]) <==>
      (b.organizationId != [] ==>
         forall i :: 0 <= i < |b.ledgerEntries| ==> b.ledgerEntries[i].row.organizationId == b.organizationId)
  {
    var steps := OrgSteps(b);
    CollectEmpty(steps, |b.ledgerEntries|);
    if b.organizationId != [] {
      forall i: nat | i < |b.ledgerEntries|
        ensures steps(i) == Some([]) <==> b.ledgerEntries[i].row.organizationId == b.organizationId
      {
      }
    }
  }

  /** The verifier reports nothing for exactly the bundles that are right in every respect. */
  lemma BundleAccepted(sha: Sha, b: Bundle)
    ensures BundleIssues(sha, b) == Some([]) <==> Verified(sha, b)
  {
    OrgAccepted(b);
    Verify.ChainAccepted(sha, SortBy(Verify.EntryLe, b.ledgerEntries));
    Verify.CheckpointsAccepted(sha, b);
    GraphsAccepted(sha, b);
    var plaintext := Some(Push([], b.includesPlaintext, Issue(PlaintextExport, None, None)));
    var org := Collect(OrgSteps(b), |b.ledgerEntries|);
    var chain := Verify.ChainIssues(sha, SortBy(Verify.EntryLe, b.ledgerEntries));
    var checkpoints := Collect(Verify.CheckpointSteps(sha, b), |b.merkleCheckpoints|);
    AppendEmpty(plaintext, org);
    AppendEmpty(Append(plaintext, org), chain);
    AppendEmpty(Append(Append(plaintext, org), chain), checkpoints);
    AppendEmpty(Append(Append(Append(plaintext, org), chain), checkpoints), GraphsIssues(sha, b));
  }

  // ---------------------------------------------------------------- what the verifier does not see

  /** The bundle without the event metadata that graphs drop. */
  function ShownBundle(b: Bundle): Bundle { b.(executionEvents := AllShown(b.executionEvents)) }

  lemma {:induction false} EventsForShown(events: seq<Event>, id: Str)
    ensures EventsFor(AllShown(events), id) == AllShown(EventsFor(events, id))
  {
    if events == [] {
      assert AllShown(events) == [];
    } else {
      assert AllShown(events)[0] == Shown(events[0]) && AllShown(events)[1..] == AllShown(events[1..]);
      EventsForShown(events[1..], id);
      assert AllShown([events[0]] + EventsFor(events[1..], id)) == [Shown(events[0])] + AllShown(EventsFor(events[1..], id));
    }
  }

  lemma ComparesShown(sha: Sha, b: Bundle, x: Execution, exported: GraphExport, entry: Option<LedgerEntry>, id: Str)
    ensures CompareIssues(sha, x, EventsFor(ShownBundle(b).executionEvents, id), exported, entry)
         == CompareIssues(sha, x, EventsFor(b.executionEvents, id), exported, entry)
    ensures |EventsFor(ShownBundle(b).executionEvents, id)| == |EventsFor(b.executionEvents, id)|
  {
    EventsForShown(b.executionEvents, id);
    GraphOfShown(x, EventsFor(b.executionEvents, id));
  }

  lemma BearingShown(sha: Sha, b: Bundle, entry: LedgerEntry)
    ensures BearingIssues(sha, ShownBundle(b), entry) == BearingIssues(sha, b, entry)
  {
    var exported, x := ExportsFor(b.executionGraphs, entry.executionId), ExecutionOf(b, entry.executionId);
    EventsForShown(b.executionEvents, entry.executionId);
    if x.Some? && |exported| == 1 {
      ComparesShown(sha, b, x.value, exported[0], Some(entry), entry.executionId);
    }
  }

  lemma LooseShown(sha: Sha, b: Bundle, exported: GraphExport)
    ensures LooseIssues(sha, ShownBundle(b), exported) == LooseIssues(sha, b, exported)
  {
    var x := ExecutionOf(b, exported.executionId);
    EventsForShown(b.executionEvents, exported.executionId);
    if x.Some? {
      ComparesShown(sha, b, x.value, exported, None, exported.executionId);
    }
  }

  lemma GraphsShown(sha: Sha, b: Bundle)
    ensures GraphsIssues(sha, ShownBundle(b)) == GraphsIssues(sha, b)
  {
    var c, entries := ShownBundle(b), GraphBearingEntries(b.ledgerEntries);
    forall i: nat | i < |entries| ensures BearingSteps(sha, c, entries)(i) == BearingSteps(sha, b, entries)(i) {
      BearingShown(sha, b, entries[i]);
    }
    CollectSame(BearingSteps(sha, c, entries), BearingSteps(sha, b, entries), |entries|);
    forall k: nat | k < |b.executionGraphs| ensures LooseSteps(sha, c)(k) == LooseSteps(sha, b)(k) {
      LooseShown(sha, b, b.executionGraphs[k]);
    }
    CollectSame(LooseSteps(sha, c), LooseSteps(sha, b), |b.executionGraphs|);
  }

  /** The report on a bundle is the report on the bundle without that metadata. */
  lemma ReportIgnoresProto(sha: Sha, b: Bundle)
    ensures BundleIssues(sha, ShownBundle(b)) == BundleIssues(sha, b)
  {
    var c := ShownBundle(b);
    GraphsShown(sha, b);
    CollectSame(OrgSteps(c), OrgSteps(b), |b.ledgerEntries|);
    CollectSame(Verify.CheckpointSteps(sha, c), Verify.CheckpointSteps(sha, b), |b.merkleCheckpoints|);
  }
}
