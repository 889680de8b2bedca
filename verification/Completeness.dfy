/** Every good state exports, for every organization, to a bundle the verifier has no issue with. */
module Completeness {
  import opened Basics
  import opened Sorting
  import opened Canonical
  import opened Records
  import opened Graph
  import opened Ledgers
  import opened Checkpoints
  import opened Kernel
  import opened EventDag
  import opened Reachable
  import opened Exports
  import opened Verify
  import opened VerifyGraphs
  import opened Intervals
  import Seals

  // ---------------------------------------------------------------- the chain

  lemma LinkExports(sha: Sha, org: Str, l: Ledger, exported: seq<ExportedEntry>, i: nat)
    requires Sound(sha, org, l) && AllCarry(sha, l, exported) && i < |exported|
    ensures exported[i].row.organizationSequence == i + 1 && exported[i].row.organizationId == org
    ensures LinkValid(sha, exported, i)
  {
    assert CarriesFirst(sha, l, i, exported[i]) && EntrySound(sha, org, l.entries, i);
    if i > 0 {
      assert CarriesFirst(sha, l, i - 1, exported[i - 1]);
    }
  }

  lemma ChainExports(sha: Sha, org: Str, l: Ledger, exported: seq<ExportedEntry>)
    requires Sound(sha, org, l) && AllCarry(sha, l, exported)
    ensures SortBy(EntryLe, exported) == exported && LinkedChain(sha, exported)
  {
    forall i: nat | i < |exported|
      ensures exported[i].row.organizationSequence == i + 1 && LinkValid(sha, exported, i)
    {
      LinkExports(sha, org, l, exported, i);
    }
    SortSorted(EntryLe, exported);
  }

  lemma OrganizationExports(sha: Sha, org: Str, l: Ledger, exported: seq<ExportedEntry>)
    requires Sound(sha, org, l) && AllCarry(sha, l, exported)
    ensures forall i :: 0 <= i < |exported| ==> exported[i].row.organizationId == org
  {
    forall i: nat | i < |exported| ensures exported[i].row.organizationId == org {
      LinkExports(sha, org, l, exported, i);
    }
  }

  // ---------------------------------------------------------------- executions, events, graphs

  lemma {:induction false} RowLookup(t: Tables, ids: seq<Str>, id: Str)
    requires forall x :: x in ids ==> x in t.executions && t.executions[x].id == x
    ensures id in ById(ExecutionRows(t, ids)) <==> id in ids
    ensures id in ids ==> ById(ExecutionRows(t, ids))[id] == t.executions[id]
  {
    if ids != [] {
      var rest := ids[..|ids| - 1];
      assert ExecutionRows(t, ids)[..|ids| - 1] == ExecutionRows(t, rest);
      assert ids == rest + [ids[|ids| - 1]];
      RowLookup(t, rest, id);
    }
  }

  lemma {:induction false} EventsForConcat(a: seq<Event>, b: seq<Event>, id: Str)
    ensures EventsFor(a + b, id) == EventsFor(a, id) + EventsFor(b, id)
  {
    if a == [] {
      assert a + b == b;
    } else {
      assert (a + b)[1..] == a[1..] + b;
      EventsForConcat(a[1..], b, id);
    }
  }

  lemma {:induction false} EventsForAll(events: seq<Event>, owner: Str, id: Str)
    requires forall i :: 0 <= i < |events| ==> events[i].executionId == owner
    ensures EventsFor(events, id) == if owner == id then events else []
  {
    if events != [] {
      EventsForAll(events[1..], owner, id);
    }
  }

  ghost predicate Listed(t: Tables, org: Str, id: Str)
  {
    GetExecution(t, org, id).Some? && t.executions[id].id == id && ExecutionSound(t, id)
  }

  /** Everything the tables hold on the listed executions; the rest of the theorem needs only this. */
  ghost predicate ListingOk(t: Tables, org: Str, ids: seq<Str>)
  {
    && (forall i, j :: 0 <= i < j < |ids| ==> ids[i] != ids[j])
    && (forall i :: 0 <= i < |ids| ==> Listed(t, org, ids[i]))
  }

  lemma ListingPrefix(t: Tables, org: Str, ids: seq<Str>)
    requires ListingOk(t, org, ids) && ids != []
    ensures ListingOk(t, org, ids[..|ids| - 1])
    ensures ids == ids[..|ids| - 1] + [ids[|ids| - 1]] && ids[|ids| - 1] !in ids[..|ids| - 1]
    ensures Listed(t, org, ids[|ids| - 1])
  {
    var rest := ids[..|ids| - 1];
    forall i | 0 <= i < |rest| ensures Listed(t, org, rest[i]) {
      assert Listed(t, org, ids[i]);
    }
  }

  lemma {:induction false} EventRowsFor(t: Tables, org: Str, ids: seq<Str>, id: Str)
    requires ListingOk(t, org, ids)
    ensures EventsFor(EventRows(t, org, ids), id) == if id in ids then EventsFor(t.events, id) else []
  {
    if ids != [] {
      var rest, last := ids[..|ids| - 1], ids[|ids| - 1];
      ListingPrefix(t, org, ids);
      EventRowsFor(t, org, rest, id);
      ListIsFor(t, org, last);
      EventsForConcat(EventRows(t, org, rest), ListEvents(t.events, org, last), id);
      EventsForFinds(t.events, last);
      EventsForAll(ListEvents(t.events, org, last), last, id);
    }
  }

  /** The export of one execution. */
  ghost predicate ExportOf(sha: Sha, t: Tables, id: Str, g: GraphExport)
  {
    && id in t.executions && ExportGraph(sha, t.executions[id], EventsFor(t.events, id)) == Some(g)
  }

  lemma ExportGraphFacts(sha: Sha, x: Execution, events: seq<Event>)
    requires Dag(events)
    ensures ExportGraph(sha, x, events).Some?
    ensures var g := ExportGraph(sha, x, events).value;
      && g.executionId == x.id && g.graph.Obj?
      && HashGraph(sha, x, events) == Ok(g.graphHash) && GraphHash(sha, g.graph) == Some(g.graphHash)
  {
    DagHashes(sha, x, events);
  }

  /** What is exported for one execution: one graph of its events, or nothing without events. */
  ghost predicate FoundFor(sha: Sha, t: Tables, id: Str, listed: bool, found: seq<GraphExport>)
  {
    if listed && EventsFor(t.events, id) != [] then |found| == 1 && ExportOf(sha, t, id, found[0]) else found == []
  }

  ghost predicate GraphListed(sha: Sha, t: Tables, ids: seq<Str>, g: GraphExport)
  {
    g.executionId in ids && EventsFor(t.events, g.executionId) != [] && ExportOf(sha, t, g.executionId, g)
  }

  /** The export of the last listed execution, if it has events. */
  lemma LastGraph(sha: Sha, t: Tables, org: Str, ids: seq<Str>)
    requires ListingOk(t, org, ids) && ids != [] && forall x :: x in ids ==> x in t.executions
    requires Graphs(sha, t, org, ids[..|ids| - 1]).Some?
    ensures var last, rest := ids[|ids| - 1], Graphs(sha, t, org, ids[..|ids| - 1]).value;
      if EventsFor(t.events, last) == [] then Graphs(sha, t, org, ids) == Some(rest)
      else Graphs(sha, t, org, ids).Some? && |Graphs(sha, t, org, ids).value| == |rest| + 1
           && Graphs(sha, t, org, ids).value[..|rest|] == rest
           && Graphs(sha, t, org, ids).value[|rest|].executionId == last
           && ExportOf(sha, t, last, Graphs(sha, t, org, ids).value[|rest|])
  {
    ListingPrefix(t, org, ids);
    ListIsFor(t, org, ids[|ids| - 1]);
    ExportGraphFacts(sha, t.executions[ids[|ids| - 1]], EventsFor(t.events, ids[|ids| - 1]));
  }

  lemma GraphsGrow(sha: Sha, t: Tables, org: Str, ids: seq<Str>, rest: seq<GraphExport>, all: seq<GraphExport>, k: nat)
    requires ListingOk(t, org, ids) && ids != [] && forall x :: x in ids ==> x in t.executions
    requires Graphs(sha, t, org, ids[..|ids| - 1]) == Some(rest) && Graphs(sha, t, org, ids) == Some(all) && k < |all|
    requires forall i :: 0 <= i < |rest| ==> GraphListed(sha, t, ids[..|ids| - 1], rest[i])
    ensures GraphListed(sha, t, ids, all[k])
  {
    LastGraph(sha, t, org, ids);
    if k < |rest| {
      assert all[k] == all[..|rest|][k] && GraphListed(sha, t, ids[..|ids| - 1], rest[k]);
    }
  }

  lemma {:induction false} AllGraphsListed(sha: Sha, t: Tables, org: Str, ids: seq<Str>)
    requires ListingOk(t, org, ids)
    requires forall x :: x in ids ==> x in t.executions
    ensures Graphs(sha, t, org, ids).Some?
    ensures forall k :: 0 <= k < |Graphs(sha, t, org, ids).value| ==> GraphListed(sha, t, ids, Graphs(sha, t, org, ids).value[k])
  {
    if ids != [] {
      ListingPrefix(t, org, ids);
      AllGraphsListed(sha, t, org, ids[..|ids| - 1]);
      LastGraph(sha, t, org, ids);
      var rest, all := Graphs(sha, t, org, ids[..|ids| - 1]).value, Graphs(sha, t, org, ids).value;
      forall k | 0 <= k < |all| ensures GraphListed(sha, t, ids, all[k]) {
        GraphsGrow(sha, t, org, ids, rest, all, k);
      }
    }
  }

  lemma {:induction false} GraphsFor(sha: Sha, t: Tables, org: Str, ids: seq<Str>, id: Str)
    requires ListingOk(t, org, ids)
    requires forall x :: x in ids ==> x in t.executions
    ensures Graphs(sha, t, org, ids).Some?
    ensures FoundFor(sha, t, id, id in ids, ExportsFor(Graphs(sha, t, org, ids).value, id))
  {
    AllGraphsListed(sha, t, org, ids);
    if ids != [] {
      ListingPrefix(t, org, ids);
      GraphsFor(sha, t, org, ids[..|ids| - 1], id);
      LastGraph(sha, t, org, ids);
    }
  }

  // ---------------------------------------------------------------- graph evidence

  /** The bundle's lookups give back the tables. */
  ghost predicate Mirrors(sha: Sha, t: Tables, org: Str, ids: seq<Str>, b: Bundle)
  {
    && b.organizationId == org
    && (forall id :: id in ids ==> ExecutionOf(b, id) == GetExecution(t, org, id) && ExecutionOf(b, id).Some?)
    && (forall id :: id in ids ==> EventsFor(b.executionEvents, id) == EventsFor(t.events, id))
    && (forall id :: id in ids && EventsFor(t.events, id) != [] ==>
          |ExportsFor(b.executionGraphs, id)| == 1 && ExportOf(sha, t, id, ExportsFor(b.executionGraphs, id)[0]))
    && (forall k :: 0 <= k < |b.executionGraphs| ==> GraphListed(sha, t, ids, b.executionGraphs[k]))
  }

  lemma ExportMirrors(sha: Sha, t: Tables, org: Str, ids: seq<Str>, b: Bundle)
    requires ListingOk(t, org, ids)
    requires forall x :: x in ids ==> x in t.executions
    requires b.organizationId == org && b.executions == ExecutionRows(t, ids)
    requires b.executionEvents == EventRows(t, org, ids) && Some(b.executionGraphs) == Graphs(sha, t, org, ids)
    ensures Mirrors(sha, t, org, ids, b)
  {
    forall id | id in ids
      ensures ExecutionOf(b, id) == GetExecution(t, org, id) && ExecutionOf(b, id).Some?
      ensures EventsFor(b.executionEvents, id) == EventsFor(t.events, id)
    {
      RowLookup(t, ids, id);
      EventRowsFor(t, org, ids, id);
    }
    forall id | id in ids && EventsFor(t.events, id) != []
      ensures |ExportsFor(b.executionGraphs, id)| == 1 && ExportOf(sha, t, id, ExportsFor(b.executionGraphs, id)[0])
    {
      GraphsFor(sha, t, org, ids, id);
    }
    AllGraphsListed(sha, t, org, ids);
  }

  /** The verifier accepts a graph-bearing entry exactly when its hash is right. */
  lemma BearingExactly(sha: Sha, t: Tables, org: Str, ids: seq<Str>, b: Bundle, e: LedgerEntry)
    requires Mirrors(sha, t, org, ids, b) && e.executionId in ids && e.organizationId == org
    requires Named(t, e) && ExecutionSound(t, e.executionId)
    ensures BearingValid(sha, b, e) <==> RightEntry(sha, t, e)
  {
    var id := e.executionId;
    DagHashes(sha, t.executions[id], EventsFor(t.events, id));
  }

  lemma LooseExports(sha: Sha, t: Tables, org: Str, ids: seq<Str>, b: Bundle, k: nat)
    requires Mirrors(sha, t, org, ids, b) && k < |b.executionGraphs|
    requires ExecutionSound(t, b.executionGraphs[k].executionId)
    ensures LooseValid(sha, b, b.executionGraphs[k])
  {
    var g := b.executionGraphs[k];
  }

  lemma EntryInListing(sha: Sha, t: Tables, org: Str, ids: seq<Str>, i: nat)
    requires Kept(sha, t) && Lists(t, org, ids) && Bearing(t, org, i)
    ensures var e := At(t.ledgers, org).entries[i];
      e.executionId in ids && e.organizationId == org && Named(t, e) && ExecutionSound(t, e.executionId)
  {
    assert ChainKept(sha, t, org);
    assert EntrySound(sha, org, At(t.ledgers, org).entries, i);
  }

  lemma BearingAt(sha: Sha, t: Tables, org: Str, ids: seq<Str>, b: Bundle, i: nat)
    requires Kept(sha, t) && Lists(t, org, ids) && Mirrors(sha, t, org, ids, b) && Bearing(t, org, i)
    requires AllCarry(sha, At(t.ledgers, org), b.ledgerEntries)
    ensures var e := At(t.ledgers, org).entries[i];
      e in GraphBearingEntries(b.ledgerEntries) && (BearingValid(sha, b, e) <==> RightEntry(sha, t, e))
  {
    var e := At(t.ledgers, org).entries[i];
    assert CarriesFirst(sha, At(t.ledgers, org), i, b.ledgerEntries[i]);
    BearingIsExported(b.ledgerEntries, e);
    EntryInListing(sha, t, org, ids, i);
    BearingExactly(sha, t, org, ids, b, e);
  }

  lemma BearingFrom(sha: Sha, t: Tables, org: Str, b: Bundle, e: LedgerEntry) returns (i: nat)
    requires AllCarry(sha, At(t.ledgers, org), b.ledgerEntries) && e in GraphBearingEntries(b.ledgerEntries)
    ensures Bearing(t, org, i) && At(t.ledgers, org).entries[i] == e
  {
    BearingIsExported(b.ledgerEntries, e);
    i :| 0 <= i < |b.ledgerEntries| && b.ledgerEntries[i].row == e;
    assert CarriesFirst(sha, At(t.ledgers, org), i, b.ledgerEntries[i]);
  }

  lemma GraphsExactly(sha: Sha, t: Tables, org: Str, ids: seq<Str>, b: Bundle)
    requires Kept(sha, t) && Lists(t, org, ids) && Mirrors(sha, t, org, ids, b)
    requires AllCarry(sha, At(t.ledgers, org), b.ledgerEntries)
    ensures GraphsValid(sha, b) <==> AllRight(sha, t, org)
  {
    var entries := GraphBearingEntries(b.ledgerEntries);
    forall k | 0 <= k < |b.executionGraphs| ensures LooseValid(sha, b, b.executionGraphs[k]) {
      LooseExports(sha, t, org, ids, b, k);
    }
    if AllRight(sha, t, org) {
      forall k | 0 <= k < |entries| ensures BearingValid(sha, b, entries[k]) {
        var i := BearingFrom(sha, t, org, b, entries[k]);
        BearingAt(sha, t, org, ids, b, i);
      }
    }
    if GraphsValid(sha, b) {
      forall i: nat | Bearing(t, org, i) ensures RightEntry(sha, t, At(t.ledgers, org).entries[i]) {
        BearingAt(sha, t, org, ids, b, i);
        var k :| 0 <= k < |entries| && entries[k] == At(t.ledgers, org).entries[i];
      }
    }
  }

  // ---------------------------------------------------------------- the theorem

  lemma ListsAreOk(sha: Sha, t: Tables, org: Str, ids: seq<Str>)
    requires Kept(sha, t) && Lists(t, org, ids)
    ensures ListingOk(t, org, ids) && forall x :: x in ids ==> x in t.executions
  {
    forall i | 0 <= i < |ids| ensures Listed(t, org, ids[i]) {
      assert ids[i] in ids && ExecutionSound(t, ids[i]);
    }
  }

  /** What the export of a state is made of. */
  lemma ExportParts(sha: Sha, t: Tables, org: Str, ids: seq<Str>)
    requires Kept(sha, t) && Lists(t, org, ids)
    requires forall x :: x in ids ==> x in t.executions
    ensures Export(sha, t, org, ids).Some?
    ensures var l, b := At(t.ledgers, org), Export(sha, t, org, ids).value;
      && Sound(sha, org, l) && Closed(sha, l) && Mirrors(sha, t, org, ids, b) && !b.includesPlaintext
      && b.merkleCheckpoints == l.checkpoints && Some(b.ledgerEntries) == ExportEntries(sha, l.checkpoints, l.entries)
      && AllCarry(sha, l, b.ledgerEntries)
  {
    var l := At(t.ledgers, org);
    assert ChainKept(sha, t, org);
    SoundIsDense(sha, org, l);
    DenseIsSorted(l.entries);
    ClosedSorted(sha, l);
    ClosedExports(sha, org, l);
    ListsAreOk(sha, t, org, ids);
    AllGraphsListed(sha, t, org, ids);
    ExportMirrors(sha, t, org, ids, Export(sha, t, org, ids).value);
  }

  /** Whatever calls led to it, a state exports for every organization, in any listing order. The
      verifier accepts the bundle exactly when checkpoints are disjoint and every graph hash is right;
      that disjointness is needed holds unless inputs collide, the rest for every hash function. */
  lemma AcceptedExactly(sha: Sha, t: Tables, org: Str, ids: seq<Str>)
    requires Kept(sha, t) && Lists(t, org, ids)
    requires forall x :: x in ids ==> x in t.executions
    ensures Export(sha, t, org, ids).Some?
    ensures Disjoint(At(t.ledgers, org)) ==>
      (BundleIssues(sha, Export(sha, t, org, ids).value) == Some([]) <==> AllRight(sha, t, org))
    ensures CollisionFreeOn(sha, LedgerInputs(sha, At(t.ledgers, org))) ==>
      (BundleIssues(sha, Export(sha, t, org, ids).value) == Some([]) <==> Disjoint(At(t.ledgers, org)) && AllRight(sha, t, org))
  {
    var l := At(t.ledgers, org);
    ExportParts(sha, t, org, ids);
    var b := Export(sha, t, org, ids).value;
    BundleAccepted(sha, b);
    ChainExports(sha, org, l, b.ledgerEntries);
    OrganizationExports(sha, org, l, b.ledgerEntries);
    GraphsExactly(sha, t, org, ids, b);
    if Disjoint(l) {
      AllDisjointValid(sha, org, l, b);
    }
    if CollisionFreeOn(sha, LedgerInputs(sha, l)) {
      DisjointExactly(sha, org, l, b);
    }
  }

  /** Every run of kernel calls at all: opens, events, entries, status changes and seals in any order,
      in any number of organizations, with any intervals, hashes and late appends. */
  lemma AnyRunAccepted(sha: Sha, types: set<Str>, calls: seq<Seals.Call>, org: Str, ids: seq<Str>)
    requires Lists(Seals.AfterAll(sha, types, calls), org, ids)
    requires forall x :: x in ids ==> x in Seals.AfterAll(sha, types, calls).executions
    requires CollisionFreeOn(sha, LedgerInputs(sha, At(Seals.AfterAll(sha, types, calls).ledgers, org)))
    ensures Export(sha, Seals.AfterAll(sha, types, calls), org, ids).Some?
    ensures BundleIssues(sha, Export(sha, Seals.AfterAll(sha, types, calls), org, ids).value) == Some([])
       <==> Disjoint(At(Seals.AfterAll(sha, types, calls).ledgers, org)) && AllRight(sha, Seals.AfterAll(sha, types, calls), org)
  {
    Seals.RunIsKept(sha, types, calls);
    AcceptedExactly(sha, Seals.AfterAll(sha, types, calls), org, ids);
  }

  lemma TiledAccepted(sha: Sha, interval: Str -> int, t: Tables, org: Str, ids: seq<Str>)
    requires Kept(sha, t) && AllTiled(sha, interval, t) && Lists(t, org, ids)
    requires forall x :: x in ids ==> x in t.executions
    ensures Export(sha, t, org, ids).Some?
    ensures BundleIssues(sha, Export(sha, t, org, ids).value) == Some([]) <==> AllRight(sha, t, org)
  {
    assert Tiled(sha, interval(org), At(t.ledgers, org));
    TiledIsDisjoint(sha, interval(org), At(t.ledgers, org));
    AcceptedExactly(sha, t, org, ids);
  }

  /** Every run in which each organization keeps to one interval, whatever it appends and seals: accepted
      exactly when every graph-bearing entry carries the hash of all its execution's events, of which
      there is one. No hypothesis on the hash function. */
  lemma OneIntervalAccepted(sha: Sha, types: set<Str>, interval: Str -> int, calls: seq<Seals.Call>, org: Str, ids: seq<Str>)
    requires forall i :: 0 <= i < |calls| ==> Seals.KeepsInterval(interval, calls[i])
    requires Lists(Seals.AfterAll(sha, types, calls), org, ids)
    requires forall x :: x in ids ==> x in Seals.AfterAll(sha, types, calls).executions
    ensures Export(sha, Seals.AfterAll(sha, types, calls), org, ids).Some?
    ensures BundleIssues(sha, Export(sha, Seals.AfterAll(sha, types, calls), org, ids).value) == Some([])
       <==> AllRight(sha, Seals.AfterAll(sha, types, calls), org)
  {
    Seals.RunIsKept(sha, types, calls);
    Seals.RunIsTiled(sha, types, interval, calls);
    TiledAccepted(sha, interval, Seals.AfterAll(sha, types, calls), org, ids);
  }

  lemma GoodIsRight(sha: Sha, interval: Str -> int, t: Tables, org: Str)
    requires Good(sha, interval, t)
    ensures AllRight(sha, t, org)
  {
    forall i: nat | Bearing(t, org, i) ensures RightEntry(sha, t, At(t.ledgers, org).entries[i]) {
      assert SealedOk(sha, t, At(t.ledgers, org).entries[i]);
    }
  }

  /** Whatever the order executions are listed in, a good state exports to an accepted bundle. */
  lemma GoodExports(sha: Sha, interval: Str -> int, t: Tables, org: Str, ids: seq<Str>)
    requires Good(sha, interval, t) && Lists(t, org, ids)
    requires forall x :: x in ids ==> x in t.executions
    ensures Export(sha, t, org, ids).Some?
    ensures BundleIssues(sha, Export(sha, t, org, ids).value) == Some([])
  {
    GoodIsRight(sha, interval, t, org);
    TiledAccepted(sha, interval, t, org, ids);
  }

  /** Every state reachable by opens, events, entries, status changes and seals, in any number of
      organizations, exports to a bundle the verifier accepts without an issue. */
  lemma ReachableExports(sha: Sha, types: set<Str>, interval: Str -> int, calls: seq<Seals.Call>, org: Str, ids: seq<Str>)
    requires Seals.AllDisciplined(sha, types, interval, calls)
    requires Lists(Seals.AfterAll(sha, types, calls), org, ids)
    requires forall x :: x in ids ==> x in Seals.AfterAll(sha, types, calls).executions
    ensures Export(sha, Seals.AfterAll(sha, types, calls), org, ids).Some?
    ensures BundleIssues(sha, Export(sha, Seals.AfterAll(sha, types, calls), org, ids).value) == Some([])
  {
    Seals.RunIsGood(sha, types, interval, calls);
    GoodExports(sha, interval, Seals.AfterAll(sha, types, calls), org, ids);
  }
}
