/** The events of one execution form a dag: dense sequences, edges from lower to higher, every
    prefix a complete graph that prints. */
module EventDag {
  import opened Basics
  import opened Sorting
  import opened Canonical
  import opened Records
  import opened Metadata
  import opened Graph
  import opened Ledgers
  import opened Kernel
  import opened VerifyGraphs

  /** `p` is the id of one of the first `j` events. */
  ghost predicate Earlier(events: seq<Event>, j: nat, p: Str)
    requires j <= |events|
  {
    exists m :: 0 <= m < j && events[m].id == p
  }

  /** Event `j` has sequence `j + 1`, evidence that prints, and only earlier parents. */
  ghost predicate DagAt(events: seq<Event>, j: nat)
    requires j < |events|
  {
    && events[j].eventSequence == j + 1 <= MAX_INT4
    && Canonicalize(Obj(events[j].metadata)).Ok?
    && forall k :: 0 <= k < |events[j].parentEventIds| ==> Earlier(events, j, events[j].parentEventIds[k])
  }

  ghost predicate Dag(events: seq<Event>)
  {
    forall j :: 0 <= j < |events| ==> DagAt(events, j)
  }

  lemma DagExtends(events: seq<Event>, e: Event)
    requires Dag(events) && e.eventSequence == |events| + 1 <= MAX_INT4 && Canonicalize(Obj(e.metadata)).Ok?
    requires forall k :: 0 <= k < |e.parentEventIds| ==> Earlier(events, |events|, e.parentEventIds[k])
    ensures Dag(events + [e])
  {
    var all := events + [e];
    forall j | 0 <= j < |all| ensures DagAt(all, j) {
      forall k | 0 <= k < |all[j].parentEventIds| ensures Earlier(all, j, all[j].parentEventIds[k]) {
        var p := all[j].parentEventIds[k];
        assert j < |events| ==> DagAt(events, j);
        assert Earlier(events, j, p);
        var m :| 0 <= m < j && events[m].id == p;
        assert all[m].id == p;
      }
      assert j < |events| ==> DagAt(events, j);
    }
  }

  lemma DagPrefix(events: seq<Event>, n: nat)
    requires Dag(events) && n <= |events|
    ensures Dag(events[..n])
  {
    var prefix := events[..n];
    forall j | 0 <= j < n ensures DagAt(prefix, j) {
      assert DagAt(events, j);
      forall k | 0 <= k < |prefix[j].parentEventIds| ensures Earlier(prefix, j, prefix[j].parentEventIds[k]) {
        assert Earlier(events, j, events[j].parentEventIds[k]);
        var m :| 0 <= m < j && events[m].id == events[j].parentEventIds[k];
        assert prefix[m].id == prefix[j].parentEventIds[k];
      }
    }
  }

  lemma DagSequence(events: seq<Event>, j: nat)
    requires Dag(events) && j < |events|
    ensures events[j].eventSequence == j + 1 && |events| <= MAX_INT4
  {
    assert DagAt(events, j) && DagAt(events, |events| - 1);
  }

  lemma DagIsSorted(events: seq<Event>)
    requires Dag(events)
    ensures SortBy(EventLe, events) == events && DistinctSequences(events)
  {
    forall i, j | 0 <= i < j < |events| ensures events[i].eventSequence < events[j].eventSequence {
      DagSequence(events, i);
      DagSequence(events, j);
    }
    SortSorted(EventLe, events);
  }

  lemma {:induction false} DagMax(events: seq<Event>)
    requires Dag(events)
    ensures MaxSequence(events) == |events|
    decreases |events|
  {
    if events != [] {
      DagSequence(events, |events| - 1);
      DagPrefix(events, |events| - 1);
      DagMax(events[..|events| - 1]);
    }
  }

  lemma DagResolves(events: seq<Event>)
    requires Dag(events)
    ensures ParentsResolve(events)
  {
    forall i, k | 0 <= i < |events| && 0 <= k < |events[i].parentEventIds|
      ensures HasEvent(events, events[i].parentEventIds[k])
    {
      assert DagAt(events, i);
      assert Earlier(events, i, events[i].parentEventIds[k]);
    }
  }

  // ---------------------------------------------------------------- the graph prints

  lemma NodePrints(n: Node)
    requires SafeInteger(n.sequence) && InDomain(Obj(n.metadata))
    ensures InDomain(Obj(NodeMembers(n)))
  {
    var m := NodeMembers(n);
    forall x | x in m ensures InDomain(x.value) {
      var i :| 0 <= i < |m| && m[i] == x;
    }
  }

  ghost predicate NodesPrint(nodes: seq<Node>)
  {
    forall i :: 0 <= i < |nodes| ==> SafeInteger(nodes[i].sequence) && InDomain(Obj(nodes[i].metadata))
  }

  lemma ListsPrint(nodes: seq<Node>, edges: seq<Edge>)
    requires NodesPrint(nodes)
    ensures InDomain(Arr(NodeValues(nodes))) && InDomain(Arr(EdgeValues(edges)))
  {
    forall x | x in NodeValues(nodes) ensures InDomain(x) {
      var i :| 0 <= i < |nodes| && NodeValues(nodes)[i] == x;
      NodePrints(nodes[i]);
    }
    forall x | x in EdgeValues(edges) ensures InDomain(x) {
      var i :| 0 <= i < |edges| && EdgeValues(edges)[i] == x;
    }
  }

  lemma GraphMemberPrints(g: ExecutionGraph, i: nat)
    requires i < 7 && NodesPrint(g.nodes)
    ensures InDomain(GraphMembers(g)[i].value)
  {
    ListsPrint(g.nodes, g.edges);
    var v := GraphMembers(g)[i].value;
    assert v.Text? || v == Arr(NodeValues(g.nodes)) || v == Arr(EdgeValues(g.edges));
  }

  lemma GraphPrints(sha: Sha, g: ExecutionGraph)
    requires NodesPrint(g.nodes)
    ensures GraphHash(sha, GraphValue(g)).Some?
  {
    var m := GraphMembers(g);
    forall x | x in m ensures InDomain(x.value) {
      var i :| 0 <= i < |m| && m[i] == x;
      GraphMemberPrints(g, i);
    }
    EnvelopePrints(GraphValue(g));
  }

  lemma EnvelopePrints(graph: Value)
    requires InDomain(graph)
    ensures Canonicalize(Envelope(graph)).Ok?
  {
    var m := EnvelopeMembers(graph);
    forall x | x in m ensures InDomain(x.value) {
      assert x == m[0] || x == m[1];
    }
    PrintsExactlyDomain(Envelope(graph));
  }

  lemma NodePrintable(e: Event)
    requires SafeInteger(e.eventSequence) && Canonicalize(Obj(e.metadata)).Ok?
    ensures SafeInteger(NodeOf(e).sequence) && InDomain(Obj(NodeOf(e).metadata))
  {
    PrintsExactlyDomain(Obj(e.metadata));
    SortKeeps(KeyLe, e.metadata);
    FilterKeeps(Shows(), Sort(e.metadata));
  }

  /** A dag always has a graph, and the graph always has a hash. */
  lemma DagHashes(sha: Sha, x: Execution, events: seq<Event>)
    requires Dag(events)
    ensures BuildExecutionGraph(x, events).Some? && HashGraph(sha, x, events).Ok?
  {
    DagIsSorted(events);
    DagResolves(events);
    forall i | 0 <= i < |events|
      ensures SafeInteger(Nodes(events)[i].sequence) && InDomain(Obj(Nodes(events)[i].metadata))
    {
      assert DagAt(events, i);
      NodePrintable(events[i]);
    }
    GraphPrints(sha, BuildExecutionGraph(x, events).value);
  }

  /** A graph shows four fields of the execution. */
  lemma SameExecutionSameGraph(sha: Sha, x: Execution, y: Execution, events: seq<Event>)
    requires SameExecution(x, y)
    ensures BuildExecutionGraph(x, events) == BuildExecutionGraph(y, events) && HashGraph(sha, x, events) == HashGraph(sha, y, events)
  {
  }

  /** Another number of events, another graph hash, unless the two graphs collide. */
  lemma MoreEventsOtherHash(sha: Sha, x: Execution, events: seq<Event>, more: seq<Event>)
    requires HashGraph(sha, x, events).Ok? && HashGraph(sha, x, more).Ok? && |events| != |more|
    requires CollisionFreeOn(sha, {GraphBytes(x, events), GraphBytes(x, more)})
    ensures HashGraph(sha, x, events) != HashGraph(sha, x, more)
  {
    SortKeeps(EventLe, events);
    SortKeeps(EventLe, more);
    var g, h := BuildExecutionGraph(x, events).value, BuildExecutionGraph(x, more).value;
    assert |g.nodes| == |events| && |h.nodes| == |more|;
    if HashGraph(sha, x, events) == HashGraph(sha, x, more) {
      GraphHashBinds(sha, {GraphBytes(x, events), GraphBytes(x, more)}, g, h);
    }
  }

  /** No prefix of a dag has an unresolved parent. */
  lemma PrefixResolves(x: Execution, events: seq<Event>, n: nat)
    requires Dag(events) && n <= |events|
    ensures BuildExecutionGraph(x, events[..n]).Some?
  {
    DagPrefix(events, n);
    DagIsSorted(events[..n]);
    DagResolves(events[..n]);
  }

  // ---------------------------------------------------------------- one root

  /** Event `j` descends from the first event. */
  ghost predicate Descends(events: seq<Event>, j: nat)
    requires j < |events|
  {
    j == 0 || exists m: nat :: m < j && events[m].id in events[j].parentEventIds && Descends(events, m)
  }

  ghost predicate AllDescend(events: seq<Event>)
  {
    forall j: nat :: j < |events| ==> Descends(events, j)
  }

  ghost predicate AllParented(events: seq<Event>)
  {
    forall j :: 0 < j < |events| ==> events[j].parentEventIds != []
  }

  /** Every event descends from the first one exactly when every later event names a parent. */
  lemma FirstReachesAll(events: seq<Event>)
    requires Dag(events)
    ensures AllDescend(events) <==> AllParented(events)
  {
    if AllParented(events) {
      forall j: nat | j < |events| ensures Descends(events, j) {
        ParentedDescends(events, j);
      }
      assert AllDescend(events);
    } else if AllDescend(events) {
      forall j: nat | 0 < j < |events| ensures events[j].parentEventIds != [] {
        HasParent(events, j);
      }
    }
  }

  lemma HasParent(events: seq<Event>, j: nat)
    requires 0 < j < |events| && Descends(events, j)
    ensures events[j].parentEventIds != []
  {
    var m: nat :| m < j && events[m].id in events[j].parentEventIds && Descends(events, m);
  }

  lemma {:induction false} ParentedDescends(events: seq<Event>, j: nat)
    requires Dag(events) && j < |events| && AllParented(events)
    ensures Descends(events, j)
  {
    if j > 0 {
      assert DagAt(events, j);
      assert Earlier(events, j, events[j].parentEventIds[0]);
      var m :| 0 <= m < j && events[m].id == events[j].parentEventIds[0];
      ParentedDescends(events, m);
    }
  }

  // ---------------------------------------------------------------- queries over the event table

  lemma {:induction false} EventsForAppend(events: seq<Event>, e: Event, id: Str)
    ensures EventsFor(events + [e], id) == EventsFor(events, id) + (if e.executionId == id then [e] else [])
  {
    if events == [] {
      assert events + [e] == [e];
    } else {
      assert (events + [e])[1..] == events[1..] + [e];
      EventsForAppend(events[1..], e, id);
    }
  }

  ghost predicate AllIn(events: seq<Event>, org: Str)
  {
    forall i :: 0 <= i < |events| ==> events[i].organizationId == org
  }

  /** When an execution's events are all its organization's, the two filters agree. */
  lemma {:induction false} EventsOfIsFor(events: seq<Event>, org: Str, id: Str)
    requires AllIn(EventsFor(events, id), org)
    ensures EventsOf(events, org, id) == EventsFor(events, id)
  {
    if events != [] {
      var rest, last := events[..|events| - 1], events[|events| - 1];
      assert events == rest + [last];
      EventsForAppend(rest, last, id);
      forall i | 0 <= i < |EventsFor(rest, id)| ensures EventsFor(rest, id)[i].organizationId == org {
        assert EventsFor(events, id)[i] == EventsFor(rest, id)[i];
      }
      if last.executionId == id {
        assert EventsFor(events, id)[|EventsFor(rest, id)|] == last;
      }
      EventsOfIsFor(rest, org, id);
    }
  }

  lemma {:induction false} FindEventFinds(events: seq<Event>, id: Str)
    ensures FindEvent(events, id).Some? ==>
      FindEvent(events, id).value in events && FindEvent(events, id).value.id == id
    ensures FindEvent(events, id).None? ==> forall e :: e in events ==> e.id != id
  {
    if events != [] {
      FindEventFinds(events[1..], id);
    }
  }

  lemma {:induction false} ParentsFaultNone(events: seq<Event>, input: EventInput, sequence: int, parents: seq<Str>, k: nat)
    requires ParentsFault(events, input, sequence, parents) == None && k < |parents|
    ensures ParentFault(events, input, sequence, parents[k]) == None
  {
    if k > 0 {
      assert parents[1..][k - 1] == parents[k];
      ParentsFaultNone(events, input, sequence, parents[1..], k - 1);
    }
  }

  // ---------------------------------------------------------------- parents as stored

  lemma {:induction false} UniqueKeeps(ids: seq<Str>)
    ensures forall x :: x in Unique(ids) <==> x in ids
    ensures forall i, j :: 0 <= i < j < |Unique(ids)| ==> Unique(ids)[i] != Unique(ids)[j]
  {
    if ids != [] {
      UniqueKeeps(ids[..|ids| - 1]);
      assert ids == ids[..|ids| - 1] + [ids[|ids| - 1]];
    }
  }

  /** The stored parents are the given ones, each once, in increasing order. */
  lemma UniqueSortedIsCanonical(ids: seq<Str>)
    ensures forall x :: x in UniqueSortedIds(ids) <==> x in ids
    ensures forall i, j :: 0 <= i < j < |UniqueSortedIds(ids)| ==>
      StrLe(UniqueSortedIds(ids)[i], UniqueSortedIds(ids)[j]) && UniqueSortedIds(ids)[i] != UniqueSortedIds(ids)[j]
  {
    var u, s := Unique(ids), UniqueSortedIds(ids);
    UniqueKeeps(ids);
    SortKeeps(StrLe, u);
    StrLePreorder();
    SortSorts(StrLe, u);
    SortPermutes(StrLe, u);
    forall i, j | 0 <= i < j < |s| ensures s[i] != s[j] {
      if s[i] == s[j] {
        TwiceInMultiset(s, i, j);
        TwoPositions(u, s[i]);
        assert false;
      }
    }
  }
}
