/** Execution Graph V2: the canonical form of an execution's events, hashed into the final
    ledger entry, and the proof that it loses nothing but the order events were listed in. */
module Graph {
  import opened Basics
  import opened Sorting
  import opened Canonical
  import opened CanonicalLaws
  import opened HashFormat
  import opened Metadata
  import opened Records
  import Hex

  datatype Node = Node(
    eventId: Str,
    sequence: int,
    eventType: Str,
    status: Str,
    occurredAtCanonical: Str,
    inputHash: Option<Str>,
    outputHash: Option<Str>,
    metadata: seq<Member>)

  datatype Edge = Edge(fromEventId: Str, toEventId: Str)

  datatype ExecutionGraph = ExecutionGraph(
    executionId: Str,
    verityRecordId: Str,
    organizationId: Str,
    status: Str,
    nodes: seq<Node>,
    edges: seq<Edge>)

  function SchemaVersion(): Str { Ascii("2") }

  // ---------------------------------------------------------------- construction

  predicate EventLe(a: Event, b: Event) { a.eventSequence <= b.eventSequence }

  predicate EdgeLe(a: Edge, b: Edge)
  {
    if a.fromEventId == b.fromEventId then StrLe(a.toEventId, b.toEventId) else StrLe(a.fromEventId, b.fromEventId)
  }

  function NodeOf(e: Event): Node
  {
    Node(e.id, e.eventSequence, e.eventType, e.status, e.occurredAtCanonical, e.inputHash, e.outputHash,
         SortedMetadata(e.metadata))
  }

  function Nodes(events: seq<Event>): (r: seq<Node>)
    ensures |r| == |events|
  {
    seq(|events|, i requires 0 <= i < |events| => NodeOf(events[i]))
  }

  function EdgesTo(id: Str, parents: seq<Str>): (r: seq<Edge>)
    ensures |r| == |parents|
  {
    seq(|parents|, i requires 0 <= i < |parents| => Edge(parents[i], id))
  }

  function EdgesOf(events: seq<Event>): seq<Edge>
  {
    if events == [] then []
    else EdgesTo(events[0].id, SortBy(StrLe, events[0].parentEventIds)) + EdgesOf(events[1..])
  }

  /** Some event has this id. */
  predicate HasEvent(events: seq<Event>, id: Str)
  {
    exists i :: 0 <= i < |events| && events[i].id == id
  }

  /** Every listed parent is one of the events. */
  predicate ParentsResolve(events: seq<Event>)
  {
    forall i, k :: 0 <= i < |events| && 0 <= k < |events[i].parentEventIds| ==>
      HasEvent(events, events[i].parentEventIds[k])
  }

  /** `None` is the unresolved-parent exception. */
  function BuildExecutionGraph(x: Execution, events: seq<Event>): Option<ExecutionGraph>
  {
    var ordered := SortBy(EventLe, events);
    if ParentsResolve(ordered) then
      Some(ExecutionGraph(x.id, x.verityRecordId, x.organizationId, x.status,
                          Nodes(ordered), SortBy(EdgeLe, EdgesOf(ordered))))
    else None
  }

  // ---------------------------------------------------------------- hashing

  function NodeMembers(n: Node): seq<Member>
  {
    [ Member(Ascii("event_id"), Text(n.eventId)),
      Member(Ascii("sequence"), Int(n.sequence)),
      Member(Ascii("event_type"), Text(n.eventType)),
      Member(Ascii("status"), Text(n.status)),
      Member(Ascii("occurred_at_canonical"), Text(n.occurredAtCanonical)),
      Member(Ascii("input_hash"), Nullable(n.inputHash)),
      Member(Ascii("output_hash"), Nullable(n.outputHash)),
      Member(Ascii("metadata"), Obj(n.metadata)) ]
  }

  function EdgeMembers(e: Edge): seq<Member>
  {
    [ Member(Ascii("from_event_id"), Text(e.fromEventId)),
      Member(Ascii("to_event_id"), Text(e.toEventId)) ]
  }

  function NodeValues(nodes: seq<Node>): (r: seq<Value>)
    ensures |r| == |nodes|
  {
    seq(|nodes|, i requires 0 <= i < |nodes| => Obj(NodeMembers(nodes[i])))
  }

  function EdgeValues(edges: seq<Edge>): (r: seq<Value>)
    ensures |r| == |edges|
  {
    seq(|edges|, i requires 0 <= i < |edges| => Obj(EdgeMembers(edges[i])))
  }

  function GraphMembers(g: ExecutionGraph): seq<Member>
  {
    [ Member(Ascii("schema_version"), Text(SchemaVersion())),
      Member(Ascii("execution_id"), Text(g.executionId)),
      Member(Ascii("verity_record_id"), Text(g.verityRecordId)),
      Member(Ascii("organization_id"), Text(g.organizationId)),
      Member(Ascii("status"), Text(g.status)),
      Member(Ascii("nodes"), Arr(NodeValues(g.nodes))),
      Member(Ascii("edges"), Arr(EdgeValues(g.edges))) ]
  }

  function GraphValue(g: ExecutionGraph): Value { Obj(GraphMembers(g)) }

  function EnvelopeMembers(graph: Value): seq<Member>
  {
    [ Member(Ascii("execution_graph_schema_version"), Text(SchemaVersion())),
      Member(Ascii("graph"), graph) ]
  }

  function Envelope(graph: Value): Value { Obj(EnvelopeMembers(graph)) }

  /** `computeExecutionGraphHash`; `None` when the printer throws. */
  function GraphHash(sha: Sha, graph: Value): Option<Str>
  {
    HashValue(sha, Envelope(graph))
  }

  /** The bytes hashed for the graph of `events`. */
  function GraphBytes(x: Execution, events: seq<Event>): Bytes
  {
    if BuildExecutionGraph(x, events).Some?
    then HashedBytes(Envelope(GraphValue(BuildExecutionGraph(x, events).value))) else []
  }

  // ---------------------------------------------------------------- reading the JSON back

  lemma SameItems(a: seq<Value>, b: seq<Value>)
    requires Normal(Arr(a)) == Normal(Arr(b))
    ensures |a| == |b|
    ensures forall i :: 0 <= i < |a| ==> Normal(a[i]) == Normal(b[i])
  {
    NormalItemsAt(Arr(a), a);
    NormalItemsAt(Arr(b), b);
    assert NormalItems(Arr(a), a) == NormalItems(Arr(b), b);
    assert |NormalItems(Arr(a), a)| == |a| && |NormalItems(Arr(b), b)| == |b|;
    forall i | 0 <= i < |a| ensures Normal(a[i]) == Normal(b[i]) {
      assert Normal(a[i]) == NormalItems(Arr(a), a)[i] == NormalItems(Arr(b), b)[i];
    }
  }

  lemma NodeKeys(n: Node)
    ensures DistinctKeys(NodeMembers(n))
  {
    var m := NodeMembers(n);
    assert |m[0].key| == 8 && m[0].key[0] == 101;
    assert |m[1].key| == 8 && m[1].key[0] == 115;
    assert |m[2].key| == 10 && m[2].key[0] == 101;
    assert |m[3].key| == 6;
    assert |m[4].key| == 21;
    assert |m[5].key| == 10 && m[5].key[0] == 105;
    assert |m[6].key| == 11;
    assert |m[7].key| == 8 && m[7].key[0] == 109;
  }

  lemma GraphKeys(g: ExecutionGraph)
    ensures DistinctKeys(GraphMembers(g))
  {
    var m := GraphMembers(g);
    assert |m[0].key| == 14;
    assert |m[1].key| == 12;
    assert |m[2].key| == 16;
    assert |m[3].key| == 15;
    assert |m[4].key| == 6;
    assert |m[5].key| == 5 && m[5].key[0] == 110;
    assert |m[6].key| == 5 && m[6].key[0] == 101;
  }

  /** Nodes that agree on everything but the order of metadata members. */
  predicate SameNode(a: Node, b: Node)
  {
    a.(metadata := []) == b.(metadata := []) && Normal(Obj(a.metadata)) == Normal(Obj(b.metadata))
  }

  lemma NodeBinds(a: Node, b: Node)
    requires Normal(Obj(NodeMembers(a))) == Normal(Obj(NodeMembers(b)))
    ensures SameNode(a, b)
  {
    NodeKeys(b);
    var x, y := NodeMembers(a), NodeMembers(b);
    SameMemberAt(x, y, 0);
    SameMemberAt(x, y, 1);
    SameMemberAt(x, y, 2);
    SameMemberAt(x, y, 3);
    SameMemberAt(x, y, 4);
    SameMemberAt(x, y, 5);
    SameMemberAt(x, y, 6);
    SameMemberAt(x, y, 7);
    SameNullable(a.inputHash, b.inputHash);
    SameNullable(a.outputHash, b.outputHash);
  }

  lemma EdgeBinds(a: Edge, b: Edge)
    requires Normal(Obj(EdgeMembers(a))) == Normal(Obj(EdgeMembers(b)))
    ensures a == b
  {
    var x, y := EdgeMembers(a), EdgeMembers(b);
    assert |y[0].key| == 13 && |y[1].key| == 11;
    SameMemberAt(x, y, 0);
    SameMemberAt(x, y, 1);
  }

  /** Graphs that agree on everything but the order of metadata members. */
  predicate SameGraph(a: ExecutionGraph, b: ExecutionGraph)
  {
    && a.(nodes := []) == b.(nodes := [])
    && |a.nodes| == |b.nodes|
    && forall i :: 0 <= i < |a.nodes| ==> SameNode(a.nodes[i], b.nodes[i])
  }

  lemma GraphFieldsBind(a: ExecutionGraph, b: ExecutionGraph)
    requires Normal(GraphValue(a)) == Normal(GraphValue(b))
    ensures a.executionId == b.executionId && a.verityRecordId == b.verityRecordId
    ensures a.organizationId == b.organizationId && a.status == b.status
    ensures Normal(Arr(NodeValues(a.nodes))) == Normal(Arr(NodeValues(b.nodes)))
    ensures Normal(Arr(EdgeValues(a.edges))) == Normal(Arr(EdgeValues(b.edges)))
  {
    GraphKeys(b);
    var x, y := GraphMembers(a), GraphMembers(b);
    SameMemberAt(x, y, 1);
    SameMemberAt(x, y, 2);
    SameMemberAt(x, y, 3);
    SameMemberAt(x, y, 4);
    SameMemberAt(x, y, 5);
    SameMemberAt(x, y, 6);
  }

  lemma EdgeListBinds(a: seq<Edge>, b: seq<Edge>)
    requires Normal(Arr(EdgeValues(a))) == Normal(Arr(EdgeValues(b)))
    ensures a == b
  {
    SameItems(EdgeValues(a), EdgeValues(b));
    forall i | 0 <= i < |a| ensures a[i] == b[i] {
      assert Normal(EdgeValues(a)[i]) == Normal(EdgeValues(b)[i]);
      EdgeBinds(a[i], b[i]);
    }
  }

  lemma NodeListBinds(a: seq<Node>, b: seq<Node>)
    requires Normal(Arr(NodeValues(a))) == Normal(Arr(NodeValues(b)))
    ensures |a| == |b|
    ensures forall i :: 0 <= i < |a| ==> SameNode(a[i], b[i])
  {
    SameItems(NodeValues(a), NodeValues(b));
    forall i | 0 <= i < |a| ensures SameNode(a[i], b[i]) {
      assert Normal(NodeValues(a)[i]) == Normal(NodeValues(b)[i]);
      NodeBinds(a[i], b[i]);
    }
  }

  lemma GraphBinds(a: ExecutionGraph, b: ExecutionGraph)
    requires Normal(GraphValue(a)) == Normal(GraphValue(b))
    ensures SameGraph(a, b)
  {
    GraphFieldsBind(a, b);
    EdgeListBinds(a.edges, b.edges);
    NodeListBinds(a.nodes, b.nodes);
  }

  lemma EnvelopeKeys(graph: Value)
    ensures DistinctKeys(EnvelopeMembers(graph)) && |EnvelopeMembers(graph)| == 2
    ensures EnvelopeMembers(graph)[1] == Member(Ascii("graph"), graph)
  {
    var m := EnvelopeMembers(graph);
    assert |m[0].key| == 30 && |m[1].key| == 5;
  }

  lemma SecondMemberBinds(x: seq<Member>, y: seq<Member>, a: Value, b: Value)
    requires |x| == 2 && |y| == 2 && x[1].key == y[1].key && x[1].value == a && y[1].value == b
    requires Normal(Obj(x)) == Normal(Obj(y)) && DistinctKeys(y)
    ensures Normal(a) == Normal(b)
  {
    SameMemberAt(x, y, 1);
  }

  lemma EnvelopeBinds(a: Value, b: Value)
    requires Normal(Envelope(a)) == Normal(Envelope(b))
    ensures Normal(a) == Normal(b)
  {
    EnvelopeKeys(a);
    EnvelopeKeys(b);
    SecondMemberBinds(EnvelopeMembers(a), EnvelopeMembers(b), a, b);
  }

  /** One graph hash, one graph, unless the two canonical texts collide. */
  lemma GraphHashBinds(sha: Sha, inputs: set<Bytes>, a: ExecutionGraph, b: ExecutionGraph)
    requires GraphHash(sha, GraphValue(a)).Some? && GraphHash(sha, GraphValue(a)) == GraphHash(sha, GraphValue(b))
    requires CollisionFreeOn(sha, inputs)
    requires HashedBytes(Envelope(GraphValue(a))) in inputs && HashedBytes(Envelope(GraphValue(b))) in inputs
    ensures SameGraph(a, b)
  {
    var x, y := Envelope(GraphValue(a)), Envelope(GraphValue(b));
    Hex.ToHexInjective(sha(HashedBytes(x)), sha(HashedBytes(y)));
    PrintsExactlyDomain(x);
    PrintsExactlyDomain(y);
    SameBytesSameValue(x, y);
    EnvelopeBinds(GraphValue(a), GraphValue(b));
    GraphBinds(a, b);
  }

  // ---------------------------------------------------------------- from graphs back to events

  ghost predicate DistinctIds(events: seq<Event>)
  {
    forall i, j :: 0 <= i < j < |events| ==> events[i].id != events[j].id
  }

  lemma {:induction false} EdgesToCount(id: Str, parents: seq<Str>, p: Str)
    ensures multiset(EdgesTo(id, parents))[Edge(p, id)] == multiset(parents)[p]
    ensures forall e :: e in EdgesTo(id, parents) ==> e.toEventId == id
  {
    var edges := EdgesTo(id, parents);
    if parents != [] {
      EdgesToCount(id, parents[1..], p);
      assert edges == [Edge(parents[0], id)] + EdgesTo(id, parents[1..]);
      assert parents == [parents[0]] + parents[1..];
    }
  }

  /** Without repeated ids, the edges into an event are exactly its parents, with multiplicity. */
  lemma {:induction false} EdgeCount(events: seq<Event>, k: nat, p: Str)
    requires k < |events| && DistinctIds(events)
    ensures multiset(EdgesOf(events))[Edge(p, events[k].id)] == multiset(events[k].parentEventIds)[p]
  {
    var e, target := events[0], Edge(p, events[k].id);
    var sorted := SortBy(StrLe, e.parentEventIds);
    SortPermutes(StrLe, e.parentEventIds);
    EdgesToCount(e.id, sorted, p);
    assert multiset(EdgesOf(events))[target]
        == multiset(EdgesTo(e.id, sorted))[target] + multiset(EdgesOf(events[1..]))[target];
    if k == 0 {
      NoEdgeTo(events[1..], e.id, p);
    } else {
      assert events[1..][k - 1] == events[k];
      EdgeCount(events[1..], k - 1, p);
      assert target !in EdgesTo(e.id, sorted);
    }
  }

  lemma {:induction false} NoEdgeTo(events: seq<Event>, id: Str, p: Str)
    requires forall i :: 0 <= i < |events| ==> events[i].id != id
    ensures Edge(p, id) !in EdgesOf(events)
    ensures multiset(EdgesOf(events))[Edge(p, id)] == 0
  {
    if events != [] {
      EdgesToCount(events[0].id, SortBy(StrLe, events[0].parentEventIds), p);
      NoEdgeTo(events[1..], id, p);
    }
  }

  /** Events that agree on everything but metadata and parents. The organization and execution of an
      event are not among a node's fields; the graph names them once. */
  predicate SameFields(a: Event, b: Event)
  {
    a.(organizationId := [], executionId := [], parentEventIds := [], metadata := [])
      == b.(organizationId := [], executionId := [], parentEventIds := [], metadata := [])
  }

  /** One event, up to the order of its parents and of metadata members. */
  predicate SameEvent(a: Event, b: Event)
  {
    && SameFields(a, b) && multiset(a.parentEventIds) == multiset(b.parentEventIds)
    && Normal(Obj(a.metadata)) == Normal(Obj(b.metadata))
  }

  /** One event as far as the graph shows it. */
  predicate SameSeen(a: Event, b: Event)
  {
    && SameFields(a, b) && multiset(a.parentEventIds) == multiset(b.parentEventIds)
    && Normal(Obj(Visible(a.metadata))) == Normal(Obj(Visible(b.metadata)))
  }

  /** The same where the graph does not look. */
  predicate SameHidden(a: Event, b: Event)
  {
    Normal(Obj(Hidden(a.metadata))) == Normal(Obj(Hidden(b.metadata)))
  }

  predicate EventsAgree(xs: seq<Event>, ys: seq<Event>)
  {
    |xs| == |ys| && forall i :: 0 <= i < |xs| ==> SameEvent(xs[i], ys[i])
  }

  predicate SeenAlike(xs: seq<Event>, ys: seq<Event>)
  {
    |xs| == |ys| && forall i :: 0 <= i < |xs| ==> SameSeen(xs[i], ys[i])
  }

  predicate HiddenAlike(xs: seq<Event>, ys: seq<Event>)
  {
    |xs| == |ys| && forall i :: 0 <= i < |xs| ==> SameHidden(xs[i], ys[i])
  }

  /** No event has the metadata key the graph drops. */
  predicate Plain(events: seq<Event>)
  {
    forall i :: 0 <= i < |events| ==> NoProto(events[i].metadata)
  }

  /** Events agree exactly when they agree where the graph looks and where it does not. */
  lemma AgreeByParts(xs: seq<Event>, ys: seq<Event>)
    ensures EventsAgree(xs, ys) <==> SeenAlike(xs, ys) && HiddenAlike(xs, ys)
    ensures Plain(xs) && Plain(ys) && |xs| == |ys| ==> HiddenAlike(xs, ys)
  {
    if |xs| == |ys| {
      forall i | 0 <= i < |xs|
        ensures SameEvent(xs[i], ys[i]) <==> SameSeen(xs[i], ys[i]) && SameHidden(xs[i], ys[i])
        ensures NoProto(xs[i].metadata) && NoProto(ys[i].metadata) ==> SameHidden(xs[i], ys[i])
      {
        SameByParts(xs[i].metadata, ys[i].metadata);
        NothingHidden(xs[i].metadata);
        NothingHidden(ys[i].metadata);
      }
    }
  }

  lemma NodeShowsVisible(a: Event, b: Event)
    requires multiset(a.parentEventIds) == multiset(b.parentEventIds)
    ensures SameNode(NodeOf(a), NodeOf(b)) <==> SameSeen(a, b)
  {
    GraphSeesVisible(a.metadata, b.metadata);
  }

  lemma EdgesSame(a: Event, b: Event)
    requires SameSeen(a, b)
    ensures EdgesTo(a.id, SortBy(StrLe, a.parentEventIds)) == EdgesTo(b.id, SortBy(StrLe, b.parentEventIds))
  {
    StrLePreorder();
    forall x: Str, y: Str | StrLe(x, y) && StrLe(y, x) ensures x == y {
      StrLeTotal(x, y);
    }
    SortSorts(StrLe, a.parentEventIds);
    SortSorts(StrLe, b.parentEventIds);
    SortPermutes(StrLe, a.parentEventIds);
    SortPermutes(StrLe, b.parentEventIds);
    SortedSame(StrLe, SortBy(StrLe, a.parentEventIds), SortBy(StrLe, b.parentEventIds));
    assert a.id == b.id;
  }

  lemma {:induction false} AllEdgesSame(a: seq<Event>, b: seq<Event>)
    requires SeenAlike(a, b)
    ensures EdgesOf(a) == EdgesOf(b)
  {
    if a != [] {
      EdgesSame(a[0], b[0]);
      AllEdgesSame(a[1..], b[1..]);
    }
  }

  predicate SameExecution(x: Execution, y: Execution)
  {
    x.id == y.id && x.verityRecordId == y.verityRecordId && x.organizationId == y.organizationId && x.status == y.status
  }

  /** Two graphs are the same exactly when executions and events are, as far as a graph shows them:
      fields, sequence order and parents with multiplicity, metadata outside the dropped key. */
  lemma GraphIsLossless(x: Execution, events: seq<Event>, y: Execution, events': seq<Event>)
    requires BuildExecutionGraph(x, events).Some? && BuildExecutionGraph(y, events').Some?
    requires DistinctIds(SortBy(EventLe, events)) && DistinctIds(SortBy(EventLe, events'))
    ensures SameGraph(BuildExecutionGraph(x, events).value, BuildExecutionGraph(y, events').value)
       <==> SameExecution(x, y) && SeenAlike(SortBy(EventLe, events), SortBy(EventLe, events'))
  {
    var a, b := SortBy(EventLe, events), SortBy(EventLe, events');
    var g, h := BuildExecutionGraph(x, events).value, BuildExecutionGraph(y, events').value;
    if SameGraph(g, h) {
      SortPermutes(EdgeLe, EdgesOf(a));
      SortPermutes(EdgeLe, EdgesOf(b));
      forall i | 0 <= i < |a| ensures SameSeen(a[i], b[i]) {
        assert SameNode(g.nodes[i], h.nodes[i]);
        SameParents(a, b, i);
        NodeShowsVisible(a[i], b[i]);
      }
    } else if SameExecution(x, y) && SeenAlike(a, b) {
      AllEdgesSame(a, b);
      forall i | 0 <= i < |a| ensures SameNode(g.nodes[i], h.nodes[i]) {
        NodeShowsVisible(a[i], b[i]);
      }
      assert SameGraph(g, h);
    }
  }

  lemma SameParents(a: seq<Event>, b: seq<Event>, i: nat)
    requires i < |a| && i < |b| && a[i].id == b[i].id && DistinctIds(a) && DistinctIds(b)
    requires multiset(EdgesOf(a)) == multiset(EdgesOf(b))
    ensures multiset(a[i].parentEventIds) == multiset(b[i].parentEventIds)
  {
    forall p: Str ensures multiset(a[i].parentEventIds)[p] == multiset(b[i].parentEventIds)[p] {
      EdgeCount(a, i, p);
      EdgeCount(b, i, p);
    }
  }

  // ---------------------------------------------------------------- when nothing is lost

  /** The event without the metadata the graph drops. */
  function Shown(e: Event): Event { e.(metadata := Visible(e.metadata)) }

  function AllShown(events: seq<Event>): (r: seq<Event>)
    ensures |r| == |events|
  {
    seq(|events|, i requires 0 <= i < |events| => Shown(events[i]))
  }

  lemma {:induction false} InsertShown(e: Event, events: seq<Event>)
    ensures Insert(EventLe, Shown(e), AllShown(events)) == AllShown(Insert(EventLe, e, events))
  {
    if events == [] || EventLe(e, events[0]) {
      assert AllShown([e] + events) == [Shown(e)] + AllShown(events);
    } else {
      InsertShown(e, events[1..]);
      assert AllShown(events)[1..] == AllShown(events[1..]);
      assert AllShown([events[0]] + Insert(EventLe, e, events[1..]))
          == [Shown(events[0])] + AllShown(Insert(EventLe, e, events[1..]));
    }
  }

  lemma {:induction false} SortShown(events: seq<Event>)
    ensures SortBy(EventLe, AllShown(events)) == AllShown(SortBy(EventLe, events))
  {
    if events == [] {
      assert AllShown(events) == [];
    } else {
      assert AllShown(events)[0] == Shown(events[0]) && AllShown(events)[1..] == AllShown(events[1..]);
      SortShown(events[1..]);
      InsertShown(events[0], SortBy(EventLe, events[1..]));
    }
  }

  lemma {:induction false} EdgesShown(events: seq<Event>)
    ensures EdgesOf(AllShown(events)) == EdgesOf(events)
  {
    if events != [] {
      assert AllShown(events)[0] == Shown(events[0]) && AllShown(events)[1..] == AllShown(events[1..]);
      EdgesShown(events[1..]);
    }
  }

  lemma ResolvesShown(events: seq<Event>)
    ensures ParentsResolve(AllShown(events)) <==> ParentsResolve(events)
  {
    forall id ensures HasEvent(AllShown(events), id) <==> HasEvent(events, id) {
      if HasEvent(events, id) {
        var i :| 0 <= i < |events| && events[i].id == id;
        assert AllShown(events)[i].id == id;
      }
      if HasEvent(AllShown(events), id) {
        var i :| 0 <= i < |events| && AllShown(events)[i].id == id;
        assert events[i].id == id;
      }
    }
    if ParentsResolve(AllShown(events)) {
      forall i, k | 0 <= i < |events| && 0 <= k < |events[i].parentEventIds|
        ensures HasEvent(events, events[i].parentEventIds[k])
      {
        assert HasEvent(AllShown(events), AllShown(events)[i].parentEventIds[k]);
      }
    }
  }

  lemma NodesShown(events: seq<Event>)
    ensures Nodes(AllShown(events)) == Nodes(events)
  {
    forall i | 0 <= i < |events| ensures NodeOf(AllShown(events)[i]) == NodeOf(events[i]) {
      SortedMetadataOfVisible(events[i].metadata);
    }
  }

  /** Dropping the key beforehand changes no graph. */
  lemma GraphOfShown(x: Execution, events: seq<Event>)
    ensures BuildExecutionGraph(x, AllShown(events)) == BuildExecutionGraph(x, events)
  {
    var ordered := SortBy(EventLe, events);
    SortShown(events);
    EdgesShown(ordered);
    ResolvesShown(ordered);
    NodesShown(ordered);
  }

  /** What is left is the same to the graph, and the same altogether exactly when nothing was dropped. */
  lemma ShownAgree(events: seq<Event>)
    ensures Plain(AllShown(events)) && SeenAlike(events, AllShown(events))
    ensures EventsAgree(events, AllShown(events)) <==> Plain(events)
  {
    var shown := AllShown(events);
    forall i | 0 <= i < |events|
      ensures NoProto(shown[i].metadata) && SameSeen(events[i], shown[i])
      ensures SameEvent(events[i], shown[i]) <==> NoProto(events[i].metadata)
    {
      NothingHidden(events[i].metadata);
      VisibleSame(events[i].metadata);
    }
  }

  /** Events with the same graph. */
  ghost predicate SameGraphAs(x: Execution, events: seq<Event>, others: seq<Event>)
  {
    && BuildExecutionGraph(x, events).Some? && BuildExecutionGraph(x, others).Some?
    && DistinctIds(SortBy(EventLe, others))
    && SameGraph(BuildExecutionGraph(x, events).value, BuildExecutionGraph(x, others).value)
  }

  lemma PlainMembers(events: seq<Event>, others: seq<Event>)
    requires Plain(events) && forall e :: e in others ==> e in events
    ensures Plain(others)
  {
    forall i | 0 <= i < |others| ensures NoProto(others[i].metadata) {
      assert others[i] in events;
    }
  }

  lemma PlainSorted(events: seq<Event>)
    ensures Plain(SortBy(EventLe, events)) <==> Plain(events)
  {
    SortKeeps(EventLe, events);
    if Plain(events) {
      PlainMembers(events, SortBy(EventLe, events));
    }
    if Plain(SortBy(EventLe, events)) {
      PlainMembers(SortBy(EventLe, events), events);
    }
  }

  lemma ShownIds(events: seq<Event>)
    requires DistinctIds(events)
    ensures DistinctIds(AllShown(events))
  {
  }

  lemma GraphSameAsItself(x: Execution, events: seq<Event>, others: seq<Event>)
    requires BuildExecutionGraph(x, events).Some? && BuildExecutionGraph(x, others) == BuildExecutionGraph(x, events)
    requires DistinctIds(SortBy(EventLe, others))
    ensures SameGraphAs(x, events, others)
  {
  }

  lemma ShownDiffers(x: Execution, events: seq<Event>)
    requires BuildExecutionGraph(x, events).Some? && DistinctIds(SortBy(EventLe, events)) && !Plain(events)
    ensures Plain(AllShown(events)) && SameGraphAs(x, events, AllShown(events))
    ensures !EventsAgree(SortBy(EventLe, events), SortBy(EventLe, AllShown(events)))
  {
    GraphOfShown(x, events);
    SortShown(events);
    ShownAgree(events);
    ShownAgree(SortBy(EventLe, events));
    ShownIds(SortBy(EventLe, events));
    PlainSorted(events);
    GraphSameAsItself(x, events, AllShown(events));
  }

  /** Among events without the key, a graph determines its events exactly when they do not have the
      key either. */
  lemma LosslessExactly(x: Execution, events: seq<Event>)
    requires BuildExecutionGraph(x, events).Some? && DistinctIds(SortBy(EventLe, events))
    ensures Plain(events) <==>
      forall others :: Plain(others) && SameGraphAs(x, events, others) ==>
        EventsAgree(SortBy(EventLe, events), SortBy(EventLe, others))
  {
    if Plain(events) {
      forall others | Plain(others) && SameGraphAs(x, events, others)
        ensures EventsAgree(SortBy(EventLe, events), SortBy(EventLe, others))
      {
        GraphIsLossless(x, events, x, others);
        PlainSorted(events);
        PlainSorted(others);
        AgreeByParts(SortBy(EventLe, events), SortBy(EventLe, others));
      }
    } else {
      ShownDiffers(x, events);
    }
  }

  // ---------------------------------------------------------------- listing order

  ghost predicate DistinctSequences(events: seq<Event>)
  {
    forall i, j :: 0 <= i < j < |events| ==> events[i].eventSequence != events[j].eventSequence
  }

  /** The graph does not see the order events are listed in. */
  lemma GraphIgnoresListing(x: Execution, events: seq<Event>, events': seq<Event>)
    requires multiset(events) == multiset(events') && DistinctSequences(events)
    ensures BuildExecutionGraph(x, events) == BuildExecutionGraph(x, events')
  {
    assert Strict(EventLe, events);
    SortIgnoresOrder(EventLe, events, events');
  }
}
