/** What is hashed, read back from its text: the payload of a ledger entry, the graph of an execution and
    the key of a connector action, member by member. */
module HashedTexts {
  import opened Basics
  import opened Sorting
  import opened Canonical
  import opened CanonicalLaws
  import opened Parser
  import opened PrintedForm
  import opened HashFormat
  import opened Records
  import opened Graph
  import opened Metadata
  import Idempotency

  /** The members hold this one. */
  predicate Has(members: seq<Member>, key: string, value: Value)
  {
    Member(Ascii(key), value) in members
  }

  /** The text is that of an object with these members, keys strictly increasing. */
  ghost predicate ReadsObject(text: Str, members: seq<Member>)
  {
    ReadValue(text) == Some((Obj(members), [])) && Increasing(members)
  }

  function OrNull(h: Option<Str>): Value
  {
    match h case Some(text) => Text(text) case None => Null
  }

  predicate Scalar(v: Value) { v.Null? || v.Bool? || v.Int? || v.Text? }

  /** The members as read back. */
  function ReadBack(members: seq<Member>): (r: seq<Member>)
  {
    Normal(Obj(members)).members
  }

  lemma ObjectText(members: seq<Member>)
    requires DistinctKeys(members) && Canonicalize(Obj(members)).Ok?
    ensures ReadsObject(Canonicalize(Obj(members)).value, ReadBack(members)) && |ReadBack(members)| == |members|
  {
    var text := Canonicalize(Obj(members)).value;
    ReadPrinted(Obj(members), []);
    assert text + [] == text;
    NormalIncreasing(members);
    NormalLength(members);
  }

  /** Member `i` has this key and value and is read back as it is. */
  lemma HasAt(members: seq<Member>, i: nat, key: string, value: Value)
    requires i < |members| && members[i] == Member(Ascii(key), value) && Scalar(value)
    ensures Has(ReadBack(members), key, value)
  {
    NormalObjectMembers(members);
    assert members[i] in members && members[i] == Member(members[i].key, Normal(members[i].value));
  }

  // ---------------------------------------------------------------- ledger entries

  /** The eleven members of Hash Format V2. */
  ghost predicate IsPayload(members: seq<Member>, f: HashFields)
  {
    && |members| == 11
    && Has(members, "hash_format_version", Text(Ascii("2")))
    && Has(members, "organization_id", Text(f.organizationId)) && Has(members, "ledger_sequence", Int(f.ledgerSequence))
    && Has(members, "execution_id", Text(f.executionId)) && Has(members, "entry_type", Text(f.entryType))
    && Has(members, "request_hash", OrNull(f.requestHash)) && Has(members, "response_hash", OrNull(f.responseHash))
    && Has(members, "execution_graph_hash", OrNull(f.executionGraphHash))
    && Has(members, "previous_entry_hash", OrNull(f.previousEntryHash))
    && Has(members, "kernel_version", Text(f.kernelVersion)) && Has(members, "created_at", Text(f.createdAtCanonical))
  }

  lemma PayloadTexts(f: HashFields)
    ensures var members := ReadBack(PayloadMembers(f));
      && Has(members, "hash_format_version", Text(Ascii("2")))
      && Has(members, "organization_id", Text(f.organizationId)) && Has(members, "ledger_sequence", Int(f.ledgerSequence))
      && Has(members, "execution_id", Text(f.executionId)) && Has(members, "entry_type", Text(f.entryType))
      && Has(members, "kernel_version", Text(f.kernelVersion)) && Has(members, "created_at", Text(f.createdAtCanonical))
  {
    var m := PayloadMembers(f);
    HasAt(m, 0, "hash_format_version", Text(Ascii("2")));
    HasAt(m, 1, "organization_id", Text(f.organizationId));
    HasAt(m, 2, "ledger_sequence", Int(f.ledgerSequence));
    HasAt(m, 3, "execution_id", Text(f.executionId));
    HasAt(m, 4, "entry_type", Text(f.entryType));
    HasAt(m, 9, "kernel_version", Text(f.kernelVersion));
    HasAt(m, 10, "created_at", Text(f.createdAtCanonical));
  }

  lemma PayloadHashes(f: HashFields)
    ensures var members := ReadBack(PayloadMembers(f));
      && Has(members, "request_hash", OrNull(f.requestHash)) && Has(members, "response_hash", OrNull(f.responseHash))
      && Has(members, "execution_graph_hash", OrNull(f.executionGraphHash))
      && Has(members, "previous_entry_hash", OrNull(f.previousEntryHash))
  {
    var m := PayloadMembers(f);
    HasAt(m, 5, "request_hash", OrNull(f.requestHash));
    HasAt(m, 6, "response_hash", OrNull(f.responseHash));
    HasAt(m, 7, "execution_graph_hash", OrNull(f.executionGraphHash));
    HasAt(m, 8, "previous_entry_hash", OrNull(f.previousEntryHash));
  }

  lemma PayloadParts(f: HashFields)
    ensures IsPayload(ReadBack(PayloadMembers(f)), f)
  {
    NormalLength(PayloadMembers(f));
    PayloadTexts(f);
    PayloadHashes(f);
  }

  /** The text an entry hash covers reads back as the eleven fields, each under its own key. */
  lemma PayloadReads(sha: Sha, f: HashFields)
    requires EntryHash(sha, f).Some?
    ensures exists text, members ::
              EntryHash(sha, f) == Some(Sha256Hex(sha, text)) && ReadsObject(text, members) && IsPayload(members, f)
  {
    PayloadDomain(f);
    PayloadKeys(f);
    ObjectText(PayloadMembers(f));
    PayloadParts(f);
    assert ReadsObject(Canonicalize(HashPayload(f)).value, ReadBack(PayloadMembers(f)));
  }

  // ---------------------------------------------------------------- connector actions

  ghost predicate IsKey(members: seq<Member>, a: Idempotency.ActionId)
  {
    && |members| == 6
    && Has(members, "organization_id", Text(a.organizationId)) && Has(members, "execution_id", Text(a.executionId))
    && Has(members, "connector_id", Text(a.connectorId)) && Has(members, "action", Text(a.action))
    && Has(members, "artifact_hash", Text(a.artifactHash)) && Has(members, "scheduled_for", OrNull(a.scheduledFor))
  }

  lemma KeyParts(a: Idempotency.ActionId)
    ensures IsKey(ReadBack(Idempotency.ActionMembers(a)), a)
  {
    var m := Idempotency.ActionMembers(a);
    NormalLength(m);
    HasAt(m, 0, "organization_id", Text(a.organizationId));
    HasAt(m, 1, "execution_id", Text(a.executionId));
    HasAt(m, 2, "connector_id", Text(a.connectorId));
    HasAt(m, 3, "action", Text(a.action));
    HasAt(m, 4, "artifact_hash", Text(a.artifactHash));
    HasAt(m, 5, "scheduled_for", OrNull(a.scheduledFor));
  }

  /** The text an idempotency key hashes reads back as the six parts of the action. */
  lemma KeyReads(sha: Sha, a: Idempotency.ActionId)
    ensures exists text, members ::
              Idempotency.IdempotencyKey(sha, a) == Sha256Hex(sha, text) && ReadsObject(text, members) && IsKey(members, a)
  {
    Idempotency.ActionInDomain(a);
    Idempotency.StableIsCanonical(Obj(Idempotency.ActionMembers(a)));
    Idempotency.ActionKeys(a);
    ObjectText(Idempotency.ActionMembers(a));
    KeyParts(a);
    assert ReadsObject(Idempotency.KeyText(a), ReadBack(Idempotency.ActionMembers(a)));
  }

  // ---------------------------------------------------------------- graphs

  /** The metadata shown: the members of the event's metadata but those with the key `__proto__`. */
  ghost predicate ShowsMetadata(shown: seq<Member>, metadata: seq<Member>)
  {
    && (forall m :: m in metadata && m.key != Ascii("__proto__") ==> exists n :: n in shown && ReadsAs(m, n))
    && (forall n :: n in shown ==> exists m :: m in metadata && m.key != Ascii("__proto__") && ReadsAs(m, n))
  }

  /** The node shows the event. */
  ghost predicate ShowsEvent(node: Value, e: Event)
  {
    && node.Obj? && |node.members| == 8
    && Has(node.members, "event_id", Text(e.id)) && Has(node.members, "sequence", Int(e.eventSequence))
    && Has(node.members, "event_type", Text(e.eventType)) && Has(node.members, "status", Text(e.status))
    && Has(node.members, "occurred_at_canonical", Text(e.occurredAtCanonical))
    && Has(node.members, "input_hash", OrNull(e.inputHash)) && Has(node.members, "output_hash", OrNull(e.outputHash))
    && exists shown :: Has(node.members, "metadata", Obj(shown)) && ShowsMetadata(shown, e.metadata)
  }

  lemma NodeParts(n: Node)
    ensures var members := ReadBack(NodeMembers(n));
      && |members| == 8
      && Has(members, "event_id", Text(n.eventId)) && Has(members, "sequence", Int(n.sequence))
      && Has(members, "event_type", Text(n.eventType)) && Has(members, "status", Text(n.status))
      && Has(members, "occurred_at_canonical", Text(n.occurredAtCanonical))
      && Has(members, "input_hash", OrNull(n.inputHash)) && Has(members, "output_hash", OrNull(n.outputHash))
  {
    var m := NodeMembers(n);
    NormalLength(m);
    HasAt(m, 0, "event_id", Text(n.eventId));
    HasAt(m, 1, "sequence", Int(n.sequence));
    HasAt(m, 2, "event_type", Text(n.eventType));
    HasAt(m, 3, "status", Text(n.status));
    HasAt(m, 4, "occurred_at_canonical", Text(n.occurredAtCanonical));
    HasAt(m, 5, "input_hash", OrNull(n.inputHash));
    HasAt(m, 6, "output_hash", OrNull(n.outputHash));
  }

  /** A member that is an object or an array is read back under its key. */
  lemma NestedAt(members: seq<Member>, i: nat, key: string, value: Value)
    requires i < |members| && members[i] == Member(Ascii(key), value)
    ensures Has(ReadBack(members), key, Normal(value))
  {
    NormalObjectMembers(members);
    assert members[i] in members;
  }

  lemma NodeShows(e: Event)
    requires Canonicalize(Obj(e.metadata)).Ok?
    ensures ShowsEvent(Normal(Obj(NodeMembers(NodeOf(e)))), e)
  {
    NodeParts(NodeOf(e));
    NestedAt(NodeMembers(NodeOf(e)), 7, "metadata", Obj(SortedMetadata(e.metadata)));
    MetadataShows(e.metadata);
    assert Normal(Obj(SortedMetadata(e.metadata))) == Obj(ReadBack(SortedMetadata(e.metadata)));
  }

  lemma MetadataShows(metadata: seq<Member>)
    requires Canonicalize(Obj(metadata)).Ok?
    ensures ShowsMetadata(ReadBack(SortedMetadata(metadata)), metadata)
  {
    var sorted := SortedMetadata(metadata);
    SortedAndShown(metadata);
    PrintsExactlyDomain(Obj(metadata));
    PrintsExactlyDomain(Obj(sorted));
    ObjectReads(sorted);
  }

  /** The edge leads from one event to the other. */
  ghost predicate ShowsEdge(edge: Value, from: Str, to: Str)
  {
    && edge.Obj? && |edge.members| == 2
    && Has(edge.members, "from_event_id", Text(from)) && Has(edge.members, "to_event_id", Text(to))
  }

  lemma EdgeShows(e: Edge)
    ensures ShowsEdge(Normal(Obj(EdgeMembers(e))), e.fromEventId, e.toEventId)
  {
    var m := EdgeMembers(e);
    NormalLength(m);
    HasAt(m, 0, "from_event_id", Text(e.fromEventId));
    HasAt(m, 1, "to_event_id", Text(e.toEventId));
  }

  /** What the members of the graph say of execution and events, in sequence order. */
  ghost predicate ShowsGraph(members: seq<Member>, x: Execution, events: seq<Event>)
  {
    && |members| == 7 && Has(members, "schema_version", Text(Ascii("2")))
    && Has(members, "execution_id", Text(x.id)) && Has(members, "verity_record_id", Text(x.verityRecordId))
    && Has(members, "organization_id", Text(x.organizationId)) && Has(members, "status", Text(x.status))
    && (exists nodes :: Has(members, "nodes", Arr(nodes)) && ShowsNodes(nodes, events))
    && (exists edges :: Has(members, "edges", Arr(edges)) && ShowsEdges(edges, events))
  }

  ghost predicate ShowsNodes(nodes: seq<Value>, events: seq<Event>)
  {
    |nodes| == |events| && forall i :: 0 <= i < |events| ==> ShowsEvent(nodes[i], events[i])
  }

  ghost predicate IsParent(events: seq<Event>, from: Str, to: Str)
  {
    exists e :: e in events && e.id == to && from in e.parentEventIds
  }

  /** By the event an edge comes from, then by the one it leads to. */
  ghost predicate InEdgeOrder(ends: seq<Edge>)
  {
    forall i, j :: 0 <= i < j < |ends| ==>
      || Before(ends[i].fromEventId, ends[j].fromEventId)
      || (ends[i].fromEventId == ends[j].fromEventId
          && (ends[i].toEventId == ends[j].toEventId || Before(ends[i].toEventId, ends[j].toEventId)))
  }

  /** An edge from each parent to its event, as often as it is listed, and no others. */
  ghost predicate ListsParents(ends: seq<Edge>, events: seq<Event>)
  {
    && (forall d: Edge :: d in ends <==> IsParent(events, d.fromEventId, d.toEventId))
    && (DistinctIds(events) ==> forall k, p :: 0 <= k < |events| ==>
          multiset(ends)[Edge(p, events[k].id)] == multiset(events[k].parentEventIds)[p])
  }

  /** The edges shown are those of the events, in order. */
  ghost predicate ShowsEdges(edges: seq<Value>, events: seq<Event>)
  {
    exists ends :: ShowsEach(edges, ends) && InEdgeOrder(ends) && ListsParents(ends, events)
  }

  ghost predicate ShowsEach(edges: seq<Value>, ends: seq<Edge>)
  {
    |ends| == |edges| && forall i :: 0 <= i < |ends| ==> ShowsEdge(edges[i], ends[i].fromEventId, ends[i].toEventId)
  }

  lemma NodesShow(events: seq<Event>)
    requires forall e :: e in events ==> Canonicalize(Obj(e.metadata)).Ok?
    ensures ShowsNodes(Normal(Arr(NodeValues(Nodes(events)))).items, events)
  {
    var values := NodeValues(Nodes(events));
    NormalItemsAt(Arr(values), values);
    forall i | 0 <= i < |events| ensures ShowsEvent(Normal(values[i]), events[i]) {
      NodeShows(events[i]);
    }
  }

  lemma {:induction false} EdgesAreParents(events: seq<Event>, edge: Edge)
    ensures edge in EdgesOf(events) <==> IsParent(events, edge.fromEventId, edge.toEventId)
  {
    if events != [] {
      EdgesAreParents(events[1..], edge);
      FirstEdges(events[0], edge);
      assert events == [events[0]] + events[1..];
    }
  }

  lemma FirstEdges(e: Event, edge: Edge)
    ensures edge in EdgesTo(e.id, SortBy(StrLe, e.parentEventIds)) <==> edge.toEventId == e.id && edge.fromEventId in e.parentEventIds
  {
    var sorted := SortBy(StrLe, e.parentEventIds);
    SortKeeps(StrLe, e.parentEventIds);
    if edge.toEventId == e.id && edge.fromEventId in sorted {
      var i :| 0 <= i < |sorted| && sorted[i] == edge.fromEventId;
      assert EdgesTo(e.id, sorted)[i] == edge;
    }
  }

  lemma EdgeLePreorder()
    ensures TotalPreorder(EdgeLe)
  {
    forall a: Edge, b: Edge ensures EdgeLe(a, b) || EdgeLe(b, a) {
      StrLeTotal(a.fromEventId, b.fromEventId);
      StrLeTotal(a.toEventId, b.toEventId);
    }
    forall a: Edge, b: Edge, c: Edge | EdgeLe(a, b) && EdgeLe(b, c) ensures EdgeLe(a, c) {
      EdgeLeTransitive(a, b, c);
    }
  }

  lemma EdgeLeTransitive(a: Edge, b: Edge, c: Edge)
    requires EdgeLe(a, b) && EdgeLe(b, c)
    ensures EdgeLe(a, c)
  {
    StrLeTotal(a.fromEventId, b.fromEventId);
    StrLeTotal(b.fromEventId, c.fromEventId);
    if a.fromEventId == b.fromEventId == c.fromEventId {
      StrLeTransitive(a.toEventId, b.toEventId, c.toEventId);
    } else {
      assert StrLe(a.fromEventId, b.fromEventId) && StrLe(b.fromEventId, c.fromEventId);
      StrLeTransitive(a.fromEventId, b.fromEventId, c.fromEventId);
    }
  }

  lemma EdgesInOrder(edges: seq<Edge>)
    requires Sorted(EdgeLe, edges)
    ensures InEdgeOrder(edges)
  {
    forall i, j | 0 <= i < j < |edges| && edges[i] != edges[j]
      ensures || Before(edges[i].fromEventId, edges[j].fromEventId)
              || (edges[i].fromEventId == edges[j].fromEventId && Before(edges[i].toEventId, edges[j].toEventId))
    {
      assert EdgeLe(edges[i], edges[j]);
      if edges[i].fromEventId == edges[j].fromEventId {
        SmallerIsBefore(edges[i].toEventId, edges[j].toEventId);
      } else {
        SmallerIsBefore(edges[i].fromEventId, edges[j].fromEventId);
      }
    }
  }

  lemma EdgesListed(events: seq<Event>)
    ensures ListsParents(SortBy(EdgeLe, EdgesOf(events)), events)
  {
    var edges := SortBy(EdgeLe, EdgesOf(events));
    SortKeeps(EdgeLe, EdgesOf(events));
    SortPermutes(EdgeLe, EdgesOf(events));
    forall d: Edge ensures d in edges <==> IsParent(events, d.fromEventId, d.toEventId) {
      EdgesAreParents(events, d);
    }
    if DistinctIds(events) {
      forall k, p | 0 <= k < |events| ensures multiset(edges)[Edge(p, events[k].id)] == multiset(events[k].parentEventIds)[p] {
        EdgeCount(events, k, p);
      }
    }
  }

  lemma EachShown(edges: seq<Edge>)
    ensures ShowsEach(Normal(Arr(EdgeValues(edges))).items, edges)
  {
    var values := EdgeValues(edges);
    NormalItemsAt(Arr(values), values);
    forall i | 0 <= i < |edges| ensures ShowsEdge(Normal(values[i]), edges[i].fromEventId, edges[i].toEventId) {
      EdgeShows(edges[i]);
    }
  }

  lemma EdgesShow(events: seq<Event>, edges: seq<Edge>)
    requires edges == SortBy(EdgeLe, EdgesOf(events))
    ensures ShowsEdges(Normal(Arr(EdgeValues(edges))).items, events)
  {
    EdgesListed(events);
    EdgeLePreorder();
    SortSorts(EdgeLe, EdgesOf(events));
    EdgesInOrder(edges);
    EachShown(edges);
  }

  ghost predicate InSequence(events: seq<Event>)
  {
    forall i, j :: 0 <= i < j < |events| ==> events[i].eventSequence < events[j].eventSequence
  }

  lemma GraphParts(g: ExecutionGraph)
    ensures var members := ReadBack(GraphMembers(g));
      && |members| == 7 && Has(members, "schema_version", Text(Ascii("2")))
      && Has(members, "execution_id", Text(g.executionId)) && Has(members, "verity_record_id", Text(g.verityRecordId))
      && Has(members, "organization_id", Text(g.organizationId)) && Has(members, "status", Text(g.status))
      && Has(members, "nodes", Normal(Arr(NodeValues(g.nodes)))) && Has(members, "edges", Normal(Arr(EdgeValues(g.edges))))
  {
    var m := GraphMembers(g);
    NormalLength(m);
    HasAt(m, 0, "schema_version", Text(Ascii("2")));
    HasAt(m, 1, "execution_id", Text(g.executionId));
    HasAt(m, 2, "verity_record_id", Text(g.verityRecordId));
    HasAt(m, 3, "organization_id", Text(g.organizationId));
    HasAt(m, 4, "status", Text(g.status));
    NestedAt(m, 5, "nodes", Arr(NodeValues(g.nodes)));
    NestedAt(m, 6, "edges", Arr(EdgeValues(g.edges)));
  }

  lemma GraphShows(x: Execution, events: seq<Event>, g: ExecutionGraph)
    requires InSequence(events) && BuildExecutionGraph(x, events) == Some(g)
    requires forall e :: e in events ==> Canonicalize(Obj(e.metadata)).Ok?
    ensures ShowsGraph(ReadBack(GraphMembers(g)), x, events)
  {
    SortSorted(EventLe, events);
    GraphParts(g);
    NodesShow(events);
    EdgesShow(events, g.edges);
    assert Normal(Arr(NodeValues(g.nodes))) == Arr(Normal(Arr(NodeValues(g.nodes))).items);
    assert Normal(Arr(EdgeValues(g.edges))) == Arr(Normal(Arr(EdgeValues(g.edges))).items);
  }

  ghost predicate IsEnvelope(outer: seq<Member>, inner: seq<Member>)
  {
    && |outer| == 2 && Has(outer, "execution_graph_schema_version", Text(Ascii("2"))) && Has(outer, "graph", Obj(inner))
  }

  lemma EnvelopeParts(g: ExecutionGraph)
    ensures IsEnvelope(ReadBack(EnvelopeMembers(GraphValue(g))), ReadBack(GraphMembers(g)))
  {
    var m := EnvelopeMembers(GraphValue(g));
    NormalLength(m);
    HasAt(m, 0, "execution_graph_schema_version", Text(Ascii("2")));
    NestedAt(m, 1, "graph", GraphValue(g));
  }

  /** The text a graph hash covers reads back as an envelope around the graph: version, execution, one node
      for each event in sequence order with all its fields, and an edge exactly from each parent to its
      event, ordered by where they come from and lead to. */
  lemma GraphReads(sha: Sha, x: Execution, events: seq<Event>, g: ExecutionGraph)
    requires InSequence(events) && BuildExecutionGraph(x, events) == Some(g) && GraphHash(sha, GraphValue(g)).Some?
    requires forall e :: e in events ==> Canonicalize(Obj(e.metadata)).Ok?
    ensures exists text, outer, inner ::
              && GraphHash(sha, GraphValue(g)) == Some(Sha256Hex(sha, text)) && ReadsObject(text, outer)
              && IsEnvelope(outer, inner) && ShowsGraph(inner, x, events)
  {
    EnvelopeKeys(GraphValue(g));
    ObjectText(EnvelopeMembers(GraphValue(g)));
    EnvelopeParts(g);
    GraphShows(x, events, g);
    var text := Canonicalize(Envelope(GraphValue(g))).value;
    assert ReadsObject(text, ReadBack(EnvelopeMembers(GraphValue(g))));
  }
}
