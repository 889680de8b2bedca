/** What the service's calls write, column by column. */
module ServiceRows {
  import opened Basics
  import opened Sorting
  import opened Records
  import opened Ledgers
  import opened Kernel
  import opened Graph
  import opened VerifyGraphs
  import opened Rows
  import opened SealRows
  import opened Service
  import O = Outcomes

  // ---------------------------------------------------------------- the event before

  /** The id of an event of the execution with the greatest sequence; none before the first event. */
  ghost predicate NamesLast(events: seq<Event>, org: Str, id: Str, parents: seq<Str>)
  {
    && ((forall i :: 0 <= i < |events| ==> !OfExecution(events[i], org, id)) ==> parents == [])
    && ((exists i :: 0 <= i < |events| && OfExecution(events[i], org, id)) ==>
          exists i :: LastEvent(events, org, id, i) && parents == [events[i].id])
  }

  predicate LastEvent(events: seq<Event>, org: Str, id: Str, i: int)
  {
    && 0 <= i < |events| && OfExecution(events[i], org, id)
    && forall j :: 0 <= j < |events| && OfExecution(events[j], org, id) ==> events[j].eventSequence <= events[i].eventSequence
  }

  lemma ListedMembers(events: seq<Event>, org: Str, id: Str)
    ensures forall e :: e in ListEvents(events, org, id) <==> e in events && OfExecution(e, org, id)
    ensures Sorted(EventLe, ListEvents(events, org, id))
  {
    EventsOfMembers(events, org, id);
    SortKeeps(EventLe, EventsOf(events, org, id));
    SortSorts(EventLe, EventsOf(events, org, id));
  }

  lemma LastIsGreatest(listed: seq<Event>, e: Event)
    requires Sorted(EventLe, listed) && e in listed
    ensures e.eventSequence <= listed[|listed| - 1].eventSequence
  {
    var k :| 0 <= k < |listed| && listed[k] == e;
    assert k < |listed| - 1 ==> EventLe(listed[k], listed[|listed| - 1]);
  }

  lemma LastListed(events: seq<Event>, org: Str, id: Str) returns (i: int)
    requires ListEvents(events, org, id) != []
    ensures var listed := ListEvents(events, org, id);
      LastEvent(events, org, id, i) && events[i] == listed[|listed| - 1]
  {
    var listed := ListEvents(events, org, id);
    ListedMembers(events, org, id);
    assert listed[|listed| - 1] in events;
    i :| 0 <= i < |events| && events[i] == listed[|listed| - 1];
    forall j | 0 <= j < |events| && OfExecution(events[j], org, id) ensures events[j].eventSequence <= events[i].eventSequence {
      LastIsGreatest(listed, events[j]);
    }
  }

  lemma LastParentsAreLast(t: Tables, org: Str, id: Str)
    ensures NamesLast(t.events, org, id, LastParents(t, org, id))
  {
    ListedMembers(t.events, org, id);
    if ListEvents(t.events, org, id) == [] {
      forall i | 0 <= i < |t.events| ensures !OfExecution(t.events[i], org, id) {
        assert t.events[i] !in ListEvents(t.events, org, id);
      }
    } else {
      var i := LastListed(t.events, org, id);
    }
  }

  // ---------------------------------------------------------------- approvals

  /** One event behind the last, of this type. */
  ghost predicate EventBehind(t: Tables, events: seq<Event>, org: Str, id: Str, name: string, draft: EventInput)
  {
    exists e, parents :: events == t.events + [e] && NamesLast(t.events, org, id, parents)
      && EventSays(t.events, draft.(organizationId := org, executionId := id, eventType := Ascii(name), parentEventIds := parents), e)
  }

  /** What the entry of an approval request is given. */
  function AskInput(entry: EntryInput, org: Str, id: Str, requestHash: Option<Str>): EntryInput
  {
    entry.(organizationId := org, executionId := id, entryType := Ascii("approval_requested"), requestHash := requestHash,
           responseHash := None, executionGraphHash := None, executionStatus := Some(Ascii("waiting_approval")))
  }

  ghost predicate AskEntrySays(sha: Sha, t: Tables, u: Tables, org: Str, id: Str, entry: EntryInput)
  {
    exists requestHash :: OpeningHash(At(t.ledgers, org).entries, id, requestHash)
      && EntryWritten(sha, t.(events := u.events), u, AskInput(entry, org, id, requestHash))
  }

  lemma OneEventWrites(types: set<Str>, t: Tables, org: Str, id: Str, name: string, draft: EventInput, e: Event)
    requires NewEvent(types, t, Placed(draft, org, id, Ascii(name), LastParents(t, org, id))) == Ok(e)
    ensures EventBehind(t, t.events + [e], org, id, name, draft)
  {
    EventWrites(types, t, Placed(draft, org, id, Ascii(name), LastParents(t, org, id)), e);
    LastParentsAreLast(t, org, id);
  }

  /** An approval request that is not refused writes its event and an entry with the request hash the
      execution was opened with, and the execution waits. */
  lemma AskWrites(sha: Sha, types: set<Str>, t: Tables, u: Tables, org: Str, id: Str, draft: EventInput, entry: EntryInput)
    requires u == AskFor(sha, types, t, org, id, draft, entry) && u != t
    ensures EventBehind(t, u.events, org, id, "approval.requested", draft) && AskEntrySays(sha, t, u, org, id, entry)
  {
    var e := NewEvent(types, t, Placed(draft, org, id, AskType(), LastParents(t, org, id))).value;
    var requestHash := RequestOpenedHash(SortBy(SequenceLe, At(t.ledgers, org).entries), id);
    OneEventWrites(types, t, org, id, "approval.requested", draft, e);
    RequestHashIsFirst(At(t.ledgers, org).entries, id);
    EntryWrites(sha, AddEvent(t, e), u, AskEntry(t, entry, org, id));
    assert AskEntry(t, entry, org, id) == AskInput(entry, org, id, requestHash);
    assert t.(events := u.events) == AddEvent(t, e);
  }

  /** A decision writes its event; a grant on a waiting execution lets it run, and nothing else changes. */
  lemma DecideWrites(types: set<Str>, t: Tables, u: Tables, org: Str, id: Str, allow: bool, draft: EventInput)
    requires u == DecideOn(types, t, org, id, allow, draft) && u != t
    ensures EventBehind(t, u.events, org, id, if allow then "approval.approved" else "approval.rejected", draft)
    ensures id in t.executions && t.executions[id].organizationId == org
    ensures if allow && t.executions[id].status == Ascii("waiting_approval")
            then StatusSet(t.(events := u.events), u, org, id, Ascii("running"), None)
            else u == t.(events := u.events)
  {
    var name := if allow then "approval.approved" else "approval.rejected";
    assert DecisionType(allow) == Ascii(name);
    var e := NewEvent(types, t, Placed(draft, org, id, DecisionType(allow), LastParents(t, org, id))).value;
    OneEventWrites(types, t, org, id, name, draft, e);
    if allow && t.executions[id].status == WaitingApproval() {
      WaitingMayRun();
      StatusWrites(AddEvent(t, e), u, org, id, Running(), None);
    }
  }

  lemma WaitingMayRun()
    ensures MayBecome(Ascii("waiting_approval"), Ascii("running"))
  {
    StatusesDiffer();
    TableExactly(Ascii("waiting_approval"), Ascii("running"));
  }

  // ---------------------------------------------------------------- finalization

  /** The types of the prelude, in order. */
  function PreludeNames(o: FinalOutcome): seq<string>
  {
    match o
    case CompletedOutcome => ["validation.started", "validation.passed", "execution.completed", "release.started", "release.completed"]
    case FailedOutcome => ["validation.started", "validation.failed", "execution.failed", "release.blocked"]
    case BlockedOutcome => ["validation.started", "validation.failed", "execution.blocked", "release.blocked"]
  }

  /** The seal of a finalization: its type and status say the outcome, its prelude follows the parents read. */
  predicate FinalizesAs(input: SealInput, org: Str, id: Str, o: FinalOutcome, parents: seq<Str>, drafts: seq<EventInput>, seal: SealInput)
  {
    && input.organizationId == org && input.executionId == id && input.parentEventIds == parents
    && (input.entryType.SealFinal? <==> o.CompletedOutcome?)
    && (o.CompletedOutcome? ==> input.executionStatus.SealCompleted?)
    && (o.FailedOutcome? ==> input.executionStatus.SealFailed?)
    && (o.BlockedOutcome? ==> input.executionStatus.SealBlocked?)
    && |input.preludeEvents| == |drafts| == |PreludeNames(o)|
    && (forall k :: 0 <= k < |drafts| ==>
          input.preludeEvents[k] == drafts[k].(eventType := Ascii(PreludeNames(o)[k]), parentEventIds := if k == 0 then parents else []))
    && input == seal.(organizationId := org, executionId := id, entryType := input.entryType, executionStatus := input.executionStatus,
                      parentEventIds := parents, preludeEvents := input.preludeEvents)
  }

  lemma FinalSealIs(parents: seq<Str>, org: Str, id: Str, o: FinalOutcome, drafts: seq<EventInput>, seal: SealInput)
    requires |drafts| == |FinalTypes(o)|
    ensures FinalizesAs(FinalSeal(parents, org, id, o, drafts, seal), org, id, o, parents, drafts, seal)
  {
    forall k | 0 <= k < |drafts| ensures FinalTypes(o)[k] == Ascii(PreludeNames(o)[k]) {
      assert FinalTypes(o)[k] == O.TypeName(O.FinalPrelude(o)[k]);
    }
  }

  /** A finalization that is not refused writes the seal of its outcome. */
  lemma FinalizeWrites(sha: Sha, types: set<Str>, t: Tables, u: Tables, org: Str, id: Str, o: FinalOutcome, parents: seq<Str>,
                       drafts: seq<EventInput>, seal: SealInput)
    requires u == SealFrom(sha, types, t, org, id, o, parents, drafts, seal) && u != t
    ensures exists input :: FinalizesAs(input, org, id, o, parents, drafts, seal) && SealWritten(sha, t, u, input)
  {
    FinalSealIs(parents, org, id, o, drafts, seal);
    SealWrites(sha, types, t, u, FinalSeal(parents, org, id, o, drafts, seal));
  }

  // ---------------------------------------------------------------- opening

  /** What the entry of an opening is given. */
  function OpeningInput(entry: EntryInput, org: Str, id: Str): EntryInput
  {
    entry.(organizationId := org, executionId := id, entryType := Ascii("request_opened"), responseHash := None,
           executionGraphHash := None, executionStatus := None)
  }

  /** An opening that gets as far as its entry writes the row, its two events and the entry, and the execution
      runs. */
  lemma OpenGovernedWrites(sha: Sha, types: set<Str>, t: Tables, u: Tables, org: Str, id: Str, recordId: Str, drafts: seq<EventInput>,
                           entry: EntryInput)
    requires u == OpenGoverned(sha, types, t, org, id, recordId, drafts, entry) && u.ledgers != t.ledgers
    ensures exists created, v ::
              && Opened(t, created, org, id, recordId)
              && v == Chain(types, created, org, id, [Ascii("execution.created"), Ascii("identity.authenticated")], drafts, [])
              && |EventsFor(v.events, id)| >= 2 && EntryWritten(sha, v, u, OpeningInput(entry, org, id))
  {
    var created := OpenExecution(t, org, id, recordId).value;
    OpenWrites(t, created, org, id, recordId);
    assert OpenTypes() == [Ascii("execution.created"), Ascii("identity.authenticated")];
    var v := Chain(types, created, org, id, OpenTypes(), drafts, []);
    ChainKeepsLedgers(types, created, org, id, OpenTypes(), drafts, []);
    var input := EntryFor(entry, org, id, RequestOpened(), None);
    assert input == OpeningInput(entry, org, id);
    EntryWrites(sha, v, u, input);
  }

  lemma {:induction false} ChainKeepsLedgers(types: set<Str>, t: Tables, org: Str, id: Str, names: seq<Str>, drafts: seq<EventInput>,
                                             parents: seq<Str>)
    ensures Chain(types, t, org, id, names, drafts, parents).ledgers == t.ledgers
    decreases |names|
  {
    if names != [] && drafts != [] {
      var made := NewEvent(types, t, Placed(drafts[0], org, id, names[0], parents));
      if made.Ok? {
        ChainKeepsLedgers(types, AddEvent(t, made.value), org, id, names[1..], drafts[1..], [made.value.id]);
      }
    }
  }

  // ---------------------------------------------------------------- chains

  /** What event `k` of a chain is given: it names the one before, and the first one what the call names. */
  function Link(org: Str, id: Str, names: seq<Str>, drafts: seq<EventInput>, parents: seq<Str>, made: seq<Event>, k: nat): EventInput
    requires k < |names| && k < |drafts| && k <= |made|
  {
    drafts[k].(organizationId := org, executionId := id, eventType := names[k],
               parentEventIds := if k == 0 then parents else [made[k - 1].id])
  }

  ghost predicate Made(t: Tables, org: Str, id: Str, names: seq<Str>, drafts: seq<EventInput>, parents: seq<Str>,
                       made: seq<Event>, k: nat)
    requires k < |made| <= |names| && |made| <= |drafts|
  {
    EventSays(t.events + made[..k], Link(org, id, names, drafts, parents, made, k), made[k])
  }

  /** The next event throws. */
  predicate Stops(types: set<Str>, u: Tables, next: EventInput)
  {
    NewEvent(types, u, next).Err?
  }

  /** The events made, one behind the other, up to the last draft or the first that throws. */
  ghost predicate ChainSays(types: set<Str>, t: Tables, u: Tables, org: Str, id: Str, names: seq<Str>, drafts: seq<EventInput>,
                            parents: seq<Str>, made: seq<Event>)
  {
    && u == t.(events := t.events + made) && |made| <= |names| && |made| <= |drafts|
    && (forall k: nat :: k < |made| ==> Made(t, org, id, names, drafts, parents, made, k))
    && (|made| < |names| && |made| < |drafts| ==> Stops(types, u, Link(org, id, names, drafts, parents, made, |made|)))
  }

  lemma LinkNext(org: Str, id: Str, names: seq<Str>, drafts: seq<EventInput>, parents: seq<Str>, e: Event, made: seq<Event>, k: nat)
    requires k + 1 < |names| && k + 1 < |drafts| && k <= |made|
    ensures Link(org, id, names, drafts, parents, [e] + made, k + 1) == Link(org, id, names[1..], drafts[1..], [e.id], made, k)
  {
  }

  lemma MadeNext(t: Tables, org: Str, id: Str, names: seq<Str>, drafts: seq<EventInput>, parents: seq<Str>,
                 e: Event, made: seq<Event>, k: nat)
    requires |made| + 1 <= |names| && |made| + 1 <= |drafts| && k < |made|
    requires Made(AddEvent(t, e), org, id, names[1..], drafts[1..], [e.id], made, k)
    ensures Made(t, org, id, names, drafts, parents, [e] + made, k + 1)
  {
    var all := [e] + made;
    assert AddEvent(t, e).events + made[..k] == t.events + all[..k + 1];
    LinkNext(org, id, names, drafts, parents, e, made, k);
  }

  lemma MadeFirst(t: Tables, org: Str, id: Str, names: seq<Str>, drafts: seq<EventInput>, parents: seq<Str>, e: Event, made: seq<Event>)
    requires |made| + 1 <= |names| && |made| + 1 <= |drafts|
    requires EventSays(t.events, Placed(drafts[0], org, id, names[0], parents), e)
    ensures Made(t, org, id, names, drafts, parents, [e] + made, 0)
  {
    assert t.events + ([e] + made)[..0] == t.events;
  }

  lemma ChainCons(types: set<Str>, t: Tables, u: Tables, org: Str, id: Str, names: seq<Str>, drafts: seq<EventInput>,
                  parents: seq<Str>, e: Event, made: seq<Event>)
    requires names != [] && drafts != []
    requires EventSays(t.events, Placed(drafts[0], org, id, names[0], parents), e)
    requires ChainSays(types, AddEvent(t, e), u, org, id, names[1..], drafts[1..], [e.id], made)
    ensures ChainSays(types, t, u, org, id, names, drafts, parents, [e] + made)
  {
    var all := [e] + made;
    assert AddEvent(t, e).events + made == t.events + all;
    MadeFirst(t, org, id, names, drafts, parents, e, made);
    forall k: nat | k < |all| ensures Made(t, org, id, names, drafts, parents, all, k) {
      if k > 0 {
        MadeNext(t, org, id, names, drafts, parents, e, made, k - 1);
      }
    }
    if |all| < |names| && |all| < |drafts| {
      LinkNext(org, id, names, drafts, parents, e, made, |made|);
    }
  }

  /** A chain makes events of its types in order, each naming the one before. */
  lemma {:induction false} ChainWrites(types: set<Str>, t: Tables, org: Str, id: Str, names: seq<Str>, drafts: seq<EventInput>,
                                       parents: seq<Str>) returns (made: seq<Event>)
    ensures ChainSays(types, t, Chain(types, t, org, id, names, drafts, parents), org, id, names, drafts, parents, made)
    decreases |names|
  {
    made := [];
    assert t.events + [] == t.events;
    if names != [] && drafts != [] {
      var input := Placed(drafts[0], org, id, names[0], parents);
      if NewEvent(types, t, input).Ok? {
        var e := NewEvent(types, t, input).value;
        EventWrites(types, t, input, e);
        var rest := ChainWrites(types, AddEvent(t, e), org, id, names[1..], drafts[1..], [e.id]);
        ChainCons(types, t, Chain(types, t, org, id, names, drafts, parents), org, id, names, drafts, parents, e, rest);
        made := [e] + rest;
      }
    }
  }

  // ---------------------------------------------------------------- the calls

  /** The organization's execution, and it has not ended. */
  predicate OpenRow(t: Tables, org: Str, id: Str)
  {
    && id in t.executions && t.executions[id].organizationId == org
    && t.executions[id].status != Ascii("completed") && t.executions[id].status != Ascii("failed")
    && t.executions[id].status != Ascii("blocked") && t.executions[id].status != Ascii("cancelled")
  }

  lemma OpenRowExactly(t: Tables, org: Str, id: Str)
    ensures IsOpen(t, org, id) <==> OpenRow(t, org, id)
  {
  }

  ghost predicate Followed(types: set<Str>, t: Tables, u: Tables, org: Str, id: Str, names: seq<Str>, drafts: seq<EventInput>)
  {
    if !OpenRow(t, org, id) then u == t
    else exists parents, made ::
           NamesLast(t.events, org, id, parents) && ChainSays(types, t, u, org, id, names, drafts, parents, made)
  }

  ghost predicate AskedFor(sha: Sha, t: Tables, u: Tables, org: Str, id: Str, draft: EventInput, entry: EntryInput)
  {
    u == t || (OpenRow(t, org, id) && EventBehind(t, u.events, org, id, "approval.requested", draft) && AskEntrySays(sha, t, u, org, id, entry))
  }

  ghost predicate DecidedOn(t: Tables, u: Tables, org: Str, id: Str, allow: bool, draft: EventInput)
  {
    u == t || (
      && id in t.executions && t.executions[id].organizationId == org
      && EventBehind(t, u.events, org, id, if allow then "approval.approved" else "approval.rejected", draft)
      && if allow && t.executions[id].status == Ascii("waiting_approval")
         then StatusSet(t.(events := u.events), u, org, id, Ascii("running"), None)
         else u == t.(events := u.events))
  }

  ghost predicate FinalizedAs(sha: Sha, t: Tables, u: Tables, org: Str, id: Str, o: FinalOutcome, drafts: seq<EventInput>, seal: SealInput)
  {
    u == t || (
      && OpenRow(t, org, id) && (o.CompletedOutcome? ==> t.executions[id].status != Ascii("waiting_approval"))
      && exists parents, input ::
           && NamesLast(t.events, org, id, parents) && FinalizesAs(input, org, id, o, parents, drafts, seal)
           && SealWritten(sha, t, u, input))
  }

  lemma FollowServed(sha: Sha, types: set<Str>, t: Tables, org: Str, id: Str, path: Path, drafts: seq<EventInput>)
    ensures Followed(types, t, Serve(sha, types, t, Follow(org, id, path, drafts)), org, id, PathTypes(path), drafts)
  {
    OpenRowExactly(t, org, id);
    LastParentsAreLast(t, org, id);
    var made := ChainWrites(types, t, org, id, PathTypes(path), drafts, LastParents(t, org, id));
  }

  lemma AskServed(sha: Sha, types: set<Str>, t: Tables, org: Str, id: Str, draft: EventInput, entry: EntryInput)
    ensures AskedFor(sha, t, Serve(sha, types, t, AskApproval(org, id, draft, entry)), org, id, draft, entry)
  {
    OpenRowExactly(t, org, id);
    var u := AskFor(sha, types, t, org, id, draft, entry);
    if IsOpen(t, org, id) && u != t {
      AskWrites(sha, types, t, u, org, id, draft, entry);
    }
  }

  lemma DecideServed(sha: Sha, types: set<Str>, t: Tables, org: Str, id: Str, allow: bool, draft: EventInput)
    ensures DecidedOn(t, Serve(sha, types, t, Decide(org, id, allow, draft)), org, id, allow, draft)
  {
    var u := DecideOn(types, t, org, id, allow, draft);
    if u != t {
      DecideWrites(types, t, u, org, id, allow, draft);
    }
  }

  lemma FinalizeServed(sha: Sha, types: set<Str>, t: Tables, org: Str, id: Str, o: FinalOutcome, drafts: seq<EventInput>, seal: SealInput)
    ensures FinalizedAs(sha, t, Serve(sha, types, t, Finalize(org, id, o, drafts, seal)), org, id, o, drafts, seal)
  {
    OpenRowExactly(t, org, id);
    var parents := LastParents(t, org, id);
    var u := SealFrom(sha, types, t, org, id, o, parents, drafts, seal);
    if Finalizable(t, org, id, o) && u != t {
      LastParentsAreLast(t, org, id);
      FinalizeWrites(sha, types, t, u, org, id, o, parents, drafts, seal);
    }
  }
}
