/** Seals in every run of service calls, calls in flight included: what each covers, and exactly when the
    verifier accepts what the run leaves behind. */
module ServiceSeals {
  import opened Basics
  import opened Records
  import opened Graph
  import opened Ledgers
  import opened Kernel
  import opened VerifyGraphs
  import opened EventDag
  import opened Reachable
  import opened Admission
  import opened Service
  import opened Sources
  import Completeness
  import Exports
  import LateEvents
  import Seals

  // ---------------------------------------------------------------- what holds of every state of a run

  predicate Ended(t: Tables, id: Str)
  {
    id in t.executions && Terminal(t.executions[id].status)
  }

  /** The entry's hash is that of the graph over the first `n` events of its execution. */
  ghost predicate CoversTo(sha: Sha, t: Tables, e: LedgerEntry, n: nat)
  {
    var events := EventsFor(t.events, e.executionId);
    && e.executionId in t.executions && 0 < n <= |events| && e.executionGraphHash.Some?
    && HashGraph(sha, t.executions[e.executionId], events[..n]) == Ok(e.executionGraphHash.value)
  }

  /** The execution has ended; unless it is among the late ones, the entry covers all its events. */
  ghost predicate Covered(sha: Sha, t: Tables, late: set<Str>, e: LedgerEntry)
  {
    Ended(t, e.executionId) && exists n: nat ::
      CoversTo(sha, t, e, n) && (e.executionId !in late ==> n == |EventsFor(t.events, e.executionId)|)
  }

  /** Entry `i` covers only the first `n` events of the execution, and there are more. */
  ghost predicate OutgrownBy(sha: Sha, t: Tables, id: Str, org: Str, i: nat, n: nat)
  {
    && Bearing(t, org, i) && At(t.ledgers, org).entries[i].executionId == id
    && CoversTo(sha, t, At(t.ledgers, org).entries[i], n) && n < |EventsFor(t.events, id)|
  }

  ghost predicate Outgrown(sha: Sha, t: Tables, id: Str)
  {
    exists org, i: nat, n: nat :: OutgrownBy(sha, t, id, org, i, n)
  }

  /** `late` are the executions with an event behind a seal; whatever has ended is sealed. */
  ghost predicate Sealing(sha: Sha, interval: Str -> int, t: Tables, late: set<Str>)
  {
    && Kept(sha, t) && AllTiled(sha, interval, t)
    && (forall org, i: nat :: Bearing(t, org, i) ==> Covered(sha, t, late, At(t.ledgers, org).entries[i]))
    && (forall id :: id in late ==> Outgrown(sha, t, id))
    && (forall id :: Ended(t, id) ==> IsSealed(t, id))
  }

  // ---------------------------------------------------------------- steps that append events

  lemma CoversGrow(sha: Sha, t: Tables, u: Tables, id: Str, e: LedgerEntry, n: nat)
    requires OnlyEvents(t, u, id) && CoversTo(sha, t, e, n)
    ensures CoversTo(sha, u, e, n)
  {
    var a, b := EventsFor(t.events, e.executionId), EventsFor(u.events, e.executionId);
    assert b[..n] == b[..|a|][..n] == a[..n];
  }

  lemma OutgrownGrows(sha: Sha, t: Tables, u: Tables, id: Str, other: Str)
    requires OnlyEvents(t, u, id) && Outgrown(sha, t, other)
    ensures Outgrown(sha, u, other)
  {
    var org, i: nat, n: nat :| OutgrownBy(sha, t, other, org, i, n);
    CoversGrow(sha, t, u, id, At(t.ledgers, org).entries[i], n);
    assert OutgrownBy(sha, u, other, org, i, n);
  }

  /** Events behind a seal outgrow it. */
  lemma BehindSeal(sha: Sha, t: Tables, u: Tables, id: Str, late: set<Str>)
    requires OnlyEvents(t, u, id) && |EventsFor(u.events, id)| > |EventsFor(t.events, id)| && IsSealed(t, id)
    requires forall org, i: nat :: Bearing(t, org, i) ==> Covered(sha, t, late, At(t.ledgers, org).entries[i])
    ensures Outgrown(sha, u, id)
  {
    var org, i: nat :| Bearing(t, org, i) && At(t.ledgers, org).entries[i].executionId == id;
    var e := At(t.ledgers, org).entries[i];
    assert Covered(sha, t, late, e);
    var n: nat :| CoversTo(sha, t, e, n) && (e.executionId !in late ==> n == |EventsFor(t.events, e.executionId)|);
    CoversGrow(sha, t, u, id, e, n);
    assert OutgrownBy(sha, u, id, org, i, n);
  }

  lemma CoveredGrows(sha: Sha, t: Tables, u: Tables, id: Str, late: set<Str>, now: set<Str>, e: LedgerEntry)
    requires OnlyEvents(t, u, id) && Covered(sha, t, late, e) && late <= now
    requires e.executionId == id && id !in now ==> |EventsFor(u.events, id)| == |EventsFor(t.events, id)|
    ensures Covered(sha, u, now, e)
  {
    var n: nat :| CoversTo(sha, t, e, n) && (e.executionId !in late ==> n == |EventsFor(t.events, e.executionId)|);
    CoversGrow(sha, t, u, id, e, n);
  }

  function With(late: set<Str>, id: Str, behind: bool): set<Str>
  {
    if behind then late + {id} else late
  }

  lemma SealingEvents(sha: Sha, interval: Str -> int, t: Tables, u: Tables, id: Str, late: set<Str>)
    requires Sealing(sha, interval, t, late) && Kept(sha, u) && OnlyEvents(t, u, id)
    ensures Sealing(sha, interval, u, With(late, id, Ended(t, id) && |EventsFor(u.events, id)| > |EventsFor(t.events, id)|))
  {
    var now := With(late, id, Ended(t, id) && |EventsFor(u.events, id)| > |EventsFor(t.events, id)|);
    TiledStay(sha, interval, t, u);
    forall org, i: nat | Bearing(u, org, i) ensures Covered(sha, u, now, At(u.ledgers, org).entries[i]) {
      assert Bearing(t, org, i) && Covered(sha, t, late, At(t.ledgers, org).entries[i]);
      CoveredGrows(sha, t, u, id, late, now, At(t.ledgers, org).entries[i]);
    }
    forall other | other in now ensures Outgrown(sha, u, other) {
      if other in late {
        OutgrownGrows(sha, t, u, id, other);
      } else {
        BehindSeal(sha, t, u, id, late);
      }
    }
    SealedStay(t, u);
  }

  lemma SealedStay(t: Tables, u: Tables)
    requires u.executions == t.executions && u.ledgers == t.ledgers && forall id :: Ended(t, id) ==> IsSealed(t, id)
    ensures forall id :: Ended(u, id) ==> IsSealed(u, id)
  {
    forall id | Ended(u, id) ensures IsSealed(u, id) {
      assert Ended(t, id);
      var org, i: nat :| Bearing(t, org, i) && At(t.ledgers, org).entries[i].executionId == id;
      assert Bearing(u, org, i);
    }
  }

  // ---------------------------------------------------------------- steps that change rows

  /** At most a status changed, and no execution ended. */
  ghost predicate NoneEnds(t: Tables, u: Tables, id: Str)
  {
    && (u.executions == t.executions || Moves(t, u, id)) && u.events == t.events
    && (Ended(u, id) ==> Ended(t, id))
  }

  lemma CoversStay(sha: Sha, t: Tables, u: Tables, id: Str, e: LedgerEntry, n: nat)
    requires u.executions == t.executions || Moves(t, u, id)
    requires u.events == t.events && Ended(t, e.executionId) && CoversTo(sha, t, e, n)
    ensures Ended(u, e.executionId) && CoversTo(sha, u, e, n)
  {
    if u.executions != t.executions {
      TerminalAbsorbs(t.executions[e.executionId].status, u.executions[e.executionId].status);
      SameExecutionSameGraph(sha, t.executions[e.executionId], u.executions[e.executionId], EventsFor(t.events, e.executionId)[..n]);
    }
  }

  lemma CoveredStays(sha: Sha, t: Tables, u: Tables, id: Str, late: set<Str>, e: LedgerEntry)
    requires u.executions == t.executions || Moves(t, u, id)
    requires u.events == t.events && Covered(sha, t, late, e)
    ensures Covered(sha, u, late, e)
  {
    var n: nat :| CoversTo(sha, t, e, n) && (e.executionId !in late ==> n == |EventsFor(t.events, e.executionId)|);
    CoversStay(sha, t, u, id, e, n);
  }

  /** Entries only get more. */
  ghost predicate EntriesStay(t: Tables, u: Tables)
  {
    forall org, i: nat :: Bearing(t, org, i) ==> Bearing(u, org, i) && At(u.ledgers, org).entries[i] == At(t.ledgers, org).entries[i]
  }

  lemma OutgrownStays(sha: Sha, t: Tables, u: Tables, id: Str, late: set<Str>, other: Str)
    requires u.executions == t.executions || Moves(t, u, id)
    requires u.events == t.events && EntriesStay(t, u) && Outgrown(sha, t, other)
    requires forall org, i: nat :: Bearing(t, org, i) ==> Covered(sha, t, late, At(t.ledgers, org).entries[i])
    ensures Outgrown(sha, u, other)
  {
    var org, i: nat, n: nat :| OutgrownBy(sha, t, other, org, i, n);
    assert Covered(sha, t, late, At(t.ledgers, org).entries[i]);
    CoversStay(sha, t, u, id, At(t.ledgers, org).entries[i], n);
    assert OutgrownBy(sha, u, other, org, i, n);
  }

  lemma SealsStay(t: Tables, u: Tables, id: Str)
    requires EntriesStay(t, u) && (u.executions == t.executions || Moves(t, u, id))
    requires Ended(u, id) ==> Ended(t, id) || IsSealed(u, id)
    requires forall other :: Ended(t, other) ==> IsSealed(t, other)
    ensures forall other :: Ended(u, other) ==> IsSealed(u, other)
  {
    forall other | Ended(u, other) ensures IsSealed(u, other) {
      if other != id || Ended(t, id) {
        assert Ended(t, other);
        var org, i: nat :| Bearing(t, org, i) && At(t.ledgers, org).entries[i].executionId == other;
        assert Bearing(u, org, i);
      }
    }
  }

  lemma SealingMove(sha: Sha, interval: Str -> int, t: Tables, u: Tables, id: Str, late: set<Str>)
    requires Sealing(sha, interval, t, late) && Moves(t, u, id) && u.ledgers == t.ledgers && NoneEnds(t, u, id)
    ensures Sealing(sha, interval, u, late)
  {
    StatusKept(sha, t, u, id);
    TiledStay(sha, interval, t, u);
    forall org, i: nat | Bearing(u, org, i) ensures Covered(sha, u, late, At(u.ledgers, org).entries[i]) {
      assert Bearing(t, org, i);
      CoveredStays(sha, t, u, id, late, At(t.ledgers, org).entries[i]);
    }
    forall other | other in late ensures Outgrown(sha, u, other) {
      OutgrownStays(sha, t, u, id, late, other);
    }
    SealsStay(t, u, id);
  }

  lemma SealingOpen(sha: Sha, interval: Str -> int, t: Tables, id: Str, x: Execution, late: set<Str>)
    requires Sealing(sha, interval, t, late) && id !in t.executions && x.id == id && !Terminal(x.status)
    ensures Sealing(sha, interval, t.(executions := t.executions[id := x]), late)
  {
    var u := t.(executions := t.executions[id := x]);
    OpenKept(sha, t, id, x);
    TiledStay(sha, interval, t, u);
    forall org, i: nat | Bearing(u, org, i) ensures Covered(sha, u, late, At(u.ledgers, org).entries[i]) {
      assert Bearing(t, org, i) && Covered(sha, t, late, At(t.ledgers, org).entries[i]);
      CoversOpen(sha, t, id, x, late, At(t.ledgers, org).entries[i]);
    }
    forall other | other in late ensures Outgrown(sha, u, other) {
      var org, i: nat, n: nat :| OutgrownBy(sha, t, other, org, i, n);
      assert OutgrownBy(sha, u, other, org, i, n);
    }
    forall other | Ended(u, other) ensures IsSealed(u, other) {
      assert Ended(t, other);
      var org, i: nat :| Bearing(t, org, i) && At(t.ledgers, org).entries[i].executionId == other;
      assert Bearing(u, org, i);
    }
  }

  lemma CoversOpen(sha: Sha, t: Tables, id: Str, x: Execution, late: set<Str>, e: LedgerEntry)
    requires Covered(sha, t, late, e) && id !in t.executions
    ensures Covered(sha, t.(executions := t.executions[id := x]), late, e)
  {
    var n: nat :| CoversTo(sha, t, e, n) && (e.executionId !in late ==> n == |EventsFor(t.events, e.executionId)|);
    assert CoversTo(sha, t.(executions := t.executions[id := x]), e, n);
  }

  /** An entry that ends its execution must cover all its events; any other entry ends none. */
  ghost predicate EntryFits(sha: Sha, t: Tables, u: Tables, input: EntryInput)
    requires At(u.ledgers, input.organizationId).entries != []
  {
    var e := LastEntry(u, input.organizationId);
    if GraphBearing(e) then SealedOk(sha, u, e) else Ended(u, input.executionId) ==> Ended(t, input.executionId)
  }

  lemma NewIsCovered(sha: Sha, u: Tables, late: set<Str>, e: LedgerEntry)
    requires SealedOk(sha, u, e)
    ensures Covered(sha, u, late, e)
  {
    var events := EventsFor(u.events, e.executionId);
    assert events[..|events|] == events;
    assert CoversTo(sha, u, e, |events|);
  }

  lemma OneMoreStays(t: Tables, u: Tables, input: EntryInput, e: LedgerEntry)
    requires OneMore(t, u, input, e)
    ensures EntriesStay(t, u)
  {
  }

  lemma EntryCovered(sha: Sha, t: Tables, u: Tables, input: EntryInput, last: LedgerEntry, late: set<Str>, org: Str, i: nat)
    requires OneMore(t, u, input, last) && u.events == t.events && (u.executions == t.executions || Moves(t, u, input.executionId))
    requires Bearing(t, org, i) ==> Covered(sha, t, late, At(t.ledgers, org).entries[i])
    requires GraphBearing(last) ==> SealedOk(sha, u, last)
    requires Bearing(u, org, i)
    ensures Covered(sha, u, late, At(u.ledgers, org).entries[i])
  {
    if Bearing(t, org, i) {
      CoveredStays(sha, t, u, input.executionId, late, At(t.ledgers, org).entries[i]);
    } else {
      NewIsCovered(sha, u, late, last);
    }
  }

  lemma SealingEntry(sha: Sha, interval: Str -> int, t: Tables, u: Tables, input: EntryInput, late: set<Str>)
    requires Sealing(sha, interval, t, late) && AppendEntry(sha, t, input) == Ok(u) && input.interval == interval(input.organizationId)
    requires At(u.ledgers, input.organizationId).entries != [] && EntryFits(sha, t, u, input)
    ensures Sealing(sha, interval, u, late)
  {
    EntryKept(sha, t, u, input);
    EntryTiled(sha, interval, t, u, input);
    AppendEntryEffect(sha, t, input);
    AppendedEntry(sha, t, u, input);
    var last := LastEntry(u, input.organizationId);
    OneMoreStays(t, u, input, last);
    forall org, i: nat | Bearing(u, org, i) ensures Covered(sha, u, late, At(u.ledgers, org).entries[i]) {
      EntryCovered(sha, t, u, input, last, late, org, i);
    }
    forall other | other in late ensures Outgrown(sha, u, other) {
      OutgrownStays(sha, t, u, input.executionId, late, other);
    }
    NewSeals(t, u, input, last);
    SealsStay(t, u, input.executionId);
  }

  lemma NewSeals(t: Tables, u: Tables, input: EntryInput, e: LedgerEntry)
    requires OneMore(t, u, input, e)
    ensures GraphBearing(e) ==> IsSealed(u, input.executionId)
  {
    if GraphBearing(e) {
      assert Bearing(u, input.organizationId, |At(t.ledgers, input.organizationId).entries|);
    }
  }

  // ---------------------------------------------------------------- calls that append behind the end

  /** The call appends to an execution that has ended, told from the tables before it. */
  ghost predicate AppendsLate(types: set<Str>, t: Tables, call: ServiceCall)
  {
    Ended(t, call.id) &&
    match call
    case Decide(org, id, allow, draft) => Recordable(types, t, Placed(draft, org, id, DecisionType(allow), LastParents(t, org, id)))
    case Resume(org, id, path, from, parent, drafts) =>
      RestOf(path, from) != [] && drafts != [] && Recordable(types, t, Placed(drafts[0], org, id, RestOf(path, from)[0], [parent]))
    case SealChecked(org, id, o, parent, drafts, seal) =>
      |drafts| == |FinalTypes(o)| && Sealable(types, t, FinalSeal([parent], org, id, o, drafts, seal))
    case _ => false
  }

  /** One checkpoint interval per organization. */
  predicate OneInterval(interval: Str -> int, call: ServiceCall)
  {
    match call
    case Open(org, _, _, _, entry) => entry.interval == interval(org)
    case AskApproval(org, _, _, entry) => entry.interval == interval(org)
    case Finalize(org, _, _, _, seal) => seal.interval == interval(org)
    case SealChecked(org, _, _, _, _, seal) => seal.interval == interval(org)
    case _ => true
  }

  /** The executions that got an event behind their end. */
  ghost function LateIds(sha: Sha, types: set<Str>, calls: seq<ServiceCall>): set<Str>
  {
    if calls == [] then {}
    else
      var rest, last := calls[..|calls| - 1], calls[|calls| - 1];
      With(LateIds(sha, types, rest), last.id, AppendsLate(types, ServeAll(sha, types, rest), last))
  }

  lemma {:induction false} ChainStaysKept(sha: Sha, types: set<Str>, t: Tables, org: Str, id: Str, names: seq<Str>,
                                          drafts: seq<EventInput>, parents: seq<Str>)
    requires Kept(sha, t)
    ensures Kept(sha, Chain(types, t, org, id, names, drafts, parents))
    decreases |names|
  {
    if names != [] && drafts != [] {
      var input := Placed(drafts[0], org, id, names[0], parents);
      if NewEvent(types, t, input).Ok? {
        EventKept(sha, types, t, input);
        var e := NewEvent(types, t, input).value;
        ChainStaysKept(sha, types, AddEvent(t, e), org, id, names[1..], drafts[1..], [e.id]);
      }
    }
  }

  /** A chain appends exactly when its first event can be recorded. */
  lemma ChainAppends(sha: Sha, types: set<Str>, t: Tables, org: Str, id: Str, names: seq<Str>, drafts: seq<EventInput>, parents: seq<Str>)
    requires Kept(sha, t)
    ensures |EventsFor(Chain(types, t, org, id, names, drafts, parents).events, id)| > |EventsFor(t.events, id)| <==>
      names != [] && drafts != [] && Recordable(types, t, Placed(drafts[0], org, id, names[0], parents))
  {
    if names != [] && drafts != [] {
      var input := Placed(drafts[0], org, id, names[0], parents);
      EventAcceptedExactly(sha, types, t, input);
      if NewEvent(types, t, input).Ok? {
        var e := NewEvent(types, t, input).value;
        EventGrows(types, t, input);
        ChainOnlyEvents(types, AddEvent(t, e), org, id, names[1..], drafts[1..], [e.id]);
      }
    }
  }

  lemma SealingChain(sha: Sha, interval: Str -> int, types: set<Str>, t: Tables, org: Str, id: Str, names: seq<Str>,
                     drafts: seq<EventInput>, parents: seq<Str>, late: set<Str>)
    requires Sealing(sha, interval, t, late)
    ensures Sealing(sha, interval, Chain(types, t, org, id, names, drafts, parents),
                    With(late, id, Ended(t, id) && names != [] && drafts != []
                                   && Recordable(types, t, Placed(drafts[0], org, id, names[0], parents))))
  {
    ChainStaysKept(sha, types, t, org, id, names, drafts, parents);
    ChainOnlyEvents(types, t, org, id, names, drafts, parents);
    ChainAppends(sha, types, t, org, id, names, drafts, parents);
    SealingEvents(sha, interval, t, Chain(types, t, org, id, names, drafts, parents), id, late);
  }

  // ---------------------------------------------------------------- each call

  lemma PlainEntry(sha: Sha, interval: Str -> int, t: Tables, u: Tables, input: EntryInput, late: set<Str>)
    requires Sealing(sha, interval, t, late) && AppendEntry(sha, t, input) == Ok(u) && input.interval == interval(input.organizationId)
    requires input.executionGraphHash.None? && StatusEffect(input).Some? && !Terminal(StatusEffect(input).value.0)
    ensures Sealing(sha, interval, u, late)
  {
    AppendEntryEffect(sha, t, input);
    AppendedEntry(sha, t, u, input);
    SealingEntry(sha, interval, t, u, input, late);
  }

  lemma OpenStatuses()
    ensures !Terminal(Created()) && !Terminal(Running()) && !Terminal(WaitingApproval())
    ensures ApprovalRequested() != RequestOpened()
  {
    assert |Completed()| == 9 && |Failed()| == 6 && |Blocked()| == 7 && |Cancelled()| == 9;
    assert |Created()| == 7 && |Running()| == 7 && |WaitingApproval()| == 16;
    assert Blocked()[0] == 98 && Created()[0] == 99 && Running()[0] == 114;
    assert |ApprovalRequested()| == 18 && |RequestOpened()| == 14;
  }

  lemma OpenSeals(sha: Sha, interval: Str -> int, types: set<Str>, t: Tables, org: Str, id: Str, recordId: Str,
                  drafts: seq<EventInput>, entry: EntryInput, late: set<Str>)
    requires Sealing(sha, interval, t, late) && entry.interval == interval(org)
    ensures Sealing(sha, interval, OpenGoverned(sha, types, t, org, id, recordId, drafts, entry), late)
  {
    if OpenExecution(t, org, id, recordId).Ok? {
      var created := OpenExecution(t, org, id, recordId).value;
      OpenStatuses();
      SealingOpen(sha, interval, t, id, Execution(id, recordId, org, Created(), None), late);
      SealingChain(sha, interval, types, created, org, id, OpenTypes(), drafts, [], late);
      var u := Chain(types, created, org, id, OpenTypes(), drafts, []);
      var input := EntryFor(entry, org, id, RequestOpened(), None);
      if AppendEntry(sha, u, input).Ok? {
        PlainEntry(sha, interval, u, AppendEntry(sha, u, input).value, input, late);
      }
    }
  }

  lemma OneEventSeals(sha: Sha, interval: Str -> int, types: set<Str>, t: Tables, input: EventInput, late: set<Str>)
    requires Sealing(sha, interval, t, late) && NewEvent(types, t, input).Ok?
    ensures Sealing(sha, interval, AddEvent(t, NewEvent(types, t, input).value), With(late, input.executionId, Ended(t, input.executionId)))
  {
    EventKept(sha, types, t, input);
    EventGrows(types, t, input);
    SealingEvents(sha, interval, t, AddEvent(t, NewEvent(types, t, input).value), input.executionId, late);
  }

  lemma AskSeals(sha: Sha, interval: Str -> int, types: set<Str>, t: Tables, org: Str, id: Str, draft: EventInput, entry: EntryInput,
                 late: set<Str>)
    requires Sealing(sha, interval, t, late) && IsOpen(t, org, id) && entry.interval == interval(org)
    ensures Sealing(sha, interval, AskFor(sha, types, t, org, id, draft, entry), late)
  {
    var input := Placed(draft, org, id, AskType(), LastParents(t, org, id));
    if NewEvent(types, t, input).Ok? {
      OneEventSeals(sha, interval, types, t, input, late);
      var v, asked := AddEvent(t, NewEvent(types, t, input).value), AskEntry(t, entry, org, id);
      OpenStatuses();
      if AppendEntry(sha, v, asked).Ok? {
        PlainEntry(sha, interval, v, AppendEntry(sha, v, asked).value, asked, late);
      }
    }
  }

  lemma DecideSeals(sha: Sha, interval: Str -> int, types: set<Str>, t: Tables, org: Str, id: Str, allow: bool, draft: EventInput,
                    late: set<Str>)
    requires Sealing(sha, interval, t, late)
    ensures Sealing(sha, interval, DecideOn(types, t, org, id, allow, draft),
                    With(late, id, AppendsLate(types, t, Decide(org, id, allow, draft))))
  {
    var input := Placed(draft, org, id, DecisionType(allow), LastParents(t, org, id));
    EventAcceptedExactly(sha, types, t, input);
    if NewEvent(types, t, input).Ok? {
      OneEventSeals(sha, interval, types, t, input, late);
      ResumeSeals(sha, interval, types, t, org, id, allow, draft, With(late, id, Ended(t, id)));
    }
  }

  lemma ResumeSeals(sha: Sha, interval: Str -> int, types: set<Str>, t: Tables, org: Str, id: Str, allow: bool, draft: EventInput,
                    late: set<Str>)
    requires NewEvent(types, t, Placed(draft, org, id, DecisionType(allow), LastParents(t, org, id))).Ok?
    requires var v := AddEvent(t, NewEvent(types, t, Placed(draft, org, id, DecisionType(allow), LastParents(t, org, id))).value);
      Sealing(sha, interval, v, late)
    ensures Sealing(sha, interval, DecideOn(types, t, org, id, allow, draft), late)
  {
    var v := AddEvent(t, NewEvent(types, t, Placed(draft, org, id, DecisionType(allow), LastParents(t, org, id))).value);
    var u := DecideOn(types, t, org, id, allow, draft);
    if u != v {
      OpenStatuses();
      SealingMove(sha, interval, v, u, id, late);
    }
  }

  lemma FinalChained(parents: seq<Str>, org: Str, id: Str, o: FinalOutcome, drafts: seq<EventInput>, seal: SealInput)
    requires |drafts| == |FinalTypes(o)|
    ensures Chained(FinalSeal(parents, org, id, o, drafts, seal))
  {
  }

  lemma SealSeals(sha: Sha, interval: Str -> int, types: set<Str>, t: Tables, u: Tables, input: SealInput, late: set<Str>)
    requires Sealing(sha, interval, t, late) && SealExecution(sha, types, t, input) == Ok(u)
    requires input.interval == interval(input.organizationId)
    ensures Sealing(sha, interval, u, With(late, input.executionId, Ended(t, input.executionId)))
  {
    var v, x, hash, entry := Seals.SealStages(sha, types, t, u, input);
    SealingEvents(sha, interval, t, v, input.executionId, late);
    Seals.SealedEntryOk(sha, v, u, x, input, entry, hash);
    SealingEntry(sha, interval, v, u, entry, With(late, input.executionId, Ended(t, input.executionId)));
  }

  lemma SealFromSeals(sha: Sha, interval: Str -> int, types: set<Str>, t: Tables, org: Str, id: Str, o: FinalOutcome, parents: seq<Str>,
                      drafts: seq<EventInput>, seal: SealInput, late: set<Str>)
    requires Sealing(sha, interval, t, late) && seal.interval == interval(org)
    ensures Sealing(sha, interval, SealFrom(sha, types, t, org, id, o, parents, drafts, seal),
                    With(late, id, Ended(t, id) && |drafts| == |FinalTypes(o)|
                                   && Sealable(types, t, FinalSeal(parents, org, id, o, drafts, seal))))
  {
    if |drafts| == |FinalTypes(o)| {
      var input := FinalSeal(parents, org, id, o, drafts, seal);
      FinalChained(parents, org, id, o, drafts, seal);
      SealAcceptedExactly(sha, types, t, input);
      if SealExecution(sha, types, t, input).Ok? {
        SealSeals(sha, interval, types, t, SealExecution(sha, types, t, input).value, input, late);
      }
    }
  }

  lemma ServeSeals(sha: Sha, interval: Str -> int, types: set<Str>, t: Tables, call: ServiceCall, late: set<Str>)
    requires Sealing(sha, interval, t, late) && OneInterval(interval, call)
    ensures Sealing(sha, interval, Serve(sha, types, t, call), With(late, call.id, AppendsLate(types, t, call)))
  {
    match call
    case Open(org, id, recordId, drafts, entry) => OpenSeals(sha, interval, types, t, org, id, recordId, drafts, entry, late);
    case Follow(org, id, path, drafts) =>
      if IsOpen(t, org, id) {
        SealingChain(sha, interval, types, t, org, id, PathTypes(path), drafts, LastParents(t, org, id), late);
      }
    case AskApproval(org, id, draft, entry) =>
      if IsOpen(t, org, id) {
        AskSeals(sha, interval, types, t, org, id, draft, entry, late);
      }
    case Decide(org, id, allow, draft) => DecideSeals(sha, interval, types, t, org, id, allow, draft, late);
    case Finalize(org, id, o, drafts, seal) =>
      if Finalizable(t, org, id, o) {
        SealFromSeals(sha, interval, types, t, org, id, o, LastParents(t, org, id), drafts, seal, late);
      }
    case Resume(org, id, path, from, parent, drafts) =>
      SealingChain(sha, interval, types, t, org, id, RestOf(path, from), drafts, [parent], late);
    case SealChecked(org, id, o, parent, drafts, seal) =>
      SealFromSeals(sha, interval, types, t, org, id, o, [parent], drafts, seal, late);
  }

  // ---------------------------------------------------------------- every run

  lemma SealingStart(sha: Sha, interval: Str -> int)
    ensures Sealing(sha, interval, NoRows(), {})
  {
    Seals.RunIsKept(sha, {}, []);
    Seals.RunIsTiled(sha, {}, interval, []);
  }

  /** In every run, each seal covers a non-empty stretch of its execution's events from the first on, and
      all of them unless a call appended behind the end. */
  lemma {:induction false} RunSeals(sha: Sha, types: set<Str>, interval: Str -> int, calls: seq<ServiceCall>)
    requires forall i :: 0 <= i < |calls| ==> OneInterval(interval, calls[i])
    ensures Sealing(sha, interval, ServeAll(sha, types, calls), LateIds(sha, types, calls))
  {
    if calls == [] {
      SealingStart(sha, interval);
    } else {
      var rest, last := calls[..|calls| - 1], calls[|calls| - 1];
      RunSeals(sha, types, interval, rest);
      ServeSeals(sha, interval, types, ServeAll(sha, types, rest), last, LateIds(sha, types, rest));
    }
  }

  /** No execution of the organization got an event behind its end. */
  predicate NoneLate(t: Tables, org: Str, late: set<Str>)
  {
    forall id :: id in late ==> GetExecution(t, org, id).None?
  }

  lemma TimelyIsRight(sha: Sha, interval: Str -> int, t: Tables, org: Str, late: set<Str>)
    requires Sealing(sha, interval, t, late) && NoneLate(t, org, late)
    ensures AllRight(sha, t, org)
  {
    assert ChainKept(sha, t, org);
    forall i: nat | Bearing(t, org, i) ensures RightEntry(sha, t, At(t.ledgers, org).entries[i]) {
      var e := At(t.ledgers, org).entries[i];
      assert EntrySound(sha, org, At(t.ledgers, org).entries, i) && Named(t, e) && Covered(sha, t, late, e);
      var n: nat :| CoversTo(sha, t, e, n) && (e.executionId !in late ==> n == |EventsFor(t.events, e.executionId)|);
      assert EventsFor(t.events, e.executionId)[..n] == EventsFor(t.events, e.executionId);
    }
  }

  /** The graphs over all beginnings of all event lists. */
  ghost function PrefixGraphs(t: Tables): set<Bytes>
  {
    set id, n | id in t.executions && 0 <= n <= |EventsFor(t.events, id)|
      :: GraphBytes(t.executions[id], EventsFor(t.events, id)[..n])
  }

  lemma OwnOrganization(sha: Sha, t: Tables, org: Str, i: nat)
    requires Kept(sha, t) && Bearing(t, org, i)
    ensures GetExecution(t, org, At(t.ledgers, org).entries[i].executionId).Some?
  {
    assert ChainKept(sha, t, org) && EntrySound(sha, org, At(t.ledgers, org).entries, i);
    assert Named(t, At(t.ledgers, org).entries[i]);
  }

  lemma LateIsWrong(sha: Sha, interval: Str -> int, t: Tables, org: Str, late: set<Str>, id: Str)
    requires Sealing(sha, interval, t, late) && id in late && GetExecution(t, org, id).Some?
    requires CollisionFreeOn(sha, PrefixGraphs(t))
    ensures !AllRight(sha, t, org)
  {
    assert Outgrown(sha, t, id);
    var o, i: nat, n: nat :| OutgrownBy(sha, t, id, o, i, n);
    OwnOrganization(sha, t, o, i);
    OutgrownIsWrong(sha, t, At(t.ledgers, o).entries[i], n);
    assert Bearing(t, org, i);
  }

  lemma OutgrownIsWrong(sha: Sha, t: Tables, e: LedgerEntry, n: nat)
    requires Kept(sha, t) && CoversTo(sha, t, e, n) && n < |EventsFor(t.events, e.executionId)|
    requires CollisionFreeOn(sha, PrefixGraphs(t))
    ensures !RightEntry(sha, t, e)
  {
    var x, all := t.executions[e.executionId], EventsFor(t.events, e.executionId);
    assert ExecutionSound(t, e.executionId);
    DagHashes(sha, x, all);
    assert all[..|all|] == all;
    assert GraphBytes(x, all[..n]) in PrefixGraphs(t) && GraphBytes(x, all[..|all|]) in PrefixGraphs(t);
    MoreEventsOtherHash(sha, x, all[..n], all);
  }

  /** Every run of service calls, calls in flight included, in which each organization keeps to one
      interval: the export of an organization is accepted exactly when no call appended to one of its
      executions after its end, unless the graphs of two beginnings of event lists collide. */
  lemma ServiceExports(sha: Sha, types: set<Str>, interval: Str -> int, calls: seq<ServiceCall>, org: Str, ids: seq<Str>)
    requires forall i :: 0 <= i < |calls| ==> OneInterval(interval, calls[i])
    requires Exports.Lists(ServeAll(sha, types, calls), org, ids)
    requires forall x :: x in ids ==> x in ServeAll(sha, types, calls).executions
    ensures var t, late := ServeAll(sha, types, calls), LateIds(sha, types, calls);
      && (NoneLate(t, org, late) ==> LateEvents.Accepted(sha, t, org, ids))
      && (CollisionFreeOn(sha, PrefixGraphs(t)) ==> (LateEvents.Accepted(sha, t, org, ids) <==> NoneLate(t, org, late)))
  {
    var t, late := ServeAll(sha, types, calls), LateIds(sha, types, calls);
    RunSeals(sha, types, interval, calls);
    Completeness.TiledAccepted(sha, interval, t, org, ids);
    if NoneLate(t, org, late) {
      TimelyIsRight(sha, interval, t, org, late);
    } else if CollisionFreeOn(sha, PrefixGraphs(t)) {
      var id :| id in late && GetExecution(t, org, id).Some?;
      LateIsWrong(sha, interval, t, org, late, id);
    }
  }

  /** Of two finalizations that both passed the guard, the second seals only with the outcome of the first. */
  lemma OtherOutcomeRefused(sha: Sha, types: set<Str>, t: Tables, org: Str, id: Str, o: FinalOutcome, parent: Str,
                            drafts: seq<EventInput>, seal: SealInput)
    requires Kept(sha, t) && Ended(t, id) && t.executions[id].status != StatusText(OutcomeSeal(o).1)
    ensures Serve(sha, types, t, SealChecked(org, id, o, parent, drafts, seal)) == t
  {
    if |drafts| == |FinalTypes(o)| {
      FinalChained([parent], org, id, o, drafts, seal);
      SealAcceptedExactly(sha, types, t, FinalSeal([parent], org, id, o, drafts, seal));
      TerminalAbsorbs(t.executions[id].status, StatusText(OutcomeSeal(o).1));
    }
  }

  /** An approval request needs no guard: of an ended execution it rolls back. */
  lemma AskOnEnded(sha: Sha, types: set<Str>, t: Tables, org: Str, id: Str, draft: EventInput, entry: EntryInput)
    requires Kept(sha, t) && Ended(t, id)
    ensures AskFor(sha, types, t, org, id, draft, entry) == t
  {
    var input := Placed(draft, org, id, AskType(), LastParents(t, org, id));
    if NewEvent(types, t, input).Ok? {
      var v := AddEvent(t, NewEvent(types, t, input).value);
      EventKept(sha, types, t, input);
      OpenStatuses();
      EntryAcceptedExactly(sha, v, AskEntry(t, entry, org, id));
      TerminalAbsorbs(t.executions[id].status, WaitingApproval());
    }
  }
}
