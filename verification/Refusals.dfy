/** What the kernel takes: why an event append is refused, which exception, exactly; and which entries are
    appended. */
module Refusals {
  import opened Basics
  import opened Canonical
  import opened Records
  import opened Graph
  import opened Ledgers
  import opened Evidence
  import opened Kernel
  import opened VerifyGraphs
  import opened EventDag
  import opened Reachable
  import opened Admission
  import opened PrintedForm
  import opened Rows
  import opened Calendar
  import Hex

  /** Nothing, or the text of 32 bytes. */
  ghost predicate IsHashText(h: Option<Str>)
  {
    h.Some? ==> Hex.IsDigestText(h.value)
  }

  lemma HashTextExactly(h: Option<Str>)
    ensures HashOk(h) <==> IsHashText(h)
  {
    if h.Some? {
      Hex.DigestTextExactly(h.value);
    }
  }

  /** The evidence of the event is well formed. */
  ghost predicate EvidenceIs(input: EventInput)
  {
    && IsHashText(input.inputHash) && IsHashText(input.outputHash) && Canonicalize(Obj(input.metadata)).Ok?
    && IsTimeText(input.occurredAtCanonical)
  }

  lemma EvidenceExactly(types: set<Str>, input: EventInput)
    ensures EvidenceFault(types, input)
         == if input.eventType !in types then Some(UnknownEventType) else if !EvidenceIs(input) then Some(InvalidEvidence) else None
  {
    HashTextExactly(input.inputHash);
    HashTextExactly(input.outputHash);
    AcceptsExactlyInstants(input.occurredAtCanonical);
  }

  /** What is wrong with a parent that is no event of the execution. */
  ghost predicate Blames(t: Tables, input: EventInput, p: Str, f: Fault)
  {
    match f
    case ParentNotFound => forall e :: e in t.events ==> e.id != p
    case ParentCrossOrganization => exists e :: e in t.events && e.id == p && e.organizationId != input.organizationId
    case ParentCrossExecution =>
      exists e :: e in t.events && e.id == p && e.organizationId == input.organizationId && e.executionId != input.executionId
    case _ => false
  }

  /** The least of the given parents that is no event of the execution. */
  ghost predicate FirstStranger(t: Tables, input: EventInput, p: Str)
  {
    && p in input.parentEventIds && !OwnEvent(t, input.executionId, p)
    && forall q :: q in input.parentEventIds && !OwnEvent(t, input.executionId, q) ==> q == p || Before(p, q)
  }

  ghost predicate AllOwn(t: Tables, input: EventInput)
  {
    forall p :: p in input.parentEventIds ==> OwnEvent(t, input.executionId, p)
  }

  lemma {:induction false} OnlyOne(t: Tables, p: Str, parent: Event)
    requires DistinctIds(t.events) && parent in t.events && parent.id == p
    ensures forall e :: e in t.events && e.id == p ==> e == parent
  {
    forall e | e in t.events && e.id == p ensures e == parent {
      var i :| 0 <= i < |t.events| && t.events[i] == e;
      var j :| 0 <= j < |t.events| && t.events[j] == parent;
    }
  }

  /** A parent passes when it is an event of the execution; otherwise exactly its own fault is found. */
  lemma {:induction false} StrangerBlamed(sha: Sha, t: Tables, input: EventInput, p: Str)
    requires Kept(sha, t) && GetExecution(t, input.organizationId, input.executionId).Some?
    ensures var f := ParentFault(t.events, input, NextSequence(t, input), p);
      (f.None? <==> OwnEvent(t, input.executionId, p)) && (f.Some? ==> forall g :: Blames(t, input, p, g) <==> g == f.value)
  {
    FindEventFinds(t.events, p);
    if OwnEvent(t, input.executionId, p) {
      ParentAccepted(sha, t, input, p);
    } else if ParentFault(t.events, input, NextSequence(t, input), p) == None {
      ParentRefused(sha, t, input, p);
    } else if FindEvent(t.events, p).Some? {
      var parent := FindEvent(t.events, p).value;
      OnlyOne(t, p, parent);
      ItsOwn(t, parent);
    }
  }

  lemma {:induction false} ItsOwn(t: Tables, e: Event)
    requires e in t.events
    ensures OwnEvent(t, e.executionId, e.id)
  {
    var mine := EventsFor(t.events, e.executionId);
    EventsForFinds(t.events, e.executionId);
    var m :| 0 <= m < |mine| && mine[m] == e;
  }

  /** The first fault of a list is that of the first parent at fault. */
  lemma {:induction false} FirstFault(events: seq<Event>, input: EventInput, sequence: int, parents: seq<Str>) returns (k: nat)
    requires ParentsFault(events, input, sequence, parents).Some?
    ensures k < |parents| && ParentFault(events, input, sequence, parents[k]) == ParentsFault(events, input, sequence, parents)
    ensures forall j :: 0 <= j < k ==> ParentFault(events, input, sequence, parents[j]) == None
    decreases |parents|
  {
    if ParentFault(events, input, sequence, parents[0]).Some? {
      k := 0;
    } else {
      var rest := FirstFault(events, input, sequence, parents[1..]);
      k := rest + 1;
    }
  }

  lemma {:induction false} LeastIsFirst(sha: Sha, t: Tables, input: EventInput) returns (p: Str)
    requires Kept(sha, t) && GetExecution(t, input.organizationId, input.executionId).Some?
    requires ParentsFault(t.events, input, NextSequence(t, input), UniqueSortedIds(input.parentEventIds)).Some?
    ensures FirstStranger(t, input, p)
    ensures forall g :: Blames(t, input, p, g) <==>
      Some(g) == ParentsFault(t.events, input, NextSequence(t, input), UniqueSortedIds(input.parentEventIds))
  {
    var parents, sequence := UniqueSortedIds(input.parentEventIds), NextSequence(t, input);
    var k := FirstFault(t.events, input, sequence, parents);
    p := parents[k];
    ParentsSorted(input.parentEventIds);
    StrangerBlamed(sha, t, input, p);
    forall q | q in input.parentEventIds && !OwnEvent(t, input.executionId, q) ensures q == p || Before(p, q) {
      assert q in parents;
      var j :| 0 <= j < |parents| && parents[j] == q;
      StrangerBlamed(sha, t, input, q);
    }
  }

  lemma {:induction false} OneFirst(t: Tables, input: EventInput, p: Str, q: Str)
    requires FirstStranger(t, input, p) && FirstStranger(t, input, q)
    ensures p == q
  {
    assert p == q || (Before(p, q) && Before(q, p));
    NotBoth(p, q);
  }

  lemma {:induction false} NotBoth(a: Str, b: Str)
    ensures !(Before(a, b) && Before(b, a))
  {
    forall k: nat, m: nat ensures !(BeforeAt(a, b, k) && BeforeAt(b, a, m)) {
      assert k < m && m <= |a| ==> a[..m][k] == a[k];
      assert k < m && m <= |b| ==> b[..m][k] == b[k];
      assert m < k && k <= |a| ==> a[..k][m] == a[m];
      assert m < k && k <= |b| ==> b[..k][m] == b[m];
    }
  }

  /** Why the append is refused; its parents are looked at in increasing order of their ids. */
  ghost predicate RefusedFor(types: set<Str>, t: Tables, input: EventInput, f: Fault)
  {
    var known := GetExecution(t, input.organizationId, input.executionId).Some?;
    if input.eventType !in types then f == UnknownEventType
    else if !EvidenceIs(input) then f == InvalidEvidence
    else if !known then f == ExecutionNotFound
    else if !AllOwn(t, input) then exists p :: FirstStranger(t, input, p) && Blames(t, input, p, f)
    else f == Constraint && (FindEvent(t.events, input.id).Some? || |EventsFor(t.events, input.executionId)| >= 0x7FFF_FFFF)
  }

  /** An event append throws an exception exactly for its reason. */
  lemma {:induction false} RefusedExactly(sha: Sha, types: set<Str>, t: Tables, input: EventInput, f: Fault)
    requires Kept(sha, t)
    ensures NewEvent(types, t, input) == Err(f) <==> RefusedFor(types, t, input, f)
  {
    EvidenceExactly(types, input);
    if EvidenceFault(types, input).None? && GetExecution(t, input.organizationId, input.executionId).Some? {
      assert ExecutionSound(t, input.executionId);
      NextSequenceIsLength(t, input);
      ParentsDecide(sha, t, input, f);
    }
  }

  lemma {:induction false} ParentsDecide(sha: Sha, t: Tables, input: EventInput, f: Fault)
    requires Kept(sha, t) && GetExecution(t, input.organizationId, input.executionId).Some?
    ensures var found := ParentsFault(t.events, input, NextSequence(t, input), UniqueSortedIds(input.parentEventIds));
      && (found.None? <==> AllOwn(t, input))
      && (found.Some? ==> (found == Some(f) <==> exists p :: FirstStranger(t, input, p) && Blames(t, input, p, f)))
  {
    var parents, sequence := UniqueSortedIds(input.parentEventIds), NextSequence(t, input);
    UniqueSortedIsCanonical(input.parentEventIds);
    if ParentsFault(t.events, input, sequence, parents).Some? {
      var p := LeastIsFirst(sha, t, input);
      if q :| FirstStranger(t, input, q) && Blames(t, input, q, f) {
        OneFirst(t, input, p, q);
      }
    } else {
      AllAreParents(sha, t, input, parents);
    }
  }

  // ---------------------------------------------------------------- ledger entries

  /** The status an entry of this type moves its execution to. */
  function Target(input: EntryInput): Option<Str>
  {
    if input.entryType == Ascii("action_completed") then None
    else if input.executionStatus.Some? then input.executionStatus
    else if input.entryType == Ascii("request_opened") then Some(Ascii("running"))
    else if input.entryType == Ascii("approval_requested") then Some(Ascii("waiting_approval"))
    else if input.entryType == Ascii("final") then Some(Ascii("completed"))
    else Some(Ascii("failed"))
  }

  /** Well-formed evidence of a known type for an execution there is, an id not yet used, room in the column,
      and a status that may follow. */
  ghost predicate Takes(t: Tables, input: EntryInput)
  {
    var entries, id := At(t.ledgers, input.organizationId).entries, input.executionId;
    && IsHashText(input.requestHash) && IsHashText(input.responseHash) && IsHashText(input.executionGraphHash)
    && IsTimeText(input.createdAtCanonical)
    && input.entryType in {Ascii("request_opened"), Ascii("approval_requested"), Ascii("action_completed"), Ascii("final"), Ascii("failure")}
    && |entries| < 0x7FFF_FFFF && (forall e :: e in entries ==> e.id != input.entryId)
    && id in t.executions
    && (Target(input).Some? ==>
          t.executions[id].organizationId == input.organizationId && MayBecome(t.executions[id].status, Target(input).value))
  }

  lemma TargetIs(input: EntryInput)
    requires IsEntryType(input.entryType)
    ensures Target(input) == match StatusEffect(input) case None => None case Some((status, _)) => Some(status)
  {
    TypesDiffer();
  }

  lemma EntryEvidenceExactly(input: EntryInput)
    ensures EvidenceOk(input) <==>
      && IsHashText(input.requestHash) && IsHashText(input.responseHash) && IsHashText(input.executionGraphHash)
      && IsTimeText(input.createdAtCanonical)
  {
    HashTextExactly(input.requestHash);
    HashTextExactly(input.responseHash);
    HashTextExactly(input.executionGraphHash);
    AcceptsExactlyInstants(input.createdAtCanonical);
  }

  lemma IdUnused(l: Ledger, id: Str)
    ensures EntryIdTaken(l, id) <==> !forall e :: e in l.entries ==> e.id != id
  {
    if e :| e in l.entries && e.id == id {
      var i :| 0 <= i < |l.entries| && l.entries[i] == e;
    }
  }

  /** An entry append succeeds exactly for such an entry. */
  lemma EntryTakenExactly(sha: Sha, t: Tables, input: EntryInput)
    requires Kept(sha, t)
    ensures AppendEntry(sha, t, input).Ok? <==> Takes(t, input)
  {
    EntryAcceptedExactly(sha, t, input);
    EntryEvidenceExactly(input);
    if IsEntryType(input.entryType) {
      TargetIs(input);
    }
    IdUnused(At(t.ledgers, input.organizationId), input.entryId);
  }
}
