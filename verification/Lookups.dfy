/** How rows are found: the first or the last of those with a key, all of them in order, or none. */
module Lookups {
  import opened Basics
  import opened Sorting
  import opened Records
  import opened Kernel
  import opened Verify
  import opened VerifyGraphs

  // ---------------------------------------------------------------- in a bundle

  /** Row `i` has the id, and no later row has. */
  predicate LastWith(executions: seq<Execution>, id: Str, i: nat)
  {
    i < |executions| && executions[i].id == id && forall j :: i < j < |executions| ==> executions[j].id != id
  }

  lemma {:induction false} ByIdIsLast(executions: seq<Execution>, id: Str)
    ensures id in ById(executions) <==> exists i: nat :: LastWith(executions, id, i)
    ensures forall i: nat :: LastWith(executions, id, i) ==> id in ById(executions) && ById(executions)[id] == executions[i]
  {
    if executions != [] {
      var before, n := executions[..|executions| - 1], |executions| - 1;
      ByIdIsLast(before, id);
      if executions[n].id == id {
        assert LastWith(executions, id, n);
      } else {
        forall i: nat ensures LastWith(executions, id, i) <==> LastWith(before, id, i) {
        }
      }
    }
  }

  /** The execution a bundle names: its last row of that id. */
  lemma ExecutionIsLast(b: Bundle, id: Str, x: Execution)
    ensures ExecutionOf(b, id) == Some(x) <==> exists i: nat :: LastWith(b.executions, id, i) && b.executions[i] == x
  {
    ByIdIsLast(b.executions, id);
  }

  /** Entry `i` has the sequence, and no later entry has. */
  predicate LastAt(entries: seq<ExportedEntry>, sequence: int, i: nat)
  {
    && i < |entries| && entries[i].row.organizationSequence == sequence
    && forall j :: i < j < |entries| ==> entries[j].row.organizationSequence != sequence
  }

  /** The entry of a sequence: the last one exported with it. */
  lemma {:induction false} EntryIsLast(entries: seq<ExportedEntry>, sequence: int)
    ensures sequence in BySequence(entries) <==> exists i: nat :: LastAt(entries, sequence, i)
    ensures forall i: nat :: LastAt(entries, sequence, i) ==>
      sequence in BySequence(entries) && BySequence(entries)[sequence] == entries[i]
  {
    if entries != [] {
      var before, n := entries[..|entries| - 1], |entries| - 1;
      EntryIsLast(before, sequence);
      if entries[n].row.organizationSequence == sequence {
        assert LastAt(entries, sequence, n);
      } else {
        forall i: nat ensures LastAt(entries, sequence, i) <==> LastAt(before, sequence, i) {
        }
      }
    }
  }

  /** The graphs exported for an execution, all of them, in order. */
  lemma {:induction false} ExportsAreAll(graphs: seq<GraphExport>, id: Str)
    ensures ExportsFor(graphs, id) == Filter((g: GraphExport) => g.executionId == id, graphs)
  {
    var keep := (g: GraphExport) => g.executionId == id;
    if graphs != [] {
      var before, last := graphs[..|graphs| - 1], graphs[|graphs| - 1];
      ExportsAreAll(before, id);
      FilterConcat(keep, before, [last]);
      assert graphs == before + [last] && [last][1..] == [];
    }
  }

  /** The events of an execution, all of them, in order. */
  lemma {:induction false} EventsAreAll(events: seq<Event>, id: Str)
    ensures EventsFor(events, id) == Filter((e: Event) => e.executionId == id, events)
  {
    if events != [] {
      EventsAreAll(events[1..], id);
    }
  }

  /** A final entry, of success or failure, that has a graph hash. */
  predicate Bears(e: LedgerEntry)
  {
    (e.entryType == Ascii("final") || e.entryType == Ascii("failure")) && e.executionGraphHash.Some?
  }

  /** The entries whose graphs are looked for, and the executions that have one. */
  lemma BearersExactly(b: Bundle, e: LedgerEntry, id: Str)
    ensures e in GraphBearingEntries(b.ledgerEntries) <==> Bears(e) && exists x :: x in b.ledgerEntries && x.row == e
    ensures IsChecked(b, id) <==> exists x :: x in b.ledgerEntries && Bears(x.row) && x.row.executionId == id
  {
    BearersListed(b.ledgerEntries, e);
    var bearing := GraphBearingEntries(b.ledgerEntries);
    ExecutionsListed(bearing, |bearing|, id);
    if IsChecked(b, id) {
      var k :| 0 <= k < |bearing| && bearing[k].executionId == id;
      BearersListed(b.ledgerEntries, bearing[k]);
    }
    if x :| x in b.ledgerEntries && Bears(x.row) && x.row.executionId == id {
      BearersListed(b.ledgerEntries, x.row);
      assert x.row in bearing;
    }
  }

  lemma BearersListed(entries: seq<ExportedEntry>, e: LedgerEntry)
    ensures e in GraphBearingEntries(entries) <==> Bears(e) && exists x :: x in entries && x.row == e
  {
    BearingIsExported(entries, e);
    if x :| x in entries && x.row == e {
      var i :| 0 <= i < |entries| && entries[i] == x;
    }
  }

  lemma {:induction false} ExecutionsListed(entries: seq<LedgerEntry>, n: nat, id: Str)
    requires n <= |entries|
    ensures id in ExecutionsOf(entries, n) <==> exists k :: 0 <= k < n && entries[k].executionId == id
  {
    if n > 0 {
      ExecutionsListed(entries, n - 1, id);
    }
  }

  /** The hash a ledger entry expects: its graph hash, unless that is null or empty. */
  lemma ExpectsExactly(entry: Option<LedgerEntry>, h: Str)
    ensures ExpectedHash(entry) == Some(h) <==> entry.Some? && entry.value.executionGraphHash == Some(h) && h != []
  {
  }

  // ---------------------------------------------------------------- in the tables

  /** An execution is found in its own organization only. */
  lemma ExecutionFound(t: Tables, org: Str, id: Str, x: Execution)
    ensures GetExecution(t, org, id) == Some(x) <==> id in t.executions && t.executions[id] == x && x.organizationId == org
  {
  }

  /** The first event with the id. */
  lemma {:induction false} FirstFound(events: seq<Event>, id: Str, e: Event)
    ensures FindEvent(events, id) == Some(e) <==>
      exists i :: 0 <= i < |events| && events[i] == e && e.id == id && forall j :: 0 <= j < i ==> events[j].id != id
  {
    if events != [] {
      FirstFound(events[1..], id, e);
      if events[0].id != id {
        if i :| 0 <= i < |events| && events[i] == e && e.id == id && forall j :: 0 <= j < i ==> events[j].id != id {
          assert events[1..][i - 1] == e && forall j :: 0 <= j < i - 1 ==> events[1..][j].id != id;
        }
        if i :| 0 <= i < |events[1..]| && events[1..][i] == e && e.id == id && forall j :: 0 <= j < i ==> events[1..][j].id != id {
          assert events[i + 1] == e;
          forall j | 0 <= j < i + 1 ensures events[j].id != id {
            assert j > 0 ==> events[j] == events[1..][j - 1];
          }
        }
      } else {
        assert events[0] == e ==> events[0] == e && e.id == id;
      }
    }
  }

  /** The events of an execution in its organization, all of them, by sequence; ties keep their order. */
  lemma {:induction false} EventsListed(events: seq<Event>, org: Str, id: Str)
    ensures EventsOf(events, org, id) == Filter((e: Event) => e.organizationId == org && e.executionId == id, events)
  {
    var keep := (e: Event) => e.organizationId == org && e.executionId == id;
    if events != [] {
      var before, last := events[..|events| - 1], events[|events| - 1];
      EventsListed(before, org, id);
      FilterConcat(keep, before, [last]);
      assert events == before + [last] && [last][1..] == [];
    }
  }
}
