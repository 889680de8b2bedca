/** Lists of verification issues, and collecting them over a loop. */
module Reports {
  import opened Basics

  datatype Code =
    | EntryHashMismatch | HashFormatUnsupported | PreviousHashMismatch | CanonicalTimestampDrift
    | SequenceGap | SequenceStart
    | MerkleRootMismatch | MerkleLeafMissing | MerkleLeafMismatch | MerkleProofInvalid
    | PlaintextExport | OrgMismatch
    | GraphEvidenceMissing | GraphDuplicate | GraphEventsMissing | GraphOrgMismatch
    | GraphParentUnresolved | GraphHashMismatch | GraphEvidenceMismatch | GraphLedgerMismatch

  datatype Issue = Issue(code: Code, sequence: Option<int>, entryHash: Option<Str>)

  /** The issues pushed, in order; `None` is an exception. */
  type Report = Option<seq<Issue>>

  function Push(issues: seq<Issue>, condition: bool, issue: Issue): seq<Issue>
  {
    if condition then issues + [issue] else issues
  }

  function Append(a: Report, b: Report): Report
  {
    if a.None? || b.None? then None else Some(a.value + b.value)
  }

  /** What a loop over `0..n` pushes when step `i` pushes `at(i)`. */
  function Collect(at: nat -> Report, n: nat): Report
  {
    if n == 0 then Some([]) else Append(Collect(at, n - 1), at(n - 1))
  }

  lemma AppendEmpty(a: Report, b: Report)
    ensures Append(a, b) == Some([]) <==> a == Some([]) && b == Some([])
  {
    if a.Some? && b.Some? {
      assert |a.value + b.value| == |a.value| + |b.value|;
    }
  }

  /** A step that throws is never made up for. */
  lemma {:induction false} CollectThrows(at: nat -> Report, i: nat, n: nat)
    requires i < n && at(i).None?
    ensures Collect(at, n).None?
    decreases n
  {
    if i + 1 < n {
      CollectThrows(at, i, n - 1);
    }
  }

  /** Nothing is collected exactly when no step pushes anything. */
  lemma {:induction false} CollectEmpty(at: nat -> Report, n: nat)
    ensures Collect(at, n) == Some([]) <==> forall i: nat :: i < n ==> at(i) == Some([])
  {
    if n > 0 {
      CollectEmpty(at, n - 1);
      AppendEmpty(Collect(at, n - 1), at(n - 1));
    }
  }

  /** Loops whose steps push the same collect the same. */
  lemma {:induction false} CollectSame(a: nat -> Report, b: nat -> Report, n: nat)
    requires forall i: nat :: i < n ==> a(i) == b(i)
    ensures Collect(a, n) == Collect(b, n)
  {
    if n > 0 {
      CollectSame(a, b, n - 1);
    }
  }
}
