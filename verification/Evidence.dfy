/** Checks on evidence fields before they are hashed, and the faults of the audit kernel. */
module Evidence {
  import opened Basics
  import Hex

  /** Why a kernel call throws. `Constraint` is the database refusing a row. */
  datatype Fault =
    | InvalidEvidence | UnknownEventType
    | ParentNotFound | ParentCrossOrganization | ParentCrossExecution | ParentSequence
    | ExecutionNotFound | InvalidTransition
    | UnresolvedParents | PrinterThrows | MerkleThrows
    | Constraint

  /** Lowercase SHA-256 hex, or null. */
  predicate HashOk(h: Option<Str>)
  {
    h.Some? ==> Hex.IsSha256Hex(h.value)
  }

  predicate DigitsIn(s: Str, lo: nat, hi: nat)
  {
    lo <= hi <= |s| && forall i :: lo <= i < hi ==> 48 <= s[i] <= 57
  }

  function Two(s: Str, i: nat): int
    requires i + 1 < |s|
  {
    var tens: int, ones: int := s[i], s[i + 1];
    10 * (tens - 48) + (ones - 48)
  }

  predicate LeapYear(y: int) { y % 4 == 0 && (y % 100 != 0 || y % 400 == 0) }

  function DaysIn(year: int, month: int): int
  {
    if month == 2 then (if LeapYear(year) then 29 else 28)
    else if month in {4, 6, 9, 11} then 30
    else 31
  }

  /** `YYYY-MM-DDTHH:mm:ss.sssZ` naming a real instant, the form `Date.toISOString` returns. */
  predicate CanonicalTimestamp(s: Str)
  {
    && |s| == 24
    && DigitsIn(s, 0, 4) && s[4] == 45 && DigitsIn(s, 5, 7) && s[7] == 45 && DigitsIn(s, 8, 10)
    && s[10] == 84 && DigitsIn(s, 11, 13) && s[13] == 58 && DigitsIn(s, 14, 16) && s[16] == 58
    && DigitsIn(s, 17, 19) && s[19] == 46 && DigitsIn(s, 20, 23) && s[23] == 90
    && 1 <= Two(s, 5) <= 12
    && 1 <= Two(s, 8) <= DaysIn(100 * Two(s, 0) + Two(s, 2), Two(s, 5))
    && Two(s, 11) < 24 && Two(s, 14) < 60 && Two(s, 17) < 60
  }
}
