/** The timestamps the kernel accepts, against the calendar that `Date` counts days by: the text of every
    instant of the years 0 to 9999, and no other. */
module Calendar {
  import opened Basics
  import opened Evidence

  /** The day a year begins on, counted from 1970 (ECMA-262, section 21.4.1.3). */
  function DayFromYear(y: int): int
  {
    365 * (y - 1970) + Whole(y - 1969, 4) - Whole(y - 1901, 100) + Whole(y - 1601, 400)
  }

  /** The quotient, rounded down. */
  function Whole(n: int, d: int): int
    requires d > 0
  {
    n / d
  }

  predicate InLeapYear(y: int) { DayFromYear(y + 1) - DayFromYear(y) == 366 }

  /** Days of the year before month `m`; month 13 begins the next year. */
  function MonthStart(y: int, m: int): int
    requires 1 <= m <= 13
  {
    [0, 31, 59, 90, 120, 151, 181, 212, 243, 273, 304, 334, 365][m - 1] + (if m > 2 && InLeapYear(y) then 1 else 0)
  }

  datatype Instant = Instant(year: int, month: int, day: int, hour: int, minute: int, second: int, milli: int)

  predicate IsInstant(t: Instant)
  {
    && 0 <= t.year <= 9999 && 1 <= t.month <= 12 && 1 <= t.day
    && MonthStart(t.year, t.month) + t.day <= MonthStart(t.year, t.month + 1)
    && 0 <= t.hour <= 23 && 0 <= t.minute <= 59 && 0 <= t.second <= 59 && 0 <= t.milli <= 999
  }

  /** The last `width` decimal digits. */
  function Padded(n: nat, width: nat): (r: Str)
    ensures |r| == width
  {
    if width == 0 then [] else Padded(n / 10, width - 1) + [48 + n % 10]
  }

  function DateText(t: Instant): (r: Str)
    requires IsInstant(t)
    ensures |r| == 10
  {
    Padded(t.year, 4) + Ascii("-") + Padded(t.month, 2) + Ascii("-") + Padded(t.day, 2)
  }

  function ClockText(t: Instant): (r: Str)
    requires IsInstant(t)
    ensures |r| == 12
  {
    Padded(t.hour, 2) + Ascii(":") + Padded(t.minute, 2) + Ascii(":") + Padded(t.second, 2) + Ascii(".") + Padded(t.milli, 3)
  }

  /** `toISOString` */
  function IsoText(t: Instant): (r: Str)
    requires IsInstant(t)
    ensures |r| == 24
  {
    DateText(t) + Ascii("T") + ClockText(t) + Ascii("Z")
  }

  lemma LeapYearsAgree(y: int)
    ensures LeapYear(y) <==> InLeapYear(y)
    ensures InLeapYear(y) || DayFromYear(y + 1) - DayFromYear(y) == 365
  {
    Step(y, 4, 1969, -492);
    Step(y, 100, 1901, -19);
    Step(y, 400, 1601, -4);
    Multiples(y);
    assert y + 1 - 1969 == y - 1969 + 1 && y + 1 - 1901 == y - 1901 + 1 && y + 1 - 1601 == y - 1601 + 1;
  }

  lemma Multiples(y: int)
    ensures y % 400 == 0 ==> y % 100 == 0
    ensures y % 100 == 0 ==> y % 4 == 0
  {
    assert y == 400 * (y / 400) + y % 400;
    assert y == 100 * (y / 100) + y % 100;
    if y % 400 == 0 {
      Quotient(y, 100, 4 * (y / 400), 0);
    }
    if y % 100 == 0 {
      Quotient(y, 4, 25 * (y / 100), 0);
    }
  }

  /** One year more counts behind a multiple of `d`; `from` is one more than a multiple itself. */
  lemma Step(y: int, d: int, from: int, k: int)
    requires d > 1 && 1 - from == k * d
    ensures Whole(y - from + 1, d) - Whole(y - from, d) == if y % d == 0 then 1 else 0
  {
    var q, r := y / d, y % d;
    assert y == q * d + r;
    assert y - from + 1 == (q + k) * d + r;
    Quotient(y - from + 1, d, q + k, r);
    if r == 0 {
      assert y - from == (q + k - 1) * d + (d - 1);
      Quotient(y - from, d, q + k - 1, d - 1);
    } else {
      assert y - from == (q + k) * d + (r - 1);
      Quotient(y - from, d, q + k, r - 1);
    }
  }

  lemma Quotient(n: int, d: int, q: int, r: int)
    requires d > 0 && n == q * d + r && 0 <= r < d
    ensures n / d == q && n % d == r
  {
    var e := n / d - q;
    assert n == (n / d) * d + n % d;
    assert e * d == (n / d) * d - q * d;
    assert e * d == r - n % d;
  }

  /** Months are as long as the days they count. */
  lemma MonthsAgree(y: int, m: int)
    requires 1 <= m <= 12
    ensures MonthStart(y, m + 1) - MonthStart(y, m) == DaysIn(y, m)
    ensures MonthStart(y, 13) == DayFromYear(y + 1) - DayFromYear(y)
  {
    LeapYearsAgree(y);
  }

  lemma TwoOfPadded(n: nat)
    requires n <= 99
    ensures Padded(n, 2) == [48 + n / 10, 48 + n % 10]
  {
    assert Padded(n / 10, 1) == Padded(n / 10 / 10, 0) + [48 + n / 10 % 10];
  }

  lemma ThreeOfPadded(n: nat)
    requires n <= 999
    ensures Padded(n, 3) == [48 + n / 100, 48 + n / 10 % 10, 48 + n % 10]
  {
    TwoOfPadded(n / 10);
    assert n / 10 / 10 == n / 100;
  }

  lemma FourOfPadded(n: nat)
    requires n <= 9999
    ensures Padded(n, 4) == [48 + n / 1000, 48 + n / 100 % 10, 48 + n / 10 % 10, 48 + n % 10]
  {
    ThreeOfPadded(n / 10);
    assert n / 10 / 100 == n / 1000 && n / 10 / 10 == n / 100;
  }

  /** Two digits of the text. */
  predicate Shows2(s: Str, i: nat, n: int)
    requires i + 1 < |s|
  {
    s[i] as int == 48 + n / 10 && s[i + 1] as int == 48 + n % 10
  }

  lemma DateUnits(t: Instant)
    requires IsInstant(t) && t.day <= 31
    ensures var s := DateText(t);
      && Shows2(s, 0, t.year / 100) && Shows2(s, 2, t.year % 100) && s[4] == 45 && Shows2(s, 5, t.month) && s[7] == 45
      && Shows2(s, 8, t.day)
  {
    var y, m, d := Padded(t.year, 4), Padded(t.month, 2), Padded(t.day, 2);
    FourOfPadded(t.year);
    TwoOfPadded(t.month);
    TwoOfPadded(t.day);
    Hundreds(t.year);
    assert DateText(t) == y + [45] + m + [45] + d;
  }

  lemma Hundreds(n: nat)
    requires n <= 9999
    ensures n / 100 / 10 == n / 1000 && n / 100 % 10 == (n / 100) % 10 && n % 100 / 10 == n / 10 % 10 && n % 100 % 10 == n % 10
  {
  }

  lemma ClockUnits(t: Instant)
    requires IsInstant(t)
    ensures var s := ClockText(t);
      && Shows2(s, 0, t.hour) && s[2] == 58 && Shows2(s, 3, t.minute) && s[5] == 58 && Shows2(s, 6, t.second) && s[8] == 46
      && s[9] as int == 48 + t.milli / 100 && Shows2(s, 10, t.milli % 100)
  {
    var h, m, c, l := Padded(t.hour, 2), Padded(t.minute, 2), Padded(t.second, 2), Padded(t.milli, 3);
    TwoOfPadded(t.hour);
    TwoOfPadded(t.minute);
    TwoOfPadded(t.second);
    ThreeOfPadded(t.milli);
    Hundreds(t.milli);
    assert ClockText(t) == h + [58] + m + [58] + c + [46] + l;
  }

  /** The 24 code units of a text. */
  lemma IsoUnits(t: Instant)
    requires IsInstant(t) && t.day <= 31
    ensures var s := IsoText(t);
      && Shows2(s, 0, t.year / 100) && Shows2(s, 2, t.year % 100) && s[4] == 45 && Shows2(s, 5, t.month) && s[7] == 45
      && Shows2(s, 8, t.day) && s[10] == 84 && Shows2(s, 11, t.hour) && s[13] == 58 && Shows2(s, 14, t.minute) && s[16] == 58
      && Shows2(s, 17, t.second) && s[19] == 46 && s[20] as int == 48 + t.milli / 100 && Shows2(s, 21, t.milli % 100) && s[23] == 90
  {
    DateUnits(t);
    ClockUnits(t);
    var date, clock, s := DateText(t), ClockText(t), IsoText(t);
    assert forall i :: 0 <= i < 10 ==> s[i] == date[i];
    assert forall i :: 0 <= i < 12 ==> s[11 + i] == clock[i];
  }

  lemma DaysAgree(t: Instant)
    requires 1 <= t.month <= 12
    ensures MonthStart(t.year, t.month) + t.day <= MonthStart(t.year, t.month + 1) <==> t.day <= DaysIn(t.year, t.month)
    ensures DaysIn(t.year, t.month) <= 31
  {
    MonthsAgree(t.year, t.month);
  }

  lemma TwoDigits(s: Str, i: nat, n: int)
    requires i + 1 < |s| && 0 <= n <= 99 && Shows2(s, i, n)
    ensures Two(s, i) == n && DigitsIn(s, i, i + 2)
  {
  }

  lemma Joins(s: Str, i: nat, j: nat, k: nat)
    requires DigitsIn(s, i, j) && DigitsIn(s, j, k)
    ensures DigitsIn(s, i, k)
  {
  }

  lemma DateAccepted(s: Str, t: Instant)
    requires IsInstant(t) && t.day <= 31 && |s| == 24
    requires Shows2(s, 0, t.year / 100) && Shows2(s, 2, t.year % 100) && Shows2(s, 5, t.month) && Shows2(s, 8, t.day)
    ensures DigitsIn(s, 0, 4) && DigitsIn(s, 5, 7) && DigitsIn(s, 8, 10)
    ensures 100 * Two(s, 0) + Two(s, 2) == t.year && Two(s, 5) == t.month && Two(s, 8) == t.day
  {
    TwoDigits(s, 0, t.year / 100);
    TwoDigits(s, 2, t.year % 100);
    Joins(s, 0, 2, 4);
    TwoDigits(s, 5, t.month);
    TwoDigits(s, 8, t.day);
  }

  lemma ClockAccepted(s: Str, t: Instant)
    requires IsInstant(t) && |s| == 24
    requires Shows2(s, 11, t.hour) && Shows2(s, 14, t.minute) && Shows2(s, 17, t.second)
    requires s[20] as int == 48 + t.milli / 100 && Shows2(s, 21, t.milli % 100)
    ensures DigitsIn(s, 11, 13) && DigitsIn(s, 14, 16) && DigitsIn(s, 17, 19) && DigitsIn(s, 20, 23)
    ensures Two(s, 11) == t.hour && Two(s, 14) == t.minute && Two(s, 17) == t.second
  {
    TwoDigits(s, 11, t.hour);
    TwoDigits(s, 14, t.minute);
    TwoDigits(s, 17, t.second);
    TwoDigits(s, 21, t.milli % 100);
    assert DigitsIn(s, 20, 21);
    Joins(s, 20, 21, 23);
  }

  lemma InstantIsAccepted(t: Instant)
    requires IsInstant(t)
    ensures CanonicalTimestamp(IsoText(t))
  {
    DaysAgree(t);
    IsoUnits(t);
    DateAccepted(IsoText(t), t);
    ClockAccepted(IsoText(t), t);
  }

  function Value(c: Unit): int { c as int - 48 }

  /** What the text says. */
  function Read(s: Str): Instant
    requires |s| == 24
  {
    Instant(100 * Two(s, 0) + Two(s, 2), Two(s, 5), Two(s, 8), Two(s, 11), Two(s, 14), Two(s, 17),
            100 * Value(s[20]) + 10 * Value(s[21]) + Value(s[22]))
  }

  lemma DigitAt(s: Str, lo: nat, hi: nat, i: nat)
    requires DigitsIn(s, lo, hi) && lo <= i < hi
    ensures 48 <= s[i] <= 57
  {
  }

  lemma SameDate(s: Str, r: Str, t: Instant)
    requires |s| == |r| == 24 && CanonicalTimestamp(s) && t == Read(s)
    requires Two(s, 0) == t.year / 100 && Two(s, 2) == t.year % 100
    requires Shows2(r, 0, t.year / 100) && Shows2(r, 2, t.year % 100) && r[4] == 45 && Shows2(r, 5, t.month) && r[7] == 45
    requires Shows2(r, 8, t.day)
    ensures r[..10] == s[..10]
  {
    DigitPair(s, r, 0, 0, 4, t.year / 100);
    DigitPair(s, r, 2, 0, 4, t.year % 100);
    DigitPair(s, r, 5, 5, 7, t.month);
    DigitPair(s, r, 8, 8, 10, t.day);
  }

  lemma SameClock(s: Str, r: Str, t: Instant)
    requires |s| == |r| == 24 && CanonicalTimestamp(s) && t == Read(s)
    requires Value(s[20]) == t.milli / 100 && Two(s, 21) == t.milli % 100
    requires r[10] == 84 && Shows2(r, 11, t.hour) && r[13] == 58 && Shows2(r, 14, t.minute) && r[16] == 58
    requires Shows2(r, 17, t.second) && r[19] == 46 && r[20] as int == 48 + t.milli / 100 && Shows2(r, 21, t.milli % 100) && r[23] == 90
    ensures r[10..] == s[10..]
  {
    DigitPair(s, r, 11, 11, 13, t.hour);
    DigitPair(s, r, 14, 14, 16, t.minute);
    DigitPair(s, r, 17, 17, 19, t.second);
    DigitPair(s, r, 21, 20, 23, t.milli % 100);
  }

  lemma DigitPair(s: Str, r: Str, i: nat, lo: nat, hi: nat, n: int)
    requires DigitsIn(s, lo, hi) && lo <= i && i + 1 < hi && |r| == |s| && Two(s, i) == n && Shows2(r, i, n)
    ensures r[i] == s[i] && r[i + 1] == s[i + 1]
  {
    DigitAt(s, lo, hi, i);
    DigitAt(s, lo, hi, i + 1);
  }

  lemma ReadsInstant(s: Str)
    requires CanonicalTimestamp(s)
    ensures IsInstant(Read(s)) && Read(s).day <= 31
    ensures Read(s).year / 100 == Two(s, 0) && Read(s).year % 100 == Two(s, 2)
    ensures Read(s).milli / 100 == Value(s[20]) && Read(s).milli % 100 == Two(s, 21)
  {
    DigitAt(s, 0, 4, 0);
    DigitAt(s, 0, 4, 1);
    DigitAt(s, 0, 4, 2);
    DigitAt(s, 0, 4, 3);
    DigitAt(s, 11, 13, 11);
    DigitAt(s, 11, 13, 12);
    DigitAt(s, 14, 16, 14);
    DigitAt(s, 14, 16, 15);
    DigitAt(s, 17, 19, 17);
    DigitAt(s, 17, 19, 18);
    DigitAt(s, 20, 23, 20);
    DigitAt(s, 20, 23, 21);
    DigitAt(s, 20, 23, 22);
    DaysAgree(Read(s));
  }

  lemma AcceptedReads(s: Str)
    requires CanonicalTimestamp(s)
    ensures IsInstant(Read(s)) && IsoText(Read(s)) == s
  {
    ReadsInstant(s);
    IsoUnits(Read(s));
    var r := IsoText(Read(s));
    SameDate(s, r, Read(s));
    SameClock(s, r, Read(s));
    assert r == r[..10] + r[10..] && s == s[..10] + s[10..];
  }

  /** The text of some instant. */
  ghost predicate IsTimeText(s: Str)
  {
    exists t :: IsInstant(t) && IsoText(t) == s
  }

  /** A timestamp is accepted exactly when it is the text of an instant. */
  lemma AcceptsExactlyInstants(s: Str)
    ensures CanonicalTimestamp(s) <==> IsTimeText(s)
  {
    if CanonicalTimestamp(s) {
      AcceptedReads(s);
    }
    if t :| IsInstant(t) && IsoText(t) == s {
      InstantIsAccepted(t);
    }
  }
}
