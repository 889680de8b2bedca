/** The text of the canonical printer, told from the grammar: members come in increasing order of their
    keys, and no number and no string has a shorter text. */
module PrintedForm {
  import opened Basics
  import opened Sorting
  import opened Canonical
  import opened CanonicalLaws
  import opened Parser
  import Hex
  import Utf8

  // ---------------------------------------------------------------- the order of members

  /** `a` differs from `b` first where it ends, or has the smaller code unit. */
  predicate BeforeAt(a: Str, b: Str, k: nat)
  {
    && k <= |a| && k <= |b| && a[..k] == b[..k]
    && ((k == |a| && k < |b|) || (k < |a| && k < |b| && a[k] < b[k]))
  }

  ghost predicate Before(a: Str, b: Str)
  {
    exists k: nat :: BeforeAt(a, b, k)
  }

  lemma {:induction false} SmallerIsBefore(a: Str, b: Str)
    requires StrLe(a, b) && a != b
    ensures Before(a, b)
  {
    if a == [] || a[0] < b[0] {
      assert BeforeAt(a, b, 0);
    } else {
      SmallerIsBefore(a[1..], b[1..]);
      var k: nat :| BeforeAt(a[1..], b[1..], k);
      assert a[..k + 1] == [a[0]] + a[1..][..k] && b[..k + 1] == [b[0]] + b[1..][..k];
      assert BeforeAt(a, b, k + 1);
    }
  }

  /** Keys strictly increase. */
  ghost predicate Increasing(members: seq<Member>)
  {
    forall i, j :: 0 <= i < j < |members| ==> Before(members[i].key, members[j].key)
  }

  /** In every object, at any depth, keys strictly increase. */
  ghost predicate InOrder(v: Value)
  {
    match v
    case Arr(items) => forall x :: x in items ==> InOrder(x)
    case Obj(members) => Increasing(members) && forall m :: m in members ==> InOrder(m.value)
    case _ => true
  }

  /** No object, at any depth, has a key twice; no JavaScript object does. */
  ghost predicate KeysOnce(v: Value)
  {
    match v
    case Arr(items) => forall x :: x in items ==> KeysOnce(x)
    case Obj(members) => DistinctKeys(members) && forall m :: m in members ==> KeysOnce(m.value)
    case _ => true
  }

  lemma SortedKeys(members: seq<Member>)
    requires DistinctKeys(members)
    ensures Increasing(Sort(members)) && DistinctKeys(Sort(members))
  {
    KeyLePreorder();
    var sorted := Sort(members);
    SortSorts(KeyLe, members);
    SortPermutes(KeyLe, members);
    KeysStayDistinct(members, sorted);
    forall i, j | 0 <= i < j < |sorted| ensures Before(sorted[i].key, sorted[j].key) {
      assert KeyLe(sorted[i], sorted[j]);
      SmallerIsBefore(sorted[i].key, sorted[j].key);
    }
  }

  lemma KeysStayDistinct(a: seq<Member>, b: seq<Member>)
    requires DistinctKeys(a) && multiset(a) == multiset(b)
    ensures DistinctKeys(b)
  {
    forall i, j | 0 <= i < j < |b| ensures b[i].key != b[j].key {
      if b[i].key == b[j].key {
        MultisetMembers(a, b);
        assert b[i] in a && b[j] in a;
        assert b[i] == b[j];
        TwiceInMultiset(b, i, j);
        TwoPositions(a, b[i]);
        assert false;
      }
    }
  }

  /** What the reader gets back is in order. */
  lemma {:induction false} NormalInOrder(v: Value)
    requires KeysOnce(v)
    ensures InOrder(Normal(v))
    decreases v
  {
    match v
    case Arr(items) =>
      NormalItemsAt(v, items);
      forall x | x in NormalItems(v, items) ensures InOrder(x) {
        var i :| 0 <= i < |items| && NormalItems(v, items)[i] == x;
        NormalInOrder(items[i]);
      }
    case Obj(members) =>
      NormalObjectMembers(members);
      NormalIncreasing(members);
      forall n | n in Normal(v).members ensures InOrder(n.value) {
        var m :| m in members && n == Member(m.key, Normal(m.value));
        NormalInOrder(m.value);
      }
    case _ =>
  }

  lemma NormalIncreasing(members: seq<Member>)
    requires DistinctKeys(members)
    ensures Increasing(Normal(Obj(members)).members)
  {
    var v := Obj(members);
    SortBelow(v);
    SortedKeys(members);
    NormalMembersAt(v, Sort(members));
    var normal := NormalMembers(v, Sort(members));
    forall i, j | 0 <= i < j < |normal| ensures Before(normal[i].key, normal[j].key) {
      assert Before(Sort(members)[i].key, Sort(members)[j].key);
    }
  }

  /** The member read carries the key of a member printed, and the value its text reads as. */
  ghost predicate ReadsAs(printed: Member, read: Member)
  {
    && read.key == printed.key && Canonicalize(printed.value).Ok?
    && ReadValue(Canonicalize(printed.value).value) == Some((read.value, []))
  }

  lemma MemberReads(members: seq<Member>, m: Member)
    requires Canonicalize(Obj(members)).Ok? && m in members
    ensures ReadsAs(m, Member(m.key, Normal(m.value)))
  {
    PrintsExactlyDomain(Obj(members));
    PrintsExactlyDomain(m.value);
    ReadPrinted(m.value, []);
    assert Canonicalize(m.value).value + [] == Canonicalize(m.value).value;
  }

  /** The text of an object reads back as an object with exactly its members, in strictly increasing order
      of their keys by code units, and so do all objects within it. */
  lemma PrintsInOrder(v: Value, rest: Str)
    requires KeysOnce(v) && Canonicalize(v).Ok? && Delimited(rest)
    ensures var r := ReadValue(Canonicalize(v).value + rest);
      && r.Some? && r.value.1 == rest && InOrder(r.value.0)
      && (v.Obj? ==>
            var read := r.value.0;
            && read.Obj? && |read.members| == |v.members|
            && (forall m :: m in v.members ==> exists n :: n in read.members && ReadsAs(m, n))
            && (forall n :: n in read.members ==> exists m :: m in v.members && ReadsAs(m, n)))
  {
    ReadPrinted(v, rest);
    NormalInOrder(v);
    if v.Obj? {
      ObjectReads(v.members);
    }
  }

  lemma ObjectReads(members: seq<Member>)
    requires Canonicalize(Obj(members)).Ok?
    ensures var read := Normal(Obj(members)).members;
      && |read| == |members|
      && (forall m :: m in members ==> exists n :: n in read && ReadsAs(m, n))
      && (forall n :: n in read ==> exists m :: m in members && ReadsAs(m, n))
  {
    var read := Normal(Obj(members)).members;
    SortBelow(Obj(members));
    SortKeeps(KeyLe, members);
    NormalObjectMembers(members);
    forall m | m in members ensures exists n :: n in read && ReadsAs(m, n) {
      MemberReads(members, m);
      assert Member(m.key, Normal(m.value)) in read;
    }
    forall n | n in read ensures exists m :: m in members && ReadsAs(m, n) {
      var m :| m in members && n == Member(m.key, Normal(m.value));
      MemberReads(members, m);
    }
  }

  // ---------------------------------------------------------------- numbers

  lemma {:induction false} DigitsShortest(s: Str)
    requires s != [] && forall i :: 0 <= i < |s| ==> IsDigit(s[i])
    ensures DigitsValue(s) >= 0 && |Digits(DigitsValue(s))| <= |s|
    ensures |Digits(DigitsValue(s))| == |s| ==> Digits(DigitsValue(s)) == s
  {
    var init, last: int := s[..|s| - 1], s[|s| - 1];
    if init == [] {
      assert DigitsValue(init) == 0;
    } else {
      DigitsShortest(init);
      var m := DigitsValue(s);
      assert m / 10 == DigitsValue(init) && m % 10 == last - 48;
      assert s == init + [s[|s| - 1]];
    }
  }

  lemma {:induction false} RunIsDigits(s: Str)
    requires DigitRun(s) == |s|
    ensures forall i :: 0 <= i < |s| ==> IsDigit(s[i])
  {
  }

  /** Of all texts of a number its printed one is the shortest, and the only one of its length. */
  lemma NumberIsShortest(s: Str, n: int)
    requires ReadNumber(s) == Some((Int(n), []))
    ensures |Number(n)| <= |s| && (|Number(n)| == |s| ==> Number(n) == s)
  {
    var body := if s != [] && s[0] == MINUS then s[1..] else s;
    var k := DigitRun(body);
    assert body[k..] == [] && body[..k] == body;
    RunIsDigits(body);
    DigitsShortest(body);
  }

  /** An integer prints exactly within the 53 bits that a number holds exactly, its neighbours too. */
  lemma IntegersPrint(n: int)
    ensures Canonicalize(Int(n)).Ok? <==> -0x20_0000_0000_0000 < n < 0x20_0000_0000_0000
  {
  }

  // ---------------------------------------------------------------- strings

  /** A JSON string up to its closing quote: no raw control character, no lone raw surrogate. */
  predicate Legal(s: Str)
    decreases |s|
  {
    if s == [] then false
    else if s[0] == QUOTE then true
    else if s[0] == BACKSLASH then ReadUnit(s).Some? && Legal(ReadUnit(s).value.1)
    else s[0] >= 32 && (if Utf8.Surrogate(s[0]) then Utf8.PairAt(s) && Legal(s[2..]) else Legal(s[1..]))
  }

  /** Escapes by number are in lowercase. */
  predicate LowerEscapes(s: Str)
    decreases |s|
  {
    if s == [] || s[0] == QUOTE then true
    else if ReadUnit(s).None? then false
    else
      && (s[0] == BACKSLASH && |s| >= 6 && s[1] == 117 ==> Hex.LowerHex(s[2..6]))
      && LowerEscapes(ReadUnit(s).value.1)
  }

  /** The printed text of `t`, up to its closing quote, against another text `s` of it. */
  ghost predicate Shortest(s: Str, t: Str)
  {
    var printed := Escape(t) + [QUOTE];
    |printed| <= |s| && (|printed| == |s| && LowerEscapes(s) ==> printed == s)
  }

  lemma LowerHexUnit(s: Str)
    requires |s| >= 6 && s[0] == BACKSLASH && s[1] == 117 && Hex.LowerHex(s[2..6]) && HexUnit(s[2..6]).Some?
    ensures UnicodeEscape(HexUnit(s[2..6]).value) == s[..6]
  {
    var h := s[2..6];
    assert h[0] == s[2] && h[1] == s[3] && h[2] == s[4] && h[3] == s[5];
    var a, b, c, d := Hex.DigitValue(h[0]).value, Hex.DigitValue(h[1]).value, Hex.DigitValue(h[2]).value, Hex.DigitValue(h[3]).value;
    FourDigits(a, b, c, d);
    assert s[..6] == [s[0], s[1], s[2], s[3], s[4], s[5]];
  }

  lemma FourDigits(a: int, b: int, c: int, d: int)
    requires 0 <= a < 16 && 0 <= b < 16 && 0 <= c < 16 && 0 <= d < 16
    ensures var u := a * 0x1000 + b * 0x100 + c * 16 + d;
      u / 0x1000 == a && u / 0x100 % 16 == b && u / 16 % 16 == c && u % 16 == d
  {
    var u := a * 0x1000 + b * 0x100 + c * 16 + d;
    assert u / 16 == a * 0x100 + b * 16 + c;
    assert u / 0x100 == a * 16 + b;
  }

  /** One unit: its escape is no longer than the piece it was read from, and that piece if as long. */
  lemma PieceShortest(s: Str)
    requires s != [] && s[0] != QUOTE && ReadUnit(s).Some?
    requires s[0] != BACKSLASH ==> s[0] >= 32 && !Utf8.Surrogate(s[0])
    ensures var (u, rest) := ReadUnit(s).value;
      var used := |s| - |rest|;
      && rest == s[used..] && |EscapeUnit(u)| <= used
      && (|EscapeUnit(u)| == used && (s[0] == BACKSLASH && |s| >= 6 && s[1] == 117 ==> Hex.LowerHex(s[2..6])) ==>
            EscapeUnit(u) == s[..used])
  {
    if s[0] == BACKSLASH && |s| >= 6 && s[1] == 117 {
      var u := ReadUnit(s).value.0;
      if Hex.LowerHex(s[2..6]) {
        LowerHexUnit(s);
      }
    }
  }

  lemma ShorterStep(s: Str, t: Str, rest: Str, first: Str, more: Str)
    requires |rest| < |s| && rest == s[|s| - |rest|..] && Shortest(rest, more)
    requires Escape(t) == first + Escape(more) && |first| <= |s| - |rest|
    requires LowerEscapes(s) ==> LowerEscapes(rest)
    requires LowerEscapes(s) && |first| == |s| - |rest| ==> first == s[..|s| - |rest|]
    ensures Shortest(s, t)
  {
    var used := |s| - |rest|;
    assert Escape(t) + [QUOTE] == first + (Escape(more) + [QUOTE]);
    assert s == s[..used] + rest;
  }

  lemma UnitRead(s: Str, t: Str)
    requires s != [] && s[0] != QUOTE && ReadChars(s) == Some((t, []))
    ensures ReadUnit(s).Some? && t != []
    ensures var (u, rest) := ReadUnit(s).value;
      t[0] == u && ReadChars(rest) == Some((t[1..], [])) && (LowerEscapes(s) ==> LowerEscapes(rest))
  {
    var (u, rest) := ReadUnit(s).value;
    var more := ReadChars(rest).value.0;
    assert t == [u] + more;
  }

  /** Of all legal texts of a string its printed one is the shortest, and the only one of its length with
      lowercase escapes. */
  lemma {:induction false} StringIsShortest(s: Str, t: Str)
    requires ReadChars(s) == Some((t, [])) && Legal(s)
    ensures Shortest(s, t)
    decreases |s|
  {
    if s[0] == QUOTE {
      assert s == [QUOTE] + s[1..];
    } else if s[0] != BACKSLASH && Utf8.Surrogate(s[0]) {
      RawPair(s, t);
    } else {
      var (u, rest) := ReadUnit(s).value;
      var more := t[1..];
      assert t == [u] + more;
      if Utf8.PairAt(t) {
        EscapedPair(s, t);
      } else {
        PieceShortest(s);
        StringIsShortest(rest, more);
        ShorterStep(s, t, rest, EscapeUnit(u), more);
      }
    }
  }

  lemma {:induction false} RawPair(s: Str, t: Str)
    requires s != [] && ReadChars(s) == Some((t, [])) && Legal(s) && s[0] != BACKSLASH && Utf8.Surrogate(s[0])
    ensures Shortest(s, t)
    decreases |s|, 0
  {
    UnitRead(s, t);
    UnitRead(s[1..], t[1..]);
    assert s[1..][1..] == s[2..] && t[1..][1..] == t[2..];
    assert s[..2] == t[..2];
    StringIsShortest(s[2..], t[2..]);
    ShorterStep(s, t, s[2..], s[..2], t[2..]);
  }

  /** A pair written as two escapes. */
  lemma {:induction false} EscapedPair(s: Str, t: Str)
    requires s != [] && s[0] == BACKSLASH && ReadChars(s) == Some((t, [])) && Legal(s) && Utf8.PairAt(t)
    ensures Shortest(s, t)
    decreases |s|, 0
  {
    var (u, rest) := ReadUnit(s).value;
    UnitRead(s, t);
    UnitRead(rest, t[1..]);
    var last := ReadUnit(rest).value.1;
    assert t[1..][1..] == t[2..];
    SurrogateTakesSix(s);
    SurrogateTakesSix(rest);
    StringIsShortest(last, t[2..]);
    assert last == s[12..];
    ShorterStep(s, t, last, t[..2], t[2..]);
  }

  lemma SurrogateTakesSix(s: Str)
    requires s != [] && s[0] == BACKSLASH && ReadUnit(s).Some? && Utf8.Surrogate(ReadUnit(s).value.0)
    ensures |s| >= 6 && ReadUnit(s).value.1 == s[6..]
  {
  }
}
