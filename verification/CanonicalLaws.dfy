/** What the canonical printer promises: equal texts exactly for values that are equal up to
    member order, at every depth, and text that survives UTF-8. */
module CanonicalLaws {
  import opened Basics
  import opened Sorting
  import opened Canonical
  import Parser
  import Utf8

  // ---------------------------------------------------------------- the ghost parent does not matter

  lemma {:induction false} ItemsParent(p: Value, q: Value, items: seq<Value>)
    requires forall i :: 0 <= i < |items| ==> items[i] < p && items[i] < q
    ensures PrintItems(p, items) == PrintItems(q, items)
    ensures NormalItems(p, items) == NormalItems(q, items)
  {
    if items != [] {
      ItemsParent(p, q, items[1..]);
    }
  }

  lemma {:induction false} MembersParent(p: Value, q: Value, members: seq<Member>)
    requires forall i :: 0 <= i < |members| ==> members[i].value < p && members[i].value < q
    ensures PrintMembers(p, members) == PrintMembers(q, members)
    ensures NormalMembers(p, members) == NormalMembers(q, members)
  {
    if members != [] {
      assert PrintMember(p, members[0]) == PrintMember(q, members[0]);
      MembersParent(p, q, members[1..]);
    }
  }

  // ---------------------------------------------------------------- printing sees only the normal form

  lemma {:induction false} NormalMembersAt(parent: Value, members: seq<Member>)
    requires forall i :: 0 <= i < |members| ==> members[i].value < parent
    ensures forall i :: 0 <= i < |members| ==>
      NormalMembers(parent, members)[i] == Member(members[i].key, Normal(members[i].value))
  {
    if members != [] {
      NormalMembersAt(parent, members[1..]);
      forall i | 0 <= i < |members|
        ensures NormalMembers(parent, members)[i] == Member(members[i].key, Normal(members[i].value))
      {
        if i > 0 {
          assert members[i] == members[1..][i - 1];
        }
      }
    }
  }

  lemma {:induction false} NormalItemsAt(parent: Value, items: seq<Value>)
    requires forall i :: 0 <= i < |items| ==> items[i] < parent
    ensures forall i :: 0 <= i < |items| ==> NormalItems(parent, items)[i] == Normal(items[i])
  {
    if items != [] {
      NormalItemsAt(parent, items[1..]);
      forall i | 0 <= i < |items| ensures NormalItems(parent, items)[i] == Normal(items[i]) {
        if i > 0 {
          assert items[i] == items[1..][i - 1];
        }
      }
    }
  }

  lemma KeyLePreorder()
    ensures TotalPreorder(KeyLe)
  {
    StrLePreorder();
    forall a: Member, b: Member ensures KeyLe(a, b) || KeyLe(b, a) {
      StrLeTotal(a.key, b.key);
    }
    forall a: Member, b: Member, c: Member | KeyLe(a, b) && KeyLe(b, c) ensures KeyLe(a, c) {
      StrLeTransitive(a.key, b.key, c.key);
    }
  }

  /** The members of a normal object are already sorted. */
  lemma NormalIsSorted(v: Value)
    requires v.Obj?
    ensures Sort(Normal(v).members) == Normal(v).members
  {
    SortBelow(v);
    KeyLePreorder();
    var sorted := Sort(v.members);
    SortSorts(KeyLe, v.members);
    NormalMembersAt(v, sorted);
    var normal := Normal(v).members;
    forall i, j | 0 <= i < j < |normal| ensures KeyLe(normal[i], normal[j]) {
      assert KeyLe(sorted[i], sorted[j]);
    }
    SortSorted(KeyLe, normal);
  }

  lemma {:induction false} NormalPrintsSame(v: Value)
    ensures Canonicalize(Normal(v)) == Canonicalize(v)
    decreases v, 1
  {
    match v
    case Arr(items) => NormalItemsPrintSame(v, Normal(v), items);
    case Obj(members) =>
      SortBelow(v);
      SortBelow(Normal(v));
      NormalIsSorted(v);
      NormalMembersPrintSame(v, Normal(v), Sort(members));
    case _ =>
  }

  lemma {:induction false} NormalItemsPrintSame(p: Value, q: Value, items: seq<Value>)
    requires forall i :: 0 <= i < |items| ==> items[i] < p
    requires forall i :: 0 <= i < |items| ==> NormalItems(p, items)[i] < q
    ensures PrintItems(q, NormalItems(p, items)) == PrintItems(p, items)
    decreases p, 0, |items|
  {
    if items != [] {
      var rest := NormalItems(p, items[1..]);
      assert NormalItems(p, items)[1..] == rest;
      forall i | 0 <= i < |rest| ensures rest[i] < q {
        assert rest[i] == NormalItems(p, items)[i + 1];
      }
      NormalPrintsSame(items[0]);
      NormalItemsPrintSame(p, q, items[1..]);
    }
  }

  lemma {:induction false} NormalMembersPrintSame(p: Value, q: Value, members: seq<Member>)
    requires forall i :: 0 <= i < |members| ==> members[i].value < p
    requires forall i :: 0 <= i < |members| ==> NormalMembers(p, members)[i].value < q
    ensures PrintMembers(q, NormalMembers(p, members)) == PrintMembers(p, members)
    decreases p, 0, |members|
  {
    if members != [] {
      var rest := NormalMembers(p, members[1..]);
      var all := NormalMembers(p, members);
      assert all[1..] == rest;
      forall i | 0 <= i < |rest| ensures rest[i].value < q {
        assert rest[i] == all[i + 1];
      }
      NormalPrintsSame(members[0].value);
      assert PrintMember(q, all[0]) == PrintMember(p, members[0]);
      NormalMembersPrintSame(p, q, members[1..]);
    }
  }

  /** Two domain values have one canonical text exactly when they differ in member order only. */
  lemma SameTextIffSameValue(v: Value, w: Value)
    requires InDomain(v) && InDomain(w)
    ensures Canonicalize(v) == Canonicalize(w) <==> Normal(v) == Normal(w)
  {
    PrintsExactlyDomain(v);
    PrintsExactlyDomain(w);
    NormalPrintsSame(v);
    NormalPrintsSame(w);
    if Canonicalize(v) == Canonicalize(w) {
      Parser.ReadPrinted(v, []);
      Parser.ReadPrinted(w, []);
    }
  }

  /** Self-delimiting: a canonical text followed by anything but a digit can be split in one way. */
  lemma SelfDelimiting(v: Value, w: Value, after: Str, after': Str)
    requires InDomain(v) && InDomain(w)
    requires Parser.Delimited(after) && Parser.Delimited(after')
    requires Canonicalize(v).Ok? && Canonicalize(w).Ok?
    requires Canonicalize(v).value + after == Canonicalize(w).value + after'
    ensures Normal(v) == Normal(w) && after == after'
  {
    Parser.ReadPrinted(v, after);
    Parser.ReadPrinted(w, after');
  }

  // ---------------------------------------------------------------- objects

  /** JavaScript objects never have two members of one key. */
  ghost predicate DistinctKeys(members: seq<Member>)
  {
    forall i, j :: 0 <= i < j < |members| ==> members[i].key != members[j].key
  }

  lemma DistinctIsStrict(members: seq<Member>)
    requires DistinctKeys(members)
    ensures Strict(KeyLe, members)
  {
    forall i, j | 0 <= i < j < |members|
      ensures !(KeyLe(members[i], members[j]) && KeyLe(members[j], members[i]))
    {
      StrLeTotal(members[i].key, members[j].key);
    }
  }

  /** Insertion order of members never reaches the text. */
  lemma InsertionOrderIrrelevant(a: seq<Member>, b: seq<Member>)
    requires DistinctKeys(a) && multiset(a) == multiset(b)
    ensures Normal(Obj(a)) == Normal(Obj(b))
    ensures Canonicalize(Obj(a)) == Canonicalize(Obj(b))
  {
    KeyLePreorder();
    DistinctIsStrict(a);
    SortIgnoresOrder(KeyLe, a, b);
    SortBelow(Obj(a));
    SortBelow(Obj(b));
    assert Sort(a) == Sort(Obj(a).members) && Sort(a) == Sort(Obj(b).members);
    MembersParent(Obj(a), Obj(b), Sort(a));
  }

  lemma NormalObjectMembers(members: seq<Member>)
    ensures forall m :: m in members ==> Member(m.key, Normal(m.value)) in Normal(Obj(members)).members
    ensures forall n :: n in Normal(Obj(members)).members ==>
      exists m :: m in members && n == Member(m.key, Normal(m.value))
  {
    var v := Obj(members);
    SortBelow(v);
    var sorted := Sort(members);
    SortKeeps(KeyLe, members);
    NormalMembersAt(v, sorted);
    var normal := Normal(v).members;
    forall m | m in members ensures Member(m.key, Normal(m.value)) in normal {
      assert m in sorted;
      var i :| 0 <= i < |sorted| && sorted[i] == m;
      assert normal[i] == Member(m.key, Normal(m.value));
    }
    forall n | n in normal ensures exists m :: m in members && n == Member(m.key, Normal(m.value)) {
      var i :| 0 <= i < |normal| && normal[i] == n;
      assert sorted[i] in members;
    }
  }

  /** Equal normal objects agree member by member. */
  lemma SameMember(a: seq<Member>, b: seq<Member>, key: Str, x: Value, y: Value)
    requires Normal(Obj(a)) == Normal(Obj(b)) && DistinctKeys(b)
    requires Member(key, x) in a && Member(key, y) in b
    ensures Normal(x) == Normal(y)
  {
    NormalObjectMembers(a);
    NormalObjectMembers(b);
    assert Member(key, Normal(x)) in Normal(Obj(b)).members;
    var m :| m in b && Member(key, Normal(x)) == Member(m.key, Normal(m.value));
    var i :| 0 <= i < |b| && b[i] == m;
    var j :| 0 <= j < |b| && b[j] == Member(key, y);
    assert i == j;
  }

  /** Member `i` of two objects with the same keys in the same places. */
  lemma SameMemberAt(a: seq<Member>, b: seq<Member>, i: nat)
    requires i < |a| && i < |b| && a[i].key == b[i].key
    requires Normal(Obj(a)) == Normal(Obj(b)) && DistinctKeys(b)
    ensures Normal(a[i].value) == Normal(b[i].value)
  {
    assert a[i] in a && b[i] in b;
    assert a[i] == Member(a[i].key, a[i].value) && b[i] == Member(a[i].key, b[i].value);
    SameMember(a, b, a[i].key, a[i].value, b[i].value);
  }

  // ---------------------------------------------------------------- the text is well-formed Unicode

  lemma {:induction false} AsciiWellFormed(s: Str)
    requires forall i :: 0 <= i < |s| ==> s[i] < 0x80
    ensures Utf8.WellFormed(s)
  {
    if s != [] {
      AsciiWellFormed(s[1..]);
    }
  }

  lemma {:induction false} EscapeWellFormed(s: Str)
    ensures Utf8.WellFormed(Escape(s))
    decreases |s|
  {
    if s != [] {
      EscapeWellFormed(s[Utf8.Width(s)..]);
      var first := EscapeFirst(s);
      if Utf8.PairAt(s) {
        assert first == [s[0], s[1]];
        assert first[2..] == [];
      } else if ShortEscape(s[0]).Some? || s[0] < 32 || Utf8.Surrogate(s[0]) {
        AsciiWellFormed(first);
      } else {
        assert first == [s[0]] && first[1..] == [];
      }
      Utf8.WellFormedConcat(first, Escape(s[Utf8.Width(s)..]));
    }
  }

  lemma QuoteWellFormed(s: Str)
    ensures Utf8.WellFormed(Quote(s))
  {
    EscapeWellFormed(s);
    EncloseWellFormed(QUOTE, Escape(s), QUOTE);
  }

  lemma EncloseWellFormed(open: Unit, body: Str, close: Unit)
    requires open < 0x80 && close < 0x80 && Utf8.WellFormed(body)
    ensures Utf8.WellFormed([open] + (body + [close]))
  {
    AsciiWellFormed([open]);
    AsciiWellFormed([close]);
    Utf8.WellFormedConcat(body, [close]);
    Utf8.WellFormedConcat([open], body + [close]);
  }

  lemma JoinWellFormed(a: Str, sep: Unit, b: Str)
    requires sep < 0x80 && Utf8.WellFormed(a) && Utf8.WellFormed(b)
    ensures Utf8.WellFormed(a + ([sep] + b))
  {
    AsciiWellFormed([sep]);
    Utf8.WellFormedConcat([sep], b);
    Utf8.WellFormedConcat(a, [sep] + b);
  }

  /** No canonical text holds a lone surrogate, so its UTF-8 bytes determine it. */
  lemma {:induction false} TextWellFormed(v: Value)
    requires Canonicalize(v).Ok?
    ensures Utf8.WellFormed(Canonicalize(v).value)
    decreases v, 1
  {
    match v
    case Null => AsciiWellFormed(Ascii("null"));
    case Bool(b) => AsciiWellFormed(if b then Ascii("true") else Ascii("false"));
    case Int(n) => NumberWellFormed(n);
    case Text(s) => QuoteWellFormed(s);
    case Arr(items) =>
      ItemsWellFormed(v, items);
      EncloseWellFormed(LBRACKET, PrintItems(v, items).value, RBRACKET);
    case Obj(members) =>
      SortBelow(v);
      MembersWellFormed(v, Sort(members));
      EncloseWellFormed(LBRACE, PrintMembers(v, Sort(members)).value, RBRACE);
  }

  lemma NumberWellFormed(n: int)
    ensures Utf8.WellFormed(Number(n))
  {
    var s := Number(n);
    forall i | 0 <= i < |s| ensures s[i] < 0x80 {
      assert s[i] == MINUS || IsDigit(s[i]);
    }
    AsciiWellFormed(s);
  }

  lemma {:induction false} ItemsWellFormed(parent: Value, items: seq<Value>)
    requires forall i :: 0 <= i < |items| ==> items[i] < parent
    requires PrintItems(parent, items).Ok?
    ensures Utf8.WellFormed(PrintItems(parent, items).value)
    decreases parent, 0, |items|
  {
    if items != [] {
      TextWellFormed(items[0]);
      if |items| > 1 {
        ItemsWellFormed(parent, items[1..]);
        JoinWellFormed(Canonicalize(items[0]).value, COMMA, PrintItems(parent, items[1..]).value);
      }
    }
  }

  lemma {:induction false} MembersWellFormed(parent: Value, members: seq<Member>)
    requires forall i :: 0 <= i < |members| ==> members[i].value < parent
    requires PrintMembers(parent, members).Ok?
    ensures Utf8.WellFormed(PrintMembers(parent, members).value)
    decreases parent, 0, |members|
  {
    if members != [] {
      var m := members[0];
      QuoteWellFormed(m.key);
      TextWellFormed(m.value);
      JoinWellFormed(Quote(m.key), COLON, Canonicalize(m.value).value);
      if |members| > 1 {
        MembersWellFormed(parent, members[1..]);
        JoinWellFormed(PrintMember(parent, m).value, COMMA, PrintMembers(parent, members[1..]).value);
      }
    }
  }

  /** Different values, different bytes: the hash input of a value determines it. */
  lemma SameBytesSameValue(v: Value, w: Value)
    requires InDomain(v) && InDomain(w)
    requires Canonicalize(v).Ok? && Canonicalize(w).Ok?
    requires Utf8.Encode(Canonicalize(v).value) == Utf8.Encode(Canonicalize(w).value)
    ensures Normal(v) == Normal(w)
  {
    TextWellFormed(v);
    TextWellFormed(w);
    Utf8.EncodeInjective(Canonicalize(v).value, Canonicalize(w).value);
    SameTextIffSameValue(v, w);
  }

  // ---------------------------------------------------------------- length

  function KeyLengths(members: seq<Member>): nat
  {
    if members == [] then 0 else |members[0].key| + KeyLengths(members[1..])
  }

  lemma {:induction false} InsertKeyLengths(m: Member, members: seq<Member>)
    ensures KeyLengths(Insert(KeyLe, m, members)) == |m.key| + KeyLengths(members)
  {
    if members != [] && !KeyLe(m, members[0]) {
      InsertKeyLengths(m, members[1..]);
      assert Insert(KeyLe, m, members)[1..] == Insert(KeyLe, m, members[1..]);
    }
  }

  lemma {:induction false} SortKeyLengths(members: seq<Member>)
    ensures KeyLengths(Sort(members)) == KeyLengths(members)
  {
    if members != [] {
      SortKeyLengths(members[1..]);
      InsertKeyLengths(members[0], Sort(members[1..]));
    }
  }

  lemma {:induction false} PrintedKeyLengths(parent: Value, members: seq<Member>)
    requires forall i :: 0 <= i < |members| ==> members[i].value < parent
    requires PrintMembers(parent, members).Ok?
    ensures |PrintMembers(parent, members).value| >= KeyLengths(members)
  {
    if members != [] {
      PrintedKeyLengths(parent, members[1..]);
    }
  }

  lemma ObjectTextLength(members: seq<Member>)
    requires Canonicalize(Obj(members)).Ok?
    ensures |Canonicalize(Obj(members)).value| >= KeyLengths(members)
  {
    SortBelow(Obj(members));
    SortKeyLengths(members);
    PrintedKeyLengths(Obj(members), Sort(members));
  }
}
