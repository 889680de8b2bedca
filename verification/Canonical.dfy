/** VCHF-2: the frozen canonical JSON printer whose text is what gets hashed.

    The printer throws outside its domain, sorts object keys by UTF-16 code unit, and
    prints without insignificant whitespace. A parser written against the grammar, not
    against the printer, shows that nothing but member order is lost. */
module Canonical {
  import opened Basics
  import opened Sorting
  import Hex
  import Utf8

  /** A JavaScript value. `BadNumber` is any number that is not an integer (NaN, 1.5, ...);
      `BadType` is undefined, a bigint, a symbol or a function. Members are in insertion order. */
  datatype Value =
    | Null
    | Bool(b: bool)
    | Int(n: int)
    | BadNumber
    | Text(s: Str)
    | Arr(items: seq<Value>)
    | Obj(members: seq<Member>)
    | BadType

  datatype Member = Member(key: Str, value: Value)

  datatype Failure = NotSafeInteger | UnsupportedType

  type Printed = Result<Str, Failure>

  const MAX_SAFE := 0x1F_FFFF_FFFF_FFFF

  predicate SafeInteger(n: int) { -MAX_SAFE <= n <= MAX_SAFE }

  predicate KeyLe(a: Member, b: Member) { StrLe(a.key, b.key) }

  const QUOTE: Unit := 34
  const BACKSLASH: Unit := 92
  const COMMA: Unit := 44
  const COLON: Unit := 58
  const LBRACKET: Unit := 91
  const RBRACKET: Unit := 93
  const LBRACE: Unit := 123
  const RBRACE: Unit := 125
  const MINUS: Unit := 45

  // ---------------------------------------------------------------- numbers

  function Digits(n: nat): (s: Str)
    ensures s != []
    ensures forall i :: 0 <= i < |s| ==> IsDigit(s[i])
  {
    if n < 10 then [48 + n] else Digits(n / 10) + [48 + n % 10]
  }

  predicate IsDigit(c: Unit) { 48 <= c <= 57 }

  function Number(n: int): (s: Str)
    ensures s != []
  {
    if n < 0 then [MINUS] + Digits(-n) else Digits(n)
  }

  /** The value a run of decimal digits denotes. */
  function DigitsValue(s: Str): int
  {
    if s == [] then 0 else DigitsValue(s[..|s| - 1]) * 10 + (s[|s| - 1] as int - 48)
  }

  lemma {:induction false} DigitsDenote(n: nat)
    ensures DigitsValue(Digits(n)) == n
  {
    if n >= 10 {
      DigitsDenote(n / 10);
      assert Digits(n)[..|Digits(n)| - 1] == Digits(n / 10);
    }
  }

  // ---------------------------------------------------------------- strings

  function UnicodeEscape(c: Unit): (s: Str)
    ensures |s| == 6
  {
    [BACKSLASH, 117, Hex.Digit(c / 0x1000), Hex.Digit(c / 0x100 % 16), Hex.Digit(c / 16 % 16), Hex.Digit(c % 16)]
  }

  /** The letter of a two-character escape. */
  function ShortEscape(c: Unit): Option<Unit>
  {
    if c == QUOTE || c == BACKSLASH then Some(c)
    else if c == 8 then Some(98)
    else if c == 9 then Some(116)
    else if c == 10 then Some(110)
    else if c == 12 then Some(102)
    else if c == 13 then Some(114)
    else None
  }

  function EscapeUnit(c: Unit): (s: Str)
    ensures s != []
  {
    if ShortEscape(c).Some? then [BACKSLASH, ShortEscape(c).value]
    else if c < 32 || Utf8.Surrogate(c) then UnicodeEscape(c)
    else [c]
  }

  function EscapeFirst(s: Str): (r: Str)
    requires s != []
    ensures r != []
  {
    if Utf8.PairAt(s) then s[..2] else EscapeUnit(s[0])
  }

  function Escape(s: Str): (r: Str)
    ensures |r| >= |s|
  {
    if s == [] then [] else EscapeFirst(s) + Escape(s[Utf8.Width(s)..])
  }

  /** Well-formed `JSON.stringify` of a string: lone surrogates are escaped, pairs are not. */
  function Quote(s: Str): (r: Str)
    ensures |r| >= |s| + 2
  {
    [QUOTE] + (Escape(s) + [QUOTE])
  }

  // ---------------------------------------------------------------- the printer

  function Sort(members: seq<Member>): seq<Member>
  {
    SortBy(KeyLe, members)
  }

  lemma SortBelow(v: Value)
    requires v.Obj?
    ensures forall i :: 0 <= i < |Sort(v.members)| ==> Sort(v.members)[i].value < v
  {
    SortKeeps(KeyLe, v.members);
    forall i | 0 <= i < |Sort(v.members)| ensures Sort(v.members)[i].value < v {
      assert Sort(v.members)[i] in v.members;
    }
  }

  /** The first throw wins. */
  function Then(a: Printed, sep: Unit, b: Printed): Printed
  {
    if a.Err? then a else if b.Err? then b else Ok(a.value + ([sep] + b.value))
  }

  function Enclose(open: Unit, body: Printed, close: Unit): Printed
  {
    if body.Err? then body else Ok([open] + (body.value + [close]))
  }

  function Canonicalize(v: Value): Printed
    decreases v, 1
  {
    match v
    case Null => Ok(Ascii("null"))
    case Bool(b) => Ok(if b then Ascii("true") else Ascii("false"))
    case Int(n) => if SafeInteger(n) then Ok(Number(n)) else Err(NotSafeInteger)
    case BadNumber => Err(NotSafeInteger)
    case Text(s) => Ok(Quote(s))
    case Arr(items) => Enclose(LBRACKET, PrintItems(v, items), RBRACKET)
    case Obj(members) =>
      SortBelow(v);
      Enclose(LBRACE, PrintMembers(v, Sort(members)), RBRACE)
    case BadType => Err(UnsupportedType)
  }

  /** `items.map(encode).join(",")` */
  function PrintItems(ghost parent: Value, items: seq<Value>): Printed
    requires forall i :: 0 <= i < |items| ==> items[i] < parent
    decreases parent, 0, |items|
  {
    if items == [] then Ok([])
    else if |items| == 1 then Canonicalize(items[0])
    else Then(Canonicalize(items[0]), COMMA, PrintItems(parent, items[1..]))
  }

  function PrintMember(ghost parent: Value, m: Member): Printed
    requires m.value < parent
    decreases parent, 0, 0
  {
    Then(Ok(Quote(m.key)), COLON, Canonicalize(m.value))
  }

  function PrintMembers(ghost parent: Value, members: seq<Member>): Printed
    requires forall i :: 0 <= i < |members| ==> members[i].value < parent
    decreases parent, 0, |members|
  {
    if members == [] then Ok([])
    else if |members| == 1 then PrintMember(parent, members[0])
    else Then(PrintMember(parent, members[0]), COMMA, PrintMembers(parent, members[1..]))
  }

  // ---------------------------------------------------------------- what is preserved

  /** Members sorted at every level: equal normal forms differ only in insertion order. */
  function Normal(v: Value): Value
    decreases v, 1
  {
    match v
    case Arr(items) => Arr(NormalItems(v, items))
    case Obj(members) => SortBelow(v); Obj(NormalMembers(v, Sort(members)))
    case _ => v
  }

  function NormalItems(ghost parent: Value, items: seq<Value>): (r: seq<Value>)
    requires forall i :: 0 <= i < |items| ==> items[i] < parent
    ensures |r| == |items|
    decreases parent, 0, |items|
  {
    if items == [] then [] else [Normal(items[0])] + NormalItems(parent, items[1..])
  }

  function NormalMembers(ghost parent: Value, members: seq<Member>): (r: seq<Member>)
    requires forall i :: 0 <= i < |members| ==> members[i].value < parent
    ensures |r| == |members|
    decreases parent, 0, |members|
  {
    if members == [] then []
    else [Member(members[0].key, Normal(members[0].value))] + NormalMembers(parent, members[1..])
  }

  /** Finite safe integers, strings, literals, and arrays and objects of domain values. */
  predicate InDomain(v: Value)
  {
    match v
    case Int(n) => SafeInteger(n)
    case BadNumber => false
    case BadType => false
    case Arr(items) => forall x :: x in items ==> InDomain(x)
    case Obj(members) => forall m :: m in members ==> InDomain(m.value)
    case _ => true
  }

  lemma {:induction false} PrintsExactlyDomain(v: Value)
    ensures Canonicalize(v).Ok? <==> InDomain(v)
    decreases v, 1
  {
    match v
    case Arr(items) => ItemsPrint(v, items);
    case Obj(members) =>
      SortBelow(v);
      SortKeeps(KeyLe, members);
      MembersPrint(v, Sort(members));
    case _ =>
  }

  lemma {:induction false} ItemsPrint(parent: Value, items: seq<Value>)
    requires forall i :: 0 <= i < |items| ==> items[i] < parent
    ensures PrintItems(parent, items).Ok? <==> forall x :: x in items ==> InDomain(x)
    decreases parent, 0, |items|
  {
    if items != [] {
      PrintsExactlyDomain(items[0]);
      ItemsPrint(parent, items[1..]);
      assert items == [items[0]] + items[1..];
    }
  }

  lemma {:induction false} MembersPrint(parent: Value, members: seq<Member>)
    requires forall i :: 0 <= i < |members| ==> members[i].value < parent
    ensures PrintMembers(parent, members).Ok? <==> forall m :: m in members ==> InDomain(m.value)
    decreases parent, 0, |members|
  {
    if members != [] {
      PrintsExactlyDomain(members[0].value);
      MembersPrint(parent, members[1..]);
      assert members == [members[0]] + members[1..];
    }
  }
}
