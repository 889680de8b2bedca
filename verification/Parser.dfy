/** A JSON reader for the restricted domain, and the proof that it inverts the printer. */
module Parser {
  import opened Basics
  import opened Canonical
  import Hex
  import Utf8

  type Parsed<T> = Option<(T, Str)>

  // ---------------------------------------------------------------- the reader

  function HexUnit(s: Str): Option<Unit>
    requires |s| >= 4
  {
    var a, b, c, d := Hex.DigitValue(s[0]), Hex.DigitValue(s[1]), Hex.DigitValue(s[2]), Hex.DigitValue(s[3]);
    if a.Some? && b.Some? && c.Some? && d.Some?
    then Some(a.value * 0x1000 + b.value * 0x100 + c.value * 16 + d.value)
    else None
  }

  function Unescaped(c: Unit): Option<Unit>
  {
    if c == QUOTE || c == BACKSLASH then Some(c)
    else if c == 98 then Some(8)
    else if c == 116 then Some(9)
    else if c == 110 then Some(10)
    else if c == 102 then Some(12)
    else if c == 114 then Some(13)
    else None
  }

  /** One possibly escaped code unit. */
  function ReadUnit(s: Str): (r: Parsed<Unit>)
    requires s != []
    ensures r.Some? ==> |r.value.1| < |s|
  {
    if s[0] != BACKSLASH then Some((s[0], s[1..]))
    else if |s| >= 6 && s[1] == 117 then
      var u := HexUnit(s[2..6]);
      if u.Some? then Some((u.value, s[6..])) else None
    else if |s| >= 2 && Unescaped(s[1]).Some? then Some((Unescaped(s[1]).value, s[2..]))
    else None
  }

  /** String contents up to and including the closing quote. */
  function ReadChars(s: Str): (r: Parsed<Str>)
    ensures r.Some? ==> |r.value.1| < |s|
    decreases |s|
  {
    if s == [] then None
    else if s[0] == QUOTE then Some(([], s[1..]))
    else
      var u := ReadUnit(s);
      if u.None? then None
      else
        var more := ReadChars(u.value.1);
        if more.None? then None else Some(([u.value.0] + more.value.0, more.value.1))
  }

  function DigitRun(s: Str): (k: nat)
    ensures k <= |s|
    ensures forall i :: 0 <= i < k ==> IsDigit(s[i])
    ensures k < |s| ==> !IsDigit(s[k])
  {
    if s == [] || !IsDigit(s[0]) then 0 else 1 + DigitRun(s[1..])
  }

  function ReadNumber(s: Str): (r: Parsed<Value>)
    ensures r.Some? ==> |r.value.1| < |s|
  {
    var body := if s != [] && s[0] == MINUS then s[1..] else s;
    var k := DigitRun(body);
    if k == 0 then None
    else
      var n := DigitsValue(body[..k]);
      Some((Int(if s[0] == MINUS then -n else n), body[k..]))
  }

  function ReadLiteral(s: Str, word: Str, v: Value): (r: Parsed<Value>)
    ensures r.Some? && word != [] ==> |r.value.1| < |s|
  {
    if word <= s then Some((v, s[|word|..])) else None
  }

  function ReadValue(s: Str): (r: Parsed<Value>)
    ensures r.Some? ==> |r.value.1| < |s|
    decreases |s|, 1
  {
    if s == [] then None
    else if s[0] == 110 then ReadLiteral(s, Ascii("null"), Null)
    else if s[0] == 116 then ReadLiteral(s, Ascii("true"), Bool(true))
    else if s[0] == 102 then ReadLiteral(s, Ascii("false"), Bool(false))
    else if s[0] == QUOTE then
      var t := ReadChars(s[1..]);
      if t.None? then None else Some((Text(t.value.0), t.value.1))
    else if s[0] == LBRACKET then
      if |s| >= 2 && s[1] == RBRACKET then Some((Arr([]), s[2..]))
      else
        var items := ReadItems(s[1..]);
        if items.None? then None else Some((Arr(items.value.0), items.value.1))
    else if s[0] == LBRACE then
      if |s| >= 2 && s[1] == RBRACE then Some((Obj([]), s[2..]))
      else
        var members := ReadMembers(s[1..]);
        if members.None? then None else Some((Obj(members.value.0), members.value.1))
    else ReadNumber(s)
  }

  /** One or more comma-separated values up to and including the closing bracket. */
  function ReadItems(s: Str): (r: Parsed<seq<Value>>)
    ensures r.Some? ==> |r.value.1| < |s|
    decreases |s|, 2
  {
    var first := ReadValue(s);
    if first.None? || first.value.1 == [] then None
    else
      var (v, rest) := first.value;
      if rest[0] == RBRACKET then Some(([v], rest[1..]))
      else if rest[0] != COMMA then None
      else
        var more := ReadItems(rest[1..]);
        if more.None? then None else Some(([v] + more.value.0, more.value.1))
  }

  function ReadMember(s: Str): (r: Parsed<Member>)
    ensures r.Some? ==> |r.value.1| < |s|
    decreases |s|, 2
  {
    if s == [] || s[0] != QUOTE then None
    else
      var key := ReadChars(s[1..]);
      if key.None? || key.value.1 == [] || key.value.1[0] != COLON then None
      else
        var value := ReadValue(key.value.1[1..]);
        if value.None? then None else Some((Member(key.value.0, value.value.0), value.value.1))
  }

  function ReadMembers(s: Str): (r: Parsed<seq<Member>>)
    ensures r.Some? ==> |r.value.1| < |s|
    decreases |s|, 3
  {
    var first := ReadMember(s);
    if first.None? || first.value.1 == [] then None
    else
      var (m, rest) := first.value;
      if rest[0] == RBRACE then Some(([m], rest[1..]))
      else if rest[0] != COMMA then None
      else
        var more := ReadMembers(rest[1..]);
        if more.None? then None else Some(([m] + more.value.0, more.value.1))
  }

  // ---------------------------------------------------------------- inversion

  lemma HexUnitInverts(c: Unit)
    ensures HexUnit(UnicodeEscape(c)[2..6]) == Some(c)
  {
    var e := UnicodeEscape(c);
    assert e[2..6] == [e[2], e[3], e[4], e[5]];
    assert c / 0x1000 * 0x1000 + c / 0x100 % 16 * 0x100 + c / 16 % 16 * 16 + c % 16 == c by {
      var y := c / 16;
      var z := y / 16;
      assert z == c / 0x100 && z / 16 == c / 0x1000;
    }
  }

  lemma ReadEscapedUnit(c: Unit, rest: Str)
    ensures (EscapeUnit(c) + rest)[0] != QUOTE
    ensures ReadUnit(EscapeUnit(c) + rest) == Some((c, rest))
  {
    var s := EscapeUnit(c) + rest;
    if ShortEscape(c).Some? {
      assert s[2..] == rest;
    } else if c < 32 || Utf8.Surrogate(c) {
      HexUnitInverts(c);
      assert s[2..6] == UnicodeEscape(c)[2..6];
      assert s[6..] == rest;
    } else {
      assert s[1..] == rest;
    }
  }

  lemma Assoc<T>(a: seq<T>, b: seq<T>, c: seq<T>)
    ensures a + b + c == a + (b + c)
  {
  }

  lemma ReadCharsStep(piece: Str, c: Unit, t: Str, tail: Str, rest: Str)
    requires piece != [] && piece[0] != QUOTE
    requires ReadUnit(piece + tail) == Some((c, tail))
    requires ReadChars(tail) == Some((t, rest))
    ensures ReadChars(piece + tail) == Some(([c] + t, rest))
  {
  }

  lemma ReadPlainUnit(c: Unit, tail: Str)
    requires c != BACKSLASH
    ensures ReadUnit([c] + tail) == Some((c, tail))
  {
    assert ([c] + tail)[1..] == tail;
  }

  lemma ReadPair(t: Str, tail: Str, rest: Str)
    requires Utf8.PairAt(t) && ReadChars(tail) == Some((t[2..], rest))
    ensures ReadChars(t[..2] + tail) == Some((t, rest))
  {
    ReadPlainUnit(t[1], tail);
    ReadCharsStep([t[1]], t[1], t[2..], tail, rest);
    ReadPlainUnit(t[0], [t[1]] + tail);
    ReadCharsStep([t[0]], t[0], [t[1]] + t[2..], [t[1]] + tail, rest);
    assert t[..2] + tail == [t[0]] + ([t[1]] + tail);
    assert t == [t[0]] + ([t[1]] + t[2..]);
  }

  lemma ReadOne(t: Str, tail: Str, rest: Str)
    requires t != [] && ReadChars(tail) == Some((t[1..], rest))
    ensures ReadChars(EscapeUnit(t[0]) + tail) == Some((t, rest))
  {
    ReadEscapedUnit(t[0], tail);
    ReadCharsStep(EscapeUnit(t[0]), t[0], t[1..], tail, rest);
    assert t == [t[0]] + t[1..];
  }

  lemma {:induction false} ReadEscaped(t: Str, rest: Str)
    ensures ReadChars(Escape(t) + ([QUOTE] + rest)) == Some((t, rest))
    decreases |t|
  {
    if t == [] {
      assert Escape(t) + ([QUOTE] + rest) == [QUOTE] + rest;
      assert ([QUOTE] + rest)[1..] == rest;
    } else {
      var w := Utf8.Width(t);
      ReadEscaped(t[w..], rest);
      Assoc(EscapeFirst(t), Escape(t[w..]), [QUOTE] + rest);
      if Utf8.PairAt(t) {
        ReadPair(t, Escape(t[2..]) + ([QUOTE] + rest), rest);
      } else {
        ReadOne(t, Escape(t[1..]) + ([QUOTE] + rest), rest);
      }
    }
  }

  lemma {:induction false} DigitRunOf(s: Str, rest: Str)
    requires forall i :: 0 <= i < |s| ==> IsDigit(s[i])
    requires rest == [] || !IsDigit(rest[0])
    ensures DigitRun(s + rest) == |s|
  {
    if s == [] {
      assert s + rest == rest;
    } else {
      DigitRunOf(s[1..], rest);
      assert (s + rest)[1..] == s[1..] + rest;
    }
  }

  /** Text after a value that cannot be mistaken for more of it. */
  predicate Delimited(rest: Str)
  {
    rest == [] || !IsDigit(rest[0])
  }

  /** Reading digits, past an optional sign. */
  lemma ReadSigned(s: Str, digits: Str, rest: Str, n: int)
    requires n >= 0 && digits == Digits(n) && Delimited(rest)
    requires s == digits + rest || s == [MINUS] + (digits + rest)
    ensures ReadNumber(s) == Some((Int(if s[0] == MINUS then -n else n), rest))
  {
    DigitsDenote(n);
    DigitRunOf(digits, rest);
    Parts(digits, rest);
    assert IsDigit(digits[0]) && (digits + rest)[0] == digits[0];
    if s[0] == MINUS {
      assert s[1..] == digits + rest;
    }
  }

  lemma ReadPrintedNumber(n: int, rest: Str)
    requires Delimited(rest)
    ensures ReadNumber(Number(n) + rest) == Some((Int(n), rest))
    ensures IsDigit(Number(n)[0]) || Number(n)[0] == MINUS
  {
    var abs := if n < 0 then -n else n;
    if n < 0 {
      assert Number(n) + rest == [MINUS] + (Digits(abs) + rest);
    } else {
      assert IsDigit(Digits(abs)[0]);
    }
    ReadSigned(Number(n) + rest, Digits(abs), rest, abs);
  }

  lemma Parts(a: Str, b: Str)
    ensures (a + b)[..|a|] == a && (a + b)[|a|..] == b
  {
  }

  /** The reader undoes the printer up to member order, and stops exactly where the value ends. */
  lemma {:induction false} ReadPrinted(v: Value, rest: Str)
    requires Canonicalize(v).Ok? && Delimited(rest)
    ensures ReadValue(Canonicalize(v).value + rest) == Some((Normal(v), rest))
    decreases v, 1
  {
    match v
    case Null => ReadPrintedLiteral(Ascii("null"), v, rest);
    case Bool(b) => ReadPrintedLiteral(if b then Ascii("true") else Ascii("false"), v, rest);
    case Int(n) => ReadPrintedNumber(n, rest);
    case Text(t) => ReadPrintedText(t, rest);
    case Arr(items) => ReadPrintedArray(v, rest);
    case Obj(members) => ReadPrintedObject(v, rest);
  }

  lemma {:induction false} ReadPrintedArray(v: Value, rest: Str)
    requires v.Arr? && Canonicalize(v).Ok?
    ensures ReadValue(Canonicalize(v).value + rest) == Some((Normal(v), rest))
    decreases v, 0, |v.items| + 1
  {
    if v.items == [] {
      assert Canonicalize(v).value + rest == [LBRACKET, RBRACKET] + rest;
    } else {
      ReadPrintedItems(v, v.items, rest);
      ReadArray(PrintItems(v, v.items).value, NormalItems(v, v.items), rest);
    }
  }

  lemma {:induction false} ReadPrintedObject(v: Value, rest: Str)
    requires v.Obj? && Canonicalize(v).Ok?
    ensures ReadValue(Canonicalize(v).value + rest) == Some((Normal(v), rest))
    decreases v, 0, |v.members| + 1
  {
    SortBelow(v);
    Sorting.SortKeeps(KeyLe, v.members);
    var sorted := Sort(v.members);
    if sorted == [] {
      assert Canonicalize(v).value + rest == [LBRACE, RBRACE] + rest;
    } else {
      ReadPrintedMembers(v, sorted, rest);
      ReadObject(PrintMembers(v, sorted).value, NormalMembers(v, sorted), rest);
    }
  }

  lemma ReadArray(body: Str, items: seq<Value>, rest: Str)
    requires body != [] && body[0] != RBRACKET
    requires ReadItems(body + ([RBRACKET] + rest)) == Some((items, rest))
    ensures ReadValue([LBRACKET] + (body + [RBRACKET]) + rest) == Some((Arr(items), rest))
  {
    Enclosed(LBRACKET, body, RBRACKET, rest);
  }

  lemma ReadObject(body: Str, members: seq<Member>, rest: Str)
    requires body != [] && body[0] != RBRACE
    requires ReadMembers(body + ([RBRACE] + rest)) == Some((members, rest))
    ensures ReadValue([LBRACE] + (body + [RBRACE]) + rest) == Some((Obj(members), rest))
  {
    Enclosed(LBRACE, body, RBRACE, rest);
  }

  lemma ReadMembersStep(first: Str, m: Member, tail: Str, ms: seq<Member>, rest: Str)
    requires ReadMember(first + ([COMMA] + tail)) == Some((m, [COMMA] + tail))
    requires ReadMembers(tail) == Some((ms, rest))
    ensures ReadMembers(first + ([COMMA] + tail)) == Some(([m] + ms, rest))
  {
    assert ([COMMA] + tail)[1..] == tail;
  }

  lemma LiteralAhead(word: Str, v: Value, rest: Str)
    ensures ReadLiteral(word + rest, word, v) == Some((v, rest))
  {
    assert word <= word + rest && (word + rest)[|word|..] == rest;
  }

  lemma FirstLetters()
    ensures Ascii("null")[0] == 110 && Ascii("true")[0] == 116 && Ascii("false")[0] == 102
  {
  }

  lemma ReadPrintedLiteral(word: Str, v: Value, rest: Str)
    requires word == (if v.Null? then Ascii("null") else if v == Bool(true) then Ascii("true") else Ascii("false"))
    requires v.Null? || v.Bool?
    ensures ReadValue(word + rest) == Some((v, rest))
  {
    FirstLetters();
    LiteralAhead(word, v, rest);
    assert (word + rest)[0] == word[0];
  }

  lemma ReadPrintedText(t: Str, rest: Str)
    ensures ReadValue(Quote(t) + rest) == Some((Text(t), rest))
  {
    ReadEscaped(t, rest);
    Enclosed(QUOTE, Escape(t), QUOTE, rest);
  }

  lemma Enclosed(open: Unit, body: Str, close: Unit, rest: Str)
    ensures ([open] + (body + [close]) + rest)[0] == open
    ensures ([open] + (body + [close]) + rest)[1..] == body + ([close] + rest)
  {
  }

  lemma {:induction false} ReadPrintedItems(parent: Value, items: seq<Value>, rest: Str)
    requires forall i :: 0 <= i < |items| ==> items[i] < parent
    requires items != [] && PrintItems(parent, items).Ok?
    ensures ReadItems(PrintItems(parent, items).value + ([RBRACKET] + rest))
         == Some((NormalItems(parent, items), rest))
    decreases parent, 0, |items|
  {
    var first := Canonicalize(items[0]).value;
    if |items| == 1 {
      ReadPrinted(items[0], [RBRACKET] + rest);
      assert ([RBRACKET] + rest)[1..] == rest;
      assert items[1..] == [] && NormalItems(parent, items) == [Normal(items[0])];
    } else {
      var tail := PrintItems(parent, items[1..]).value + ([RBRACKET] + rest);
      ReadPrinted(items[0], [COMMA] + tail);
      ReadPrintedItems(parent, items[1..], rest);
      Separated(first, COMMA, PrintItems(parent, items[1..]).value, [RBRACKET] + rest);
    }
  }

  lemma Separated(a: Str, sep: Unit, b: Str, c: Str)
    ensures a + ([sep] + b) + c == a + ([sep] + (b + c))
  {
  }

  lemma {:induction false} ReadPrintedMember(parent: Value, m: Member, rest: Str)
    requires m.value < parent
    requires PrintMember(parent, m).Ok? && Delimited(rest)
    ensures ReadMember(PrintMember(parent, m).value + rest) == Some((Member(m.key, Normal(m.value)), rest))
    decreases parent, 0, 0
  {
    var after := [COLON] + (Canonicalize(m.value).value + rest);
    ReadEscaped(m.key, after);
    ReadPrinted(m.value, rest);
    Separated(Quote(m.key), COLON, Canonicalize(m.value).value, rest);
    Enclosed(QUOTE, Escape(m.key), QUOTE, after);
    assert after[1..] == Canonicalize(m.value).value + rest;
  }

  lemma {:induction false} ReadPrintedMembers(parent: Value, members: seq<Member>, rest: Str)
    requires forall i :: 0 <= i < |members| ==> members[i].value < parent
    requires members != [] && PrintMembers(parent, members).Ok?
    ensures ReadMembers(PrintMembers(parent, members).value + ([RBRACE] + rest))
         == Some((NormalMembers(parent, members), rest))
    decreases parent, 0, |members|
  {
    var first := PrintMember(parent, members[0]).value;
    if |members| == 1 {
      ReadPrintedMember(parent, members[0], [RBRACE] + rest);
      assert ([RBRACE] + rest)[1..] == rest;
      assert members[1..] == [] && NormalMembers(parent, members) == [Member(members[0].key, Normal(members[0].value))];
    } else {
      var tail := PrintMembers(parent, members[1..]).value + ([RBRACE] + rest);
      ReadPrintedMember(parent, members[0], [COMMA] + tail);
      ReadPrintedMembers(parent, members[1..], rest);
      Separated(first, COMMA, PrintMembers(parent, members[1..]).value, [RBRACE] + rest);
      ReadMembersStep(first, Member(members[0].key, Normal(members[0].value)), tail,
                      NormalMembers(parent, members[1..]), rest);
    }
  }
}
