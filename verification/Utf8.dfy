/** `TextEncoder.encode`: UTF-16 code units to UTF-8 bytes. */
module Utf8 {
  import opened Basics

  predicate High(c: Unit) { 0xD800 <= c < 0xDC00 }
  predicate Low(c: Unit) { 0xDC00 <= c < 0xE000 }
  predicate Surrogate(c: Unit) { High(c) || Low(c) }

  predicate PairAt(s: Str)
  {
    |s| >= 2 && High(s[0]) && Low(s[1])
  }

  /** How many code units the first character of `s` takes. */
  function Width(s: Str): nat
    requires s != []
  {
    if PairAt(s) then 2 else 1
  }

  function EncodeUnit(c: Unit): (b: Bytes)
    ensures |b| >= 1
  {
    if c < 0x80 then [c]
    else if c < 0x800 then [0xC0 + c / 0x40, 0x80 + c % 0x40]
    else if Surrogate(c) then [0xEF, 0xBF, 0xBD]
    else [0xE0 + c / 0x1000, 0x80 + c / 0x40 % 0x40, 0x80 + c % 0x40]
  }

  function PairPoint(hi: Unit, lo: Unit): int { 0x10000 + (hi as int - 0xD800) * 0x400 + (lo as int - 0xDC00) }

  function EncodePair(hi: Unit, lo: Unit): (b: Bytes)
    requires High(hi) && Low(lo)
    ensures |b| == 4
  {
    var cp := PairPoint(hi, lo);
    [0xF0 + cp / 0x40000, 0x80 + cp / 0x1000 % 0x40, 0x80 + cp / 0x40 % 0x40, 0x80 + cp % 0x40]
  }

  function EncodeFirst(s: Str): (b: Bytes)
    requires s != []
    ensures |b| >= Width(s)
  {
    if PairAt(s) then EncodePair(s[0], s[1]) else EncodeUnit(s[0])
  }

  function Encode(s: Str): (b: Bytes)
    ensures |b| >= |s|
  {
    if s == [] then [] else EncodeFirst(s) + Encode(s[Width(s)..])
  }

  /** No lone surrogate. */
  predicate WellFormed(s: Str)
  {
    s == [] || ((PairAt(s) || !Surrogate(s[0])) && WellFormed(s[Width(s)..]))
  }

  lemma {:induction false} WellFormedConcat(a: Str, b: Str)
    requires WellFormed(a) && WellFormed(b)
    ensures WellFormed(a + b)
  {
    if a == [] {
      assert a + b == b;
    } else {
      WellFormedConcat(a[Width(a)..], b);
      assert (a + b)[Width(a)..] == a[Width(a)..] + b;
    }
  }

  lemma Sextets(x: nat)
    ensures x == x / 0x40000 * 0x40000 + x / 0x1000 % 0x40 * 0x1000 + x / 0x40 % 0x40 * 0x40 + x % 0x40
  {
    var y := x / 0x40;
    var z := y / 0x40;
    assert z == x / 0x1000 && z / 0x40 == x / 0x40000;
  }

  // ---------------------------------------------------------------- reading the bytes back

  /** What a byte holds besides its marker. */
  function Rest(b: Byte, marker: int): int { b as int - marker }

  predicate Continues(b: Byte) { 0x80 <= b < 0xC0 }

  /** The code point at the start and the bytes it takes, in the shortest form only (RFC 3629, section 3). */
  function CodePoint(b: Bytes): (r: Option<(int, nat)>)
    ensures r.Some? ==> 0 < r.value.1 <= |b|
  {
    if b == [] then None
    else if b[0] < 0x80 then Some((b[0], 1))
    else if 0xC0 <= b[0] < 0xE0 && |b| >= 2 && Continues(b[1]) then
      var x := Rest(b[0], 0xC0) * 0x40 + Rest(b[1], 0x80);
      if x < 0x80 then None else Some((x, 2))
    else if 0xE0 <= b[0] < 0xF0 && |b| >= 3 && Continues(b[1]) && Continues(b[2]) then
      var x := Rest(b[0], 0xE0) * 0x1000 + Rest(b[1], 0x80) * 0x40 + Rest(b[2], 0x80);
      if x < 0x800 || 0xD800 <= x < 0xE000 then None else Some((x, 3))
    else if 0xF0 <= b[0] < 0xF8 && |b| >= 4 && Continues(b[1]) && Continues(b[2]) && Continues(b[3]) then
      var x := Rest(b[0], 0xF0) * 0x40000 + Rest(b[1], 0x80) * 0x1000 + Rest(b[2], 0x80) * 0x40 + Rest(b[3], 0x80);
      if x < 0x10000 || x > 0x10FFFF then None else Some((x, 4))
    else None
  }

  /** The code units of a code point. */
  function Units(x: int): Str
    requires 0 <= x <= 0x10FFFF
  {
    if x < 0x10000 then [x] else [0xD800 + (x - 0x10000) / 0x400, 0xDC00 + (x - 0x10000) % 0x400]
  }

  function Decode(b: Bytes): Option<Str>
    decreases |b|
  {
    if b == [] then Some([])
    else
      match CodePoint(b)
      case None => None
      case Some((x, n)) =>
        if !(0 <= x <= 0x10FFFF) then None
        else
          var rest := Decode(b[n..]);
          if rest.None? then None else Some(Units(x) + rest.value)
  }

  /** Lone surrogates become the replacement character U+FFFD. */
  function Repaired(s: Str): Str
  {
    if s == [] then []
    else (if PairAt(s) then s[..2] else if Surrogate(s[0]) then [0xFFFD] else [s[0]]) + Repaired(s[Width(s)..])
  }

  lemma UnitDecodes(c: Unit, rest: Bytes)
    ensures CodePoint(EncodeUnit(c) + rest) == Some((if Surrogate(c) then 0xFFFD else c, |EncodeUnit(c)|))
  {
    var b := EncodeUnit(c) + rest;
    if c >= 0x800 && !Surrogate(c) {
      Sextets(c);
      assert b[0] == 0xE0 + c / 0x1000 && b[1] == 0x80 + c / 0x40 % 0x40 && b[2] == 0x80 + c % 0x40;
    } else if c >= 0x80 && !Surrogate(c) {
      assert b[0] == 0xC0 + c / 0x40 && b[1] == 0x80 + c % 0x40;
    }
  }

  lemma PairDecodes(hi: Unit, lo: Unit, rest: Bytes)
    requires High(hi) && Low(lo)
    ensures var x := 0x10000 + (hi as int - 0xD800) * 0x400 + (lo as int - 0xDC00);
      x == PairPoint(hi, lo) && CodePoint(EncodePair(hi, lo) + rest) == Some((x, 4)) && 0x10000 <= x <= 0x10FFFF && Units(x) == [hi, lo]
  {
    var x := PairPoint(hi, lo);
    var b := EncodePair(hi, lo) + rest;
    Sextets(x);
    assert b[0] == 0xF0 + x / 0x40000 && b[1] == 0x80 + x / 0x1000 % 0x40;
    assert b[2] == 0x80 + x / 0x40 % 0x40 && b[3] == 0x80 + x % 0x40;
    assert (x - 0x10000) / 0x400 == hi - 0xD800 && (x - 0x10000) % 0x400 == lo - 0xDC00;
  }

  lemma DecodeStep(first: Bytes, rest: Bytes, x: int, text: Str)
    requires first != [] && CodePoint(first + rest) == Some((x, |first|)) && 0 <= x <= 0x10FFFF && Decode(rest) == Some(text)
    ensures Decode(first + rest) == Some(Units(x) + text)
  {
    assert (first + rest)[|first|..] == rest;
  }

  /** A decoder written from the format reads every encoded text back, with lone surrogates replaced. */
  lemma {:induction false} DecodeEncoded(s: Str)
    ensures Decode(Encode(s)) == Some(Repaired(s))
  {
    if s != [] {
      var rest := s[Width(s)..];
      DecodeEncoded(rest);
      if PairAt(s) {
        PairDecodes(s[0], s[1], Encode(rest));
        DecodeStep(EncodePair(s[0], s[1]), Encode(rest), PairPoint(s[0], s[1]), Repaired(rest));
        assert s[..2] == [s[0], s[1]];
      } else {
        UnitDecodes(s[0], Encode(rest));
        DecodeStep(EncodeUnit(s[0]), Encode(rest), if Surrogate(s[0]) then 0xFFFD else s[0], Repaired(rest));
      }
    }
  }

  lemma {:induction false} WellFormedIsRepaired(s: Str)
    requires WellFormed(s)
    ensures Repaired(s) == s
  {
    if s != [] {
      WellFormedIsRepaired(s[Width(s)..]);
      assert s == s[..Width(s)] + s[Width(s)..];
    }
  }

  /** UTF-8 forgets nothing about text without lone surrogates. */
  lemma EncodeInjective(a: Str, b: Str)
    requires WellFormed(a) && WellFormed(b)
    requires Encode(a) == Encode(b)
    ensures a == b
  {
    DecodeEncoded(a);
    DecodeEncoded(b);
    WellFormedIsRepaired(a);
    WellFormedIsRepaired(b);
  }
}
