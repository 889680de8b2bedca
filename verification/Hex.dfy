/** Lowercase hexadecimal text of digests, and the decoder that Merkle hashing applies to it. */
module Hex {
  import opened Basics

  function Digit(n: int): (c: Unit)
    requires 0 <= n < 16
  {
    if n < 10 then 48 + n else 87 + n
  }

  /** The decoder takes both letter cases. */
  function DigitValue(c: Unit): (r: Option<int>)
    ensures r.Some? ==> 0 <= r.value < 16
  {
    if 48 <= c <= 57 then Some(c - 48)
    else if 97 <= c <= 102 then Some(c - 87)
    else if 65 <= c <= 70 then Some(c - 55)
    else None
  }

  function ToHex(b: Bytes): (r: Str)
    ensures |r| == 2 * |b|
  {
    if b == [] then [] else [Digit(b[0] / 16), Digit(b[0] % 16)] + ToHex(b[1..])
  }

  /** `None` is the exception for an odd length or a character that is not a hex digit. */
  function FromHex(s: Str): (r: Option<Bytes>)
    ensures r.Some? ==> |s| == 2 * |r.value|
  {
    if s == [] then Some([])
    else if |s| == 1 then None
    else
      var hi, lo, rest := DigitValue(s[0]), DigitValue(s[1]), FromHex(s[2..]);
      if hi.Some? && lo.Some? && rest.Some? then Some([16 * hi.value + lo.value] + rest.value)
      else None
  }

  predicate LowerHex(s: Str)
  {
    forall i :: 0 <= i < |s| ==> 48 <= s[i] <= 57 || 97 <= s[i] <= 102
  }

  /** 64 lowercase hex digits, the form evidence fields must have. */
  predicate IsSha256Hex(s: Str)
  {
    |s| == 64 && LowerHex(s)
  }

  lemma {:induction false} FromToHex(b: Bytes)
    ensures FromHex(ToHex(b)) == Some(b)
    ensures LowerHex(ToHex(b))
  {
    if b != [] {
      FromToHex(b[1..]);
      assert ToHex(b)[2..] == ToHex(b[1..]);
      assert b == [b[0]] + b[1..];
    }
  }

  /** Each byte is two digits, the high half first. */
  lemma {:induction false} HexAt(b: Bytes, i: nat)
    requires i < |b|
    ensures ToHex(b)[2 * i] == Ascii("0123456789abcdef")[b[i] / 16] && ToHex(b)[2 * i + 1] == Ascii("0123456789abcdef")[b[i] % 16]
  {
    if i > 0 {
      HexAt(b[1..], i - 1);
      assert ToHex(b)[2..] == ToHex(b[1..]);
    } else {
      DigitIs(b[0] / 16);
      DigitIs(b[0] % 16);
    }
  }

  lemma DigitIs(n: int)
    requires 0 <= n < 16
    ensures Digit(n) == Ascii("0123456789abcdef")[n]
  {
  }

  lemma ToHexInjective(a: Bytes, b: Bytes)
    requires ToHex(a) == ToHex(b)
    ensures a == b
  {
    FromToHex(a);
    FromToHex(b);
  }

  lemma ByteSplits(high: int, low: int)
    requires 0 <= high < 16 && 0 <= low < 16
    ensures 0 <= 16 * high + low < 256 && (16 * high + low) / 16 == high && (16 * high + low) % 16 == low
  {
  }

  /** On lowercase text the decoder loses nothing. */
  lemma {:induction false} ToFromHex(s: Str)
    requires LowerHex(s) && |s| % 2 == 0
    ensures FromHex(s).Some? && ToHex(FromHex(s).value) == s
  {
    if s != [] {
      ToFromHex(s[2..]);
      var high, low := DigitValue(s[0]).value, DigitValue(s[1]).value;
      ByteSplits(high, low);
      assert FromHex(s).value == [16 * high + low] + FromHex(s[2..]).value;
      assert s == [s[0], s[1]] + s[2..];
    }
  }

  function Hash(sha: Sha, b: Bytes): (r: Str)
    ensures |r| == 64
  {
    ToHex(sha(b))
  }

  lemma HashIsSha256Hex(sha: Sha, b: Bytes)
    ensures IsSha256Hex(Hash(sha, b))
  {
    FromToHex(sha(b));
  }

  /** The text of some 32 bytes. */
  ghost predicate IsDigestText(s: Str)
  {
    exists d: Digest :: s == ToHex(d)
  }

  /** The text of a digest, and no other text. */
  lemma DigestTextExactly(s: Str)
    ensures IsSha256Hex(s) <==> IsDigestText(s)
  {
    if IsSha256Hex(s) {
      ToFromHex(s);
      var d: Digest := FromHex(s).value;
      assert s == ToHex(d);
    }
    if d: Digest :| s == ToHex(d) {
      FromToHex(d);
    }
  }

  // ---------------------------------------------------------------- what the decoder takes

  /** The digit, in either case. */
  predicate IsDigit(c: Unit, n: int)
    requires 0 <= n < 16
  {
    c == Ascii("0123456789abcdef")[n] || c == Ascii("0123456789ABCDEF")[n]
  }

  lemma DigitExactly(c: Unit, n: int)
    requires 0 <= n < 16
    ensures DigitValue(c) == Some(n) <==> IsDigit(c, n)
  {
    DigitIs(n);
    assert Ascii("0123456789ABCDEF")[n] == if n < 10 then 48 + n else 55 + n;
  }

  /** Two digits a byte, the high half first. */
  predicate Spells(s: Str, b: Bytes, i: nat)
    requires i < |b| && |s| == 2 * |b|
  {
    IsDigit(s[2 * i], b[i] / 16) && IsDigit(s[2 * i + 1], b[i] % 16)
  }

  lemma ByteExactly(s: Str, b: Byte)
    requires |s| >= 2
    ensures (DigitValue(s[0]).Some? && DigitValue(s[1]).Some? && 16 * DigitValue(s[0]).value + DigitValue(s[1]).value == b)
       <==> IsDigit(s[0], b / 16) && IsDigit(s[1], b % 16)
  {
    DigitExactly(s[0], b / 16);
    DigitExactly(s[1], b % 16);
    if DigitValue(s[0]).Some? && DigitValue(s[1]).Some? {
      ByteSplits(DigitValue(s[0]).value, DigitValue(s[1]).value);
    }
  }

  ghost predicate SpellsAll(s: Str, b: Bytes)
  {
    |s| == 2 * |b| && forall i :: 0 <= i < |b| ==> Spells(s, b, i)
  }

  lemma SpellsCons(s: Str, b: Bytes)
    requires b != [] && |s| == 2 * |b|
    ensures SpellsAll(s, b) <==> Spells(s, b, 0) && SpellsAll(s[2..], b[1..])
  {
    forall i | 0 <= i < |b| - 1 ensures Spells(s[2..], b[1..], i) == Spells(s, b, i + 1) {
      assert s[2..][2 * i] == s[2 * (i + 1)] && s[2..][2 * i + 1] == s[2 * (i + 1) + 1];
    }
    if Spells(s, b, 0) && SpellsAll(s[2..], b[1..]) {
      forall i | 0 <= i < |b| ensures Spells(s, b, i) {
        assert i > 0 ==> Spells(s[2..], b[1..], i - 1);
      }
    }
  }

  lemma FromHexCons(s: Str, b: Bytes)
    requires b != [] && |s| >= 2
    ensures FromHex(s) == Some(b) <==>
      (DigitValue(s[0]).Some? && DigitValue(s[1]).Some? && 16 * DigitValue(s[0]).value + DigitValue(s[1]).value == b[0])
      && FromHex(s[2..]) == Some(b[1..])
  {
    assert b == [b[0]] + b[1..];
  }

  /** The decoder reads digits of either case, and nothing else. */
  lemma {:induction false} FromHexExactly(s: Str, b: Bytes)
    ensures FromHex(s) == Some(b) <==> SpellsAll(s, b)
  {
    if |s| == 2 * |b| && b != [] {
      FromHexExactly(s[2..], b[1..]);
      ByteExactly(s, b[0]);
      SpellsCons(s, b);
      FromHexCons(s, b);
    }
  }
}
