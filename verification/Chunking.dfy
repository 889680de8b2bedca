/** Cutting a document into chunks: what is kept, how long the pieces are, and where they are cut. */
module Chunking {
  import opened Basics

  const NEWLINE: Unit := 10
  const RETURN: Unit := 13
  const SPACE: Unit := 32

  /** What `\s` matches, which is also what `trim` strips. */
  predicate IsSpace(c: Unit)
  {
    9 <= c <= 13 || c == 32 || c == 0xA0 || c == 0x1680 || 0x2000 <= c <= 0x200A || c == 0x2028 || c == 0x2029
    || c == 0x202F || c == 0x205F || c == 0x3000 || c == 0xFEFF
  }

  // ---------------------------------------------------------------- string library calls

  function TrimStart(s: Str): (r: Str)
    ensures |r| <= |s| && (r != [] ==> !IsSpace(r[0]))
  {
    if s == [] then [] else if IsSpace(s[0]) then TrimStart(s[1..]) else s
  }

  function TrimEnd(s: Str): (r: Str)
    ensures |r| <= |s| && r == s[..|r|] && (r != [] ==> !IsSpace(r[|r| - 1]))
  {
    if s == [] then [] else if IsSpace(s[|s| - 1]) then TrimEnd(s[..|s| - 1]) else s
  }

  function Trim(s: Str): (r: Str)
    ensures |r| <= |s|
  {
    TrimEnd(TrimStart(s))
  }

  /** `replace(/\r\n/g, "\n")` */
  function UnixNewlines(s: Str): Str
  {
    if |s| >= 2 && s[0] == RETURN && s[1] == NEWLINE then [NEWLINE] + UnixNewlines(s[2..])
    else if s == [] then []
    else [s[0]] + UnixNewlines(s[1..])
  }

  /** `replace(/\s+/g, " ")` */
  function Collapse(s: Str): Str
    decreases |s|
  {
    if s == [] then []
    else if IsSpace(s[0]) then [SPACE] + Collapse(TrimStart(s[1..]))
    else [s[0]] + Collapse(s[1..])
  }

  function DropNewlines(s: Str): (r: Str)
    ensures |r| <= |s|
  {
    if s != [] && s[0] == NEWLINE then DropNewlines(s[1..]) else s
  }

  /** `split(/\n{2,}/)` */
  function Paragraphs(s: Str): seq<Str>
    decreases |s|
  {
    ParagraphsFrom([], s)
  }

  /** `before` has been read of the current paragraph. */
  function ParagraphsFrom(before: Str, s: Str): seq<Str>
    decreases |s|
  {
    if s == [] then [before]
    else if |s| >= 2 && s[0] == NEWLINE && s[1] == NEWLINE then [before] + ParagraphsFrom([], DropNewlines(s[2..]))
    else ParagraphsFrom(before + [s[0]], s[1..])
  }

  /** `lastIndexOf(" ", from)` */
  function LastSpace(s: Str, from: int): (r: int)
    requires from < |s|
    ensures -1 <= r && (r >= 0 ==> r <= from && s[r] == SPACE)
    ensures forall i :: r < i <= from && 0 <= i ==> s[i] != SPACE
    decreases from
  {
    if from < 0 then -1 else if s[from] == SPACE then from else LastSpace(s, from - 1)
  }

  // ---------------------------------------------------------------- chunks

  /** Where a paragraph longer than `maxChars` is cut: at the last space in the second half of the
      window, and inside a word only when there is none. */
  function CutAt(s: Str, maxChars: nat): (k: nat)
    requires 1 <= maxChars < |s|
    ensures 1 <= k <= maxChars && maxChars <= 2 * k
    ensures forall i :: k < i <= maxChars ==> s[i] != SPACE
    ensures s[k] == SPACE || (k == maxChars && forall i :: maxChars <= 2 * i <= 2 * maxChars ==> s[i] != SPACE)
  {
    var split := LastSpace(s, maxChars);
    if 2 * split < maxChars then maxChars else split
  }

  function Cuts(s: Str, maxChars: nat): seq<Str>
    requires maxChars >= 1
    decreases |s|
  {
    if |s| <= maxChars then (if s == [] then [] else [s])
    else
      var k := CutAt(s, maxChars);
      [Trim(s[..k])] + Cuts(Trim(s[k..]), maxChars)
  }

  function ParagraphChunks(paragraphs: seq<Str>, maxChars: nat): seq<Str>
    requires maxChars >= 1
  {
    if paragraphs == [] then []
    else ParagraphChunks(paragraphs[..|paragraphs| - 1], maxChars)
         + Cuts(Trim(Collapse(paragraphs[|paragraphs| - 1])), maxChars)
  }

  /** The texts of the chunks of a document. */
  function Chunks(text: Str, maxChars: nat): seq<Str>
    requires maxChars >= 1
  {
    ParagraphChunks(Paragraphs(Trim(UnixNewlines(text))), maxChars)
  }

  lemma Reassociate(pieces: seq<Str>, first: Str, rest: seq<Str>)
    ensures pieces + ([first] + rest) == (pieces + [first]) + rest
  {
  }

  method CutParagraph(clean: Str, maxChars: nat) returns (pieces: seq<Str>)
    requires maxChars >= 1
    ensures pieces == Cuts(clean, maxChars)
  {
    pieces := [];
    var remaining := clean;
    ghost var whole := Cuts(clean, maxChars);
    while |remaining| > maxChars
      invariant pieces + Cuts(remaining, maxChars) == whole
      decreases |remaining|
    {
      var split := LastSpace(remaining, maxChars);
      if 2 * split < maxChars {
        split := maxChars;
      }
      assert split == CutAt(remaining, maxChars);
      Reassociate(pieces, Trim(remaining[..split]), Cuts(Trim(remaining[split..]), maxChars));
      pieces := pieces + [Trim(remaining[..split])];
      remaining := Trim(remaining[split..]);
    }
    if remaining != [] {
      pieces := pieces + [remaining];
    }
  }

  method ChunkText(text: Str, maxChars: nat) returns (pieces: seq<Str>)
    requires maxChars >= 1
    ensures pieces == Chunks(text, maxChars)
  {
    var normalized := Trim(UnixNewlines(text));
    var paragraphs := Paragraphs(normalized);
    pieces := [];
    for i := 0 to |paragraphs|
      invariant pieces == ParagraphChunks(paragraphs[..i], maxChars)
    {
      assert paragraphs[..i + 1][..i] == paragraphs[..i];
      var clean := Trim(Collapse(paragraphs[i]));
      if clean == [] {
        assert pieces + Cuts(clean, maxChars) == pieces;
        continue;
      }
      if |clean| <= maxChars {
        pieces := pieces + [clean];
        continue;
      }
      var cut := CutParagraph(clean, maxChars);
      pieces := pieces + cut;
    }
    assert paragraphs[..|paragraphs|] == paragraphs;
  }

  // ---------------------------------------------------------------- conservation

  /** The text without its whitespace. */
  function Ink(s: Str): Str
  {
    if s == [] then [] else (if IsSpace(s[0]) then [] else [s[0]]) + Ink(s[1..])
  }

  function Flatten(pieces: seq<Str>): Str
  {
    if pieces == [] then [] else pieces[0] + Flatten(pieces[1..])
  }

  lemma {:induction false} InkConcat(a: Str, b: Str)
    ensures Ink(a + b) == Ink(a) + Ink(b)
  {
    if a == [] {
      assert a + b == b;
    } else {
      assert (a + b)[1..] == a[1..] + b;
      InkConcat(a[1..], b);
    }
  }

  lemma {:induction false} FlattenConcat(a: seq<Str>, b: seq<Str>)
    ensures Flatten(a + b) == Flatten(a) + Flatten(b)
  {
    if a == [] {
      assert a + b == b;
    } else {
      assert (a + b)[1..] == a[1..] + b;
      FlattenConcat(a[1..], b);
    }
  }

  lemma {:induction false} InkTrimStart(s: Str)
    ensures Ink(TrimStart(s)) == Ink(s)
  {
    if s != [] && IsSpace(s[0]) {
      InkTrimStart(s[1..]);
    }
  }

  lemma {:induction false} InkTrimEnd(s: Str)
    ensures Ink(TrimEnd(s)) == Ink(s)
  {
    if s != [] && IsSpace(s[|s| - 1]) {
      InkTrimEnd(s[..|s| - 1]);
      assert s == s[..|s| - 1] + [s[|s| - 1]];
      InkConcat(s[..|s| - 1], [s[|s| - 1]]);
    }
  }

  lemma InkTrim(s: Str)
    ensures Ink(Trim(s)) == Ink(s)
  {
    InkTrimStart(s);
    InkTrimEnd(TrimStart(s));
  }

  lemma {:induction false} InkUnix(s: Str)
    ensures Ink(UnixNewlines(s)) == Ink(s)
  {
    if |s| >= 2 && s[0] == RETURN && s[1] == NEWLINE {
      InkUnix(s[2..]);
      assert s[1..][1..] == s[2..];
    } else if s != [] {
      InkUnix(s[1..]);
    }
  }

  lemma {:induction false} InkCollapse(s: Str)
    ensures Ink(Collapse(s)) == Ink(s)
    decreases |s|
  {
    if s != [] {
      if IsSpace(s[0]) {
        InkCollapse(TrimStart(s[1..]));
        InkTrimStart(s[1..]);
      } else {
        InkCollapse(s[1..]);
      }
    }
  }

  lemma {:induction false} InkDropNewlines(s: Str)
    ensures Ink(DropNewlines(s)) == Ink(s)
  {
    if s != [] && s[0] == NEWLINE {
      InkDropNewlines(s[1..]);
    }
  }

  lemma InkSplit(s: Str, k: nat)
    requires k <= |s|
    ensures Ink(s) == Ink(s[..k]) + Ink(s[k..])
  {
    assert s == s[..k] + s[k..];
    InkConcat(s[..k], s[k..]);
  }

  lemma FlattenCons(first: Str, rest: seq<Str>)
    ensures Ink(Flatten([first] + rest)) == Ink(first) + Ink(Flatten(rest))
  {
    assert ([first] + rest)[1..] == rest;
    InkConcat(first, Flatten(rest));
  }

  ghost predicate ParagraphsKeepInk(before: Str, s: Str)
  {
    Ink(Flatten(ParagraphsFrom(before, s))) == Ink(before) + Ink(s)
  }

  lemma InkBreak(before: Str, s: Str)
    requires |s| >= 2 && s[0] == NEWLINE && s[1] == NEWLINE && ParagraphsKeepInk([], DropNewlines(s[2..]))
    ensures ParagraphsKeepInk(before, s)
  {
    InkDropNewlines(s[2..]);
    FlattenCons(before, ParagraphsFrom([], DropNewlines(s[2..])));
  }

  lemma InkGrow(before: Str, s: Str)
    requires s != [] && !(|s| >= 2 && s[0] == NEWLINE && s[1] == NEWLINE) && ParagraphsKeepInk(before + [s[0]], s[1..])
    ensures ParagraphsKeepInk(before, s)
  {
    InkConcat(before, [s[0]]);
    InkSplit(s, 1);
    assert s[..1] == [s[0]];
  }

  lemma {:induction false} InkParagraphs(before: Str, s: Str)
    ensures ParagraphsKeepInk(before, s)
    decreases |s|
  {
    if s == [] {
      FlattenCons(before, []);
      assert [before] + [] == [before];
    } else if |s| >= 2 && s[0] == NEWLINE && s[1] == NEWLINE {
      InkParagraphs([], DropNewlines(s[2..]));
      InkBreak(before, s);
    } else {
      InkParagraphs(before + [s[0]], s[1..]);
      InkGrow(before, s);
    }
  }

  lemma {:induction false} InkCuts(s: Str, maxChars: nat)
    requires maxChars >= 1
    ensures Ink(Flatten(Cuts(s, maxChars))) == Ink(s)
    decreases |s|
  {
    if |s| > maxChars {
      var k := CutAt(s, maxChars);
      InkCuts(Trim(s[k..]), maxChars);
      InkTrim(s[..k]);
      InkTrim(s[k..]);
      FlattenCons(Trim(s[..k]), Cuts(Trim(s[k..]), maxChars));
      InkSplit(s, k);
    } else if s != [] {
      FlattenCons(s, []);
      assert [s] + [] == [s];
    }
  }

  lemma InkLast(pieces: seq<Str>, more: seq<Str>)
    ensures Ink(Flatten(pieces + more)) == Ink(Flatten(pieces)) + Ink(Flatten(more))
  {
    FlattenConcat(pieces, more);
    InkConcat(Flatten(pieces), Flatten(more));
  }

  lemma InkOne(paragraph: Str, maxChars: nat)
    requires maxChars >= 1
    ensures Ink(Flatten(Cuts(Trim(Collapse(paragraph)), maxChars))) == Ink(Flatten([paragraph]))
  {
    InkCuts(Trim(Collapse(paragraph)), maxChars);
    InkTrim(Collapse(paragraph));
    InkCollapse(paragraph);
    FlattenCons(paragraph, []);
    assert [paragraph] + [] == [paragraph];
  }

  lemma {:induction false} InkParagraphChunks(paragraphs: seq<Str>, maxChars: nat)
    requires maxChars >= 1
    ensures Ink(Flatten(ParagraphChunks(paragraphs, maxChars))) == Ink(Flatten(paragraphs))
  {
    if paragraphs != [] {
      var before, last := paragraphs[..|paragraphs| - 1], paragraphs[|paragraphs| - 1];
      InkParagraphChunks(before, maxChars);
      InkLast(ParagraphChunks(before, maxChars), Cuts(Trim(Collapse(last)), maxChars));
      InkOne(last, maxChars);
      InkLast(before, [last]);
      assert paragraphs == before + [last];
    }
  }

  /** The chunks together hold exactly the document's non-whitespace characters, in order. */
  lemma ChunksConserve(text: Str, maxChars: nat)
    requires maxChars >= 1
    ensures Ink(Flatten(Chunks(text, maxChars))) == Ink(text)
  {
    var normalized := Trim(UnixNewlines(text));
    InkParagraphChunks(Paragraphs(normalized), maxChars);
    InkParagraphs([], normalized);
    InkTrim(UnixNewlines(text));
    InkUnix(text);
  }

  // ---------------------------------------------------------------- shape of the pieces

  /** Whitespace only as single spaces between other characters. */
  ghost predicate Tidy(s: Str)
  {
    forall i :: 0 <= i < |s| && IsSpace(s[i]) ==> s[i] == SPACE && 0 < i < |s| - 1 && !IsSpace(s[i + 1])
  }

  /** As `Tidy`, but a space may still lead or trail. */
  ghost predicate SingleSpaced(s: Str)
  {
    forall i :: 0 <= i < |s| && IsSpace(s[i]) ==> s[i] == SPACE && (i + 1 < |s| ==> !IsSpace(s[i + 1]))
  }

  lemma {:induction false} CollapseSingle(s: Str)
    ensures SingleSpaced(Collapse(s))
    ensures s != [] && !IsSpace(s[0]) ==> Collapse(s) != [] && !IsSpace(Collapse(s)[0])
    decreases |s|
  {
    if s != [] {
      var rest := if IsSpace(s[0]) then TrimStart(s[1..]) else s[1..];
      CollapseSingle(rest);
      var all := Collapse(s);
      assert all[1..] == Collapse(rest);
      forall i | 0 <= i < |all| && IsSpace(all[i]) ensures all[i] == SPACE && (i + 1 < |all| ==> !IsSpace(all[i + 1])) {
        if i > 0 {
          assert all[i] == Collapse(rest)[i - 1];
        }
      }
    }
  }

  lemma TrimStartSingle(s: Str)
    requires SingleSpaced(s)
    ensures SingleSpaced(TrimStart(s))
    ensures TrimStart(s) == if s != [] && IsSpace(s[0]) then s[1..] else s
  {
    if s != [] && IsSpace(s[0]) && |s| > 1 {
      assert !IsSpace(s[1]);
      assert TrimStart(s[1..]) == s[1..];
    }
  }

  /** Trimming single-spaced text drops at most one space on each side. */
  lemma TrimTidies(s: Str)
    requires SingleSpaced(s)
    ensures Tidy(Trim(s))
    ensures Tidy(s) ==> Trim(s) == s
  {
    TrimStartSingle(s);
    var t := Trim(s);
    forall i | 0 <= i < |t| && IsSpace(t[i]) ensures t[i] == SPACE && 0 < i < |t| - 1 && !IsSpace(t[i + 1]) {
      assert t[i] == TrimStart(s)[i];
    }
  }

  /** A cut of tidy text: the piece is the text up to the cut, and nothing but one space is lost. */
  lemma CutIsTidy(s: Str, maxChars: nat)
    requires Tidy(s) && 1 <= maxChars < |s|
    ensures var k := CutAt(s, maxChars);
      && Trim(s[..k]) == s[..k] && Tidy(s[..k])
      && Trim(s[k..]) == (if IsSpace(s[k]) then s[k + 1..] else s[k..]) && Tidy(Trim(s[k..])) && Trim(s[k..]) != []
  {
    var k := CutAt(s, maxChars);
    assert !IsSpace(s[k - 1]);
    TrimTidies(s[..k]);
    TrimTidies(s[k..]);
    TrimStartSingle(s[k..]);
  }

  /** Every piece is tidy, not empty and at most `maxChars` long; every piece but the last is at
      least half of that. */
  ghost predicate WellCut(pieces: seq<Str>, maxChars: nat)
  {
    && (forall i :: 0 <= i < |pieces| ==> Tidy(pieces[i]) && 1 <= |pieces[i]| <= maxChars)
    && (forall i :: 0 <= i < |pieces| - 1 ==> maxChars <= 2 * |pieces[i]|)
  }

  lemma {:induction false} CutsAreWell(s: Str, maxChars: nat)
    requires Tidy(s) && maxChars >= 1
    ensures WellCut(Cuts(s, maxChars), maxChars)
    decreases |s|
  {
    if |s| > maxChars {
      CutIsTidy(s, maxChars);
      var k := CutAt(s, maxChars);
      CutsAreWell(Trim(s[k..]), maxChars);
    }
  }

  /** Halving pieces bound how many there can be. */
  lemma {:induction false} CutsCount(s: Str, maxChars: nat)
    requires Tidy(s) && s != [] && maxChars >= 1
    ensures (|Cuts(s, maxChars)| - 1) * maxChars < 2 * |s|
    decreases |s|
  {
    if |s| > maxChars {
      CutIsTidy(s, maxChars);
      var k := CutAt(s, maxChars);
      CutsCount(Trim(s[k..]), maxChars);
      OneMore(|Cuts(Trim(s[k..]), maxChars)|, maxChars);
    }
  }

  lemma OneMore(n: int, maxChars: int)
    ensures n * maxChars == (n - 1) * maxChars + maxChars
  {
  }

  lemma {:induction false} ParagraphsAreWell(paragraphs: seq<Str>, maxChars: nat)
    requires maxChars >= 1
    ensures forall i :: 0 <= i < |ParagraphChunks(paragraphs, maxChars)| ==>
      Tidy(ParagraphChunks(paragraphs, maxChars)[i]) && 1 <= |ParagraphChunks(paragraphs, maxChars)[i]| <= maxChars
  {
    if paragraphs != [] {
      var last := Collapse(paragraphs[|paragraphs| - 1]);
      ParagraphsAreWell(paragraphs[..|paragraphs| - 1], maxChars);
      CollapseSingle(paragraphs[|paragraphs| - 1]);
      TrimTidies(last);
      CutsAreWell(Trim(last), maxChars);
    }
  }

  /** Every chunk of a document is tidy, not empty and within the limit. */
  lemma ChunksFit(text: Str, maxChars: nat)
    requires maxChars >= 1
    ensures forall i :: 0 <= i < |Chunks(text, maxChars)| ==>
      Tidy(Chunks(text, maxChars)[i]) && 1 <= |Chunks(text, maxChars)[i]| <= maxChars
  {
    ParagraphsAreWell(Paragraphs(Trim(UnixNewlines(text))), maxChars);
  }

  // ---------------------------------------------------------------- any limit at all

  /** `s.slice(k)` */
  function Slice(s: Str, k: int): Str
  {
    if k >= |s| then [] else if k >= 0 then s[k..] else if |s| + k >= 0 then s[|s| + k..] else s
  }

  /** What one pass of the loop leaves of a paragraph longer than the limit, whatever integer that is;
      `lastIndexOf` takes a negative position for zero. */
  function Rest(s: Str, maxChars: int): Str
    requires s != [] && |s| > maxChars
  {
    var split := LastSpace(s, if maxChars < 0 then 0 else maxChars);
    Trim(Slice(s, if 2 * split < maxChars then maxChars else split))
  }

  /** One pass, if the guard lets it run. */
  function Pass(maxChars: int): Str -> Str
  {
    (s: Str) => if s != [] && |s| > maxChars then Rest(s, maxChars) else s
  }

  function Iterate<T>(f: T -> T, x: T, n: nat): T
  {
    if n == 0 then x else f(Iterate(f, x, n - 1))
  }

  lemma {:induction false} IterateShifts<T>(f: T -> T, x: T, n: nat)
    ensures Iterate(f, x, n + 1) == Iterate(f, f(x), n)
  {
    if n > 0 {
      IterateShifts(f, x, n - 1);
    }
  }

  /** What remains after `n` passes. */
  function Left(s: Str, maxChars: int, n: nat): Str { Iterate(Pass(maxChars), s, n) }

  /** The loop over this paragraph ends. */
  ghost predicate Ends(s: Str, maxChars: int)
  {
    exists n: nat :: |Left(s, maxChars, n)| <= maxChars
  }

  lemma RestIsCut(s: Str, maxChars: nat)
    requires 1 <= maxChars < |s| && Tidy(s)
    ensures Rest(s, maxChars) == Trim(s[CutAt(s, maxChars)..])
    ensures Tidy(Rest(s, maxChars)) && Rest(s, maxChars) != [] && |Rest(s, maxChars)| < |s|
  {
    CutIsTidy(s, maxChars);
  }

  lemma {:induction false} PositiveEnds(s: Str, maxChars: nat)
    requires maxChars >= 1 && Tidy(s)
    ensures Ends(s, maxChars)
    decreases |s|
  {
    if |s| <= maxChars {
      assert |Left(s, maxChars, 0)| <= maxChars;
    } else {
      RestIsCut(s, maxChars);
      PositiveEnds(Rest(s, maxChars), maxChars);
      var n: nat :| |Left(Rest(s, maxChars), maxChars, n)| <= maxChars;
      IterateShifts(Pass(maxChars), s, n);
      assert |Left(s, maxChars, n + 1)| <= maxChars;
    }
  }

  /** Without a positive limit a pass leaves everything, or the last character, and never nothing. */
  lemma NothingLost(s: Str, maxChars: int)
    requires maxChars <= 0 && s != [] && Tidy(s)
    ensures Rest(s, maxChars) != [] && Tidy(Rest(s, maxChars))
  {
    assert !IsSpace(s[0]) && !IsSpace(s[|s| - 1]);
    assert LastSpace(s, 0) == -1;
    var part := Slice(s, if -2 < maxChars then maxChars else -1);
    assert part == s || part == [s[|s| - 1]];
    TrimTidies(part);
  }

  lemma {:induction false} NeverShort(s: Str, maxChars: int, n: nat)
    requires maxChars <= 0 && s != [] && Tidy(s)
    ensures Left(s, maxChars, n) != [] && Tidy(Left(s, maxChars, n))
  {
    if n > 0 {
      NeverShort(s, maxChars, n - 1);
      NothingLost(Left(s, maxChars, n - 1), maxChars);
    }
  }

  /** The loop ends on every paragraph exactly for positive limits, and otherwise on none. */
  lemma EndsExactly(s: Str, maxChars: int)
    requires Tidy(s) && s != []
    ensures Ends(s, maxChars) <==> maxChars >= 1
  {
    if maxChars >= 1 {
      PositiveEnds(s, maxChars);
    } else {
      forall n: nat ensures |Left(s, maxChars, n)| > maxChars {
        NeverShort(s, maxChars, n);
      }
    }
  }
}
