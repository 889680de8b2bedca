/** Which chunks a document has, told from the text: its lines, its paragraphs, their words, and how far each
    chunk reaches. */
module ChunkTexts {
  import opened Basics
  import opened Chunking

  // ---------------------------------------------------------------- texts put together from parts

  /** The parts with a seam between each two. */
  function Weave(parts: seq<Str>, seams: seq<Str>): Str
    requires |parts| == |seams| + 1
  {
    if seams == [] then parts[0] else parts[0] + seams[0] + Weave(parts[1..], seams[1..])
  }

  /** The parts with the same seam everywhere. */
  function Joined(parts: seq<Str>, seam: Str): Str
    requires parts != []
  {
    Weave(parts, seq(|parts| - 1, _ => seam))
  }

  lemma WeaveCons(part: Str, seam: Str, parts: seq<Str>, seams: seq<Str>)
    requires |parts| == |seams| + 1
    ensures Weave([part] + parts, [seam] + seams) == part + seam + Weave(parts, seams)
  {
    assert ([part] + parts)[1..] == parts && ([seam] + seams)[1..] == seams;
  }

  lemma WeaveFirst(start: Str, parts: seq<Str>, seams: seq<Str>)
    requires |parts| == |seams| + 1
    ensures Weave([start + parts[0]] + parts[1..], seams) == start + Weave(parts, seams)
  {
    if seams != [] {
      assert start + parts[0] + seams[0] + Weave(parts[1..], seams[1..]) == start + (parts[0] + seams[0] + Weave(parts[1..], seams[1..]));
    }
  }

  lemma JoinedCons(part: Str, parts: seq<Str>, seam: Str)
    requires parts != []
    ensures Joined([part] + parts, seam) == part + seam + Joined(parts, seam)
  {
    WeaveCons(part, seam, parts, seq(|parts| - 1, _ => seam));
    assert [seam] + seq(|parts| - 1, _ => seam) == seq(|parts|, _ => seam);
  }

  lemma JoinedFirst(start: Str, parts: seq<Str>, seam: Str)
    requires parts != []
    ensures Joined([start + parts[0]] + parts[1..], seam) == start + Joined(parts, seam)
  {
    WeaveFirst(start, parts, seq(|parts| - 1, _ => seam));
  }

  lemma WeaveStarts(parts: seq<Str>, seams: seq<Str>)
    requires |parts| == |seams| + 1
    ensures |parts[0]| <= |Weave(parts, seams)| && Weave(parts, seams)[..|parts[0]|] == parts[0]
  {
  }

  // ---------------------------------------------------------------- lines

  /** `a` is not followed at once by `b`. */
  predicate Never(s: Str, a: Unit, b: Unit)
  {
    forall i :: 0 <= i < |s| - 1 && s[i] == a ==> s[i + 1] != b
  }

  /** `unix` is `text` with each pair of a return and a newline put as one newline. */
  ghost predicate UnixOf(text: Str, unix: Str)
  {
    exists lines: seq<Str> :: lines != [] && (forall i :: 0 <= i < |lines| ==> Never(lines[i], RETURN, NEWLINE))
                   && text == Joined(lines, [RETURN, NEWLINE]) && unix == Joined(lines, [NEWLINE])
  }

  lemma {:induction false} UnixLines(s: Str) returns (lines: seq<Str>)
    ensures lines != [] && forall i :: 0 <= i < |lines| ==> Never(lines[i], RETURN, NEWLINE)
    ensures s == Joined(lines, [RETURN, NEWLINE]) && UnixNewlines(s) == Joined(lines, [NEWLINE])
    decreases |s|
  {
    if s == [] {
      lines := [[]];
    } else if |s| >= 2 && s[0] == RETURN && s[1] == NEWLINE {
      var rest := UnixLines(s[2..]);
      lines := [[]] + rest;
      JoinedCons([], rest, [RETURN, NEWLINE]);
      JoinedCons([], rest, [NEWLINE]);
      assert s == [RETURN, NEWLINE] + s[2..];
    } else {
      var rest := UnixLines(s[1..]);
      lines := [[s[0]] + rest[0]] + rest[1..];
      JoinedFirst([s[0]], rest, [RETURN, NEWLINE]);
      JoinedFirst([s[0]], rest, [NEWLINE]);
      WeaveStarts(rest, seq(|rest| - 1, _ => [RETURN, NEWLINE]));
      assert s == [s[0]] + s[1..];
    }
  }

  // ---------------------------------------------------------------- the ends

  predicate Blank(s: Str)
  {
    forall i :: 0 <= i < |s| ==> IsSpace(s[i])
  }

  /** `body` is `s` without the whitespace at its ends. */
  ghost predicate TrimOf(s: Str, body: Str)
  {
    && (exists a, b :: Blank(a) && Blank(b) && s == a + body + b)
    && (body != [] ==> !IsSpace(body[0]) && !IsSpace(body[|body| - 1]))
  }

  lemma {:induction false} StartTrimmed(s: Str) returns (a: Str)
    ensures Blank(a) && s == a + TrimStart(s)
  {
    a := [];
    if s != [] && IsSpace(s[0]) {
      a := StartTrimmed(s[1..]);
      a := [s[0]] + a;
      assert s == [s[0]] + s[1..];
    }
  }

  lemma {:induction false} EndTrimmed(s: Str) returns (b: Str)
    ensures Blank(b) && s == TrimEnd(s) + b
  {
    b := [];
    if s != [] && IsSpace(s[|s| - 1]) {
      b := EndTrimmed(s[..|s| - 1]);
      b := b + [s[|s| - 1]];
      assert s == s[..|s| - 1] + [s[|s| - 1]];
    }
  }

  lemma Around(s: Str, a: Str, t: Str, body: Str, b: Str)
    requires s == a + t && t == body + b
    ensures s == a + body + b
  {
  }

  lemma TrimmedEnds(s: Str)
    ensures Trim(s) != [] ==> !IsSpace(Trim(s)[0]) && !IsSpace(Trim(s)[|Trim(s)| - 1])
  {
  }

  lemma Trimmed(s: Str)
    ensures TrimOf(s, Trim(s))
  {
    var a := StartTrimmed(s);
    var b := EndTrimmed(TrimStart(s));
    Around(s, a, TrimStart(s), Trim(s), b);
    TrimmedEnds(s);
  }

  // ---------------------------------------------------------------- paragraphs

  predicate Break(s: Str)
  {
    |s| >= 2 && forall i :: 0 <= i < |s| ==> s[i] == NEWLINE
  }

  predicate Starts(s: Str, c: Unit) { s != [] && s[0] == c }

  predicate Finishes(s: Str, c: Unit) { s != [] && s[|s| - 1] == c }

  /** The paragraphs of `body`: what stands between whole runs of two and more newlines. */
  ghost predicate ParagraphsOf(body: Str, paragraphs: seq<Str>, breaks: seq<Str>)
  {
    && |paragraphs| == |breaks| + 1 && body == Weave(paragraphs, breaks)
    && (forall i :: 0 <= i < |breaks| ==> Break(breaks[i]))
    && (forall i :: 0 <= i < |paragraphs| ==> Never(paragraphs[i], NEWLINE, NEWLINE))
    && (forall i :: 0 <= i < |breaks| ==> !Finishes(paragraphs[i], NEWLINE))
    && (forall i :: 0 < i < |paragraphs| ==> !Starts(paragraphs[i], NEWLINE))
  }

  lemma {:induction false} Dropped(s: Str)
    ensures s == s[..|s| - |DropNewlines(s)|] + DropNewlines(s) && !Starts(DropNewlines(s), NEWLINE)
    ensures forall i :: 0 <= i < |s| - |DropNewlines(s)| ==> s[i] == NEWLINE
  {
    if Starts(s, NEWLINE) {
      Dropped(s[1..]);
      var n := |s| - |DropNewlines(s)|;
      assert s == [s[0]] + s[1..];
      forall i | 0 <= i < n ensures s[i] == NEWLINE {
        assert i > 0 ==> s[i] == s[1..][i - 1];
      }
    }
  }

  /** A break reaches as far as the newlines do. */
  lemma BreakRead(s: Str) returns (cut: Str)
    requires |s| >= 2 && s[0] == NEWLINE && s[1] == NEWLINE
    ensures Break(cut) && s == cut + DropNewlines(s[2..]) && !Starts(DropNewlines(s[2..]), NEWLINE)
  {
    Dropped(s[2..]);
    cut := [NEWLINE, NEWLINE] + s[2..][..|s[2..]| - |DropNewlines(s[2..])|];
    assert s == [NEWLINE, NEWLINE] + s[2..];
  }

  lemma ParagraphsCons(before: Str, cut: Str, rest: Str, paragraphs: seq<Str>, breaks: seq<Str>)
    requires Never(before, NEWLINE, NEWLINE) && !Finishes(before, NEWLINE) && Break(cut) && !Starts(rest, NEWLINE)
    requires ParagraphsOf(rest, paragraphs, breaks)
    ensures ParagraphsOf(before + cut + rest, [before] + paragraphs, [cut] + breaks)
  {
    WeaveCons(before, cut, paragraphs, breaks);
    WeaveStarts(paragraphs, breaks);
    assert !Starts(paragraphs[0], NEWLINE);
  }

  lemma BreakFound(before: Str, s: Str, breaks: seq<Str>) returns (all: seq<Str>)
    requires |s| >= 2 && s[0] == NEWLINE && s[1] == NEWLINE && Never(before, NEWLINE, NEWLINE) && !Finishes(before, NEWLINE)
    requires ParagraphsOf(DropNewlines(s[2..]), ParagraphsFrom([], DropNewlines(s[2..])), breaks)
    ensures ParagraphsOf(before + s, ParagraphsFrom(before, s), all)
  {
    var rest := DropNewlines(s[2..]);
    var cut := BreakRead(s);
    all := [cut] + breaks;
    ParagraphsCons(before, cut, rest, ParagraphsFrom([], rest), breaks);
    assert before + s == before + cut + rest;
  }

  lemma {:induction false} ParagraphsFound(before: Str, s: Str) returns (breaks: seq<Str>)
    requires Never(before, NEWLINE, NEWLINE) && (Finishes(before, NEWLINE) ==> !Starts(s, NEWLINE))
    ensures ParagraphsOf(before + s, ParagraphsFrom(before, s), breaks)
    decreases |s|
  {
    if s == [] {
      breaks := [];
      assert before + s == before;
    } else if |s| >= 2 && s[0] == NEWLINE && s[1] == NEWLINE {
      breaks := ParagraphsFound([], DropNewlines(s[2..]));
      assert [] + DropNewlines(s[2..]) == DropNewlines(s[2..]);
      breaks := BreakFound(before, s, breaks);
    } else {
      breaks := ParagraphsFound(before + [s[0]], s[1..]);
      assert before + [s[0]] + s[1..] == before + s;
    }
  }

  // ---------------------------------------------------------------- words

  predicate Word(s: Str)
  {
    s != [] && forall i :: 0 <= i < |s| ==> !IsSpace(s[i])
  }

  /** `words` are the words of `s`, and `gaps` the whitespace around them. */
  ghost predicate WordsOf(s: Str, gaps: seq<Str>, words: seq<Str>)
  {
    && |gaps| == |words| + 1 && s == Weave(gaps, words)
    && (forall i :: 0 <= i < |words| ==> Word(words[i])) && (forall i :: 0 <= i < |gaps| ==> Blank(gaps[i]))
    && (forall i :: 0 < i < |words| ==> gaps[i] != [])
  }

  /** The words with one space between each two. */
  function Spaced(words: seq<Str>): Str
  {
    if words == [] then [] else Joined(words, [SPACE])
  }

  lemma {:induction false} WordsFound(s: Str) returns (gaps: seq<Str>, words: seq<Str>)
    ensures WordsOf(s, gaps, words)
  {
    if s == [] {
      gaps, words := [[]], [];
    } else {
      var g, w := WordsFound(s[1..]);
      assert s == [s[0]] + s[1..];
      if IsSpace(s[0]) {
        gaps, words := [[s[0]] + g[0]] + g[1..], w;
        WeaveFirst([s[0]], g, w);
      } else if w == [] || g[0] != [] {
        gaps, words := [[]] + g, [[s[0]]] + w;
        WeaveCons([], [s[0]], g, w);
      } else {
        gaps, words := g, [[s[0]] + w[0]] + w[1..];
        assert words[1..] == w[1..];
        assert Weave(gaps, words) == g[0] + ([s[0]] + w[0]) + Weave(g[1..], w[1..]);
        assert Weave(g, w) == g[0] + w[0] + Weave(g[1..], w[1..]) == w[0] + Weave(g[1..], w[1..]);
        assert Weave(gaps, words) == [s[0]] + (w[0] + Weave(g[1..], w[1..]));
      }
    }
  }

  lemma {:induction false} CollapseWord(word: Str, rest: Str)
    requires forall i :: 0 <= i < |word| ==> !IsSpace(word[i])
    ensures Collapse(word + rest) == word + Collapse(rest)
  {
    if word == [] {
      assert word + rest == rest;
    } else {
      assert (word + rest)[1..] == word[1..] + rest;
      CollapseWord(word[1..], rest);
      assert [word[0]] + (word[1..] + Collapse(rest)) == word + Collapse(rest);
    }
  }

  lemma {:induction false} SkipBlank(gap: Str, rest: Str)
    requires Blank(gap) && (rest != [] ==> !IsSpace(rest[0]))
    ensures TrimStart(gap + rest) == rest
  {
    if gap == [] {
      assert gap + rest == rest;
    } else {
      assert (gap + rest)[1..] == gap[1..] + rest;
      SkipBlank(gap[1..], rest);
    }
  }

  /** What a gap collapses to. */
  function One(gap: Str): Str { if gap == [] then [] else [SPACE] }

  lemma CollapseGap(gap: Str, rest: Str)
    requires Blank(gap) && (rest != [] ==> !IsSpace(rest[0]))
    ensures Collapse(gap + rest) == One(gap) + Collapse(rest)
  {
    if gap == [] {
      assert gap + rest == rest && One(gap) + Collapse(rest) == Collapse(rest);
    } else {
      assert (gap + rest)[1..] == gap[1..] + rest;
      SkipBlank(gap[1..], rest);
    }
  }

  lemma SpacedGrow(words: seq<Str>, rest: Str, end: Str)
    requires words != []
    requires rest == if |words| == 1 then end else [SPACE] + Spaced(words[1..]) + end
    ensures words[0] + rest == Spaced(words) + end
  {
    SpacedCons(words);
    if |words| > 1 {
      assert words[0] + ([SPACE] + Spaced(words[1..]) + end) == (words[0] + [SPACE] + Spaced(words[1..])) + end;
    }
  }

  lemma WordsAfter(s: Str, gaps: seq<Str>, words: seq<Str>)
    requires WordsOf(s, gaps, words) && words != []
    ensures WordsOf(Weave(gaps[1..], words[1..]), gaps[1..], words[1..])
    ensures s == gaps[0] + (words[0] + Weave(gaps[1..], words[1..]))
  {
  }

  lemma {:induction false} CollapseWoven(s: Str, gaps: seq<Str>, words: seq<Str>)
    requires WordsOf(s, gaps, words)
    ensures Collapse(s) == if words == [] then One(gaps[0]) else One(gaps[0]) + (Spaced(words) + One(gaps[|gaps| - 1]))
    decreases |words|
  {
    if words == [] {
      CollapseGap(gaps[0], []);
      assert gaps[0] + [] == gaps[0];
    } else {
      var rest, end := Weave(gaps[1..], words[1..]), One(gaps[|gaps| - 1]);
      WordsAfter(s, gaps, words);
      CollapseGap(gaps[0], words[0] + rest);
      CollapseWord(words[0], rest);
      CollapseWoven(rest, gaps[1..], words[1..]);
      if |words| > 1 {
        assert [SPACE] + (Spaced(words[1..]) + end) == [SPACE] + Spaced(words[1..]) + end;
      }
      SpacedGrow(words, Collapse(rest), end);
    }
  }

  lemma SpacedCons(words: seq<Str>)
    requires words != []
    ensures Spaced(words) == if |words| == 1 then words[0] else words[0] + [SPACE] + Spaced(words[1..])
  {
    if |words| > 1 {
      JoinedCons(words[0], words[1..], [SPACE]);
      assert [words[0]] + words[1..] == words;
    }
  }

  lemma {:induction false} SpacedEnds(words: seq<Str>)
    requires words != [] && forall i :: 0 <= i < |words| ==> Word(words[i])
    ensures var t := Spaced(words); t != [] && !IsSpace(t[0]) && !IsSpace(t[|t| - 1])
  {
    SpacedCons(words);
    if |words| > 1 {
      SpacedEnds(words[1..]);
    }
  }

  lemma TrimEndOne(t: Str, b: Str)
    requires t != [] && !IsSpace(t[|t| - 1]) && (b == [] || b == [SPACE])
    ensures TrimEnd(t + b) == t
  {
    if b == [] {
      assert t + b == t;
    } else {
      assert (t + b)[|t + b| - 1] == SPACE && (t + b)[..|t + b| - 1] == t;
    }
  }

  /** Trimming removes a space on either side of text that has none at its ends. */
  lemma TrimOne(a: Str, t: Str, b: Str)
    requires t != [] && !IsSpace(t[0]) && !IsSpace(t[|t| - 1])
    requires (a == [] || a == [SPACE]) && (b == [] || b == [SPACE])
    ensures Trim(a + (t + b)) == t
  {
    SkipBlank(a, t + b);
    TrimEndOne(t, b);
  }

  lemma Cleaned(s: Str, gaps: seq<Str>, words: seq<Str>)
    requires WordsOf(s, gaps, words)
    ensures Trim(Collapse(s)) == Spaced(words)
  {
    CollapseWoven(s, gaps, words);
    if words == [] {
      assert TrimStart([SPACE]) == TrimStart([SPACE][1..]) == [];
      assert Collapse(s) == One(gaps[0]);
    } else {
      SpacedEnds(words);
      TrimOne(One(gaps[0]), Spaced(words), One(gaps[|gaps| - 1]));
    }
  }

  // ---------------------------------------------------------------- pieces

  /** Each piece but the last is cut from a longer rest: at the last space of the window, which costs the
      space, or after a full window when its second half has none. */
  ghost predicate Filled(pieces: seq<Str>, seams: seq<Str>, maxChars: nat)
    requires |pieces| == |seams| + 1
    decreases |seams|
  {
    if seams == [] then |pieces[0]| <= maxChars
    else
      var rest, k := Weave(pieces, seams), |pieces[0]|;
      && |rest| > maxChars
      && (if seams[0] == [SPACE]
          then k <= maxChars <= 2 * k && forall i :: k < i <= maxChars ==> rest[i] != SPACE
          else seams[0] == [] && k == maxChars && forall i :: maxChars <= 2 * i <= 2 * maxChars ==> rest[i] != SPACE)
      && Filled(pieces[1..], seams[1..], maxChars)
  }

  function SeamAt(s: Str, k: nat): Str
    requires k < |s|
  {
    if IsSpace(s[k]) then [SPACE] else []
  }

  lemma SplitAt(s: Str, k: nat)
    requires k < |s| && (IsSpace(s[k]) ==> s[k] == SPACE)
    ensures s == s[..k] + SeamAt(s, k) + (if IsSpace(s[k]) then s[k + 1..] else s[k..])
  {
    assert s[..k] + [] == s[..k];
  }

  lemma FirstCut(s: Str, maxChars: nat)
    requires Tidy(s) && 1 <= maxChars < |s|
    ensures var k := CutAt(s, maxChars);
      && Cuts(s, maxChars) == [s[..k]] + Cuts(Trim(s[k..]), maxChars)
      && s == s[..k] + SeamAt(s, k) + Trim(s[k..])
      && Tidy(Trim(s[k..])) && Trim(s[k..]) != []
  {
    CutIsTidy(s, maxChars);
    SplitAt(s, CutAt(s, maxChars));
  }

  lemma {:induction false} PiecesFilled(s: Str, maxChars: nat) returns (seams: seq<Str>)
    requires Tidy(s) && s != [] && maxChars >= 1
    ensures |Cuts(s, maxChars)| == |seams| + 1 && s == Weave(Cuts(s, maxChars), seams)
    ensures Filled(Cuts(s, maxChars), seams, maxChars)
    decreases |s|
  {
    if |s| <= maxChars {
      seams := [];
    } else {
      FirstCut(s, maxChars);
      var k := CutAt(s, maxChars);
      var seam, rest := SeamAt(s, k), Trim(s[k..]);
      var later := PiecesFilled(rest, maxChars);
      seams := [seam] + later;
      WeaveCons(s[..k], seam, Cuts(rest, maxChars), later);
      FilledCons(s, k, seam, Cuts(rest, maxChars), later, maxChars);
    }
  }

  lemma FilledCons(s: Str, k: nat, seam: Str, pieces: seq<Str>, seams: seq<Str>, maxChars: nat)
    requires 1 <= maxChars < |s| && k == CutAt(s, maxChars) && seam == SeamAt(s, k)
    requires Tidy(s) && |pieces| == |seams| + 1 && Filled(pieces, seams, maxChars)
    requires Weave([s[..k]] + pieces, [seam] + seams) == s
    ensures Filled([s[..k]] + pieces, [seam] + seams, maxChars)
  {
    var p, q := [s[..k]] + pieces, [seam] + seams;
    assert p[1..] == pieces && q[1..] == seams;
  }

  // ---------------------------------------------------------------- the chunks of a document

  function Concat(lists: seq<seq<Str>>): seq<Str>
  {
    if lists == [] then [] else lists[0] + Concat(lists[1..])
  }

  /** `pieces` are the chunks of one paragraph: its words, spaced by one, cut as far as the limit reaches. */
  ghost predicate ParagraphCut(paragraph: Str, pieces: seq<Str>, maxChars: nat)
  {
    exists gaps, words, seams ::
      && WordsOf(paragraph, gaps, words)
      && if words == [] then pieces == []
         else |pieces| == |seams| + 1 && Weave(pieces, seams) == Spaced(words) && Filled(pieces, seams, maxChars)
  }

  ghost predicate AllCut(paragraphs: seq<Str>, lists: seq<seq<Str>>, maxChars: nat)
  {
    |lists| == |paragraphs| && forall i :: 0 <= i < |lists| ==> ParagraphCut(paragraphs[i], lists[i], maxChars)
  }

  /** `chunks` are those of the document: one list of pieces after the other for its paragraphs. */
  ghost predicate DocumentCut(text: Str, chunks: seq<Str>, maxChars: nat)
  {
    exists unix, body, paragraphs, breaks, lists ::
      && UnixOf(text, unix) && TrimOf(unix, body) && ParagraphsOf(body, paragraphs, breaks)
      && AllCut(paragraphs, lists, maxChars) && chunks == Concat(lists)
  }

  lemma OneParagraph(paragraph: Str, maxChars: nat)
    requires maxChars >= 1
    ensures ParagraphCut(paragraph, Cuts(Trim(Collapse(paragraph)), maxChars), maxChars)
  {
    var gaps, words := WordsFound(paragraph);
    Cleaned(paragraph, gaps, words);
    var seams: seq<Str> := [];
    if words != [] {
      SpacedEnds(words);
      CollapseSingle(paragraph);
      TrimTidies(Collapse(paragraph));
      seams := PiecesFilled(Spaced(words), maxChars);
    }
  }

  lemma {:induction false} ConcatPush(lists: seq<seq<Str>>, last: seq<Str>)
    ensures Concat(lists + [last]) == Concat(lists) + last
  {
    if lists == [] {
      assert lists + [last] == [last] && Concat([last]) == last + Concat([last][1..]);
    } else {
      assert (lists + [last])[1..] == lists[1..] + [last];
      ConcatPush(lists[1..], last);
      assert lists[0] + (Concat(lists[1..]) + last) == lists[0] + Concat(lists[1..]) + last;
    }
  }

  lemma OneMoreCut(paragraphs: seq<Str>, lists: seq<seq<Str>>, pieces: seq<Str>, maxChars: nat)
    requires paragraphs != [] && AllCut(paragraphs[..|paragraphs| - 1], lists, maxChars)
    requires ParagraphCut(paragraphs[|paragraphs| - 1], pieces, maxChars)
    ensures AllCut(paragraphs, lists + [pieces], maxChars)
  {
    var before, all := paragraphs[..|paragraphs| - 1], lists + [pieces];
    forall i | 0 <= i < |all| ensures ParagraphCut(paragraphs[i], all[i], maxChars) {
      assert i < |lists| ==> paragraphs[i] == before[i] && all[i] == lists[i];
    }
  }

  lemma {:induction false} AllParagraphs(paragraphs: seq<Str>, maxChars: nat) returns (lists: seq<seq<Str>>)
    requires maxChars >= 1
    ensures AllCut(paragraphs, lists, maxChars)
    ensures ParagraphChunks(paragraphs, maxChars) == Concat(lists)
  {
    if paragraphs == [] {
      lists := [];
    } else {
      var last := paragraphs[|paragraphs| - 1];
      var before := AllParagraphs(paragraphs[..|paragraphs| - 1], maxChars);
      var pieces := Cuts(Trim(Collapse(last)), maxChars);
      OneParagraph(last, maxChars);
      ConcatPush(before, pieces);
      OneMoreCut(paragraphs, before, pieces, maxChars);
      lists := before + [pieces];
    }
  }

  /** Chunking keeps every word and its paragraph, and fills every chunk as far as the limit allows. */
  lemma ChunksExactly(text: Str, maxChars: nat)
    requires maxChars >= 1
    ensures DocumentCut(text, Chunks(text, maxChars), maxChars)
  {
    var unix := UnixNewlines(text);
    var body := Trim(unix);
    var lines := UnixLines(text);
    Trimmed(unix);
    var breaks := ParagraphsFound([], body);
    assert [] + body == body;
    var lists := AllParagraphs(Paragraphs(body), maxChars);
  }
}
