/** The duplicate-last tree over any node type and any way `f` of joining two nodes.

    `Root` follows the construction, level by level. `TopDown` is an independent description:
    a perfect tree whose missing right half repeats the left one. */
module TreeShape {
  import opened Basics

  function NextLevel<T>(f: (T, T) -> T, xs: seq<T>): (r: seq<T>)
    ensures |r| == (|xs| + 1) / 2
  {
    if xs == [] then []
    else if |xs| == 1 then [f(xs[0], xs[0])]
    else [f(xs[0], xs[1])] + NextLevel(f, xs[2..])
  }

  function Height(n: nat): nat
  {
    if n <= 1 then 0 else 1 + Height((n + 1) / 2)
  }

  function Root<T>(f: (T, T) -> T, xs: seq<T>): T
    requires xs != []
    decreases |xs|
  {
    if |xs| == 1 then xs[0] else Root(f, NextLevel(f, xs))
  }

  function Layers<T>(f: (T, T) -> T, xs: seq<T>): (r: seq<seq<T>>)
    requires xs != []
    ensures r != [] && r[0] == xs && |r| == Height(|xs|) + 1
    decreases |xs|
  {
    if |xs| == 1 then [xs] else [xs] + Layers(f, NextLevel(f, xs))
  }

  /** The sibling of position `i`, and whether it stands on the left. */
  function Sibling<T>(xs: seq<T>, i: nat): T
    requires i < |xs|
  {
    if i % 2 == 1 then xs[i - 1] else if i + 1 < |xs| then xs[i + 1] else xs[i]
  }

  function Path<T>(f: (T, T) -> T, xs: seq<T>, i: nat): (p: seq<T>)
    requires i < |xs|
    ensures |p| == Height(|xs|)
    decreases |xs|
  {
    if |xs| == 1 then [] else [Sibling(xs, i)] + Path(f, NextLevel(f, xs), i / 2)
  }

  // ---------------------------------------------------------------- levels

  /** The pair at positions 2k and 2k+1 becomes node k. */
  lemma {:induction false} NextLevelAt<T>(f: (T, T) -> T, xs: seq<T>, k: nat)
    requires k < |NextLevel(f, xs)|
    ensures NextLevel(f, xs)[k] == f(xs[2 * k], if 2 * k + 1 < |xs| then xs[2 * k + 1] else xs[2 * k])
  {
    if k > 0 {
      NextLevelAt(f, xs[2..], k - 1);
    }
  }

  lemma NextLevelStep<T>(f: (T, T) -> T, x: T, y: T, rest: seq<T>)
    ensures NextLevel(f, [x, y] + rest) == [f(x, y)] + NextLevel(f, rest)
  {
    assert ([x, y] + rest)[2..] == rest;
  }

  lemma Associative<T>(a: seq<T>, b: seq<T>, c: seq<T>)
    ensures (a + b) + c == a + (b + c)
  {
  }

  lemma {:induction false} NextLevelConcat<T>(f: (T, T) -> T, a: seq<T>, b: seq<T>)
    requires |a| % 2 == 0
    ensures NextLevel(f, a + b) == NextLevel(f, a) + NextLevel(f, b)
  {
    if a == [] {
      assert a + b == b;
    } else {
      var first := [a[0], a[1]];
      NextLevelConcat(f, a[2..], b);
      NextLevelStep(f, a[0], a[1], a[2..]);
      NextLevelStep(f, a[0], a[1], a[2..] + b);
      assert a == first + a[2..];
      Associative(first, a[2..], b);
      Associative([f(a[0], a[1])], NextLevel(f, a[2..]), NextLevel(f, b));
    }
  }

  lemma {:induction false} LayersAt<T>(f: (T, T) -> T, xs: seq<T>, k: nat)
    requires xs != [] && k <= Height(|xs|)
    ensures Layers(f, xs)[k] != []
    ensures Layers(f, xs)[k..] == Layers(f, Layers(f, xs)[k])
    decreases k
  {
    if k > 0 {
      LayersAt(f, NextLevel(f, xs), k - 1);
      assert Layers(f, xs)[k..] == Layers(f, NextLevel(f, xs))[k - 1..];
    }
  }

  /** A leaf climbing past the siblings of its path, on the sides its index dictates, reaches the root. */
  function ClimbPath<T>(f: (T, T) -> T, x: T, i: nat, path: seq<T>): T
  {
    if path == [] then x
    else ClimbPath(f, if i % 2 == 1 then f(path[0], x) else f(x, path[0]), i / 2, path[1..])
  }

  lemma {:induction false} PathReachesRoot<T>(f: (T, T) -> T, xs: seq<T>, i: nat)
    requires i < |xs|
    ensures ClimbPath(f, xs[i], i, Path(f, xs, i)) == Root(f, xs)
    decreases |xs|
  {
    if |xs| > 1 {
      NextLevelAt(f, xs, i / 2);
      PathReachesRoot(f, NextLevel(f, xs), i / 2);
    }
  }

  /** Repeating the last node of an odd list changes nothing above it. */
  lemma {:induction false} OddLevelRepeats<T>(f: (T, T) -> T, xs: seq<T>)
    requires |xs| % 2 == 1
    ensures NextLevel(f, xs + [xs[|xs| - 1]]) == NextLevel(f, xs)
  {
    var ys := xs + [xs[|xs| - 1]];
    if |xs| == 1 {
      assert ys[2..] == [];
    } else {
      OddLevelRepeats(f, xs[2..]);
      assert ys[2..] == xs[2..] + [xs[|xs| - 1]];
    }
  }

  /** The root does not tell an odd list from the list with its last leaf repeated. */
  lemma OddRootRepeats<T>(f: (T, T) -> T, xs: seq<T>)
    requires |xs| % 2 == 1 && |xs| > 1
    ensures Root(f, xs + [xs[|xs| - 1]]) == Root(f, xs)
  {
    OddLevelRepeats(f, xs);
  }

  // ---------------------------------------------------------------- the view from the root

  function Pow2(h: nat): (p: nat)
    ensures p >= 1
  {
    if h == 0 then 1 else 2 * Pow2(h - 1)
  }

  /** The list completed to 2^h nodes: a missing right half repeats the left half. */
  function Pad<T>(xs: seq<T>, h: nat): (r: seq<T>)
    requires 0 < |xs| <= Pow2(h)
    ensures |r| == Pow2(h)
    decreases h
  {
    if h == 0 then xs
    else if |xs| <= Pow2(h - 1) then Pad(xs, h - 1) + Pad(xs, h - 1)
    else Pad(xs[..Pow2(h - 1)], h - 1) + Pad(xs[Pow2(h - 1)..], h - 1)
  }

  /** The root of a perfect tree of height h, from the root down. */
  function Perfect<T>(f: (T, T) -> T, xs: seq<T>, h: nat): T
    requires |xs| == Pow2(h)
    decreases h
  {
    if h == 0 then xs[0]
    else f(Perfect(f, xs[..Pow2(h - 1)], h - 1), Perfect(f, xs[Pow2(h - 1)..], h - 1))
  }

  function TopDown<T>(f: (T, T) -> T, xs: seq<T>, h: nat): T
    requires 0 < |xs| <= Pow2(h)
  {
    Perfect(f, Pad(xs, h), h)
  }

  lemma {:induction false} HeightBounds(n: nat)
    requires n > 0
    ensures n <= Pow2(Height(n))
    ensures Height(n) > 0 ==> Pow2(Height(n) - 1) < n
  {
    if n > 1 {
      HeightBounds((n + 1) / 2);
    }
  }

  lemma PadShort<T>(xs: seq<T>, h: nat)
    requires 0 < |xs| <= Pow2(h)
    ensures Pad(xs, h + 1) == Pad(xs, h) + Pad(xs, h)
  {
  }

  lemma PadLong<T>(a: seq<T>, b: seq<T>, h: nat)
    requires |a| == Pow2(h) && 0 < |b| <= Pow2(h)
    ensures Pad(a + b, h + 1) == Pad(a, h) + Pad(b, h)
  {
    assert (a + b)[..Pow2(h)] == a && (a + b)[Pow2(h)..] == b;
  }

  ghost predicate PadCommutes<T>(f: (T, T) -> T, xs: seq<T>, h: nat)
    requires 0 < |xs| <= Pow2(h + 1)
  {
    NextLevel(f, Pad(xs, h + 1)) == Pad(NextLevel(f, xs), h)
  }

  lemma PadNextLevelShort<T>(f: (T, T) -> T, xs: seq<T>, h: nat)
    requires h > 0 && 0 < |xs| <= Pow2(h)
    requires PadCommutes(f, xs, h - 1)
    ensures PadCommutes(f, xs, h)
  {
    PadShort(xs, h);
    PadShort(NextLevel(f, xs), h - 1);
    NextLevelConcat(f, Pad(xs, h), Pad(xs, h));
  }

  lemma PadNextLevelLong<T>(f: (T, T) -> T, a: seq<T>, b: seq<T>, h: nat)
    requires h > 0 && |a| == Pow2(h) && 0 < |b| <= Pow2(h)
    requires PadCommutes(f, a, h - 1) && PadCommutes(f, b, h - 1)
    ensures PadCommutes(f, a + b, h)
  {
    PadLong(a, b, h);
    NextLevelConcat(f, Pad(a, h), Pad(b, h));
    NextLevelConcat(f, a, b);
    PadLong(NextLevel(f, a), NextLevel(f, b), h - 1);
  }

  lemma PadNextLevelBase<T>(f: (T, T) -> T, xs: seq<T>)
    requires 0 < |xs| <= 2
    ensures PadCommutes(f, xs, 0)
  {
    assert Pow2(0) == 1 && Pow2(1) == 2;
    var x, y := xs[0], xs[|xs| - 1];
    if |xs| == 2 {
      assert Pad(xs, 1) == Pad(xs[..1], 0) + Pad(xs[1..], 0) == [x, y] + [];
    } else {
      assert Pad(xs, 1) == Pad(xs, 0) + Pad(xs, 0) == [x, y] + [];
    }
  }

  lemma HalvesFit<T>(xs: seq<T>, h: nat)
    requires Pow2(h) < |xs| <= Pow2(h + 1)
    ensures |xs[..Pow2(h)]| == Pow2(h) && 0 < |xs[Pow2(h)..]| <= Pow2(h)
    ensures xs[..Pow2(h)] + xs[Pow2(h)..] == xs
  {
    assert Pow2(h + 1) == 2 * Pow2(h);
  }

  /** Padding a level is one step of padding and joining its successor. */
  lemma {:induction false} PadNextLevel<T>(f: (T, T) -> T, xs: seq<T>, h: nat)
    requires 0 < |xs| <= Pow2(h + 1)
    ensures PadCommutes(f, xs, h)
    decreases h
  {
    if h == 0 {
      PadNextLevelBase(f, xs);
    } else if |xs| <= Pow2(h) {
      PadNextLevel(f, xs, h - 1);
      PadNextLevelShort(f, xs, h);
    } else {
      HalvesFit(xs, h);
      PadNextLevel(f, xs[..Pow2(h)], h - 1);
      PadNextLevel(f, xs[Pow2(h)..], h - 1);
      PadNextLevelLong(f, xs[..Pow2(h)], xs[Pow2(h)..], h);
    }
  }

  lemma {:induction false} PerfectNextLevel<T>(f: (T, T) -> T, xs: seq<T>, h: nat)
    requires |xs| == Pow2(h + 1)
    ensures Perfect(f, xs, h + 1) == Perfect(f, NextLevel(f, xs), h)
    decreases h
  {
    if h > 0 {
      var half := Pow2(h);
      PerfectNextLevel(f, xs[..half], h - 1);
      PerfectNextLevel(f, xs[half..], h - 1);
      NextLevelHalves(f, xs, h);
    } else {
      assert xs == [xs[0], xs[1]];
    }
  }

  lemma NextLevelHalves<T>(f: (T, T) -> T, xs: seq<T>, h: nat)
    requires h > 0 && |xs| == Pow2(h + 1)
    ensures |NextLevel(f, xs)| == Pow2(h)
    ensures NextLevel(f, xs)[..Pow2(h - 1)] == NextLevel(f, xs[..Pow2(h)])
    ensures NextLevel(f, xs)[Pow2(h - 1)..] == NextLevel(f, xs[Pow2(h)..])
  {
    NextLevelConcat(f, xs[..Pow2(h)], xs[Pow2(h)..]);
    assert xs[..Pow2(h)] + xs[Pow2(h)..] == xs;
  }

  /** The level loop computes the top-down tree. */
  lemma {:induction false} RootIsTopDown<T>(f: (T, T) -> T, xs: seq<T>)
    requires xs != []
    ensures |xs| <= Pow2(Height(|xs|))
    ensures Root(f, xs) == TopDown(f, xs, Height(|xs|))
    decreases |xs|
  {
    HeightBounds(|xs|);
    if |xs| > 1 {
      var h := Height(|xs|) - 1;
      RootIsTopDown(f, NextLevel(f, xs));
      PadNextLevel(f, xs, h);
      PerfectNextLevel(f, Pad(xs, h + 1), h);
    }
  }

  // ---------------------------------------------------------------- padding

  /** The padded list starts with the list and holds nothing else. */
  ghost predicate Extends<T>(xs: seq<T>, p: seq<T>)
  {
    |xs| <= |p| && p[..|xs|] == xs && forall i :: 0 <= i < |p| ==> p[i] in xs
  }

  lemma PadExtendsShort<T>(xs: seq<T>, h: nat)
    requires 0 < |xs| <= Pow2(h) && Extends(xs, Pad(xs, h))
    ensures Extends(xs, Pad(xs, h + 1))
  {
    PadShort(xs, h);
    DoubledExtends(xs, Pad(xs, h));
  }

  lemma PadExtendsLong<T>(a: seq<T>, b: seq<T>, h: nat)
    requires |a| == Pow2(h) && 0 < |b| <= Pow2(h)
    requires Extends(a, Pad(a, h)) && Extends(b, Pad(b, h))
    ensures Extends(a + b, Pad(a + b, h + 1))
  {
    PadLong(a, b, h);
    JoinedExtends(a, b, Pad(a, h), Pad(b, h));
  }

  lemma {:induction false} PadExtends<T>(xs: seq<T>, h: nat)
    requires 0 < |xs| <= Pow2(h)
    ensures Extends(xs, Pad(xs, h))
    decreases h
  {
    if h > 0 {
      var half := Pow2(h - 1);
      if |xs| <= half {
        PadExtends(xs, h - 1);
        PadExtendsShort(xs, h - 1);
      } else {
        PadExtends(xs[..half], h - 1);
        PadExtends(xs[half..], h - 1);
        PadExtendsLong(xs[..half], xs[half..], h - 1);
        assert xs == xs[..half] + xs[half..];
      }
    }
  }

  lemma DoubledExtends<T>(xs: seq<T>, p: seq<T>)
    requires Extends(xs, p)
    ensures Extends(xs, p + p)
  {
  }

  lemma JoinedExtends<T>(a: seq<T>, b: seq<T>, p: seq<T>, q: seq<T>)
    requires |a| == |p| && Extends(a, p) && Extends(b, q)
    ensures Extends(a + b, p + q)
  {
    forall i | 0 <= i < |p + q| ensures (p + q)[i] in a + b {
      if i < |p| {
        assert p[i] in a;
      } else {
        assert q[i - |p|] in b;
      }
    }
  }

  ghost predicate Distinct<T>(xs: seq<T>)
  {
    forall i, j :: 0 <= i < j < |xs| ==> xs[i] != xs[j]
  }

  /** Padding hides nothing from lists without repetition. */
  lemma PadDetermines<T>(xs: seq<T>, ys: seq<T>, h: nat)
    requires 0 < |xs| <= Pow2(h) && 0 < |ys| <= Pow2(h)
    requires Distinct(xs) && Distinct(ys) && Pad(xs, h) == Pad(ys, h)
    ensures xs == ys
  {
    if |xs| < |ys| {
      PadShorterRepeats(xs, ys, h);
    } else if |ys| < |xs| {
      PadShorterRepeats(ys, xs, h);
    } else {
      PadExtends(xs, h);
      PadExtends(ys, h);
    }
  }

  lemma PadShorterRepeats<T>(xs: seq<T>, ys: seq<T>, h: nat)
    requires 0 < |xs| < |ys| <= Pow2(h)
    requires Pad(xs, h) == Pad(ys, h)
    ensures !Distinct(ys)
  {
    var p, n := Pad(ys, h), |xs|;
    PadExtends(xs, h);
    PadExtends(ys, h);
    assert ys[n] == p[..|ys|][n];
    assert p[n] in xs;
    var i :| 0 <= i < |xs| && xs[i] == ys[n];
    assert xs[i] == p[..|xs|][i] && ys[i] == p[..|ys|][i];
  }

  // ---------------------------------------------------------------- pairs

  /** The two nodes joined into node `k` of the next level. */
  function PairAt<T>(xs: seq<T>, k: nat): (T, T)
    requires 2 * k < |xs|
  {
    (xs[2 * k], if 2 * k + 1 < |xs| then xs[2 * k + 1] else xs[2 * k])
  }

  /** Every pair joined in one step. */
  ghost function LevelPairs<T>(xs: seq<T>): set<(T, T)>
  {
    set k: nat | k <= |xs| && 2 * k < |xs| :: PairAt(xs, k)
  }

  /** Every pair joined on the way to the root. */
  ghost function TreePairs<T>(f: (T, T) -> T, xs: seq<T>): set<(T, T)>
    decreases |xs|
  {
    if |xs| <= 1 then {} else LevelPairs(xs) + TreePairs(f, NextLevel(f, xs))
  }

  lemma ConcatPairs<T>(a: seq<T>, b: seq<T>)
    requires |a| % 2 == 0
    ensures LevelPairs(a + b) <= LevelPairs(a) + LevelPairs(b)
    ensures LevelPairs(a) + LevelPairs(b) <= LevelPairs(a + b)
  {
    var n := |a| / 2;
    forall p | p in LevelPairs(a + b) ensures p in LevelPairs(a) + LevelPairs(b) {
      var k: nat :| 2 * k < |a + b| && p == PairAt(a + b, k);
      assert p == if k < n then PairAt(a, k) else PairAt(b, k - n);
    }
    forall p | p in LevelPairs(a) ensures p in LevelPairs(a + b) {
      var k: nat :| 2 * k < |a| && p == PairAt(a, k);
      assert p == PairAt(a + b, k);
    }
    forall p | p in LevelPairs(b) ensures p in LevelPairs(a + b) {
      var k: nat :| 2 * k < |b| && p == PairAt(b, k);
      assert p == PairAt(a + b, k + n);
    }
  }

  /** Padding joins no new pair. */
  lemma {:induction false} PadPairs<T>(xs: seq<T>, h: nat)
    requires 0 < |xs| <= Pow2(h + 1)
    ensures LevelPairs(Pad(xs, h + 1)) <= LevelPairs(xs)
    decreases h
  {
    if h == 0 {
      assert Pow2(1) == 2 && Pow2(0) == 1;
      if |xs| == 2 {
        assert Pad(xs, 1) == xs[..1] + xs[1..] == xs;
      } else {
        assert Pad(xs, 1) == [xs[0], xs[0]];
        assert PairAt(xs, 0) in LevelPairs(xs);
      }
    } else if |xs| <= Pow2(h) {
      PadShort(xs, h);
      PadPairs(xs, h - 1);
      ConcatPairs(Pad(xs, h), Pad(xs, h));
    } else {
      var a, b := xs[..Pow2(h)], xs[Pow2(h)..];
      assert a + b == xs;
      PadLong(a, b, h);
      PadPairs(a, h - 1);
      PadPairs(b, h - 1);
      ConcatPairs(a, b);
      ConcatPairs(Pad(a, h), Pad(b, h));
    }
  }

  // ---------------------------------------------------------------- steps of the loops

  lemma LevelGrows<T>(f: (T, T) -> T, xs: seq<T>, done: nat, n: nat)
    requires done % 2 == 0 && done < |xs|
    requires n == if done + 1 < |xs| then 2 else 1
    ensures NextLevel(f, xs[..done + n]) == NextLevel(f, xs[..done]) + [f(xs[done], xs[done + n - 1])]
  {
    var pair := xs[done..done + n];
    assert xs[..done + n] == xs[..done] + pair;
    NextLevelConcat(f, xs[..done], pair);
    if n == 2 {
      assert pair == [xs[done], xs[done + 1]] + [];
    }
  }

  /** Each layer is the next level of the one below; the last is a single node. */
  lemma LayersStep<T>(f: (T, T) -> T, xs: seq<T>, k: nat)
    requires xs != [] && k < |Layers(f, xs)|
    ensures Layers(f, xs)[k] != []
    ensures k + 1 < |Layers(f, xs)| ==> |Layers(f, xs)[k]| > 1 && Layers(f, xs)[k + 1] == NextLevel(f, Layers(f, xs)[k])
    ensures k + 1 == |Layers(f, xs)| ==> |Layers(f, xs)[k]| == 1
  {
    LayersAt(f, xs, k);
    var rest := Layers(f, xs)[k..];
    if k + 1 < |Layers(f, xs)| {
      assert rest[1] == Layers(f, xs)[k + 1];
    }
  }

  lemma LayersPush<T>(f: (T, T) -> T, done: seq<seq<T>>, current: seq<T>)
    requires |current| > 1
    ensures done + Layers(f, current)[1..]
         == done + [NextLevel(f, current)] + Layers(f, NextLevel(f, current))[1..]
  {
    var above := Layers(f, NextLevel(f, current));
    assert Layers(f, current)[1..] == above == [above[0]] + above[1..];
  }

  // ---------------------------------------------------------------- the loops

  /** The inner loop of the construction: join neighbours, the last odd one with itself.
      `None` is the exception for a node that does not decode. */
  method JoinLevel<T>(f: (T, T) -> T, decodes: T -> bool, current: seq<T>) returns (next: Option<seq<T>>)
    ensures next.Some? <==> forall k :: 0 <= k < |current| ==> decodes(current[k])
    ensures next.Some? ==> next.value == NextLevel(f, current)
  {
    var level: seq<T> := [];
    var i := 0;
    ghost var done := 0;
    while i < |current|
      invariant 0 <= done <= |current|
      invariant i == done || (i == done + 1 && done == |current|)
      invariant i % 2 == 0
      invariant forall k :: 0 <= k < done ==> decodes(current[k])
      invariant level == NextLevel(f, current[..done])
    {
      var left := current[i];
      var right := if i + 1 < |current| then current[i + 1] else left;
      if !decodes(left) || !decodes(right) {
        return None;
      }
      level := level + [f(left, right)];
      ghost var n := if i + 1 < |current| then 2 else 1;
      LevelGrows(f, current, done, n);
      done := done + n;
      i := i + 2;
    }
    assert current[..done] == current;
    return Some(level);
  }

  /** Side the sibling occupies. `Other` is any string but "left" and "right". */
  datatype Position = Left | Right | Other
  datatype ProofStep<T> = ProofStep(siblingHash: T, position: Position)

  function Steps<T>(path: seq<T>, i: nat): (p: seq<ProofStep<T>>)
    ensures |p| == |path|
  {
    if path == [] then []
    else [ProofStep(path[0], if i % 2 == 1 then Left else Right)] + Steps(path[1..], i / 2)
  }

  /** The proof of leaf `i`: siblings on the way up, each with the side it stands on. */
  function ProofOf<T>(f: (T, T) -> T, xs: seq<T>, i: nat): (p: seq<ProofStep<T>>)
    requires i < |xs|
    ensures |p| == Height(|xs|)
  {
    Steps(Path(f, xs, i), i)
  }

  lemma ProofUnfolds<T>(f: (T, T) -> T, xs: seq<T>, i: nat)
    requires i < |xs| && |xs| > 1
    ensures ProofOf(f, xs, i)
         == [ProofStep(Sibling(xs, i), if i % 2 == 1 then Left else Right)] + ProofOf(f, NextLevel(f, xs), i / 2)
  {
  }

  /** One level up: what the loop has pushed and what is still to come stay the whole proof. */
  lemma ProofAdvances<T>(f: (T, T) -> T, layer: seq<T>, idx: nat, proof: seq<ProofStep<T>>, step: ProofStep<T>)
    requires idx < |layer| && |layer| > 1
    requires step == ProofStep(Sibling(layer, idx), if idx % 2 == 1 then Left else Right)
    ensures proof + ProofOf(f, layer, idx) == proof + [step] + ProofOf(f, NextLevel(f, layer), idx / 2)
  {
    ProofUnfolds(f, layer, idx);
  }

  /** The loop of proof generation over the layers of a built tree. */
  method ProofFromLayers<T>(f: (T, T) -> T, ghost xs: seq<T>, layers: seq<seq<T>>, leafIndex: nat)
    returns (proof: seq<ProofStep<T>>)
    requires leafIndex < |xs| && layers == Layers(f, xs)
    ensures proof == ProofOf(f, xs, leafIndex)
  {
    proof := [];
    var idx := leafIndex;
    var level := 0;
    ghost var whole := ProofOf(f, xs, leafIndex);
    while level < |layers| - 1
      invariant 0 <= level <= |layers| - 1
      invariant 0 <= idx < |layers[level]|
      invariant proof + ProofOf(f, layers[level], idx) == whole
    {
      var layer := layers[level];
      LayersStep(f, xs, level);
      var step: ProofStep<T>;
      if idx % 2 == 0 {
        var siblingIdx := idx + 1;
        var sibling := if siblingIdx < |layer| then layer[siblingIdx] else layer[idx];
        step := ProofStep(sibling, Right);
      } else {
        step := ProofStep(layer[idx - 1], Left);
      }
      ProofAdvances(f, layer, idx, proof, step);
      proof := proof + [step];
      idx := idx / 2;
      level := level + 1;
    }
    LayersStep(f, xs, level);
  }

  // ---------------------------------------------------------------- binding

  /** No two pairs of `pairs` are joined into one node. */
  ghost predicate InjectiveOn<T(!new)>(f: (T, T) -> T, pairs: set<(T, T)>)
  {
    forall p, q :: p in pairs && q in pairs && f(p.0, p.1) == f(q.0, q.1) ==> p == q
  }

  lemma TreePairsUp<T>(f: (T, T) -> T, xs: seq<T>)
    requires |xs| > 1
    ensures TreePairs(f, NextLevel(f, xs)) <= TreePairs(f, xs)
    ensures LevelPairs(xs) <= TreePairs(f, xs)
  {
  }

  lemma LevelBinds<T(!new)>(f: (T, T) -> T, pairs: set<(T, T)>, xs: seq<T>, ys: seq<T>)
    requires |xs| == |ys| && |xs| % 2 == 0 && InjectiveOn(f, pairs)
    requires LevelPairs(xs) <= pairs && LevelPairs(ys) <= pairs
    requires NextLevel(f, xs) == NextLevel(f, ys)
    ensures xs == ys
  {
    forall i | 0 <= i < |xs| ensures xs[i] == ys[i] {
      var k := i / 2;
      NextLevelAt(f, xs, k);
      NextLevelAt(f, ys, k);
      assert PairAt(xs, k) in LevelPairs(xs) && PairAt(ys, k) in LevelPairs(ys);
      assert PairAt(xs, k) == PairAt(ys, k);
      assert i == 2 * k || i == 2 * k + 1;
    }
  }

  /** Both lists complete to the same 2^h nodes. */
  ghost predicate SamePadding<T>(xs: seq<T>, ys: seq<T>, h: nat)
  {
    0 < |xs| <= Pow2(h) && 0 < |ys| <= Pow2(h) && Pad(xs, h) == Pad(ys, h)
  }

  lemma SingletonPadding<T>(f: (T, T) -> T, xs: seq<T>, ys: seq<T>)
    requires xs != [] && ys != [] && Height(|xs|) == 0 && Height(|ys|) == 0 && Root(f, xs) == Root(f, ys)
    ensures SamePadding(xs, ys, 0)
  {
  }

  lemma OneLevelUp<T(!new)>(f: (T, T) -> T, pairs: set<(T, T)>, xs: seq<T>)
    requires xs != [] && Height(|xs|) > 0 && TreePairs(f, xs) <= pairs
    ensures NextLevel(f, xs) != [] && Height(|NextLevel(f, xs)|) == Height(|xs|) - 1
    ensures Root(f, NextLevel(f, xs)) == Root(f, xs)
    ensures TreePairs(f, NextLevel(f, xs)) <= pairs && LevelPairs(xs) <= pairs
    ensures |xs| <= Pow2(Height(|xs|))
  {
    HeightBounds(|xs|);
  }

  /** Two trees of one height with one root have the same completed leaf level. */
  lemma {:induction false} RootBindsPadding<T(!new)>(f: (T, T) -> T, pairs: set<(T, T)>, xs: seq<T>, ys: seq<T>, h: nat)
    requires xs != [] && ys != [] && Height(|xs|) == h && Height(|ys|) == h
    requires Root(f, xs) == Root(f, ys)
    requires InjectiveOn(f, pairs) && TreePairs(f, xs) <= pairs && TreePairs(f, ys) <= pairs
    ensures SamePadding(xs, ys, h)
    decreases h
  {
    if h == 0 {
      SingletonPadding(f, xs, ys);
    } else {
      OneLevelUp(f, pairs, xs);
      OneLevelUp(f, pairs, ys);
      RootBindsPadding(f, pairs, NextLevel(f, xs), NextLevel(f, ys), h - 1);
      PadStepBinds(f, pairs, xs, ys, h - 1);
    }
  }

  lemma PadStepBinds<T(!new)>(f: (T, T) -> T, pairs: set<(T, T)>, xs: seq<T>, ys: seq<T>, h: nat)
    requires 0 < |xs| <= Pow2(h + 1) && 0 < |ys| <= Pow2(h + 1) && InjectiveOn(f, pairs)
    requires LevelPairs(xs) <= pairs && LevelPairs(ys) <= pairs
    requires SamePadding(NextLevel(f, xs), NextLevel(f, ys), h)
    ensures SamePadding(xs, ys, h + 1)
  {
    PaddedSuccessors(f, xs, ys, h);
    PaddedPairs(pairs, xs, h);
    PaddedPairs(pairs, ys, h);
    var p, q := Pad(xs, h + 1), Pad(ys, h + 1);
    PaddedEven(xs, p, h);
    PaddedEven(ys, q, h);
    LevelBinds(f, pairs, p, q);
  }

  lemma PaddedEven<T>(xs: seq<T>, p: seq<T>, h: nat)
    requires 0 < |xs| <= Pow2(h + 1) && p == Pad(xs, h + 1)
    ensures |p| == Pow2(h + 1) && |p| % 2 == 0
  {
    assert Pow2(h + 1) == 2 * Pow2(h);
  }

  lemma PaddedSuccessors<T>(f: (T, T) -> T, xs: seq<T>, ys: seq<T>, h: nat)
    requires 0 < |xs| <= Pow2(h + 1) && 0 < |ys| <= Pow2(h + 1)
    requires Pad(NextLevel(f, xs), h) == Pad(NextLevel(f, ys), h)
    ensures NextLevel(f, Pad(xs, h + 1)) == NextLevel(f, Pad(ys, h + 1))
  {
    PadNextLevel(f, xs, h);
    PadNextLevel(f, ys, h);
  }

  lemma PaddedPairs<T>(pairs: set<(T, T)>, xs: seq<T>, h: nat)
    requires 0 < |xs| <= Pow2(h + 1) && LevelPairs(xs) <= pairs
    ensures LevelPairs(Pad(xs, h + 1)) <= pairs
  {
    PadPairs(xs, h);
  }

  /** The level `k` steps above `xs`. */
  function Level<T>(f: (T, T) -> T, xs: seq<T>, k: nat): (r: seq<T>)
    requires xs != []
    ensures r != []
    decreases k
  {
    if k == 0 then xs else Level(f, NextLevel(f, xs), k - 1)
  }

  lemma {:induction false} LevelFacts<T>(f: (T, T) -> T, xs: seq<T>, k: nat)
    requires xs != [] && k <= Height(|xs|)
    ensures Height(|Level(f, xs, k)|) == Height(|xs|) - k
    ensures Root(f, Level(f, xs, k)) == Root(f, xs)
    ensures TreePairs(f, Level(f, xs, k)) <= TreePairs(f, xs)
    ensures k > 0 ==> exists p :: p in TreePairs(f, xs) && Level(f, xs, k)[0] == f(p.0, p.1)
    decreases k
  {
    if k > 0 {
      TreePairsUp(f, xs);
      LevelFacts(f, NextLevel(f, xs), k - 1);
      if k == 1 {
        NextLevelAt(f, xs, 0);
        assert PairAt(xs, 0) in LevelPairs(xs);
        assert NextLevel(f, xs)[0] == f(PairAt(xs, 0).0, PairAt(xs, 0).1);
      } else {
        var p :| p in TreePairs(f, NextLevel(f, xs)) && Level(f, NextLevel(f, xs), k - 1)[0] == f(p.0, p.1);
        assert p in TreePairs(f, xs);
      }
    }
  }

  lemma SamePaddingFirst<T>(xs: seq<T>, ys: seq<T>, h: nat)
    requires SamePadding(xs, ys, h)
    ensures xs[0] == ys[0]
  {
    PadExtends(xs, h);
    PadExtends(ys, h);
    assert Pad(xs, h)[..|xs|][0] == xs[0] && Pad(ys, h)[..|ys|][0] == ys[0];
  }

  /** The pairs joined on the way up from `x`. */
  ghost function ClimbPairs<T>(f: (T, T) -> T, x: T, i: nat, path: seq<T>): set<(T, T)>
    decreases |path|
  {
    if path == [] then {}
    else
      var p := if i % 2 == 1 then (path[0], x) else (x, path[0]);
      {p} + ClimbPairs(f, f(p.0, p.1), i / 2, path[1..])
  }

  /** A pair of `left` joined like a pair of `right` is the same pair, as far as `same` can tell. */
  ghost predicate PairsBind<T(!new)>(f: (T, T) -> T, same: (T, T) -> bool, left: set<(T, T)>, right: set<(T, T)>)
  {
    forall p, q :: p in left && q in right && f(p.0, p.1) == f(q.0, q.1) ==> same(p.0, q.0) && same(p.1, q.1)
  }

  /** Joined nodes that are the same are equal. */
  ghost predicate JoinsCanonical<T(!new)>(f: (T, T) -> T, same: (T, T) -> bool)
  {
    forall p: (T, T), q: (T, T) :: same(f(p.0, p.1), f(q.0, q.1)) ==> f(p.0, p.1) == f(q.0, q.1)
  }

  /** What reaches the root along the directions of index `i` is leaf `i`, up to whatever `same`
      lets joining forget. */
  lemma {:induction false} PathBinds<T(!new)>(f: (T, T) -> T, same: (T, T) -> bool, xs: seq<T>, i: nat, x: T, path: seq<T>)
    requires i < |xs| && |path| == Height(|xs|)
    requires ClimbPath(f, x, i, path) == Root(f, xs)
    requires PairsBind(f, same, ClimbPairs(f, x, i, path), TreePairs(f, xs))
    requires JoinsCanonical(f, same)
    ensures if |xs| == 1 then x == xs[0] else same(x, xs[i])
    decreases |xs|
  {
    if |xs| > 1 {
      var p := if i % 2 == 1 then (path[0], x) else (x, path[0]);
      var q := PairAt(xs, i / 2);
      TreePairsUp(f, xs);
      NextLevelAt(f, xs, i / 2);
      assert q in LevelPairs(xs);
      PathBinds(f, same, NextLevel(f, xs), i / 2, f(p.0, p.1), path[1..]);
      assert f(p.0, p.1) == f(q.0, q.1);
    }
  }

  /** The first leaf of a tree is an inner node of every taller tree with the same root. */
  lemma TallerTree<T(!new)>(f: (T, T) -> T, pairs: set<(T, T)>, xs: seq<T>, ys: seq<T>)
    requires xs != [] && ys != [] && Root(f, xs) == Root(f, ys)
    requires InjectiveOn(f, pairs) && TreePairs(f, xs) <= pairs && TreePairs(f, ys) <= pairs
    requires Height(|xs|) < Height(|ys|)
    ensures exists p :: p in pairs && f(p.0, p.1) == xs[0]
  {
    var h := Height(|xs|);
    var level := Level(f, ys, Height(|ys|) - h);
    LevelFacts(f, ys, Height(|ys|) - h);
    RootBindsPadding(f, pairs, xs, level, h);
    SamePaddingFirst(xs, level, h);
  }

  /** A root binds its whole leaf list, length included: when no two pairs are joined alike and
      no inner node is a leaf, neither the duplicate-last rule nor the tree height can confuse. */
  lemma RootBinds<T(!new)>(f: (T, T) -> T, pairs: set<(T, T)>, xs: seq<T>, ys: seq<T>)
    requires xs != [] && ys != [] && Distinct(xs) && Distinct(ys) && Root(f, xs) == Root(f, ys)
    requires InjectiveOn(f, pairs) && TreePairs(f, xs) <= pairs && TreePairs(f, ys) <= pairs
    requires forall p :: p in pairs ==> f(p.0, p.1) != xs[0] && f(p.0, p.1) != ys[0]
    ensures xs == ys
  {
    if Height(|xs|) < Height(|ys|) {
      TallerTree(f, pairs, xs, ys);
    } else if Height(|ys|) < Height(|xs|) {
      TallerTree(f, pairs, ys, xs);
    } else {
      RootBindsPadding(f, pairs, xs, ys, Height(|xs|));
      PadDetermines(xs, ys, Height(|xs|));
    }
  }
}
