/** The stable `Array.prototype.sort`, and the orders it is used with. */
module Sorting {
  import opened Basics

  /** Insert before the first element that is not smaller: earlier equals stay in front. */
  function Insert<T>(le: (T, T) -> bool, x: T, xs: seq<T>): seq<T>
  {
    if xs == [] then [x]
    else if le(x, xs[0]) then [x] + xs
    else [xs[0]] + Insert(le, x, xs[1..])
  }

  function SortBy<T>(le: (T, T) -> bool, xs: seq<T>): seq<T>
  {
    if xs == [] then [] else Insert(le, xs[0], SortBy(le, xs[1..]))
  }

  ghost predicate TotalPreorder<T(!new)>(le: (T, T) -> bool)
  {
    && (forall x, y :: le(x, y) || le(y, x))
    && (forall x, y, z :: le(x, y) && le(y, z) ==> le(x, z))
  }

  ghost predicate Sorted<T>(le: (T, T) -> bool, xs: seq<T>)
  {
    forall i, j :: 0 <= i < j < |xs| ==> le(xs[i], xs[j])
  }

  /** No two positions of `xs` hold elements the order cannot tell apart. */
  ghost predicate Strict<T>(le: (T, T) -> bool, xs: seq<T>)
  {
    forall i, j :: 0 <= i < j < |xs| ==> !(le(xs[i], xs[j]) && le(xs[j], xs[i]))
  }

  lemma {:induction false} InsertPermutes<T>(le: (T, T) -> bool, x: T, xs: seq<T>)
    ensures multiset(Insert(le, x, xs)) == multiset{x} + multiset(xs)
  {
    if xs != [] && !le(x, xs[0]) {
      InsertPermutes(le, x, xs[1..]);
      assert xs == [xs[0]] + xs[1..];
    }
  }

  lemma {:induction false} SortPermutes<T>(le: (T, T) -> bool, xs: seq<T>)
    ensures multiset(SortBy(le, xs)) == multiset(xs)
  {
    if xs != [] {
      SortPermutes(le, xs[1..]);
      InsertPermutes(le, xs[0], SortBy(le, xs[1..]));
      assert xs == [xs[0]] + xs[1..];
    }
  }

  lemma SortKeeps<T>(le: (T, T) -> bool, xs: seq<T>)
    ensures |SortBy(le, xs)| == |xs|
    ensures forall x :: x in SortBy(le, xs) <==> x in xs
  {
    SortPermutes(le, xs);
    MultisetMembers(xs, SortBy(le, xs));
  }

  lemma MultisetMembers<T>(xs: seq<T>, ys: seq<T>)
    requires multiset(xs) == multiset(ys)
    ensures |xs| == |ys|
    ensures forall x :: x in xs <==> x in ys
  {
    assert |xs| == |multiset(xs)| == |multiset(ys)| == |ys|;
    forall x
      ensures x in xs <==> x in ys
    {
      assert x in xs <==> x in multiset(xs);
      assert x in ys <==> x in multiset(ys);
    }
  }

  lemma {:induction false} InsertSorts<T(!new)>(le: (T, T) -> bool, x: T, xs: seq<T>)
    requires TotalPreorder(le) && Sorted(le, xs)
    ensures Sorted(le, Insert(le, x, xs))
  {
    if xs == [] {
    } else if le(x, xs[0]) {
      forall j | 0 <= j < |xs| ensures le(x, xs[j]) {
        assert j == 0 || le(xs[0], xs[j]);
      }
    } else {
      var rest := Insert(le, x, xs[1..]);
      assert Sorted(le, xs[1..]);
      InsertSorts(le, x, xs[1..]);
      InsertPermutes(le, x, xs[1..]);
      forall j | 0 <= j < |rest| ensures le(xs[0], rest[j]) {
        assert rest[j] in multiset(rest);
        if rest[j] != x {
          assert rest[j] in xs[1..];
        }
      }
    }
  }

  lemma {:induction false} SortSorts<T(!new)>(le: (T, T) -> bool, xs: seq<T>)
    requires TotalPreorder(le)
    ensures Sorted(le, SortBy(le, xs))
  {
    if xs != [] {
      SortSorts(le, xs[1..]);
      InsertSorts(le, xs[0], SortBy(le, xs[1..]));
    }
  }

  /** Sorting a sorted sequence changes nothing. */
  lemma {:induction false} SortSorted<T>(le: (T, T) -> bool, xs: seq<T>)
    requires Sorted(le, xs)
    ensures SortBy(le, xs) == xs
  {
    if xs != [] {
      assert Sorted(le, xs[1..]);
      SortSorted(le, xs[1..]);
      assert xs[1..] != [] ==> le(xs[0], xs[1]);
      assert xs == [xs[0]] + xs[1..];
    }
  }

  /** Two orderings of the same elements, without ties, start alike. */
  lemma SameFirst<T>(le: (T, T) -> bool, xs: seq<T>, ys: seq<T>)
    requires Sorted(le, xs) && Sorted(le, ys) && Strict(le, xs)
    requires |xs| == |ys| > 0 && ys[0] in xs && xs[0] in ys
    ensures xs[0] == ys[0]
  {
    var i :| 0 <= i < |xs| && xs[i] == ys[0];
    var j :| 0 <= j < |ys| && ys[j] == xs[0];
  }

  lemma TailOf<T>(xs: seq<T>)
    requires xs != []
    ensures multiset(xs[1..]) == multiset(xs) - multiset{xs[0]}
  {
    assert xs == [xs[0]] + xs[1..];
  }

  lemma SortedTail<T>(le: (T, T) -> bool, xs: seq<T>)
    requires xs != [] && Sorted(le, xs)
    ensures Sorted(le, xs[1..]) && (Strict(le, xs) ==> Strict(le, xs[1..]))
  {
  }

  /** Two orderings of the same elements are equal when no two elements tie. */
  lemma {:induction false} SortedUnique<T>(le: (T, T) -> bool, xs: seq<T>, ys: seq<T>)
    requires Sorted(le, xs) && Sorted(le, ys) && Strict(le, xs)
    requires multiset(xs) == multiset(ys)
    ensures xs == ys
  {
    MultisetMembers(xs, ys);
    if xs != [] {
      SameFirst(le, xs, ys);
      TailOf(xs);
      TailOf(ys);
      SortedTail(le, xs);
      SortedTail(le, ys);
      SortedUnique(le, xs[1..], ys[1..]);
      assert xs == [xs[0]] + xs[1..] && ys == [ys[0]] + ys[1..];
    }
  }

  lemma SortedStrict<T>(le: (T, T) -> bool, xs: seq<T>, ys: seq<T>)
    requires multiset(xs) == multiset(ys)
    requires Strict(le, xs) && Sorted(le, ys)
    ensures Strict(le, ys)
  {
    MultisetMembers(xs, ys);
    forall i, j | 0 <= i < j < |ys|
      ensures !(le(ys[i], ys[j]) && le(ys[j], ys[i]))
    {
      if ys[i] == ys[j] {
        TwiceInMultiset(ys, i, j);
        TwoPositions(xs, ys[i]);
      } else {
        var k :| 0 <= k < |xs| && xs[k] == ys[i];
        var l :| 0 <= l < |xs| && xs[l] == ys[j];
        assert k < l || l < k;
      }
    }
  }

  lemma TwiceInMultiset<T>(xs: seq<T>, i: nat, j: nat)
    requires i < j < |xs| && xs[i] == xs[j]
    ensures multiset(xs)[xs[i]] >= 2
  {
    assert xs == xs[..i] + [xs[i]] + xs[i + 1..j] + [xs[j]] + xs[j + 1..];
  }

  lemma {:induction false} TwoPositions<T>(xs: seq<T>, x: T)
    requires multiset(xs)[x] >= 2
    ensures exists i, j :: 0 <= i < j < |xs| && xs[i] == x && xs[j] == x
  {
    assert xs == [xs[0]] + xs[1..];
    if xs[0] == x {
      assert x in multiset(xs[1..]);
      var j :| 0 <= j < |xs[1..]| && xs[1..][j] == x;
      assert xs[0] == x && xs[j + 1] == x;
    } else {
      TwoPositions(xs[1..], x);
      var i, j :| 0 <= i < j < |xs[1..]| && xs[1..][i] == x && xs[1..][j] == x;
      assert xs[i + 1] == x && xs[j + 1] == x;
    }
  }

  /** Sorting does not see the order its input came in, when no two elements tie. */
  lemma SortIgnoresOrder<T(!new)>(le: (T, T) -> bool, xs: seq<T>, ys: seq<T>)
    requires TotalPreorder(le) && multiset(xs) == multiset(ys) && Strict(le, xs)
    ensures SortBy(le, xs) == SortBy(le, ys)
  {
    SortPermutes(le, xs);
    SortPermutes(le, ys);
    SortSorts(le, xs);
    SortSorts(le, ys);
    SortedStrict(le, xs, SortBy(le, xs));
    SortedUnique(le, SortBy(le, xs), SortBy(le, ys));
  }

  /** Only equal elements tie. */
  ghost predicate Antisymmetric<T(!new)>(le: (T, T) -> bool)
  {
    forall x, y :: le(x, y) && le(y, x) ==> x == y
  }

  lemma OneLeast<T(!new)>(le: (T, T) -> bool, xs: seq<T>, ys: seq<T>)
    requires TotalPreorder(le) && Antisymmetric(le) && Sorted(le, xs) && Sorted(le, ys)
    requires xs != [] && ys != [] && xs[0] in ys && ys[0] in xs
    ensures xs[0] == ys[0]
  {
    HeadIsLeast(le, xs, ys[0]);
    HeadIsLeast(le, ys, xs[0]);
  }

  lemma SameTails<T>(xs: seq<T>, ys: seq<T>)
    requires xs != [] && ys != [] && xs[0] == ys[0] && multiset(xs) == multiset(ys)
    ensures multiset(xs[1..]) == multiset(ys[1..])
  {
    TailOf(xs);
    TailOf(ys);
  }

  /** Orderings of the same elements are equal when only equal elements tie. */
  lemma {:induction false} SortedSame<T(!new)>(le: (T, T) -> bool, xs: seq<T>, ys: seq<T>)
    requires TotalPreorder(le) && Antisymmetric(le)
    requires Sorted(le, xs) && Sorted(le, ys) && multiset(xs) == multiset(ys)
    ensures xs == ys
  {
    MultisetMembers(xs, ys);
    if xs != [] {
      OneLeast(le, xs, ys);
      SameTails(xs, ys);
      SortedTail(le, xs);
      SortedTail(le, ys);
      SortedSame(le, xs[1..], ys[1..]);
      assert xs == [xs[0]] + xs[1..] && ys == [ys[0]] + ys[1..];
    }
  }

  lemma HeadIsLeast<T(!new)>(le: (T, T) -> bool, xs: seq<T>, x: T)
    requires TotalPreorder(le) && Sorted(le, xs) && x in xs
    ensures le(xs[0], x)
  {
    var i :| 0 <= i < |xs| && xs[i] == x;
    assert le(x, x);
  }

  /** Element `i` is as small as any, and no element before it is. */
  ghost predicate FirstLeast<T(!new)>(le: (T, T) -> bool, xs: seq<T>, i: nat)
    requires i < |xs|
  {
    && (forall j :: 0 <= j < |xs| ==> le(xs[i], xs[j]))
    && (forall j :: 0 <= j < i ==> !le(xs[j], xs[i]))
  }

  /** The sort is stable where it shows: the first of the least elements comes first. */
  lemma {:induction false} LeastComesFirst<T(!new)>(le: (T, T) -> bool, xs: seq<T>) returns (i: nat)
    requires TotalPreorder(le) && xs != []
    ensures i < |xs| && FirstLeast(le, xs, i) && SortBy(le, xs) != [] && SortBy(le, xs)[0] == xs[i]
  {
    var rest := SortBy(le, xs[1..]);
    SortSorts(le, xs[1..]);
    SortKeeps(le, xs[1..]);
    i := 0;
    if rest == [] || le(xs[0], rest[0]) {
      forall j | 0 <= j < |xs| ensures le(xs[0], xs[j]) {
        if j > 0 {
          assert xs[j] == xs[1..][j - 1];
          HeadIsLeast(le, rest, xs[j]);
        }
      }
    } else {
      var k := LeastComesFirst(le, xs[1..]);
      i := k + 1;
      forall j | 0 <= j < |xs| ensures le(xs[i], xs[j]) && (j < i ==> !le(xs[j], xs[i])) {
        assert j > 0 ==> xs[j] == xs[1..][j - 1];
      }
    }
  }

  // ---------------------------------------------------------------- selecting

  function Filter<T>(keep: T -> bool, xs: seq<T>): seq<T>
  {
    if xs == [] then []
    else if keep(xs[0]) then [xs[0]] + Filter(keep, xs[1..])
    else Filter(keep, xs[1..])
  }

  lemma {:induction false} FilterConcat<T>(keep: T -> bool, xs: seq<T>, ys: seq<T>)
    ensures Filter(keep, xs + ys) == Filter(keep, xs) + Filter(keep, ys)
  {
    if xs == [] {
      assert xs + ys == ys;
    } else {
      FilterConcat(keep, xs[1..], ys);
      assert (xs + ys)[1..] == xs[1..] + ys;
    }
  }

  lemma {:induction false} FilterKeeps<T>(keep: T -> bool, xs: seq<T>)
    ensures forall x :: x in Filter(keep, xs) <==> x in xs && keep(x)
  {
    if xs != [] {
      FilterKeeps(keep, xs[1..]);
      assert xs == [xs[0]] + xs[1..];
    }
  }

  lemma {:induction false} FilterSorted<T(!new)>(le: (T, T) -> bool, keep: T -> bool, xs: seq<T>)
    requires Sorted(le, xs)
    ensures Sorted(le, Filter(keep, xs))
  {
    if xs != [] {
      SortedTail(le, xs);
      FilterSorted(le, keep, xs[1..]);
      FilterKeeps(keep, xs[1..]);
      var rest := Filter(keep, xs[1..]);
      forall j | 0 <= j < |rest| ensures le(xs[0], rest[j]) {
        assert rest[j] in xs[1..];
        var k :| 0 <= k < |xs[1..]| && xs[1..][k] == rest[j];
        assert xs[k + 1] == rest[j];
      }
    }
  }

  lemma FilterPush<T>(keep: T -> bool, x: T, xs: seq<T>)
    ensures Filter(keep, [x] + xs) == if keep(x) then [x] + Filter(keep, xs) else Filter(keep, xs)
  {
    assert ([x] + xs)[1..] == xs;
  }

  lemma InsertPush<T>(le: (T, T) -> bool, x: T, y: T, ys: seq<T>)
    ensures Insert(le, x, [y] + ys) == if le(x, y) then [x] + ([y] + ys) else [y] + Insert(le, x, ys)
  {
    assert ([y] + ys)[1..] == ys;
  }

  lemma InsertAhead<T>(le: (T, T) -> bool, x: T, xs: seq<T>)
    requires xs != [] ==> le(x, xs[0])
    ensures Insert(le, x, xs) == [x] + xs
  {
  }

  lemma FilterAbove<T(!new)>(le: (T, T) -> bool, keep: T -> bool, x: T, xs: seq<T>)
    requires TotalPreorder(le) && Sorted(le, xs) && xs != [] && le(x, xs[0])
    ensures Filter(keep, xs) != [] ==> le(x, Filter(keep, xs)[0])
  {
    FilterKeeps(keep, xs);
    if Filter(keep, xs) != [] {
      HeadIsLeast(le, xs, Filter(keep, xs)[0]);
    }
  }

  lemma {:induction false} FilterInsert<T(!new)>(le: (T, T) -> bool, keep: T -> bool, x: T, xs: seq<T>)
    requires TotalPreorder(le) && Sorted(le, xs)
    ensures Filter(keep, Insert(le, x, xs)) == if keep(x) then Insert(le, x, Filter(keep, xs)) else Filter(keep, xs)
  {
    if xs == [] || le(x, xs[0]) {
      InsertAhead(le, x, xs);
      FilterPush(keep, x, xs);
      if xs != [] {
        FilterAbove(le, keep, x, xs);
      }
      InsertAhead(le, x, Filter(keep, xs));
    } else {
      SortedTail(le, xs);
      FilterInsert(le, keep, x, xs[1..]);
      FilterPush(keep, xs[0], Insert(le, x, xs[1..]));
      InsertPush(le, x, xs[0], Filter(keep, xs[1..]));
    }
  }

  /** Sorting and selecting commute. */
  lemma {:induction false} FilterSort<T(!new)>(le: (T, T) -> bool, keep: T -> bool, xs: seq<T>)
    requires TotalPreorder(le)
    ensures Filter(keep, SortBy(le, xs)) == SortBy(le, Filter(keep, xs))
  {
    if xs != [] {
      FilterSort(le, keep, xs[1..]);
      SortSorts(le, xs[1..]);
      FilterInsert(le, keep, xs[0], SortBy(le, xs[1..]));
      if keep(xs[0]) {
        SortPush(le, xs[0], Filter(keep, xs[1..]));
      }
    }
  }

  lemma SortPush<T>(le: (T, T) -> bool, x: T, xs: seq<T>)
    ensures SortBy(le, [x] + xs) == Insert(le, x, SortBy(le, xs))
  {
    assert ([x] + xs)[1..] == xs;
  }

  lemma {:induction false} FilterAll<T>(keep: T -> bool, xs: seq<T>)
    requires forall i :: 0 <= i < |xs| ==> keep(xs[i])
    ensures Filter(keep, xs) == xs
  {
    if xs != [] {
      FilterAll(keep, xs[1..]);
      assert xs == [xs[0]] + xs[1..];
    }
  }

  lemma {:induction false} FilterNone<T>(keep: T -> bool, xs: seq<T>)
    requires forall i :: 0 <= i < |xs| ==> !keep(xs[i])
    ensures Filter(keep, xs) == []
  {
    if xs != [] {
      FilterNone(keep, xs[1..]);
    }
  }

  /** One sequence's first element is in the other, when their halves agree. */
  lemma HalvesShare<T>(keep: T -> bool, drop: T -> bool, xs: seq<T>, ys: seq<T>, x: T)
    requires Filter(keep, xs) == Filter(keep, ys) && Filter(drop, xs) == Filter(drop, ys)
    requires x in xs && (keep(x) || drop(x))
    ensures x in ys
  {
    FilterKeeps(keep, xs);
    FilterKeeps(drop, xs);
    FilterKeeps(keep, ys);
    FilterKeeps(drop, ys);
    assert keep(x) ==> x in Filter(keep, ys);
    assert drop(x) ==> x in Filter(drop, ys);
  }

  lemma HalvesHead<T(!new)>(le: (T, T) -> bool, keep: T -> bool, drop: T -> bool, xs: seq<T>, ys: seq<T>)
    requires TotalPreorder(le) && Sorted(le, xs) && Sorted(le, ys) && xs != [] && ys != []
    requires drop(xs[0]) == !keep(xs[0]) && drop(ys[0]) == !keep(ys[0])
    requires le(xs[0], ys[0]) && le(ys[0], xs[0]) ==> keep(xs[0]) == keep(ys[0])
    requires Filter(keep, xs) == Filter(keep, ys) && Filter(drop, xs) == Filter(drop, ys)
    ensures xs[0] == ys[0]
  {
    HalvesShare(keep, drop, xs, ys, xs[0]);
    HalvesShare(keep, drop, ys, xs, ys[0]);
    HeadIsLeast(le, xs, ys[0]);
    HeadIsLeast(le, ys, xs[0]);
    if keep(xs[0]) {
      assert Filter(keep, xs)[0] == xs[0] && Filter(keep, ys)[0] == ys[0];
    } else {
      assert Filter(drop, xs)[0] == xs[0] && Filter(drop, ys)[0] == ys[0];
    }
  }

  lemma FilterTail<T>(keep: T -> bool, xs: seq<T>)
    requires xs != []
    ensures Filter(keep, xs[1..]) == if keep(xs[0]) then Filter(keep, xs)[1..] else Filter(keep, xs)
  {
  }

  ghost predicate Complementary<T(!new)>(le: (T, T) -> bool, keep: T -> bool, drop: T -> bool)
  {
    (forall x :: drop(x) == !keep(x)) && forall x, y :: le(x, y) && le(y, x) ==> keep(x) == keep(y)
  }

  /** A sorted sequence is determined by its two halves under a test that elements which tie pass alike. */
  lemma {:induction false} HalvesDetermine<T(!new)>(le: (T, T) -> bool, keep: T -> bool, drop: T -> bool, xs: seq<T>, ys: seq<T>)
    requires TotalPreorder(le) && Sorted(le, xs) && Sorted(le, ys) && Complementary(le, keep, drop)
    requires Filter(keep, xs) == Filter(keep, ys) && Filter(drop, xs) == Filter(drop, ys)
    ensures xs == ys
  {
    if xs != [] {
      HalvesShare(keep, drop, xs, ys, xs[0]);
    }
    if ys != [] {
      HalvesShare(keep, drop, ys, xs, ys[0]);
    }
    if xs != [] {
      HalvesHead(le, keep, drop, xs, ys);
      FilterTail(keep, xs);
      FilterTail(keep, ys);
      FilterTail(drop, xs);
      FilterTail(drop, ys);
      SortedTail(le, xs);
      SortedTail(le, ys);
      HalvesDetermine(le, keep, drop, xs[1..], ys[1..]);
      assert xs == [xs[0]] + xs[1..] && ys == [ys[0]] + ys[1..];
    }
  }

  // ---------------------------------------------------------------- strings

  /** `a <= b` on JavaScript strings: by code unit, then by length. */
  predicate StrLe(a: Str, b: Str)
  {
    a == [] || (b != [] && (a[0] < b[0] || (a[0] == b[0] && StrLe(a[1..], b[1..]))))
  }

  lemma {:induction false} StrLeTotal(a: Str, b: Str)
    ensures StrLe(a, b) || StrLe(b, a)
    ensures StrLe(a, b) && StrLe(b, a) ==> a == b
  {
    if a != [] && b != [] && a[0] == b[0] {
      StrLeTotal(a[1..], b[1..]);
      assert a == [a[0]] + a[1..] && b == [b[0]] + b[1..];
    }
  }

  lemma {:induction false} StrLeTransitive(a: Str, b: Str, c: Str)
    requires StrLe(a, b) && StrLe(b, c)
    ensures StrLe(a, c)
  {
    if a != [] && a[0] == b[0] && b[0] == c[0] {
      StrLeTransitive(a[1..], b[1..], c[1..]);
    }
  }

  lemma StrLePreorder()
    ensures TotalPreorder(StrLe)
  {
    forall a: Str, b: Str ensures StrLe(a, b) || StrLe(b, a) {
      StrLeTotal(a, b);
    }
    forall a: Str, b: Str, c: Str | StrLe(a, b) && StrLe(b, c) ensures StrLe(a, c) {
      StrLeTransitive(a, b, c);
    }
  }
}
