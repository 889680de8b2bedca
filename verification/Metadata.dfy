/** Event metadata as the graph shows it: `sortMetadata` copies the members into a fresh plain
    object, and an assignment to the key `__proto__` of such an object sets its prototype instead of
    creating a member. Only this one key is lost, and only at the top level. */
module Metadata {
  import opened Basics
  import opened Sorting
  import opened Canonical
  import opened CanonicalLaws

  function Proto(): Str { Ascii("__proto__") }

  function Shows(): Member -> bool { (m: Member) => m.key != Proto() }

  function Drops(): Member -> bool { (m: Member) => m.key == Proto() }

  /** What the copy keeps. */
  function Visible(members: seq<Member>): seq<Member> { Filter(Shows(), members) }

  /** What the copy drops. */
  function Hidden(members: seq<Member>): seq<Member> { Filter(Drops(), members) }

  function SortedMetadata(members: seq<Member>): seq<Member> { Visible(Sort(members)) }

  lemma SortedAndShown(metadata: seq<Member>)
    ensures Sorted(KeyLe, SortedMetadata(metadata))
    ensures forall m :: m in SortedMetadata(metadata) <==> m in metadata && m.key != Proto()
  {
    KeyLePreorder();
    SortSorts(KeyLe, metadata);
    FilterSorted(KeyLe, Shows(), Sort(metadata));
    FilterKeeps(Shows(), Sort(metadata));
    SortKeeps(KeyLe, metadata);
  }

  /** `sortMetadata`: the keys in order, each assigned to the new object. */
  method SortMetadata(metadata: seq<Member>) returns (out: seq<Member>)
    ensures out == SortedMetadata(metadata) && Sorted(KeyLe, out)
    ensures forall m :: m in out <==> m in metadata && m.key != Proto()
  {
    SortedAndShown(metadata);
    var keys := Sort(metadata);
    out := [];
    for i := 0 to |keys|
      invariant out == Visible(keys[..i])
    {
      FilterConcat(Shows(), keys[..i], [keys[i]]);
      assert keys[..i + 1] == keys[..i] + [keys[i]];
      if keys[i].key != Proto() {
        out := out + [keys[i]];
      }
    }
    assert keys[..|keys|] == keys;
  }

  lemma FilterTwice(keep: Member -> bool, members: seq<Member>)
    ensures Filter(keep, Filter(keep, members)) == Filter(keep, members)
  {
    FilterKeeps(keep, members);
    FilterAll(keep, Filter(keep, members));
  }

  /** The graph's metadata is that of the visible members alone. */
  lemma SortedMetadataOfVisible(members: seq<Member>)
    ensures SortedMetadata(Visible(members)) == SortedMetadata(members) == Sort(Visible(members))
  {
    KeyLePreorder();
    FilterSort(KeyLe, Shows(), members);
    FilterSort(KeyLe, Shows(), Visible(members));
    FilterTwice(Shows(), members);
  }

  // ---------------------------------------------------------------- normal forms

  lemma NormalOfSorted(members: seq<Member>)
    ensures Normal(Obj(Sort(members))) == Normal(Obj(members))
  {
    KeyLePreorder();
    SortSorts(KeyLe, members);
    SortSorted(KeyLe, Sort(members));
    SortBelow(Obj(members));
    SortBelow(Obj(Sort(members)));
    MembersParent(Obj(members), Obj(Sort(members)), Sort(members));
  }

  /** Equal in the graph exactly when equal outside the dropped key. */
  lemma GraphSeesVisible(a: seq<Member>, b: seq<Member>)
    ensures Normal(Obj(SortedMetadata(a))) == Normal(Obj(SortedMetadata(b)))
       <==> Normal(Obj(Visible(a))) == Normal(Obj(Visible(b)))
  {
    SortedMetadataOfVisible(a);
    SortedMetadataOfVisible(b);
    NormalOfSorted(Visible(a));
    NormalOfSorted(Visible(b));
  }

  /** A test that looks at keys only. */
  ghost predicate ByKey(keep: Member -> bool)
  {
    forall m: Member, n: Member :: m.key == n.key ==> keep(m) == keep(n)
  }

  lemma {:induction false} FilterNormal(parent: Value, part: Value, members: seq<Member>, keep: Member -> bool)
    requires forall i :: 0 <= i < |members| ==> members[i].value < parent
    requires forall i :: 0 <= i < |Filter(keep, members)| ==> Filter(keep, members)[i].value < part
    requires ByKey(keep)
    ensures Filter(keep, NormalMembers(parent, members)) == NormalMembers(part, Filter(keep, members))
  {
    if members != [] {
      var first, rest := Member(members[0].key, Normal(members[0].value)), NormalMembers(parent, members[1..]);
      var kept := Filter(keep, members[1..]);
      assert keep(first) == keep(members[0]);
      FilterPush(keep, first, rest);
      if keep(members[0]) {
        assert Filter(keep, members)[1..] == kept;
        forall i | 0 <= i < |kept| ensures kept[i].value < part {
          assert kept[i] == Filter(keep, members)[i + 1];
        }
      } else {
        assert Filter(keep, members) == kept;
      }
      FilterNormal(parent, part, members[1..], keep);
    }
  }

  lemma NormalFilter(members: seq<Member>, keep: Member -> bool)
    requires ByKey(keep)
    ensures Normal(Obj(Filter(keep, members))) == Obj(Filter(keep, Normal(Obj(members)).members))
  {
    var part := Filter(keep, members);
    SortBelow(Obj(members));
    SortBelow(Obj(part));
    KeyLePreorder();
    FilterSort(KeyLe, keep, members);
    assert Filter(keep, Sort(members)) == Sort(part) == Sort(Obj(part).members);
    FilterNormal(Obj(members), Obj(part), Sort(members), keep);
  }

  lemma NormalMembersSorted(members: seq<Member>)
    ensures Sorted(KeyLe, Normal(Obj(members)).members)
  {
    NormalIsSorted(Obj(members));
    KeyLePreorder();
    SortSorts(KeyLe, Normal(Obj(members)).members);
  }

  lemma KeysDecide()
    ensures ByKey(Shows()) && ByKey(Drops()) && Complementary(KeyLe, Shows(), Drops())
  {
    forall m: Member, n: Member | KeyLe(m, n) && KeyLe(n, m) ensures m.key == n.key {
      StrLeTotal(m.key, n.key);
    }
  }

  /** Equal up to member order exactly when both parts are. */
  lemma SameByParts(a: seq<Member>, b: seq<Member>)
    ensures Normal(Obj(a)) == Normal(Obj(b))
       <==> Normal(Obj(Visible(a))) == Normal(Obj(Visible(b))) && Normal(Obj(Hidden(a))) == Normal(Obj(Hidden(b)))
  {
    KeysDecide();
    NormalFilter(a, Shows());
    NormalFilter(a, Drops());
    NormalFilter(b, Shows());
    NormalFilter(b, Drops());
    KeyLePreorder();
    NormalMembersSorted(a);
    NormalMembersSorted(b);
    var x, y := Normal(Obj(a)).members, Normal(Obj(b)).members;
    if Filter(Shows(), x) == Filter(Shows(), y) && Filter(Drops(), x) == Filter(Drops(), y) {
      HalvesDetermine(KeyLe, Shows(), Drops(), x, y);
    }
  }

  // ---------------------------------------------------------------- metadata without the key

  /** No top-level member has the key that is dropped. */
  predicate NoProto(members: seq<Member>)
  {
    forall i :: 0 <= i < |members| ==> members[i].key != Proto()
  }

  lemma NothingHidden(members: seq<Member>)
    ensures NoProto(members) ==> Visible(members) == members && Hidden(members) == []
    ensures NoProto(Visible(members)) && Visible(Visible(members)) == Visible(members) && Hidden(Visible(members)) == []
    ensures !NoProto(members) ==> Hidden(members) != []
  {
    FilterKeeps(Shows(), members);
    FilterKeeps(Drops(), members);
    FilterNone(Drops(), Visible(members));
    FilterAll(Shows(), Visible(members));
    if NoProto(members) {
      FilterAll(Shows(), members);
      FilterNone(Drops(), members);
    } else {
      var i :| 0 <= i < |members| && members[i].key == Proto();
      assert members[i] in Hidden(members);
    }
  }

  /** Dropping something makes a difference, if not to the graph. */
  lemma VisibleSame(members: seq<Member>)
    ensures Normal(Obj(Visible(members))) == Normal(Obj(members)) <==> NoProto(members)
  {
    NothingHidden(members);
    SameByParts(Visible(members), members);
    NormalLength(Hidden(members));
    NormalLength([]);
  }

  lemma NormalLength(members: seq<Member>)
    ensures |Normal(Obj(members)).members| == |members|
  {
    SortBelow(Obj(members));
    SortKeeps(KeyLe, members);
  }
}
