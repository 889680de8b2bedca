/** The idempotency key of a connector action: a hash of sorted JSON, written separately from the
    canonical printer and equal to it. */
module Idempotency {
  import opened Basics
  import opened Sorting
  import opened Canonical
  import opened CanonicalLaws
  import opened HashFormat
  import Utf8
  import Hex

  // ---------------------------------------------------------------- stable JSON

  /** `stableStringify` on values the canonical printer accepts. */
  function StableStringify(v: Value): Str
    requires InDomain(v)
    decreases v, 1
  {
    match v
    case Null => Ascii("null")
    case Bool(b) => if b then Ascii("true") else Ascii("false")
    case Int(n) => Number(n)
    case Text(s) => Quote(s)
    case Arr(items) => [LBRACKET] + (JoinItems(v, items) + [RBRACKET])
    case Obj(members) =>
      SortBelow(v);
      SortKeeps(KeyLe, members);
      [LBRACE] + (JoinMembers(v, Sort(members)) + [RBRACE])
  }

  function JoinItems(ghost parent: Value, items: seq<Value>): Str
    requires forall i :: 0 <= i < |items| ==> items[i] < parent && InDomain(items[i])
    decreases parent, 0, |items|
  {
    if items == [] then []
    else if |items| == 1 then StableStringify(items[0])
    else StableStringify(items[0]) + ([COMMA] + JoinItems(parent, items[1..]))
  }

  function JoinMembers(ghost parent: Value, members: seq<Member>): Str
    requires forall i :: 0 <= i < |members| ==> members[i].value < parent && InDomain(members[i].value)
    decreases parent, 0, |members|
  {
    if members == [] then []
    else
      var first := Quote(members[0].key) + ([COLON] + StableStringify(members[0].value));
      if |members| == 1 then first else first + ([COMMA] + JoinMembers(parent, members[1..]))
  }

  /** The two JSON printers agree wherever the canonical one prints. */
  lemma {:induction false} StableIsCanonical(v: Value)
    requires InDomain(v)
    ensures Canonicalize(v) == Ok(StableStringify(v))
    decreases v, 1
  {
    match v
    case Arr(items) => ItemsAgree(v, items);
    case Obj(members) =>
      SortBelow(v);
      SortKeeps(KeyLe, members);
      MembersAgree(v, Sort(members));
    case _ =>
  }

  lemma {:induction false} ItemsAgree(parent: Value, items: seq<Value>)
    requires forall i :: 0 <= i < |items| ==> items[i] < parent && InDomain(items[i])
    ensures PrintItems(parent, items) == Ok(JoinItems(parent, items))
    decreases parent, 0, |items|
  {
    if items != [] {
      StableIsCanonical(items[0]);
      ItemsAgree(parent, items[1..]);
    }
  }

  lemma {:induction false} MembersAgree(parent: Value, members: seq<Member>)
    requires forall i :: 0 <= i < |members| ==> members[i].value < parent && InDomain(members[i].value)
    ensures PrintMembers(parent, members) == Ok(JoinMembers(parent, members))
    decreases parent, 0, |members|
  {
    if members != [] {
      StableIsCanonical(members[0].value);
      MembersAgree(parent, members[1..]);
    }
  }

  // ---------------------------------------------------------------- the key

  /** What makes two requests the same action. */
  datatype ActionId = ActionId(
    organizationId: Str,
    executionId: Str,
    connectorId: Str,
    action: Str,
    artifactHash: Str,
    scheduledFor: Option<Str>)

  function ActionMembers(a: ActionId): seq<Member>
  {
    [ Member(Ascii("organization_id"), Text(a.organizationId)),
      Member(Ascii("execution_id"), Text(a.executionId)),
      Member(Ascii("connector_id"), Text(a.connectorId)),
      Member(Ascii("action"), Text(a.action)),
      Member(Ascii("artifact_hash"), Text(a.artifactHash)),
      Member(Ascii("scheduled_for"), Nullable(a.scheduledFor)) ]
  }

  lemma ActionInDomain(a: ActionId)
    ensures InDomain(Obj(ActionMembers(a)))
  {
    var m := ActionMembers(a);
    forall x | x in m ensures InDomain(x.value) {
      var i :| 0 <= i < |m| && m[i] == x;
      assert m[i].value.Text? || m[i].value.Null?;
    }
  }

  function KeyText(a: ActionId): Str
  {
    ActionInDomain(a);
    StableStringify(Obj(ActionMembers(a)))
  }

  function IdempotencyKey(sha: Sha, a: ActionId): Str
  {
    Sha256Hex(sha, KeyText(a))
  }

  lemma ActionKeys(a: ActionId)
    ensures DistinctKeys(ActionMembers(a))
  {
    var m := ActionMembers(a);
    assert |m[0].key| == 15 && |m[1].key| == 12 && m[1].key[0] == 101;
    assert |m[2].key| == 12 && m[2].key[0] == 99 && |m[3].key| == 6;
    assert |m[4].key| == 13 && m[4].key[0] == 97 && |m[5].key| == 13 && m[5].key[0] == 115;
  }

  lemma SameActionMember(a: ActionId, b: ActionId, i: nat)
    requires i < 6 && Normal(Obj(ActionMembers(a))) == Normal(Obj(ActionMembers(b)))
    ensures Normal(ActionMembers(a)[i].value) == Normal(ActionMembers(b)[i].value)
  {
    ActionKeys(b);
    SameMemberAt(ActionMembers(a), ActionMembers(b), i);
  }

  /** One idempotency key, one action, unless the two key texts collide. */
  lemma KeyBinds(sha: Sha, a: ActionId, b: ActionId)
    requires IdempotencyKey(sha, a) == IdempotencyKey(sha, b)
    requires CollisionFreeOn(sha, {Utf8.Encode(KeyText(a)), Utf8.Encode(KeyText(b))})
    ensures a == b
  {
    var x, y := Obj(ActionMembers(a)), Obj(ActionMembers(b));
    ActionInDomain(a);
    ActionInDomain(b);
    StableIsCanonical(x);
    StableIsCanonical(y);
    Hex.ToHexInjective(sha(Utf8.Encode(KeyText(a))), sha(Utf8.Encode(KeyText(b))));
    SameBytesSameValue(x, y);
    SameActionMember(a, b, 0);
    SameActionMember(a, b, 1);
    SameActionMember(a, b, 2);
    SameActionMember(a, b, 3);
    SameActionMember(a, b, 4);
    SameActionMember(a, b, 5);
    SameNullable(a.scheduledFor, b.scheduledFor);
  }
}
