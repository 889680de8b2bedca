/** Hash Format V2: the eleven-key payload of a ledger entry and its hash. */
module HashFormat {
  import opened Basics
  import opened Canonical
  import opened CanonicalLaws
  import Hex
  import Utf8

  /** Everything an entry hash covers. */
  datatype HashFields = HashFields(
    organizationId: Str,
    ledgerSequence: int,
    executionId: Str,
    entryType: Str,
    requestHash: Option<Str>,
    responseHash: Option<Str>,
    executionGraphHash: Option<Str>,
    previousEntryHash: Option<Str>,
    kernelVersion: Str,
    createdAtCanonical: Str)

  function HashFormatVersion(): Str { Ascii("2") }

  /** JSON null for an unavailable hash, never an empty string. */
  function Nullable(h: Option<Str>): Value
  {
    if h.Some? then Text(h.value) else Null
  }

  function PayloadMembers(f: HashFields): seq<Member>
  {
    [ Member(Ascii("hash_format_version"), Text(HashFormatVersion())),
      Member(Ascii("organization_id"), Text(f.organizationId)),
      Member(Ascii("ledger_sequence"), Int(f.ledgerSequence)),
      Member(Ascii("execution_id"), Text(f.executionId)),
      Member(Ascii("entry_type"), Text(f.entryType)),
      Member(Ascii("request_hash"), Nullable(f.requestHash)),
      Member(Ascii("response_hash"), Nullable(f.responseHash)),
      Member(Ascii("execution_graph_hash"), Nullable(f.executionGraphHash)),
      Member(Ascii("previous_entry_hash"), Nullable(f.previousEntryHash)),
      Member(Ascii("kernel_version"), Text(f.kernelVersion)),
      Member(Ascii("created_at"), Text(f.createdAtCanonical)) ]
  }

  /** `buildHashPayload`: every key is always present. */
  function HashPayload(f: HashFields): Value
  {
    Obj(PayloadMembers(f))
  }

  /** `sha256Hex` of text: the digest of its UTF-8 bytes. */
  function Sha256Hex(sha: Sha, text: Str): (r: Str)
    ensures |r| == 64
  {
    Hex.Hash(sha, Utf8.Encode(text))
  }

  /** The bytes hashed for a JSON value in the domain; empty for a value the printer rejects. */
  function HashedBytes(v: Value): Bytes
  {
    if Canonicalize(v).Ok? then Utf8.Encode(Canonicalize(v).value) else []
  }

  /** `None` when the printer throws. */
  function HashValue(sha: Sha, v: Value): Option<Str>
  {
    if Canonicalize(v).Ok? then Some(Sha256Hex(sha, Canonicalize(v).value)) else None
  }

  /** `computeEntryHash(buildHashPayload(...))`; throws only for a sequence that is not a safe integer. */
  function EntryHash(sha: Sha, f: HashFields): Option<Str>
  {
    HashValue(sha, HashPayload(f))
  }

  lemma PayloadKeys(f: HashFields)
    ensures DistinctKeys(PayloadMembers(f))
  {
    var m := PayloadMembers(f);
    assert |m[0].key| == 19 && m[0].key[0] == 104;
    assert |m[1].key| == 15 && m[1].key[0] == 111;
    assert |m[2].key| == 15 && m[2].key[0] == 108;
    assert |m[3].key| == 12 && m[3].key[0] == 101;
    assert |m[4].key| == 10 && m[4].key[0] == 101;
    assert |m[5].key| == 12 && m[5].key[0] == 114;
    assert |m[6].key| == 13 && |m[7].key| == 20;
    assert |m[8].key| == 19 && m[8].key[0] == 112;
    assert |m[9].key| == 14;
    assert |m[10].key| == 10 && m[10].key[0] == 99;
  }

  lemma KeyLengthsDrop(m: seq<Member>, k: nat)
    requires k < |m|
    ensures KeyLengths(m[k..]) == |m[k].key| + KeyLengths(m[k + 1..])
  {
    assert m[k..][1..] == m[k + 1..];
  }

  lemma PayloadKeyLengths(f: HashFields)
    ensures KeyLengths(PayloadMembers(f)) > 64
  {
    var m := PayloadMembers(f);
    assert m == m[0..];
    KeyLengthsDrop(m, 0);
    KeyLengthsDrop(m, 1);
    KeyLengthsDrop(m, 2);
    KeyLengthsDrop(m, 3);
    KeyLengthsDrop(m, 4);
  }

  lemma PayloadValue(f: HashFields, i: nat)
    requires i < 11
    ensures if i == 2 then PayloadMembers(f)[i].value == Int(f.ledgerSequence)
            else PayloadMembers(f)[i].value.Text? || PayloadMembers(f)[i].value.Null?
  {
  }

  lemma PayloadDomain(f: HashFields)
    ensures InDomain(HashPayload(f)) <==> SafeInteger(f.ledgerSequence)
    ensures Canonicalize(HashPayload(f)).Ok? <==> SafeInteger(f.ledgerSequence)
  {
    ObjectDomain(PayloadMembers(f));
    MembersDomain(PayloadMembers(f), f);
  }

  lemma ObjectDomain(m: seq<Member>)
    ensures InDomain(Obj(m)) <==> forall x :: x in m ==> InDomain(x.value)
    ensures Canonicalize(Obj(m)).Ok? <==> forall x :: x in m ==> InDomain(x.value)
  {
    PrintsExactlyDomain(Obj(m));
  }

  lemma MembersDomain(m: seq<Member>, f: HashFields)
    requires m == PayloadMembers(f)
    ensures (forall x :: x in m ==> InDomain(x.value)) <==> SafeInteger(f.ledgerSequence)
  {
    PayloadValue(f, 2);
    assert m[2] in m;
    forall x | x in m ensures SafeInteger(f.ledgerSequence) ==> InDomain(x.value) {
      var i :| 0 <= i < |m| && m[i] == x;
      PayloadValue(f, i);
    }
  }

  /** Every entry payload is longer than the 64 bytes an inner Merkle node hashes. */
  lemma PayloadLong(f: HashFields)
    requires SafeInteger(f.ledgerSequence)
    ensures |HashedBytes(HashPayload(f))| > 64
  {
    PayloadDomain(f);
    PayloadKeyLengths(f);
    ObjectTextLength(PayloadMembers(f));
  }

  lemma SameNullable(a: Option<Str>, b: Option<Str>)
    requires Normal(Nullable(a)) == Normal(Nullable(b))
    ensures a == b
  {
  }

  lemma SamePayloadMember(f: HashFields, g: HashFields, i: nat)
    requires i < 11 && Normal(HashPayload(f)) == Normal(HashPayload(g))
    ensures Normal(PayloadMembers(f)[i].value) == Normal(PayloadMembers(g)[i].value)
  {
    PayloadKeys(g);
    SameKeyAt(f, g, i);
    SameMemberAt(PayloadMembers(f), PayloadMembers(g), i);
  }

  lemma SameKeyAt(f: HashFields, g: HashFields, i: nat)
    requires i < 11
    ensures PayloadMembers(f)[i].key == PayloadMembers(g)[i].key
  {
  }

  lemma SameTexts(f: HashFields, g: HashFields)
    requires Normal(HashPayload(f)) == Normal(HashPayload(g))
    ensures f.organizationId == g.organizationId && f.ledgerSequence == g.ledgerSequence
    ensures f.executionId == g.executionId && f.entryType == g.entryType
    ensures f.kernelVersion == g.kernelVersion && f.createdAtCanonical == g.createdAtCanonical
  {
    SamePayloadMember(f, g, 1);
    SamePayloadMember(f, g, 2);
    SamePayloadMember(f, g, 3);
    SamePayloadMember(f, g, 4);
    SamePayloadMember(f, g, 9);
    SamePayloadMember(f, g, 10);
  }

  lemma SameHashes(f: HashFields, g: HashFields)
    requires Normal(HashPayload(f)) == Normal(HashPayload(g))
    ensures f.requestHash == g.requestHash && f.responseHash == g.responseHash
    ensures f.executionGraphHash == g.executionGraphHash && f.previousEntryHash == g.previousEntryHash
  {
    SamePayloadMember(f, g, 5);
    SamePayloadMember(f, g, 6);
    SamePayloadMember(f, g, 7);
    SamePayloadMember(f, g, 8);
    SameNullable(f.requestHash, g.requestHash);
    SameNullable(f.responseHash, g.responseHash);
    SameNullable(f.executionGraphHash, g.executionGraphHash);
    SameNullable(f.previousEntryHash, g.previousEntryHash);
  }

  /** The hashed bytes determine every hashed field. */
  lemma PayloadBinds(f: HashFields, g: HashFields)
    requires SafeInteger(f.ledgerSequence) && SafeInteger(g.ledgerSequence)
    requires HashedBytes(HashPayload(f)) == HashedBytes(HashPayload(g))
    ensures f == g
  {
    PayloadDomain(f);
    PayloadDomain(g);
    SameBytesSameValue(HashPayload(f), HashPayload(g));
    SameTexts(f, g);
    SameHashes(f, g);
  }

  /** One entry hash, one set of fields, unless the two payloads collide. */
  lemma EntryHashBinds(sha: Sha, inputs: set<Bytes>, f: HashFields, g: HashFields)
    requires EntryHash(sha, f).Some? && EntryHash(sha, f) == EntryHash(sha, g)
    requires CollisionFreeOn(sha, inputs)
    requires HashedBytes(HashPayload(f)) in inputs && HashedBytes(HashPayload(g)) in inputs
    ensures f == g
  {
    PayloadDomain(f);
    PayloadDomain(g);
    Hex.ToHexInjective(sha(HashedBytes(HashPayload(f))), sha(HashedBytes(HashPayload(g))));
    PayloadBinds(f, g);
  }
}
