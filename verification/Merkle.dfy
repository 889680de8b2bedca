/** The Merkle tree of ledger checkpoints: construction, directed proofs, and what a root binds. */
module Merkle {
  import opened Basics
  import opened TreeShape
  import Hex

  datatype Tree = Tree(root: Str, layers: seq<seq<Str>>)

  predicate IsHex(s: Str) { Hex.FromHex(s).Some? }

  predicate AllHex(xs: seq<Str>) { forall i :: 0 <= i < |xs| ==> IsHex(xs[i]) }

  predicate AllSha256(xs: seq<Str>) { forall i :: 0 <= i < |xs| ==> Hex.IsSha256Hex(xs[i]) }

  /** The two decoded nodes one after the other: what a parent hashes. */
  function PairBytes(left: Str, right: Str): Bytes
  {
    if IsHex(left) && IsHex(right) then Hex.FromHex(left).value + Hex.FromHex(right).value else []
  }

  /** A parent node; meaningless, and never used, when a side does not decode. */
  function Pair(sha: Sha, left: Str, right: Str): (r: Str)
  {
    Hex.Hash(sha, PairBytes(left, right))
  }

  function Joined(sha: Sha): (Str, Str) -> Str
  {
    (left, right) => Pair(sha, left, right)
  }

  /** `None` when decoding either side throws. */
  function HashPair(sha: Sha, left: Str, right: Str): Option<Str>
  {
    if IsHex(left) && IsHex(right) then Some(Pair(sha, left, right)) else None
  }

  lemma Sha256IsHex(s: Str)
    requires Hex.IsSha256Hex(s)
    ensures IsHex(s) && |Hex.FromHex(s).value| == 32
  {
    Hex.ToFromHex(s);
  }

  lemma PairIsSha256(sha: Sha, left: Str, right: Str)
    ensures Hex.IsSha256Hex(Pair(sha, left, right)) && IsHex(Pair(sha, left, right))
  {
    Hex.HashIsSha256Hex(sha, PairBytes(left, right));
    Sha256IsHex(Pair(sha, left, right));
  }

  /** A parent is the hash over the bytes of its left child, then those of its right child. */
  lemma ParentIs(sha: Sha, left: Bytes, right: Bytes)
    ensures HashPair(sha, Hex.ToHex(left), Hex.ToHex(right)) == Some(Hex.ToHex(sha(left + right)))
    ensures Joined(sha)(Hex.ToHex(left), Hex.ToHex(right)) == Hex.ToHex(sha(left + right))
  {
    Hex.FromToHex(left);
    Hex.FromToHex(right);
  }

  lemma AllSha256IsHex(xs: seq<Str>)
    requires AllSha256(xs)
    ensures AllHex(xs)
  {
    forall i | 0 <= i < |xs| ensures IsHex(xs[i]) {
      Sha256IsHex(xs[i]);
    }
  }

  lemma LevelSha256(sha: Sha, xs: seq<Str>)
    ensures AllSha256(NextLevel(Joined(sha), xs)) && AllHex(NextLevel(Joined(sha), xs))
  {
    var next := NextLevel(Joined(sha), xs);
    forall k | 0 <= k < |next| ensures Hex.IsSha256Hex(next[k]) {
      NextLevelAt(Joined(sha), xs, k);
      PairIsSha256(sha, PairAt(xs, k).0, PairAt(xs, k).1);
    }
    AllSha256IsHex(next);
  }

  // ---------------------------------------------------------------- construction

  /** `None` is the exception `hexToBytes` throws; a single leaf is never decoded. */
  method BuildMerkleTree(sha: Sha, leafHashes: seq<Str>) returns (tree: Option<Tree>)
    ensures tree.Some? <==> |leafHashes| <= 1 || AllHex(leafHashes)
    ensures leafHashes == [] ==> tree == Some(Tree(Hex.Hash(sha, []), [[Hex.Hash(sha, [])]]))
    ensures leafHashes != [] && tree.Some? ==>
      tree.value == Tree(Root(Joined(sha), leafHashes), Layers(Joined(sha), leafHashes))
  {
    if |leafHashes| == 0 {
      var emptyHash := Hex.Hash(sha, []);
      return Some(Tree(emptyHash, [[emptyHash]]));
    }
    var layers := [leafHashes];
    var current := leafHashes;
    while |current| > 1
      invariant current != []
      invariant current == leafHashes || (|leafHashes| > 1 && AllHex(leafHashes) && AllHex(current))
      invariant Root(Joined(sha), leafHashes) == Root(Joined(sha), current)
      invariant layers + Layers(Joined(sha), current)[1..] == Layers(Joined(sha), leafHashes)
      decreases |current|
    {
      var next := JoinLevel(Joined(sha), IsHex, current);
      if next.None? {
        return None;
      }
      LevelSha256(sha, current);
      LayersPush(Joined(sha), layers, current);
      layers := layers + [next.value];
      current := next.value;
    }
    return Some(Tree(current[0], layers));
  }

  /** `computeMerkleRoot`, with `None` for the exception. */
  function MerkleRoot(sha: Sha, leafHashes: seq<Str>): Option<Str>
  {
    if leafHashes == [] then Some(Hex.Hash(sha, []))
    else if |leafHashes| == 1 || AllHex(leafHashes) then Some(Root(Joined(sha), leafHashes))
    else None
  }

  method ComputeMerkleRoot(sha: Sha, leafHashes: seq<Str>) returns (root: Option<Str>)
    ensures root == MerkleRoot(sha, leafHashes)
  {
    var tree := BuildMerkleTree(sha, leafHashes);
    root := if tree.None? then None else Some(tree.value.root);
  }

  // ---------------------------------------------------------------- proofs

  /** `None` for an index out of range or a leaf that is not hex, both exceptions. */
  method GetMerkleProof(sha: Sha, leafHashes: seq<Str>, leafIndex: int) returns (r: Option<(seq<ProofStep<Str>>, Str)>)
    ensures r.Some? <==> 0 <= leafIndex < |leafHashes| && (|leafHashes| == 1 || AllHex(leafHashes))
    ensures r.Some? ==> r.value == (ProofOf(Joined(sha), leafHashes, leafIndex), Root(Joined(sha), leafHashes))
  {
    if leafIndex < 0 || leafIndex >= |leafHashes| {
      return None;
    }
    var tree := BuildMerkleTree(sha, leafHashes);
    if tree.None? {
      return None;
    }
    var proof := ProofFromLayers(Joined(sha), leafHashes, tree.value.layers, leafIndex);
    return Some((proof, tree.value.root));
  }

  /** Outcome of hashing a leaf up along a proof. */
  datatype Climbed = At(hash: Str) | BadPosition | Throws

  function ClimbStep(sha: Sha, current: Str, step: ProofStep<Str>): Climbed
  {
    if step.position.Other? then BadPosition
    else
      var parent := if step.position.Left? then HashPair(sha, step.siblingHash, current)
                    else HashPair(sha, current, step.siblingHash);
      if parent.Some? then At(parent.value) else Throws
  }

  function Climb(sha: Sha, current: Str, proof: seq<ProofStep<Str>>): Climbed
    decreases |proof|
  {
    if proof == [] then At(current)
    else
      var next := ClimbStep(sha, current, proof[0]);
      if next.At? then Climb(sha, next.hash, proof[1..]) else next
  }

  /** `None` when a sibling or the leaf does not decode. */
  function ProofVerdict(sha: Sha, leafHash: Str, proof: seq<ProofStep<Str>>, expectedRoot: Str): Option<bool>
  {
    match Climb(sha, leafHash, proof)
    case At(h) => Some(h == expectedRoot)
    case BadPosition => Some(false)
    case Throws => None
  }

  method VerifyMerkleProof(sha: Sha, leafHash: Str, proof: seq<ProofStep<Str>>, expectedRoot: Str)
    returns (ok: Option<bool>)
    ensures ok == ProofVerdict(sha, leafHash, proof, expectedRoot)
  {
    var current := leafHash;
    for k := 0 to |proof|
      invariant Climb(sha, leafHash, proof) == Climb(sha, current, proof[k..])
    {
      var step := proof[k];
      assert proof[k..][1..] == proof[k + 1..];
      if step.position.Left? {
        var parent := HashPair(sha, step.siblingHash, current);
        if parent.None? {
          return None;
        }
        current := parent.value;
      } else if step.position.Right? {
        var parent := HashPair(sha, current, step.siblingHash);
        if parent.None? {
          return None;
        }
        current := parent.value;
      } else {
        return Some(false);
      }
    }
    return Some(current == expectedRoot);
  }

  lemma {:induction false} PathIsHex(sha: Sha, xs: seq<Str>, i: nat)
    requires i < |xs| && AllHex(xs)
    ensures AllHex(Path(Joined(sha), xs, i))
    decreases |xs|
  {
    if |xs| > 1 {
      LevelSha256(sha, xs);
      PathIsHex(sha, NextLevel(Joined(sha), xs), i / 2);
    }
  }

  lemma {:induction false} ClimbFollowsPath(sha: Sha, x: Str, i: nat, path: seq<Str>)
    requires IsHex(x) && AllHex(path)
    ensures Climb(sha, x, Steps(path, i)) == At(ClimbPath(Joined(sha), x, i, path))
    decreases |path|
  {
    if path != [] {
      var parent := if i % 2 == 1 then Pair(sha, path[0], x) else Pair(sha, x, path[0]);
      PairIsSha256(sha, if i % 2 == 1 then path[0] else x, if i % 2 == 1 then x else path[0]);
      ClimbFollowsPath(sha, parent, i / 2, path[1..]);
      assert Steps(path, i)[1..] == Steps(path[1..], i / 2);
    }
  }

  /** Every generated proof verifies, for every list of hex leaves and every index. */
  lemma ProofComplete(sha: Sha, xs: seq<Str>, i: nat)
    requires i < |xs| && AllHex(xs)
    ensures ProofVerdict(sha, xs[i], ProofOf(Joined(sha), xs, i), Root(Joined(sha), xs)) == Some(true)
  {
    PathIsHex(sha, xs, i);
    ClimbFollowsPath(sha, xs[i], i, Path(Joined(sha), xs, i));
    PathReachesRoot(Joined(sha), xs, i);
  }

  // ---------------------------------------------------------------- what gets hashed

  /** The byte strings hashed to join `pairs`. */
  ghost function PairInputs(pairs: set<(Str, Str)>): set<Bytes>
  {
    set p | p in pairs :: PairBytes(p.0, p.1)
  }

  /** The byte strings hashed to build the tree. */
  ghost function TreeInputs(sha: Sha, xs: seq<Str>): set<Bytes>
  {
    PairInputs(TreePairs(Joined(sha), xs))
  }

  lemma HashDetermines(sha: Sha, inputs: set<Bytes>, x: Bytes, y: Bytes)
    requires CollisionFreeOn(sha, inputs) && x in inputs && y in inputs
    requires Hex.Hash(sha, x) == Hex.Hash(sha, y)
    ensures x == y
  {
    Hex.ToHexInjective(sha(x), sha(y));
  }

  lemma SplitPair(a: Str, b: Str, c: Str, d: Str)
    requires IsHex(a) && IsHex(b) && IsHex(c) && IsHex(d)
    requires |a| == |c| && PairBytes(a, b) == PairBytes(c, d)
    ensures Hex.FromHex(a) == Hex.FromHex(c) && Hex.FromHex(b) == Hex.FromHex(d)
  {
    var x, y := Hex.FromHex(a).value, Hex.FromHex(b).value;
    var z, w := Hex.FromHex(c).value, Hex.FromHex(d).value;
    assert |x| == |z|;
    assert x == (x + y)[..|x|] && z == (z + w)[..|z|];
    assert y == (x + y)[|x|..] && w == (z + w)[|z|..];
  }

  lemma SameDecoding(a: Str, b: Str)
    requires Hex.IsSha256Hex(a) && Hex.IsSha256Hex(b)
    requires Hex.FromHex(a) == Hex.FromHex(b)
    ensures a == b
  {
    Hex.ToFromHex(a);
    Hex.ToFromHex(b);
  }

  // ---------------------------------------------------------------- index soundness

  /** A string that verifies along a path of full length, with the directions of index `i`, decodes
      to leaf `i` exactly when it is 64 characters long, unless a pair hashed for the proof collides
      with a pair hashed for the tree. */
  lemma ProofBinds(sha: Sha, xs: seq<Str>, i: nat, leaf: Str, path: seq<Str>)
    requires i < |xs| && AllSha256(xs) && |path| == Height(|xs|)
    requires ProofVerdict(sha, leaf, Steps(path, i), Root(Joined(sha), xs)) == Some(true)
    requires CollisionFreeOn(sha, TreeInputs(sha, xs) + PairInputs(ClimbPairs(Joined(sha), leaf, i, path)))
    ensures SameBytes(leaf, xs[i]) <==> |leaf| == 64
  {
    if |leaf| == 64 {
      DigestProofBinds(sha, xs, i, leaf, path);
    } else {
      OtherLength(leaf, xs[i]);
    }
  }

  lemma OtherLength(a: Str, x: Str)
    requires Hex.IsSha256Hex(x) && |a| != 64
    ensures !SameBytes(a, x)
  {
    Sha256IsHex(x);
  }

  lemma DigestProofBinds(sha: Sha, xs: seq<Str>, i: nat, leaf: Str, path: seq<Str>)
    requires i < |xs| && AllSha256(xs) && |leaf| == 64 && |path| == Height(|xs|)
    requires ProofVerdict(sha, leaf, Steps(path, i), Root(Joined(sha), xs)) == Some(true)
    requires CollisionFreeOn(sha, TreeInputs(sha, xs) + PairInputs(ClimbPairs(Joined(sha), leaf, i, path)))
    ensures SameBytes(leaf, xs[i])
  {
    VerdictReachesRoot(sha, leaf, Steps(path, i), Root(Joined(sha), xs));
    ProofPairsBind(sha, xs, i, leaf, path);
    PathBindsDecoding(sha, xs, i, leaf, path);
  }

  lemma {:induction false} LevelIsSha256(sha: Sha, xs: seq<Str>, k: nat)
    requires xs != [] && AllSha256(xs)
    ensures AllSha256(Level(Joined(sha), xs, k))
    decreases k
  {
    if k > 0 {
      LevelSha256(sha, xs);
      LevelIsSha256(sha, NextLevel(Joined(sha), xs), k - 1);
    }
  }

  lemma LevelInputs(sha: Sha, xs: seq<Str>, k: nat)
    requires xs != [] && k <= Height(|xs|)
    ensures TreeInputs(sha, Level(Joined(sha), xs, k)) <= TreeInputs(sha, xs)
  {
    LevelFacts(Joined(sha), xs, k);
  }

  /** A path that is `k` steps short proves a node `k` levels up, and no other: the length of the
      path says which level the string is on. */
  lemma ShortProofBinds(sha: Sha, xs: seq<Str>, k: nat, j: nat, node: Str, path: seq<Str>)
    requires xs != [] && AllSha256(xs) && k <= Height(|xs|) && |path| == Height(|xs|) - k
    requires j < |Level(Joined(sha), xs, k)|
    requires ProofVerdict(sha, node, Steps(path, j), Root(Joined(sha), xs)) == Some(true)
    requires CollisionFreeOn(sha, TreeInputs(sha, xs) + PairInputs(ClimbPairs(Joined(sha), node, j, path)))
    ensures SameBytes(node, Level(Joined(sha), xs, k)[j]) <==> |node| == 64
  {
    var level := Level(Joined(sha), xs, k);
    LevelFacts(Joined(sha), xs, k);
    LevelIsSha256(sha, xs, k);
    LevelInputs(sha, xs, k);
    CollisionFreeSubset(sha, TreeInputs(sha, level) + PairInputs(ClimbPairs(Joined(sha), node, j, path)),
                        TreeInputs(sha, xs) + PairInputs(ClimbPairs(Joined(sha), node, j, path)));
    ProofBinds(sha, level, j, node, path);
  }

  /** And such proofs exist: every inner node verifies against the root with its own, shorter path. */
  lemma InnerNodeVerifies(sha: Sha, xs: seq<Str>, k: nat, j: nat)
    requires xs != [] && AllSha256(xs) && k <= Height(|xs|) && j < |Level(Joined(sha), xs, k)|
    ensures var level := Level(Joined(sha), xs, k);
      && ProofVerdict(sha, level[j], ProofOf(Joined(sha), level, j), Root(Joined(sha), xs)) == Some(true)
      && |ProofOf(Joined(sha), level, j)| == Height(|xs|) - k
  {
    LevelFacts(Joined(sha), xs, k);
    LevelIsSha256(sha, xs, k);
    AllSha256IsHex(Level(Joined(sha), xs, k));
    ProofComplete(sha, Level(Joined(sha), xs, k), j);
  }

  lemma VerdictReachesRoot(sha: Sha, leaf: Str, proof: seq<ProofStep<Str>>, root: Str)
    requires ProofVerdict(sha, leaf, proof, root) == Some(true)
    ensures Climb(sha, leaf, proof) == At(root)
  {
  }

  lemma PathBindsDecoding(sha: Sha, xs: seq<Str>, i: nat, leaf: Str, path: seq<Str>)
    requires i < |xs| && |path| == Height(|xs|)
    requires ClimbPath(Joined(sha), leaf, i, path) == Root(Joined(sha), xs)
    requires PairsBind(Joined(sha), Decoding(), ClimbPairs(Joined(sha), leaf, i, path), TreePairs(Joined(sha), xs))
    ensures SameBytes(leaf, xs[i])
  {
    ParentsCanonical(sha);
    PathBinds(Joined(sha), Decoding(), xs, i, leaf, path);
  }

  lemma ProofPairsBind(sha: Sha, xs: seq<Str>, i: nat, leaf: Str, path: seq<Str>)
    requires AllSha256(xs) && |leaf| == 64 && Climb(sha, leaf, Steps(path, i)).At?
    requires CollisionFreeOn(sha, TreeInputs(sha, xs) + PairInputs(ClimbPairs(Joined(sha), leaf, i, path)))
    ensures Climb(sha, leaf, Steps(path, i)) == At(ClimbPath(Joined(sha), leaf, i, path))
    ensures PairsBind(Joined(sha), Decoding(), ClimbPairs(Joined(sha), leaf, i, path), TreePairs(Joined(sha), xs))
  {
    ClimbFacts(sha, leaf, i, path);
    TreeIsDigests(sha, xs);
    DigestPairsBind(sha, ClimbPairs(Joined(sha), leaf, i, path), TreePairs(Joined(sha), xs));
  }

  lemma DigestPairsBind(sha: Sha, left: set<(Str, Str)>, right: set<(Str, Str)>)
    requires forall p :: p in left ==> IsHex(p.0) && IsHex(p.1) && (|p.0| == 64 || |p.1| == 64)
    requires DigestPairs(right) && CollisionFreeOn(sha, PairInputs(right) + PairInputs(left))
    ensures PairsBind(Joined(sha), Decoding(), left, right)
  {
    forall p, q | p in left && q in right && Joined(sha)(p.0, p.1) == Joined(sha)(q.0, q.1)
      ensures SameBytes(p.0, q.0) && SameBytes(p.1, q.1)
    {
      ParentBinds(sha, PairInputs(right) + PairInputs(left), p, q);
    }
  }

  lemma ParentsCanonical(sha: Sha)
    ensures JoinsCanonical(Joined(sha), Decoding())
  {
    forall p: (Str, Str), q: (Str, Str) | SameBytes(Joined(sha)(p.0, p.1), Joined(sha)(q.0, q.1))
      ensures Joined(sha)(p.0, p.1) == Joined(sha)(q.0, q.1)
    {
      PairIsSha256(sha, p.0, p.1);
      PairIsSha256(sha, q.0, q.1);
      SameDecoding(Pair(sha, p.0, p.1), Pair(sha, q.0, q.1));
    }
  }

  predicate SameBytes(a: Str, b: Str)
  {
    Hex.FromHex(a) == Hex.FromHex(b)
  }

  function Decoding(): (Str, Str) -> bool
  {
    (a, b) => SameBytes(a, b)
  }

  /** Everything joined on a verifying climb decodes, and one side of every pair is a digest. */
  lemma {:induction false} ClimbFacts(sha: Sha, x: Str, i: nat, path: seq<Str>)
    requires |x| == 64 && Climb(sha, x, Steps(path, i)).At?
    ensures Climb(sha, x, Steps(path, i)) == At(ClimbPath(Joined(sha), x, i, path))
    ensures forall p :: p in ClimbPairs(Joined(sha), x, i, path) ==>
      IsHex(p.0) && IsHex(p.1) && (|p.0| == 64 || |p.1| == 64)
    decreases |path|
  {
    if path != [] {
      var p := if i % 2 == 1 then (path[0], x) else (x, path[0]);
      assert Steps(path, i)[1..] == Steps(path[1..], i / 2);
      ClimbFacts(sha, Pair(sha, p.0, p.1), i / 2, path[1..]);
    }
  }

  /** Two parents with one hash, the second joining digests, the first a digest and something. */
  lemma ParentBinds(sha: Sha, inputs: set<Bytes>, p: (Str, Str), q: (Str, Str))
    requires IsHex(p.0) && IsHex(p.1) && (|p.0| == 64 || |p.1| == 64)
    requires Hex.IsSha256Hex(q.0) && Hex.IsSha256Hex(q.1)
    requires CollisionFreeOn(sha, inputs) && PairBytes(p.0, p.1) in inputs && PairBytes(q.0, q.1) in inputs
    requires Pair(sha, p.0, p.1) == Pair(sha, q.0, q.1)
    ensures SameBytes(p.0, q.0) && SameBytes(p.1, q.1)
  {
    HashDetermines(sha, inputs, PairBytes(p.0, p.1), PairBytes(q.0, q.1));
    Sha256IsHex(q.0);
    Sha256IsHex(q.1);
    assert |PairBytes(p.0, p.1)| == |Hex.FromHex(p.0).value| + |Hex.FromHex(p.1).value|;
    assert |PairBytes(q.0, q.1)| == 64;
    SplitPair(p.0, p.1, q.0, q.1);
  }

  /** The length condition is needed: half a leaf verifies with a sibling that carries the rest. */
  lemma HalfLeafVerifies(sha: Sha, a: Str, b: Str)
    requires Hex.IsSha256Hex(a) && Hex.IsSha256Hex(b)
    ensures ProofVerdict(sha, a[..32], [ProofStep(a[32..] + b, Right)], Root(Joined(sha), [a, b])) == Some(true)
  {
    HalfPair(a, b);
    var step := ProofStep(a[32..] + b, Right);
    assert ClimbStep(sha, a[..32], step) == At(Pair(sha, a, b));
    assert [step][1..] == [];
    assert Climb(sha, a[..32], [step]) == Climb(sha, Pair(sha, a, b), []);
    assert [a, b] + [] == [a, b];
    assert NextLevel(Joined(sha), [a, b]) == [Pair(sha, a, b)];
  }

  lemma HalfPair(a: Str, b: Str)
    requires Hex.IsSha256Hex(a) && Hex.IsSha256Hex(b)
    ensures IsHex(a[..32]) && IsHex(a[32..] + b)
    ensures PairBytes(a[..32], a[32..] + b) == PairBytes(a, b)
  {
    var x, y := a[..32], a[32..];
    assert a == x + y;
    Hex.ToFromHex(x);
    Hex.ToFromHex(y);
    Hex.ToFromHex(b);
    PairBytesAssoc(x, y, b);
  }

  lemma PairBytesAssoc(x: Str, y: Str, z: Str)
    requires IsHex(x) && IsHex(y) && IsHex(z)
    ensures IsHex(y + z) && IsHex(x + y)
    ensures PairBytes(x, y + z) == PairBytes(x + y, z)
  {
    FromHexConcat(x, y);
    FromHexConcat(y, z);
    Associative(Hex.FromHex(x).value, Hex.FromHex(y).value, Hex.FromHex(z).value);
  }

  lemma Associative(a: Bytes, b: Bytes, c: Bytes)
    ensures a + (b + c) == (a + b) + c
  {
  }

  lemma {:induction false} FromHexConcat(a: Str, b: Str)
    requires IsHex(a) && IsHex(b)
    ensures IsHex(a + b) && Hex.FromHex(a + b).value == Hex.FromHex(a).value + Hex.FromHex(b).value
  {
    if a == [] {
      assert a + b == b;
    } else {
      FromHexConcat(a[2..], b);
      assert (a + b)[2..] == a[2..] + b;
    }
  }

  // ---------------------------------------------------------------- what a root binds

  ghost predicate DigestPairs(pairs: set<(Str, Str)>)
  {
    forall p :: p in pairs ==> Hex.IsSha256Hex(p.0) && Hex.IsSha256Hex(p.1)
  }

  lemma PairBinds(sha: Sha, inputs: set<Bytes>, p: (Str, Str), q: (Str, Str))
    requires Hex.IsSha256Hex(p.0) && Hex.IsSha256Hex(p.1) && Hex.IsSha256Hex(q.0) && Hex.IsSha256Hex(q.1)
    requires CollisionFreeOn(sha, inputs) && PairBytes(p.0, p.1) in inputs && PairBytes(q.0, q.1) in inputs
    requires Pair(sha, p.0, p.1) == Pair(sha, q.0, q.1)
    ensures p == q
  {
    Sha256IsHex(p.0);
    Sha256IsHex(p.1);
    ParentBinds(sha, inputs, p, q);
    SameDecoding(p.0, q.0);
    SameDecoding(p.1, q.1);
  }

  lemma JoinedInjective(sha: Sha, inputs: set<Bytes>, pairs: set<(Str, Str)>)
    requires DigestPairs(pairs) && CollisionFreeOn(sha, inputs) && PairInputs(pairs) <= inputs
    ensures InjectiveOn(Joined(sha), pairs)
  {
    forall p, q | p in pairs && q in pairs && Joined(sha)(p.0, p.1) == Joined(sha)(q.0, q.1) ensures p == q {
      PairBinds(sha, inputs, p, q);
    }
  }

  lemma {:induction false} TreeIsDigests(sha: Sha, xs: seq<Str>)
    requires AllSha256(xs)
    ensures DigestPairs(TreePairs(Joined(sha), xs))
    decreases |xs|
  {
    if |xs| > 1 {
      LevelSha256(sha, xs);
      TreeIsDigests(sha, NextLevel(Joined(sha), xs));
    }
  }

  ghost function Members(payloads: seq<Bytes>): set<Bytes>
  {
    set i | 0 <= i < |payloads| :: payloads[i]
  }

  /** Each leaf is the hash of a payload longer than a pair of digests. */
  ghost predicate LeavesOf(sha: Sha, xs: seq<Str>, payloads: seq<Bytes>)
  {
    |xs| == |payloads| &&
    forall i :: 0 <= i < |xs| ==> xs[i] == Hex.Hash(sha, payloads[i]) && |payloads[i]| > 64
  }

  lemma LeavesAreSha256(sha: Sha, xs: seq<Str>, payloads: seq<Bytes>)
    requires LeavesOf(sha, xs, payloads)
    ensures AllSha256(xs)
  {
    forall i | 0 <= i < |xs| ensures Hex.IsSha256Hex(xs[i]) {
      Hex.HashIsSha256Hex(sha, payloads[i]);
    }
  }

  lemma LeavesDistinct(sha: Sha, inputs: set<Bytes>, xs: seq<Str>, payloads: seq<Bytes>)
    requires LeavesOf(sha, xs, payloads) && Distinct(payloads)
    requires Members(payloads) <= inputs && CollisionFreeOn(sha, inputs)
    ensures Distinct(xs)
  {
    forall i, j | 0 <= i < j < |xs| ensures xs[i] != xs[j] {
      assert payloads[i] in Members(payloads) && payloads[j] in Members(payloads);
      if xs[i] == xs[j] {
        HashDetermines(sha, inputs, payloads[i], payloads[j]);
      }
    }
  }

  /** An inner node hashes 64 bytes, a leaf more. */
  lemma LeafIsNotInner(sha: Sha, inputs: set<Bytes>, p: (Str, Str), payload: Bytes)
    requires Hex.IsSha256Hex(p.0) && Hex.IsSha256Hex(p.1) && |payload| > 64
    requires CollisionFreeOn(sha, inputs) && PairBytes(p.0, p.1) in inputs && payload in inputs
    ensures Pair(sha, p.0, p.1) != Hex.Hash(sha, payload)
  {
    Sha256IsHex(p.0);
    Sha256IsHex(p.1);
    if Pair(sha, p.0, p.1) == Hex.Hash(sha, payload) {
      HashDetermines(sha, inputs, PairBytes(p.0, p.1), payload);
    }
  }

  /** A checkpoint root binds the whole leaf list and every hashed payload, across lengths, when
      payloads are longer than 64 bytes and pairwise different. */
  lemma RootBindsPayloads(sha: Sha, xs: seq<Str>, ys: seq<Str>, px: seq<Bytes>, py: seq<Bytes>)
    requires xs != [] && ys != [] && LeavesOf(sha, xs, px) && LeavesOf(sha, ys, py)
    requires Distinct(px) && Distinct(py)
    requires Root(Joined(sha), xs) == Root(Joined(sha), ys)
    requires CollisionFreeOn(sha, TreeInputs(sha, xs) + TreeInputs(sha, ys) + Members(px) + Members(py))
    ensures xs == ys && px == py
  {
    var inputs := TreeInputs(sha, xs) + TreeInputs(sha, ys) + Members(px) + Members(py);
    var pairs := TreePairs(Joined(sha), xs) + TreePairs(Joined(sha), ys);
    LeavesAreSha256(sha, xs, px);
    LeavesAreSha256(sha, ys, py);
    TreeIsDigests(sha, xs);
    TreeIsDigests(sha, ys);
    JoinedInjective(sha, inputs, pairs);
    LeavesDistinct(sha, inputs, xs, px);
    LeavesDistinct(sha, inputs, ys, py);
    assert px[0] in Members(px) && py[0] in Members(py);
    forall p | p in pairs ensures Joined(sha)(p.0, p.1) != xs[0] && Joined(sha)(p.0, p.1) != ys[0] {
      assert PairBytes(p.0, p.1) in inputs;
      LeafIsNotInner(sha, inputs, p, px[0]);
      LeafIsNotInner(sha, inputs, p, py[0]);
    }
    RootBinds(Joined(sha), pairs, xs, ys);
    forall i | 0 <= i < |px| ensures px[i] == py[i] {
      assert px[i] in Members(px) && py[i] in Members(py);
      HashDetermines(sha, inputs, px[i], py[i]);
    }
  }
}
