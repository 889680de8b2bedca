/** Shared vocabulary: optional and fallible results, JavaScript strings as UTF-16
    code units, bytes, and the hash function every theorem is quantified over. */
module Basics {

  datatype Option<+T> = None | Some(value: T)

  /** `Err` stands for a JavaScript `throw`. */
  datatype Result<+T, +E> = Ok(value: T) | Err(error: E)

  /** `n` steps one after the other; the first `Err` ends it. */
  function Fold<S, E>(step: (nat, S) -> Result<S, E>, s: S, n: nat): Result<S, E>
  {
    if n == 0 then Ok(s)
    else
      var before := Fold(step, s, n - 1);
      if before.Err? then before else step(n - 1, before.value)
  }

  lemma {:induction false} FoldStops<S, E>(step: (nat, S) -> Result<S, E>, s: S, i: nat, n: nat, u: S, e: E)
    requires i < n && Fold(step, s, i) == Ok(u) && step(i, u) == Err(e)
    ensures Fold(step, s, n) == Err(e)
    decreases n
  {
    if i + 1 < n {
      FoldStops(step, s, i, n - 1, u, e);
    }
  }

  /** What every step keeps, the fold keeps. */
  lemma {:induction false} FoldKeeps<S(!new), E>(step: (nat, S) -> Result<S, E>, s: S, n: nat, inv: S -> bool)
    requires inv(s) && forall i: nat, u: S :: inv(u) && step(i, u).Ok? ==> inv(step(i, u).value)
    ensures Fold(step, s, n).Ok? ==> inv(Fold(step, s, n).value)
  {
    if n > 0 {
      FoldKeeps(step, s, n - 1, inv);
    }
  }

  /** What holds at the start and is passed on by each step holds after the last one. */
  lemma {:induction false} FoldReaches<S(!new), E>(step: (nat, S) -> Result<S, E>, s: S, n: nat, holds: (nat, S) -> bool)
    requires Fold(step, s, n).Ok? && holds(0, s)
    requires forall i: nat, u: S :: i < n && holds(i, u) && step(i, u).Ok? ==> holds(i + 1, step(i, u).value)
    ensures holds(n, Fold(step, s, n).value)
  {
    if n > 0 {
      FoldReaches(step, s, n - 1, holds);
      assert holds(n - 1, Fold(step, s, n - 1).value) && step(n - 1, Fold(step, s, n - 1).value).Ok?;
    }
  }

  /** A UTF-16 code unit. JavaScript strings are sequences of these, lone surrogates included. */
  type Unit = c: int | 0 <= c < 0x10000
  type Str = seq<Unit>

  type Byte = b: int | 0 <= b < 0x100
  type Bytes = seq<Byte>

  type Digest = d: Bytes | |d| == 32 witness seq(32, _ => 0)

  /** SHA-256 is never modelled: every statement holds of every function with its type. */
  type Sha = Bytes -> Digest

  /** A string literal as code units. */
  function Ascii(s: string): (r: Str)
    ensures |r| == |s|
  {
    seq(|s|, i requires 0 <= i < |s| => s[i] as int % 0x10000)
  }

  /** `sha` maps different members of `inputs` to different digests. */
  ghost predicate CollisionFreeOn(sha: Sha, inputs: set<Bytes>)
  {
    forall x, y :: x in inputs && y in inputs && sha(x) == sha(y) ==> x == y
  }

  lemma CollisionFreeSubset(sha: Sha, small: set<Bytes>, large: set<Bytes>)
    requires small <= large && CollisionFreeOn(sha, large)
    ensures CollisionFreeOn(sha, small)
  {
  }
}
