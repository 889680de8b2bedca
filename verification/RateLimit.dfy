/** The sliding-window rate limiter. */
module RateLimit {
  import opened Basics

  /** Timestamps still inside the window at `now`, in order. */
  function Within(windowMs: int, xs: seq<int>, now: int): seq<int>
  {
    if xs == [] then []
    else
      var rest, last := Within(windowMs, xs[..|xs| - 1], now), xs[|xs| - 1];
      if now - last < windowMs then rest + [last] else rest
  }

  /** One key's bucket, and every timestamp it ever accepted. */
  datatype KeyState = KeyState(bucket: seq<int>, accepted: seq<int>)

  predicate Admits(windowMs: int, max: int, s: KeyState, now: int)
  {
    |Within(windowMs, s.bucket, now)| < max
  }

  function Attempt(windowMs: int, max: int, s: KeyState, now: int): KeyState
  {
    var next := Within(windowMs, s.bucket, now);
    if |next| >= max then s.(bucket := next) else KeyState(next + [now], s.accepted + [now])
  }

  /** A key's calls, one after the other. */
  function Replay(windowMs: int, max: int, times: seq<int>): KeyState
  {
    if times == [] then KeyState([], [])
    else Attempt(windowMs, max, Replay(windowMs, max, times[..|times| - 1]), times[|times| - 1])
  }

  datatype Hit = Hit(key: Str, now: int)

  /** The times of the calls for one key. */
  function Times(log: seq<Hit>, key: Str): seq<int>
  {
    if log == [] then []
    else
      var rest, last := Times(log[..|log| - 1], key), log[|log| - 1];
      if last.key == key then rest + [last.now] else rest
  }

  function BucketOf(hits: map<Str, seq<int>>, key: Str): seq<int>
  {
    if key in hits then hits[key] else []
  }

  /** Each key's bucket is what its own calls, and no others, make it. */
  ghost predicate Faithful(windowMs: int, max: int, hits: map<Str, seq<int>>, log: seq<Hit>)
  {
    forall key :: BucketOf(hits, key) == Replay(windowMs, max, Times(log, key)).bucket
  }

  lemma TimesPush(log: seq<Hit>, key: Str, now: int, other: Str)
    ensures Times(log + [Hit(key, now)], other) == Times(log, other) + (if key == other then [now] else [])
  {
    assert (log + [Hit(key, now)])[..|log|] == log;
  }

  lemma ReplayPush(windowMs: int, max: int, times: seq<int>, now: int)
    ensures Replay(windowMs, max, times + [now]) == Attempt(windowMs, max, Replay(windowMs, max, times), now)
  {
    assert (times + [now])[..|times|] == times;
  }

  /** After one more call for `key`, its bucket is its own next one and the others are theirs. */
  lemma HitKeeps(windowMs: int, max: int, hits: map<Str, seq<int>>, log: seq<Hit>, key: Str, now: int, next: seq<int>)
    requires Faithful(windowMs, max, hits, log)
    requires next == Attempt(windowMs, max, Replay(windowMs, max, Times(log, key)), now).bucket
    ensures Faithful(windowMs, max, hits[key := next], log + [Hit(key, now)])
  {
    forall other
      ensures BucketOf(hits[key := next], other) == Replay(windowMs, max, Times(log + [Hit(key, now)], other)).bucket
    {
      TimesPush(log, key, now, other);
      if other == key {
        ReplayPush(windowMs, max, Times(log, key), now);
      } else {
        assert Times(log, other) + [] == Times(log, other);
        assert BucketOf(hits[key := next], other) == BucketOf(hits, other);
      }
    }
  }

  class MemoryRateLimiter {
    const windowMs: int
    const max: int
    var hits: map<Str, seq<int>>
    /** Calls since construction. */
    ghost var log: seq<Hit>

    constructor (windowMs: int, max: int)
      ensures Valid() && this.windowMs == windowMs && this.max == max && log == []
    {
      this.windowMs, this.max := windowMs, max;
      hits, log := map[], [];
    }

    ghost predicate Valid()
      reads this
    {
      Faithful(windowMs, max, hits, log)
    }

    method Recent(key: Str, now: int) returns (next: seq<int>)
      ensures next == Within(windowMs, BucketOf(hits, key), now)
    {
      var bucket := BucketOf(hits, key);
      next := [];
      for i := 0 to |bucket|
        invariant next == Within(windowMs, bucket[..i], now)
      {
        assert bucket[..i + 1][..i] == bucket[..i];
        if now - bucket[i] < windowMs {
          next := next + [bucket[i]];
        }
      }
      assert bucket[..|bucket|] == bucket;
    }

    method Allow(key: Str, now: int) returns (ok: bool)
      requires Valid()
      modifies this
      ensures Valid() && log == old(log) + [Hit(key, now)]
      ensures ok == Admits(windowMs, max, Replay(windowMs, max, Times(old(log), key)), now)
      ensures forall other :: other != key ==> BucketOf(hits, other) == BucketOf(old(hits), other)
    {
      var next := Recent(key, now);
      ok := |next| < max;
      if ok {
        next := next + [now];
      }
      assert BucketOf(hits, key) == Replay(windowMs, max, Times(log, key)).bucket;
      HitKeeps(windowMs, max, hits, log, key, now, next);
      log := log + [Hit(key, now)];
      hits := hits[key := next];
    }
  }

  // ---------------------------------------------------------------- what the limiter promises

  ghost predicate Nondecreasing(times: seq<int>)
  {
    forall i, j :: 0 <= i < j < |times| ==> times[i] <= times[j]
  }

  /** Accepted timestamps `x` with `lo < x <= hi`. */
  function CountIn(xs: seq<int>, lo: int, hi: int): nat
  {
    if xs == [] then 0
    else CountIn(xs[..|xs| - 1], lo, hi) + (if lo < xs[|xs| - 1] <= hi then 1 else 0)
  }

  lemma {:induction false} WithinTwice(windowMs: int, xs: seq<int>, earlier: int, now: int)
    requires earlier <= now
    ensures Within(windowMs, Within(windowMs, xs, earlier), now) == Within(windowMs, xs, now)
  {
    if xs != [] {
      var rest, last := xs[..|xs| - 1], xs[|xs| - 1];
      WithinTwice(windowMs, rest, earlier, now);
      if now - last < windowMs || earlier - last < windowMs {
        var inner := Within(windowMs, rest, earlier);
        assert (inner + [last])[..|inner|] == inner;
      }
    }
  }

  lemma WithinPush(windowMs: int, xs: seq<int>, x: int, now: int)
    ensures Within(windowMs, xs + [x], now) == Within(windowMs, xs, now) + (if now - x < windowMs then [x] else [])
  {
    assert (xs + [x])[..|xs|] == xs;
  }

  /** The bucket is the accepted history filtered to the window. */
  lemma {:induction false} BucketIsWindow(windowMs: int, max: int, times: seq<int>)
    requires windowMs > 0 && Nondecreasing(times) && times != []
    ensures var s := Replay(windowMs, max, times);
      s.bucket == Within(windowMs, s.accepted, times[|times| - 1])
  {
    var rest, now := times[..|times| - 1], times[|times| - 1];
    var s := Replay(windowMs, max, rest);
    if rest != [] {
      BucketIsWindow(windowMs, max, rest);
      WithinTwice(windowMs, s.accepted, rest[|rest| - 1], now);
    }
    WithinPush(windowMs, s.accepted, now, now);
  }

  lemma NondecreasingPrefix(times: seq<int>, now: int)
    requires Nondecreasing(times + [now])
    ensures Nondecreasing(times)
  {
    forall i, j | 0 <= i < j < |times| ensures times[i] <= times[j] {
      assert (times + [now])[i] <= (times + [now])[j];
    }
  }

  /** A call is refused exactly when the window behind it already holds `max` accepted calls. */
  lemma RefusedOnlyWhenFull(windowMs: int, max: int, times: seq<int>, now: int)
    requires windowMs > 0 && Nondecreasing(times + [now])
    ensures var s := Replay(windowMs, max, times);
      && (Admits(windowMs, max, s, now) <==> |Within(windowMs, s.accepted, now)| < max)
      && Replay(windowMs, max, times + [now]).accepted == s.accepted + (if Admits(windowMs, max, s, now) then [now] else [])
  {
    assert (times + [now])[..|times|] == times;
    if times != [] {
      NondecreasingPrefix(times, now);
      assert times[|times| - 1] == (times + [now])[|times| - 1] <= (times + [now])[|times|];
      BucketIsWindow(windowMs, max, times);
      WithinTwice(windowMs, Replay(windowMs, max, times).accepted, times[|times| - 1], now);
    }
  }

  /** In order, `k` elements are inside the window exactly when the last but `k - 1` is. */
  lemma {:induction false} WithinIsSuffix(windowMs: int, xs: seq<int>, now: int, k: nat)
    requires Nondecreasing(xs) && k >= 1
    ensures |Within(windowMs, xs, now)| >= k <==> |xs| >= k && now - xs[|xs| - k] < windowMs
  {
    if xs != [] {
      var rest := xs[..|xs| - 1];
      WithinIsSuffix(windowMs, rest, now, if k > 1 && now - xs[|xs| - 1] < windowMs then k - 1 else 1);
      assert |xs| >= k ==> xs[|xs| - k] <= xs[|xs| - 1];
    }
  }

  lemma OrderedPush(xs: seq<int>, x: int)
    requires Nondecreasing(xs) && (xs != [] ==> xs[|xs| - 1] <= x)
    ensures Nondecreasing(xs + [x])
  {
    forall i | 0 <= i < |xs| ensures xs[i] <= x {
      assert i < |xs| - 1 ==> xs[i] <= xs[|xs| - 1];
    }
  }

  lemma OrderedRest(times: seq<int>)
    requires times != [] && Nondecreasing(times)
    ensures Nondecreasing(times[..|times| - 1])
    ensures |times| > 1 ==> times[..|times| - 1][|times| - 2] <= times[|times| - 1]
  {
  }

  /** In order, and none above `bound`. */
  ghost predicate OrderedTo(xs: seq<int>, bound: int)
  {
    Nondecreasing(xs) && (xs != [] ==> xs[|xs| - 1] <= bound)
  }

  lemma OrderedTwice(xs: seq<int>, x: int)
    requires OrderedTo(xs, x)
    ensures OrderedTo(xs + [x], x)
  {
    OrderedPush(xs, x);
  }

  lemma {:induction false} AcceptedInOrder(windowMs: int, max: int, times: seq<int>, bound: int)
    requires OrderedTo(times, bound)
    ensures OrderedTo(Replay(windowMs, max, times).accepted, bound)
  {
    if times != [] {
      var rest, now := times[..|times| - 1], times[|times| - 1];
      OrderedRest(times);
      AcceptedInOrder(windowMs, max, rest, now);
      OrderedTwice(Replay(windowMs, max, rest).accepted, now);
    }
  }

  lemma OrderedFront(times: seq<int>, now: int)
    requires Nondecreasing(times + [now])
    ensures OrderedTo(times, now)
  {
    NondecreasingPrefix(times, now);
    if times != [] {
      assert (times + [now])[|times| - 1] == times[|times| - 1] && (times + [now])[|times|] == now;
    }
  }

  lemma FewWithin(windowMs: int, xs: seq<int>, now: int, max: int)
    requires OrderedTo(xs, now)
    ensures |Within(windowMs, xs, now)| < max <==> max >= 1 && (|xs| >= max ==> now - xs[|xs| - max] >= windowMs)
  {
    if max >= 1 {
      WithinIsSuffix(windowMs, xs, now, max);
    }
  }

  /** A call is admitted exactly when the call accepted `max` calls ago, if there is one, is at least a
      whole window old. */
  lemma AdmittedExactly(windowMs: int, max: int, times: seq<int>, now: int)
    requires windowMs > 0 && Nondecreasing(times + [now])
    ensures var s := Replay(windowMs, max, times);
      Admits(windowMs, max, s, now)
      <==> max >= 1 && (|s.accepted| >= max ==> now - s.accepted[|s.accepted| - max] >= windowMs)
  {
    var s := Replay(windowMs, max, times);
    RefusedOnlyWhenFull(windowMs, max, times, now);
    assert OrderedTo(s.accepted, now) by {
      OrderedFront(times, now);
      AcceptedInOrder(windowMs, max, times, now);
    }
    FewWithin(windowMs, s.accepted, now, max);
  }

  /** The half-open window of the window's length that ends at `t` holds at most `max` accepted calls. */
  predicate WindowHolds(windowMs: int, max: int, times: seq<int>, t: int)
  {
    CountIn(Replay(windowMs, max, times).accepted, t - windowMs, t) <= max
  }

  lemma {:induction false} CountAtMostWindow(windowMs: int, xs: seq<int>, t: int, now: int)
    requires now <= t
    ensures CountIn(xs, t - windowMs, t) <= |Within(windowMs, xs, now)|
  {
    if xs != [] {
      CountAtMostWindow(windowMs, xs[..|xs| - 1], t, now);
    }
  }

  /** Every half-open window of the window's length holds at most `max` accepted calls. */
  lemma {:induction false} WindowBound(windowMs: int, max: int, times: seq<int>, t: int)
    requires windowMs > 0 && max >= 0 && Nondecreasing(times)
    ensures WindowHolds(windowMs, max, times, t)
  {
    if times != [] {
      var rest, now := times[..|times| - 1], times[|times| - 1];
      var s := Replay(windowMs, max, rest);
      WindowBound(windowMs, max, rest, t);
      assert rest + [now] == times;
      RefusedOnlyWhenFull(windowMs, max, rest, now);
      assert (s.accepted + [now])[..|s.accepted|] == s.accepted;
      if now <= t {
        CountAtMostWindow(windowMs, s.accepted, t, now);
      }
    }
  }

  // ---------------------------------------------------------------- any clock at all

  /** Whatever the clock does, no window overflows. */
  ghost predicate HoldsOnAnyClock(windowMs: int, max: int)
  {
    forall times: seq<int>, t: int :: WindowHolds(windowMs, max, times, t)
  }

  /** Each element at least `gap` above the one before. */
  ghost predicate Apart(xs: seq<int>, gap: int)
  {
    forall i, j :: 0 <= i < j < |xs| ==> xs[i] + gap <= xs[j]
  }

  lemma {:induction false} ApartCount(xs: seq<int>, windowMs: int, t: int)
    requires windowMs > 0 && Apart(xs, windowMs)
    ensures CountIn(xs, t - windowMs, t) <= 1
    ensures xs != [] && xs[|xs| - 1] <= t - windowMs ==> CountIn(xs, t - windowMs, t) == 0
  {
    if |xs| > 1 {
      assert xs[|xs| - 2] + windowMs <= xs[|xs| - 1];
    }
    if xs != [] {
      ApartCount(xs[..|xs| - 1], windowMs, t);
    }
  }

  function LastOf(xs: seq<int>): seq<int>
  {
    if xs == [] then [] else [xs[|xs| - 1]]
  }

  /** Accepted calls at least a window apart, and the last of them in the bucket. */
  ghost predicate Single(windowMs: int, s: KeyState)
  {
    Apart(s.accepted, windowMs) && s.bucket == LastOf(s.accepted)
  }

  lemma ApartPush(xs: seq<int>, gap: int, x: int)
    requires gap > 0 && Apart(xs, gap) && (xs != [] ==> xs[|xs| - 1] + gap <= x)
    ensures Apart(xs + [x], gap)
  {
    forall i | 0 <= i < |xs| ensures xs[i] + gap <= x {
      assert i < |xs| - 1 ==> xs[i] + gap <= xs[|xs| - 1];
    }
  }

  /** The window either still holds the one call, or nothing. */
  lemma WithinLast(windowMs: int, xs: seq<int>, now: int)
    ensures Within(windowMs, LastOf(xs), now)
         == if xs != [] && now - xs[|xs| - 1] < windowMs then LastOf(xs) else []
  {
    if xs != [] {
      var none: seq<int> := [];
      assert none + LastOf(xs) == LastOf(xs);
      WithinPush(windowMs, none, xs[|xs| - 1], now);
    }
  }

  lemma SingleStep(windowMs: int, max: int, s: KeyState, now: int)
    requires windowMs > 0 && max == 1 && Single(windowMs, s)
    ensures Single(windowMs, Attempt(windowMs, max, s, now))
  {
    WithinLast(windowMs, s.accepted, now);
    if Within(windowMs, s.bucket, now) == [] {
      ApartPush(s.accepted, windowMs, now);
    }
  }

  /** With a maximum of one the bucket is the last accepted call, on any clock. */
  lemma {:induction false} OneAtATime(windowMs: int, max: int, times: seq<int>)
    requires windowMs > 0 && max == 1
    ensures Single(windowMs, Replay(windowMs, max, times))
  {
    if times != [] {
      OneAtATime(windowMs, max, times[..|times| - 1]);
      SingleStep(windowMs, max, Replay(windowMs, max, times[..|times| - 1]), times[|times| - 1]);
    }
  }

  lemma {:induction false} NoneEver(windowMs: int, max: int, times: seq<int>)
    requires max == 0
    ensures Replay(windowMs, max, times).accepted == []
  {
    if times != [] {
      NoneEver(windowMs, max, times[..|times| - 1]);
    }
  }

  function Repeated(n: nat, now: int): (r: seq<int>)
    ensures |r| == n
  {
    seq(n, _ => now)
  }

  /** `max` calls at zero, one when their window has passed, and one more at zero. */
  function Overrun(windowMs: int, max: nat): seq<int>
  {
    Repeated(max, 0) + [windowMs] + [0]
  }

  lemma {:induction false} ZerosAt(windowMs: int, n: nat)
    requires windowMs > 0
    ensures Within(windowMs, Repeated(n, 0), 0) == Repeated(n, 0) && Within(windowMs, Repeated(n, 0), windowMs) == []
    ensures CountIn(Repeated(n, 0), -windowMs, 0) == n
  {
    if n > 0 {
      ZerosAt(windowMs, n - 1);
      assert Repeated(n, 0)[..n - 1] == Repeated(n - 1, 0);
      assert Repeated(n - 1, 0) + [0] == Repeated(n, 0);
    }
  }

  lemma {:induction false} ZerosAccepted(windowMs: int, max: nat, n: nat)
    requires windowMs > 0 && n <= max
    ensures Replay(windowMs, max, Repeated(n, 0)) == KeyState(Repeated(n, 0), Repeated(n, 0))
  {
    if n > 0 {
      ZerosAccepted(windowMs, max, n - 1);
      ZerosAt(windowMs, n - 1);
      ReplayPush(windowMs, max, Repeated(n - 1, 0), 0);
      assert Repeated(n - 1, 0) + [0] == Repeated(n, 0);
    }
  }

  /** The later call empties the bucket, so the last one is accepted into the first ones' window. */
  lemma OverrunAccepted(windowMs: int, max: nat)
    requires windowMs > 0 && max >= 2
    ensures Replay(windowMs, max, Overrun(windowMs, max)).accepted == Overrun(windowMs, max)
  {
    var zeros, none: seq<int> := Repeated(max, 0), [];
    ZerosAccepted(windowMs, max, max);
    ZerosAt(windowMs, max);
    ReplayPush(windowMs, max, zeros, windowMs);
    assert none + [windowMs] == [windowMs];
    WithinPush(windowMs, none, windowMs, 0);
    ReplayPush(windowMs, max, zeros + [windowMs], 0);
  }

  lemma CountPush(xs: seq<int>, x: int, lo: int, hi: int)
    ensures CountIn(xs + [x], lo, hi) == CountIn(xs, lo, hi) + (if lo < x <= hi then 1 else 0)
  {
    assert (xs + [x])[..|xs|] == xs;
  }

  lemma OverrunCount(windowMs: int, max: nat)
    requires windowMs > 0
    ensures CountIn(Overrun(windowMs, max), -windowMs, 0) == max + 1
  {
    ZerosAt(windowMs, max);
    CountPush(Repeated(max, 0), windowMs, -windowMs, 0);
    CountPush(Repeated(max, 0) + [windowMs], 0, -windowMs, 0);
  }

  lemma SmallLimitHolds(windowMs: int, max: nat, times: seq<int>, t: int)
    requires windowMs > 0 && max <= 1
    ensures WindowHolds(windowMs, max, times, t)
  {
    if max == 0 {
      NoneEver(windowMs, max, times);
    } else {
      OneAtATime(windowMs, max, times);
      ApartCount(Replay(windowMs, max, times).accepted, windowMs, t);
    }
  }

  lemma LargeLimitOverruns(windowMs: int, max: nat)
    requires windowMs > 0 && max >= 2
    ensures !WindowHolds(windowMs, max, Overrun(windowMs, max), 0)
  {
    OverrunAccepted(windowMs, max);
    OverrunCount(windowMs, max);
  }

  /** A clock that may run backwards keeps the bound exactly for limits of at most one call. */
  lemma BoundOnAnyClock(windowMs: int, max: nat)
    requires windowMs > 0
    ensures HoldsOnAnyClock(windowMs, max) <==> max <= 1
  {
    if max <= 1 {
      forall times: seq<int>, t: int ensures WindowHolds(windowMs, max, times, t) {
        SmallLimitHolds(windowMs, max, times, t);
      }
    } else {
      LargeLimitOverruns(windowMs, max);
    }
  }
}
