/** The `java.util.stream` pipelines the program builds, as finite sequences:
    `Stream.iterate(seed, f).limit(n)`, `skip`, `limit`, and the program's own
    `range(from, to)` helper (OrToolsPoC.java:66-71). */
module Streams {
  import opened JavaArith

  /** `f` applied `k` times to `x`. */
  function Power<T>(f: T -> T, k: nat, x: T): T
  {
    if k == 0 then x else Power(f, k - 1, f(x))
  }

  /** `Stream.iterate(seed, f).limit(n)`: the first `n` elements of
      seed, f(seed), f(f(seed)), ... (`f` is applied only `n - 1` times). */
  function Iterate<T>(seed: T, f: T -> T, n: nat): (s: seq<T>)
    ensures |s| == n
  {
    if n == 0 then [] else [seed] + Iterate(f(seed), f, n - 1)
  }

  /** Element `k` of the iterated stream is `f` applied `k` times to the seed. */
  lemma {:induction false} IterateAt<T>(seed: T, f: T -> T, n: nat, k: nat)
    requires k < n
    ensures Iterate(seed, f, n)[k] == Power(f, k, seed)
  {
    if k > 0 {
      IterateAt(f(seed), f, n - 1, k - 1);
    }
  }

  /** A set of values closed under `f` contains every element of the iterated stream. */
  lemma {:induction false} IterateClosed<T>(seed: T, f: T -> T, n: nat, inside: T -> bool)
    requires inside(seed)
    requires forall x :: inside(x) ==> inside(f(x))
    ensures forall k :: 0 <= k < n ==> inside(Iterate(seed, f, n)[k])
  {
    if n > 0 {
      IterateClosed(f(seed), f, n - 1, inside);
      assert Iterate(seed, f, n) == [seed] + Iterate(f(seed), f, n - 1);
    }
  }

  /** `stream.skip(n)`: drops the first `n` elements, or all of them if there are fewer. */
  function Skip<T>(s: seq<T>, n: nat): (r: seq<T>)
    ensures |r| == if n <= |s| then |s| - n else 0
    ensures forall k :: 0 <= k < |r| ==> r[k] == s[n + k]
  {
    if n <= |s| then s[n..] else []
  }

  /** The prefix of `s` one element longer is the shorter prefix followed by that element. */
  lemma PrefixStep<T>(s: seq<T>, k: int)
    requires 0 <= k < |s|
    ensures s[..k + 1] == s[..k] + [s[k]]
  {
  }

  /** `stream.limit(n)`: keeps the first `n` elements, or all of them if there are fewer. */
  function Limit<T>(s: seq<T>, n: nat): (r: seq<T>)
    ensures |r| == if n <= |s| then n else |s|
    ensures r <= s
  {
    if n <= |s| then s[..n] else s
  }

  /** The successor of a boxed `Integer` in `i -> i + 1`, with 32-bit wrap-around. */
  function IntSucc(i: int): int
  {
    WrapInt(i + 1)
  }

  /** `range(from, to)`, written as `Stream.iterate(from, i -> i + 1).limit(to)`.
      The second argument is a COUNT, not an exclusive upper bound: the stream
      has `to` elements starting at `from`. `limit` throws on a negative count,
      which this model excludes by its precondition. */
  function Range(from: int, to: int): (r: seq<int>)
    requires 0 <= to
  {
    Iterate(from, IntSucc, to)
  }

  /** `range(from, to)` is exactly the `to` consecutive integers from `from`
      on, i.e. [from, from + to), as long as they stay within `int`. */
  lemma RangeAt(from: int, to: int, k: nat)
    requires 0 <= to && INT_MIN <= from && from + to - 1 <= INT_MAX
    requires k < to
    ensures |Range(from, to)| == to
    ensures Range(from, to)[k] == from + k
  {
    IterateAt(from, IntSucc, to, k);
    SuccPower(from, k);
  }

  lemma {:induction false} SuccPower(x: int, k: nat)
    requires INT_MIN <= x && x + k <= INT_MAX
    ensures Power(IntSucc, k, x) == x + k
    decreases k
  {
    if k > 0 {
      SuccPower(x + 1, k - 1);
    }
  }

  /** `range(0, n)` is 0 .. n-1, and `range(0, n).skip(1)` is 1 .. n-1. */
  lemma RangeFromZero(n: int)
    requires 0 <= n <= INT_MAX
    ensures Range(0, n) == seq(n, k => k)
    ensures Skip(Range(0, n), 1) == seq(if n == 0 then 0 else n - 1, k => k + 1)
  {
    forall k | 0 <= k < n
      ensures Range(0, n)[k] == k
    {
      RangeAt(0, n, k);
    }
  }

  /** `range(0, n).skip(1)` is 1, 2, ..., n - 1. */
  lemma SkipOneRangeAt(n: int, k: int)
    requires 0 <= k < n - 1 && n <= INT_MAX
    ensures |Skip(Range(0, n), 1)| == n - 1
    ensures Skip(Range(0, n), 1)[k] == k + 1
  {
    RangeAt(0, n, k + 1);
  }
}
