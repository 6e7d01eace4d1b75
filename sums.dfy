/** The `reduce((sum, item) => sum + item.field, 0)` pattern the pages use
    for totals, and the arithmetic mean built on it. */
module Sums {

  /** Integer total of `f` over `s`, accumulated left to right from the
      initial 0. The total of non-negative terms is non-negative. */
  function Sum<T>(s: seq<T>, f: T -> int): (r: int)
    ensures s == [] ==> r == 0
    ensures (forall i | 0 <= i < |s| :: f(s[i]) >= 0) ==> r >= 0
  {
    if s == [] then 0
    else
      var init := s[..|s| - 1];
      assert forall i | 0 <= i < |init| :: init[i] == s[i];
      Sum(init, f) + f(s[|s| - 1])
  }

  /** Exact rational total of `f` over `s`, accumulated left to right from
      the initial 0: no terms total 0, and one term totals itself. */
  function RealSum<T>(s: seq<T>, f: T -> real): (r: real)
    ensures s == [] ==> r == 0.0
    ensures |s| == 1 ==> r == f(s[0])
  {
    if s == [] then 0.0 else RealSum(s[..|s| - 1], f) + f(s[|s| - 1])
  }

  /** Arithmetic mean of `f` over a non-empty `s`: the value that, taken
      once per term, gives the same total. */
  function Mean<T>(s: seq<T>, f: T -> real): (r: real)
    requires |s| > 0
    ensures r * |s| as real == RealSum(s, f)
  {
    RealSum(s, f) / |s| as real
  }

  /** Summing a concatenation sums the parts. */
  lemma {:induction false} SumAppend<T>(a: seq<T>, b: seq<T>, f: T -> int)
    ensures Sum(a + b, f) == Sum(a, f) + Sum(b, f)
    decreases |b|
  {
    if b == [] {
      assert a + b == a;
    } else {
      SumAppend(a, b[..|b| - 1], f);
      assert (a + b)[..|a + b| - 1] == a + b[..|b| - 1];
    }
  }

  /** A total does not depend on the order of the records: every record is
      counted exactly once. */
  lemma {:induction false} SumPermutation<T>(a: seq<T>, b: seq<T>, f: T -> int)
    requires multiset(a) == multiset(b)
    ensures Sum(a, f) == Sum(b, f)
    decreases |a|
  {
    if a == [] {
      assert |b| == |multiset(b)| == 0;
    } else {
      var init, x := a[..|a| - 1], a[|a| - 1];
      assert x in multiset(b) by { assert a == init + [x]; }
      var i :| 0 <= i < |b| && b[i] == x;
      var pre, post := b[..i], b[i + 1..];
      RemoveOne(a, b, i);
      SumPermutation(init, pre + post, f);
      assert b == pre + ([x] + post);
      SumAppend(pre, [x] + post, f);
      SumAppend([x], post, f);
      SumAppend(pre, post, f);
      assert Sum([x], f) == f(x) by { assert [x][..0] == []; }
    }
  }

  /** Taking the last element off `a` and the same value off `b` at `i`
      leaves two permutations of each other. */
  lemma RemoveOne<T>(a: seq<T>, b: seq<T>, i: nat)
    requires multiset(a) == multiset(b) && a != [] && i < |b| && b[i] == a[|a| - 1]
    ensures multiset(a[..|a| - 1]) == multiset(b[..i] + b[i + 1..])
  {
    var x, init := a[|a| - 1], a[..|a| - 1];
    var pre, post := b[..i], b[i + 1..];
    assert a == init + [x];
    assert b == pre + [x] + post;
    assert multiset(a) == multiset(init) + multiset{x};
    assert multiset(b) == multiset(pre) + multiset{x} + multiset(post);
    assert multiset(pre + post) == multiset(pre) + multiset(post);
    MultisetCancel(multiset(init), multiset(pre) + multiset(post), x);
  }

  /** An element added to both sides of a multiset equation cancels. */
  lemma MultisetCancel<T>(m: multiset<T>, n: multiset<T>, x: T)
    requires m + multiset{x} == n + multiset{x}
    ensures m == n
  {
    assert forall y :: m[y] == (m + multiset{x})[y] - multiset{x}[y] == n[y];
  }

  /** A total of terms that all lie in [lo, hi] lies in [|s| * lo, |s| * hi]. */
  lemma {:induction false} RealSumBounds<T>(s: seq<T>, f: T -> real, lo: real, hi: real)
    requires forall i | 0 <= i < |s| :: lo <= f(s[i]) <= hi
    ensures |s| as real * lo <= RealSum(s, f) <= |s| as real * hi
  {
    if s != [] {
      var init := s[..|s| - 1];
      assert forall i | 0 <= i < |init| :: init[i] == s[i];
      RealSumBounds(init, f, lo, hi);
      var n := |init| as real;
      assert |s| as real * lo == n * lo + lo && |s| as real * hi == n * hi + hi;
    }
  }

  /** The mean of terms that all lie in [lo, hi] lies in [lo, hi]. */
  lemma MeanBounds<T>(s: seq<T>, f: T -> real, lo: real, hi: real)
    requires |s| > 0
    requires forall i | 0 <= i < |s| :: lo <= f(s[i]) <= hi
    ensures lo <= Mean(s, f) <= hi
  {
    var n := |s| as real;
    RealSumBounds(s, f, lo, hi);
    assert Mean(s, f) * n == RealSum(s, f);
  }
}
