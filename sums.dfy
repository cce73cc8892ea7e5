/**
 * Left-to-right sums over a sequence, the shape of every accumulator loop
 * in the averaging engine (`red += ...` over pixels, `currentRed += ...`
 * over images).
 */
module Sums {

  /** f(xs[0]) + f(xs[1]) + ... + f(xs[|xs|-1]), accumulated front to back. */
  function SumBy<T>(xs: seq<T>, f: T -> int): int
  {
    if xs == [] then 0 else SumBy(xs[..|xs| - 1], f) + f(xs[|xs| - 1])
  }

  /** Adding one more element to the accumulated prefix. */
  lemma SumByStep<T>(xs: seq<T>, i: int, f: T -> int)
    requires 0 <= i < |xs|
    ensures SumBy(xs[..i + 1], f) == SumBy(xs[..i], f) + f(xs[i])
  {
    assert xs[..i + 1][..i] == xs[..i];
  }

  /** The sum of two terms. */
  lemma SumByPair<T>(a: T, b: T, f: T -> int)
    ensures SumBy([a, b], f) == f(a) + f(b)
  {
    assert [a, b][..1] == [a];
    assert [a][..0] == [];
    assert SumBy([a], f) == SumBy([], f) + f(a);
    assert SumBy([a, b], f) == SumBy([a], f) + f(b);
  }

  /** A sum of |xs| terms each at least lo is at least lo * |xs|. */
  lemma {:induction false} SumByAtLeast<T>(xs: seq<T>, f: T -> int, lo: int)
    requires forall k :: 0 <= k < |xs| ==> lo <= f(xs[k])
    ensures lo * |xs| <= SumBy(xs, f)
  {
    if xs != [] {
      var init := xs[..|xs| - 1];
      assert forall k :: 0 <= k < |init| ==> init[k] == xs[k];
      SumByAtLeast(init, f, lo);
    }
  }

  /** A sum of |xs| terms each at most hi is at most hi * |xs|. */
  lemma {:induction false} SumByAtMost<T>(xs: seq<T>, f: T -> int, hi: int)
    requires forall k :: 0 <= k < |xs| ==> f(xs[k]) <= hi
    ensures SumBy(xs, f) <= hi * |xs|
  {
    if xs != [] {
      var init := xs[..|xs| - 1];
      assert forall k :: 0 <= k < |init| ==> init[k] == xs[k];
      SumByAtMost(init, f, hi);
    }
  }

  /** Term-wise smaller terms give a smaller sum. */
  lemma {:induction false} SumByMonotone<T>(xs: seq<T>, f: T -> int, g: T -> int)
    requires forall k :: 0 <= k < |xs| ==> f(xs[k]) <= g(xs[k])
    ensures SumBy(xs, f) <= SumBy(xs, g)
  {
    if xs != [] {
      var init := xs[..|xs| - 1];
      assert forall k :: 0 <= k < |init| ==> init[k] == xs[k];
      SumByMonotone(init, f, g);
    }
  }

  /** Multiplying every term by c multiplies the sum by c. */
  lemma {:induction false} SumByScale<T>(xs: seq<T>, f: T -> int, g: T -> int, c: int)
    requires forall k :: 0 <= k < |xs| ==> g(xs[k]) == c * f(xs[k])
    ensures SumBy(xs, g) == c * SumBy(xs, f)
  {
    if xs != [] {
      var init := xs[..|xs| - 1];
      assert forall k :: 0 <= k < |init| ==> init[k] == xs[k];
      SumByScale(init, f, g, c);
      assert c * SumBy(xs, f) == c * SumBy(init, f) + c * f(xs[|xs| - 1]);
    }
  }

  /** A sum of n equal terms c is n * c. */
  lemma {:induction false} SumByConstant<T>(xs: seq<T>, f: T -> int, c: int)
    requires forall k :: 0 <= k < |xs| ==> f(xs[k]) == c
    ensures SumBy(xs, f) == c * |xs|
  {
    if xs != [] {
      var init := xs[..|xs| - 1];
      assert forall k :: 0 <= k < |init| ==> init[k] == xs[k];
      SumByConstant(init, f, c);
    }
  }

  /** Summing a concatenation is summing the parts. */
  lemma {:induction false} SumByAppend<T>(xs: seq<T>, ys: seq<T>, f: T -> int)
    ensures SumBy(xs + ys, f) == SumBy(xs, f) + SumBy(ys, f)
  {
    if ys == [] {
      assert xs + ys == xs;
    } else {
      var init := ys[..|ys| - 1];
      assert (xs + ys)[..|xs + ys| - 1] == xs + init;
      SumByAppend(xs, init, f);
    }
  }

  /** Integer addition is commutative, so the order of the terms does not matter. */
  lemma {:induction false} SumByPermutation<T>(xs: seq<T>, ys: seq<T>, f: T -> int)
    requires multiset(xs) == multiset(ys)
    ensures SumBy(xs, f) == SumBy(ys, f)
    decreases |xs|
  {
    if xs != [] {
      var last := xs[|xs| - 1];
      var init := xs[..|xs| - 1];
      assert xs == init + [last];
      assert last in multiset(ys);
      var j :| 0 <= j < |ys| && ys[j] == last;
      var rest := ys[..j] + ys[j + 1..];
      assert ys == ys[..j] + [last] + ys[j + 1..];
      assert multiset(ys) == multiset(rest) + multiset{last};
      assert multiset(xs) == multiset(init) + multiset{last};
      assert multiset(init) == multiset(xs) - multiset{last};
      assert multiset(rest) == multiset(ys) - multiset{last};
      SumByPermutation(init, rest, f);
      SumByAppend(ys[..j] + [last], ys[j + 1..], f);
      SumByAppend(ys[..j], [last], f);
      SumByAppend(ys[..j], ys[j + 1..], f);
      assert SumBy([last], f) == f(last) by {
        assert [last][..0] == [];
      }
    }
  }
}
