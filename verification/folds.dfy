/**
 * Sums and counts over sequences, the folds behind the CRM's report
 * dictionaries (`total += value`, `count += 1` inside a `for` loop).
 * Each fold is defined on the last element, as the loop that builds it.
 */
module Folds {

  function SumOf<T>(s: seq<T>, f: T -> int): int
    decreases |s|
  {
    if s == [] then 0 else SumOf(s[..|s| - 1], f) + f(s[|s| - 1])
  }

  function RealSumOf<T>(s: seq<T>, f: T -> real): real
    decreases |s|
  {
    if s == [] then 0.0 else RealSumOf(s[..|s| - 1], f) + f(s[|s| - 1])
  }

  /** How many elements of `s` satisfy `p`. */
  function CountOf<T>(s: seq<T>, p: T -> bool): (n: nat)
    ensures n <= |s|
    decreases |s|
  {
    if s == [] then 0 else CountOf(s[..|s| - 1], p) + (if p(s[|s| - 1]) then 1 else 0)
  }

  lemma SumOfSnoc<T>(s: seq<T>, x: T, f: T -> int)
    ensures SumOf(s + [x], f) == SumOf(s, f) + f(x)
  {
    assert (s + [x])[..|s|] == s;
  }

  lemma RealSumOfSnoc<T>(s: seq<T>, x: T, f: T -> real)
    ensures RealSumOf(s + [x], f) == RealSumOf(s, f) + f(x)
  {
    assert (s + [x])[..|s|] == s;
  }

  lemma CountOfSnoc<T>(s: seq<T>, x: T, p: T -> bool)
    ensures CountOf(s + [x], p) == CountOf(s, p) + (if p(x) then 1 else 0)
  {
    assert (s + [x])[..|s|] == s;
  }

  /** Counting from the front: the first element's contribution comes first. */
  lemma {:induction false} CountOfCons<T>(x: T, s: seq<T>, p: T -> bool)
    ensures CountOf([x] + s, p) == (if p(x) then 1 else 0) + CountOf(s, p)
    decreases |s|
  {
    if s == [] {
      assert ([x] + s)[..0] == [];
    } else {
      var n := |s| - 1;
      assert ([x] + s)[..|s|] == [x] + s[..n];
      CountOfCons(x, s[..n], p);
    }
  }

  /** A sequence holding an element that satisfies `p` has a positive count. */
  lemma {:induction false} CountOfPositive<T>(s: seq<T>, i: nat, p: T -> bool)
    requires i < |s| && p(s[i])
    ensures CountOf(s, p) > 0
    decreases |s|
  {
    if i < |s| - 1 {
      CountOfPositive(s[..|s| - 1], i, p);
    }
  }

  /** Replacing one element changes the sum by the difference of the two values. */
  lemma {:induction false} SumOfUpdate<T>(s: seq<T>, k: nat, x: T, f: T -> int)
    requires k < |s|
    ensures SumOf(s[k := x], f) == SumOf(s, f) - f(s[k]) + f(x)
    decreases |s|
  {
    var n := |s| - 1;
    if k < n {
      assert s[k := x][..n] == s[..n][k := x];
      SumOfUpdate(s[..n], k, x, f);
    } else {
      assert s[k := x][..n] == s[..n];
    }
  }

  lemma {:induction false} RealSumOfUpdate<T>(s: seq<T>, k: nat, x: T, f: T -> real)
    requires k < |s|
    ensures RealSumOf(s[k := x], f) == RealSumOf(s, f) - f(s[k]) + f(x)
    decreases |s|
  {
    var n := |s| - 1;
    if k < n {
      assert s[k := x][..n] == s[..n][k := x];
      RealSumOfUpdate(s[..n], k, x, f);
    } else {
      assert s[k := x][..n] == s[..n];
    }
  }

  /** Elementwise bounded terms have bounded sums. */
  lemma {:induction false} RealSumOfLe<T>(s: seq<T>, f: T -> real, g: T -> real)
    requires forall i | 0 <= i < |s| :: f(s[i]) <= g(s[i])
    ensures RealSumOf(s, f) <= RealSumOf(s, g)
    decreases |s|
  {
    if s != [] {
      RealSumOfLe(s[..|s| - 1], f, g);
    }
  }
}
