/**
 * A stable sort on a sequence by an integer key, highest key first: the
 * behaviour of Python's `list.sort(key=..., reverse=True)` and
 * `sorted(..., reverse=True)`, which keep equal keys in their input order.
 * An ascending stable sort is obtained with a negated key.
 */
module Sorting {

  ghost predicate SortedDesc<T>(s: seq<T>, key: T -> int) {
    forall i, j | 0 <= i < j < |s| :: key(s[i]) >= key(s[j])
  }

  /** The elements of `s` whose key is `k`, in their order in `s`. */
  function WithKey<T>(s: seq<T>, key: T -> int, k: int): (r: seq<T>)
    ensures |r| <= |s|
  {
    if s == [] then []
    else (if key(s[0]) == k then [s[0]] else []) + WithKey(s[1..], key, k)
  }

  lemma {:induction false} WithKeyConcat<T>(a: seq<T>, b: seq<T>, key: T -> int, k: int)
    ensures WithKey(a + b, key, k) == WithKey(a, key, k) + WithKey(b, key, k)
    decreases |a|
  {
    if a == [] {
      assert a + b == b;
    } else {
      var h := if key(a[0]) == k then [a[0]] else [];
      var ab := a + b;
      assert ab[0] == a[0] && ab[1..] == a[1..] + b;
      assert WithKey(ab, key, k) == h + WithKey(a[1..] + b, key, k);
      WithKeyConcat(a[1..], b, key, k);
      assert WithKey(a, key, k) == h + WithKey(a[1..], key, k);
    }
  }

  lemma {:induction false} WithKeyNone<T>(s: seq<T>, key: T -> int, k: int)
    requires forall i | 0 <= i < |s| :: key(s[i]) < k
    ensures WithKey(s, key, k) == []
    decreases |s|
  {
    if s != [] {
      WithKeyNone(s[1..], key, k);
    }
  }

  /** Inserts `x` after every element whose key is at least `key(x)`. */
  function Insert<T>(x: T, s: seq<T>, key: T -> int): (r: seq<T>)
    ensures |r| == |s| + 1
    decreases |s|
  {
    if s == [] then [x]
    else if key(s[0]) >= key(x) then [s[0]] + Insert(x, s[1..], key)
    else [x] + s
  }

  /** `Insert` adds `x` and keeps every element of `s`. */
  lemma {:induction false} InsertPermutes<T>(x: T, s: seq<T>, key: T -> int)
    ensures multiset(Insert(x, s, key)) == multiset(s) + multiset{x}
    decreases |s|
  {
    if s != [] && key(s[0]) >= key(x) {
      InsertPermutes(x, s[1..], key);
      assert s == [s[0]] + s[1..];
    }
  }

  /** Every element of `Insert(x, s)` comes from `s` or is `x`. */
  lemma InsertElements<T>(x: T, s: seq<T>, key: T -> int, e: T)
    requires e in Insert(x, s, key)
    ensures e == x || e in s
  {
    InsertPermutes(x, s, key);
    assert e in multiset(Insert(x, s, key));
  }

  lemma {:induction false} InsertSorted<T>(x: T, s: seq<T>, key: T -> int)
    requires SortedDesc(s, key)
    ensures SortedDesc(Insert(x, s, key), key)
    decreases |s|
  {
    if s != [] && key(s[0]) >= key(x) {
      var tail := Insert(x, s[1..], key);
      InsertSorted(x, s[1..], key);
      var r := [s[0]] + tail;
      forall i, j | 0 <= i < j < |r|
        ensures key(r[i]) >= key(r[j])
      {
        if i == 0 {
          assert r[j] in tail;
          InsertElements(x, s[1..], key, r[j]);
          if r[j] != x {
            var m :| 0 <= m < |s[1..]| && s[1..][m] == r[j];
            assert s[m + 1] == r[j];
          }
        } else {
          assert r[i] == tail[i - 1] && r[j] == tail[j - 1];
        }
      }
    }
  }

  /** Stable sort, highest key first (insertion sort from the left). */
  function SortDesc<T>(s: seq<T>, key: T -> int): (r: seq<T>)
    ensures |r| == |s|
    ensures multiset(r) == multiset(s)
    decreases |s|
  {
    if s == [] then []
    else
      assert s == s[..|s| - 1] + [s[|s| - 1]];
      InsertPermutes(s[|s| - 1], SortDesc(s[..|s| - 1], key), key);
      Insert(s[|s| - 1], SortDesc(s[..|s| - 1], key), key)
  }

  /** The output of `SortDesc` is ordered by key, highest first. */
  lemma {:induction false} SortDescSorted<T>(s: seq<T>, key: T -> int)
    ensures SortedDesc(SortDesc(s, key), key)
    decreases |s|
  {
    if s != [] {
      SortDescSorted(s[..|s| - 1], key);
      InsertSorted(s[|s| - 1], SortDesc(s[..|s| - 1], key), key);
    }
  }

  lemma SortedTail<T>(s: seq<T>, key: T -> int)
    requires s != [] && SortedDesc(s, key)
    ensures SortedDesc(s[1..], key)
    ensures forall i | 0 <= i < |s| :: key(s[i]) <= key(s[0])
  {
    forall i, j | 0 <= i < j < |s| - 1
      ensures key(s[1..][i]) >= key(s[1..][j])
    {
      assert s[1..][i] == s[i + 1] && s[1..][j] == s[j + 1];
    }
  }

  lemma {:induction false} InsertWithKey<T>(x: T, s: seq<T>, key: T -> int, k: int)
    requires SortedDesc(s, key)
    ensures WithKey(Insert(x, s, key), key, k)
            == WithKey(s, key, k) + (if key(x) == k then [x] else [])
    decreases |s|
  {
    var t := if key(x) == k then [x] else [];
    if s == [] {
    } else if key(s[0]) >= key(x) {
      var h := if key(s[0]) == k then [s[0]] else [];
      var rest := Insert(x, s[1..], key);
      assert Insert(x, s, key) == [s[0]] + rest;
      assert WithKey(Insert(x, s, key), key, k) == h + WithKey(rest, key, k) by {
        WithKeyConcat([s[0]], rest, key, k);
      }
      SortedTail(s, key);
      InsertWithKey(x, s[1..], key, k);
      assert WithKey(s, key, k) == h + WithKey(s[1..], key, k);
      assert h + (WithKey(s[1..], key, k) + t) == (h + WithKey(s[1..], key, k)) + t;
    } else {
      assert Insert(x, s, key) == [x] + s;
      WithKeyConcat([x], s, key, k);
      assert WithKey([x], key, k) == t;
      if key(x) == k {
        SortedTail(s, key);
        WithKeyNone(s, key, k);
        assert t + [] == [] + t;
      } else {
        assert [] + WithKey(s, key, k) == WithKey(s, key, k) + [];
      }
    }
  }

  /**
   * Stability: for every key, the elements carrying it appear in the sorted
   * output in exactly their input order. Together with sortedness this fixes
   * the output completely.
   */
  lemma WithKeySnoc<T>(init: seq<T>, last: T, key: T -> int, k: int)
    ensures WithKey(init + [last], key, k) == WithKey(init, key, k) + (if key(last) == k then [last] else [])
  {
    assert [last][1..] == [];
    WithKeyConcat(init, [last], key, k);
  }

  lemma {:induction false} SortDescStable<T>(s: seq<T>, key: T -> int, k: int)
    ensures WithKey(SortDesc(s, key), key, k) == WithKey(s, key, k)
    decreases |s|
  {
    if s != [] {
      var init, last := s[..|s| - 1], s[|s| - 1];
      var sorted := SortDesc(init, key);
      var t := if key(last) == k then [last] else [];
      assert s == init + [last];
      assert SortDesc(s, key) == Insert(last, sorted, key);
      SortDescSorted(init, key);
      InsertWithKey(last, sorted, key, k);
      SortDescStable(init, key, k);
      WithKeySnoc(init, last, key, k);
      calc {
        WithKey(SortDesc(s, key), key, k);
        WithKey(Insert(last, sorted, key), key, k);
        WithKey(sorted, key, k) + t;
        WithKey(init, key, k) + t;
        WithKey(init + [last], key, k);
      }
    }
  }

  /** The sorted sequence holds exactly the elements of the input. */
  lemma SortDescMembers<T>(s: seq<T>, key: T -> int)
    ensures forall x :: x in SortDesc(s, key) <==> x in s
  {
    var r := SortDesc(s, key);
    forall x
      ensures x in r <==> x in s
    {
      assert x in r <==> x in multiset(r);
      assert x in s <==> x in multiset(s);
    }
  }
}
