/** Python's `sorted(xs, key=...)` on float keys: a stable sort. */
module Sorting {
  import opened Offers
  import opened Lists

  predicate SortedBy<T>(s: seq<T>, key: T -> Amount)
  {
    forall i, j :: 0 <= i < j < |s| ==> Le(key(s[i]), key(s[j]))
  }

  /** Puts `x` in front of the first element whose key is not below its own. */
  function InsertBy<T>(x: T, s: seq<T>, key: T -> Amount): (r: seq<T>)
    ensures |r| == |s| + 1
  {
    if s == [] then [x]
    else if Le(key(x), key(s[0])) then [x] + s
    else [s[0]] + InsertBy(x, s[1..], key)
  }

  /** Inserting adds `x` and loses nothing. */
  lemma {:induction false} InsertByPermutes<T>(x: T, s: seq<T>, key: T -> Amount)
    ensures multiset(InsertBy(x, s, key)) == multiset(s) + multiset{x}
  {
    if s == [] {
    } else if Le(key(x), key(s[0])) {
      assert InsertBy(x, s, key) == [x] + s;
    } else {
      var t := InsertBy(x, s[1..], key);
      InsertByPermutes(x, s[1..], key);
      assert InsertBy(x, s, key) == [s[0]] + t;
      assert multiset([s[0]] + t) == multiset([s[0]]) + multiset(t);
      assert s == [s[0]] + s[1..];
      assert multiset(s) == multiset([s[0]]) + multiset(s[1..]);
    }
  }

  lemma {:induction false} InsertByBounded<T>(x: T, s: seq<T>, key: T -> Amount, lo: Amount)
    requires Le(lo, key(x))
    requires forall j :: 0 <= j < |s| ==> Le(lo, key(s[j]))
    ensures forall k :: 0 <= k < |s| + 1 ==> Le(lo, key(InsertBy(x, s, key)[k]))
  {
    if s != [] && !Le(key(x), key(s[0])) {
      InsertByBounded(x, s[1..], key, lo);
    }
  }

  lemma {:induction false} InsertBySorted<T>(x: T, s: seq<T>, key: T -> Amount)
    requires SortedBy(s, key)
    ensures SortedBy(InsertBy(x, s, key), key)
  {
    if s != [] && !Le(key(x), key(s[0])) {
      InsertBySorted(x, s[1..], key);
      LeTotal(key(x), key(s[0]));
      InsertByBounded(x, s[1..], key, key(s[0]));
    }
  }

  /** `sorted(s, key=key)`. */
  function SortBy<T>(s: seq<T>, key: T -> Amount): (r: seq<T>)
    ensures |r| == |s|
    ensures SortedBy(r, key)
    ensures multiset(r) == multiset(s)
  {
    if s == [] then []
    else
      assert s == [s[0]] + s[1..];
      InsertBySorted(s[0], SortBy(s[1..], key), key);
      InsertByPermutes(s[0], SortBy(s[1..], key), key);
      InsertBy(s[0], SortBy(s[1..], key), key)
  }

  /** The elements of `s` whose key is `k`, in order. */
  function WithKey<T>(s: seq<T>, key: T -> Amount, k: Amount): seq<T>
  {
    if s == [] then [] else (if key(s[0]) == k then [s[0]] else []) + WithKey(s[1..], key, k)
  }

  lemma WithKeyCons<T>(y: T, t: seq<T>, key: T -> Amount, k: Amount)
    ensures WithKey([y] + t, key, k) == (if key(y) == k then [y] else []) + WithKey(t, key, k)
  {
    assert ([y] + t)[1..] == t;
  }

  /** The elements of a prefix with key `k` are a prefix of those of the whole. */
  lemma {:induction false} WithKeyPrefix<T>(s: seq<T>, m: int, key: T -> Amount, k: Amount)
    requires 0 <= m <= |s|
    ensures var p := WithKey(s[..m], key, k);
            var w := WithKey(s, key, k);
            |p| <= |w| && w[..|p|] == p
  {
    if m > 0 {
      WithKeyPrefix(s[1..], m - 1, key, k);
      assert s[..m][1..] == s[1..][..m - 1];
    }
  }

  lemma {:induction false} InsertByWithKey<T>(x: T, s: seq<T>, key: T -> Amount, k: Amount)
    ensures WithKey(InsertBy(x, s, key), key, k)
         == (if key(x) == k then [x] else []) + WithKey(s, key, k)
  {
    if s == [] {
    } else if Le(key(x), key(s[0])) {
      WithKeyCons(x, s, key, k);
    } else {
      InsertByWithKey(x, s[1..], key, k);
      InsertPastHead(x, s, key, k);
    }
  }

  /** The step of InsertByWithKey where `x` goes past the head `s[0]`, whose key is smaller. */
  lemma InsertPastHead<T>(x: T, s: seq<T>, key: T -> Amount, k: Amount)
    requires s != [] && !Le(key(x), key(s[0]))
    requires WithKey(InsertBy(x, s[1..], key), key, k)
          == (if key(x) == k then [x] else []) + WithKey(s[1..], key, k)
    ensures WithKey(InsertBy(x, s, key), key, k)
         == (if key(x) == k then [x] else []) + WithKey(s, key, k)
  {
    var t := InsertBy(x, s[1..], key);
    var rest := WithKey(s[1..], key, k);
    assert InsertBy(x, s, key) == [s[0]] + t;
    WithKeyCons(s[0], t, key, k);
    assert s == [s[0]] + s[1..];
    WithKeyCons(s[0], s[1..], key, k);
    if key(x) == k {
      assert key(s[0]) != k;
      assert WithKey(InsertBy(x, s, key), key, k) == [x] + rest;
      assert WithKey(s, key, k) == rest;
    } else if key(s[0]) == k {
      assert WithKey(InsertBy(x, s, key), key, k) == [s[0]] + rest;
      assert WithKey(s, key, k) == [s[0]] + rest;
    } else {
      assert WithKey(InsertBy(x, s, key), key, k) == rest;
      assert WithKey(s, key, k) == rest;
    }
  }

  /** The sort is stable: elements with equal keys keep their relative order. */
  lemma {:induction false} SortByStable<T>(s: seq<T>, key: T -> Amount, k: Amount)
    ensures WithKey(SortBy(s, key), key, k) == WithKey(s, key, k)
  {
    if s != [] {
      SortByStable(s[1..], key, k);
      InsertByWithKey(s[0], SortBy(s[1..], key), key, k);
    }
  }

  /** Every element of a prefix of a sorted sequence is no dearer than every element left out. */
  lemma SortedPrefixIsCheapest<T>(s: seq<T>, key: T -> Amount, m: nat)
    requires SortedBy(s, key) && m <= |s|
    ensures multiset(s[m..]) == multiset(s) - multiset(s[..m])
    ensures forall x, y :: x in multiset(s[..m]) && y in multiset(s[m..]) ==> Le(key(x), key(y))
  {
    assert s == s[..m] + s[m..];
    forall x, y | x in multiset(s[..m]) && y in multiset(s[m..]) ensures Le(key(x), key(y)) {
      var i :| 0 <= i < m && s[..m][i] == x;
      var j :| 0 <= j < |s| - m && s[m..][j] == y;
      assert s[i] == x && s[m + j] == y;
    }
  }

  /** `sorted(s, key=key)[:n]`. */
  function SmallestBy<T>(s: seq<T>, key: T -> Amount, n: int): seq<T>
  {
    PyPrefix(SortBy(s, key), n)
  }

  /** `sorted(s, key=key)[:n]` is in ascending order, is taken from `s`, has
      `n` elements when `0 <= n <= |s|` and all of `s` when `n > |s|`, and no
      element of `s` left out has a smaller key than an element taken. */
  lemma SmallestBySpec<T>(s: seq<T>, key: T -> Amount, n: int)
    ensures var r := SmallestBy(s, key, n);
            && SortedBy(r, key)
            && multiset(r) <= multiset(s)
            && (n >= 0 ==> |r| == if n < |s| then n else |s|)
            && forall x, y :: x in multiset(r) && y in multiset(s) - multiset(r) ==> Le(key(x), key(y))
  {
    var sorted := SortBy(s, key);
    var r := SmallestBy(s, key, n);
    SortedPrefixIsCheapest(sorted, key, |r|);
    assert sorted == r + sorted[|r|..];
    assert multiset(sorted) == multiset(r) + multiset(sorted[|r|..]);
  }
}
