/** De-duplication by key, keeping the first element of each key in input
    order, as a pass with a `seen` set does it. */
module Dedup {
  import opened Lists

  /** `xs[i]` is the first element of `xs` with its key. */
  predicate FirstWithKey<T, K(==)>(xs: seq<T>, i: int, key: T -> K)
    requires 0 <= i < |xs|
  {
    forall j :: 0 <= j < i ==> key(xs[j]) != key(xs[i])
  }

  /** Reference definition: the elements that are first with their key, in order. */
  function FirstByKey<T, K(==)>(xs: seq<T>, key: T -> K): seq<T>
    decreases |xs|
  {
    if xs == [] then []
    else
      var n := |xs| - 1;
      FirstByKey(xs[..n], key) + (if FirstWithKey(xs, n, key) then [xs[n]] else [])
  }

  /** The indices of the elements FirstByKey keeps. */
  ghost function FirstIndices<T, K>(xs: seq<T>, key: T -> K): seq<int>
    decreases |xs|
  {
    if xs == [] then []
    else
      var n := |xs| - 1;
      FirstIndices(xs[..n], key) + (if FirstWithKey(xs, n, key) then [n] else [])
  }

  /** The keys of the elements of `xs`. */
  function Keys<T, K(==)>(xs: seq<T>, key: T -> K): set<K>
  {
    set k | 0 <= k < |xs| :: key(xs[k])
  }

  lemma KeysSnoc<T, K>(xs: seq<T>, x: T, key: T -> K)
    ensures Keys(xs + [x], key) == Keys(xs, key) + {key(x)}
  {
    var all := xs + [x];
    assert forall k :: 0 <= k < |xs| ==> all[k] == xs[k];
    assert all[|xs|] == x;
  }

  /** The last element is first with its key exactly when no earlier element has that key. */
  lemma FirstWithKeyLast<T, K>(xs: seq<T>, key: T -> K)
    requires xs != []
    ensures FirstWithKey(xs, |xs| - 1, key) <==> key(xs[|xs| - 1]) !in Keys(xs[..|xs| - 1], key)
  {
    var n := |xs| - 1;
    assert forall j :: 0 <= j < n ==> xs[..n][j] == xs[j];
  }

  /** Every key of the input is the key of a kept element, and no other key is. */
  lemma {:induction false} FirstByKeyKeys<T, K>(xs: seq<T>, key: T -> K)
    ensures Keys(FirstByKey(xs, key), key) == Keys(xs, key)
  {
    if xs != [] {
      var n := |xs| - 1;
      var prev := FirstByKey(xs[..n], key);
      FirstByKeyKeys(xs[..n], key);
      FirstWithKeyLast(xs, key);
      assert xs == xs[..n] + [xs[n]];
      KeysSnoc(xs[..n], xs[n], key);
      if FirstWithKey(xs, n, key) {
        KeysSnoc(prev, xs[n], key);
      } else {
        assert FirstByKey(xs, key) == prev;
      }
    }
  }

  /** The pass with a `seen` set: a new element is kept exactly when its key
      is not among the keys of the elements kept so far. */
  lemma FirstByKeySnoc<T, K>(xs: seq<T>, x: T, key: T -> K)
    ensures FirstByKey(xs + [x], key)
         == if key(x) in Keys(FirstByKey(xs, key), key) then FirstByKey(xs, key) else FirstByKey(xs, key) + [x]
  {
    var all := xs + [x];
    assert all[..|xs|] == xs;
    FirstWithKeyLast(all, key);
    FirstByKeyKeys(xs, key);
  }

  /** No two kept elements share a key. */
  lemma {:induction false} FirstByKeyUnique<T, K>(xs: seq<T>, key: T -> K)
    ensures var r := FirstByKey(xs, key);
            forall a, b :: 0 <= a < b < |r| ==> key(r[a]) != key(r[b])
  {
    if xs != [] {
      var n := |xs| - 1;
      var prev := FirstByKey(xs[..n], key);
      FirstByKeyUnique(xs[..n], key);
      if FirstWithKey(xs, n, key) {
        FirstWithKeyLast(xs, key);
        FirstByKeyKeys(xs[..n], key);
        var r := prev + [xs[n]];
        forall a | 0 <= a < |prev| ensures key(r[a]) != key(xs[n]) {
          assert key(prev[a]) in Keys(prev, key);
        }
      }
    }
  }

  /** The kept indices are in range, increasing, and exactly those of the elements first with their key. */
  lemma {:induction false} FirstIndicesExact<T, K>(xs: seq<T>, key: T -> K)
    ensures var idx := FirstIndices(xs, key);
            && (forall r :: 0 <= r < |idx| ==> 0 <= idx[r] < |xs|)
            && (forall r, q :: 0 <= r < q < |idx| ==> idx[r] < idx[q])
            && (forall i :: 0 <= i < |xs| ==> (i in idx <==> FirstWithKey(xs, i, key)))
  {
    if xs != [] {
      var n := |xs| - 1;
      FirstIndicesExact(xs[..n], key);
      var prev := FirstIndices(xs[..n], key);
      assert n !in prev;
      forall i | 0 <= i < n ensures FirstWithKey(xs[..n], i, key) == FirstWithKey(xs, i, key) {
        assert forall j :: 0 <= j <= i ==> xs[..n][j] == xs[j];
      }
    }
  }

  /** Kept element `r` is the input element at `FirstIndices[r]`. */
  lemma {:induction false} FirstByKeyIndexed<T, K>(xs: seq<T>, key: T -> K)
    ensures var r := FirstByKey(xs, key);
            var idx := FirstIndices(xs, key);
            |r| == |idx| && forall a :: 0 <= a < |idx| ==> 0 <= idx[a] < |xs| && r[a] == xs[idx[a]]
  {
    if xs != [] {
      var n := |xs| - 1;
      FirstByKeyIndexed(xs[..n], key);
    }
  }

  /** Kept elements of a prefix are the first kept elements of the whole. */
  lemma {:induction false} FirstByKeyPrefix<T, K>(xs: seq<T>, ys: seq<T>, key: T -> K)
    ensures var p := FirstByKey(xs, key);
            var q := FirstByKey(xs + ys, key);
            |p| <= |q| && q[..|p|] == p
    decreases |ys|
  {
    if ys != [] {
      var n := |ys| - 1;
      var all := xs + ys;
      FirstByKeyPrefix(xs, ys[..n], key);
      assert all[..|all| - 1] == xs + ys[..n];
      var mid := FirstByKey(xs + ys[..n], key);
      var q := FirstByKey(all, key);
      var p := FirstByKey(xs, key);
      assert q[..|mid|] == mid;
      assert q[..|p|] == mid[..|p|];
    } else {
      assert xs + ys == xs;
    }
  }

  /** The pass over the first `n` elements with a `seen` set: a skipped element
      adds nothing, and an image whose key was already seen is dropped. */
  function SeenPass<T, R, K(==)>(s: seq<T>, n: int, skip: T -> bool, f: T --> R, key: R -> K): seq<R>
    requires 0 <= n <= |s|
    requires forall i :: 0 <= i < n && !skip(s[i]) ==> f.requires(s[i])
    decreases n
  {
    if n == 0 then []
    else
      var prev := SeenPass(s, n - 1, skip, f, key);
      if skip(s[n - 1]) then prev
      else if key(f(s[n - 1])) in Keys(prev, key) then prev
      else prev + [f(s[n - 1])]
  }

  /** The pass keeps, of the images of the elements not skipped, the first of each key. */
  lemma {:induction false} SeenPassIsFirstByKey<T, R, K>(s: seq<T>, n: int, skip: T -> bool, f: T --> R, key: R -> K)
    requires 0 <= n <= |s|
    requires forall i :: 0 <= i < n && !skip(s[i]) ==> f.requires(s[i])
    ensures SeenPass(s, n, skip, f, key) == FirstByKey(FilterMap(s, n, skip, f), key)
  {
    if n > 0 {
      SeenPassIsFirstByKey(s, n - 1, skip, f, key);
      if skip(s[n - 1]) {
        assert FilterMap(s, n, skip, f) == FilterMap(s, n - 1, skip, f);
      } else {
        FirstByKeySnoc(FilterMap(s, n - 1, skip, f), f(s[n - 1]), key);
      }
    }
  }

  /** For each kept image, the position of the element it is the image of. */
  ghost function Sources<T, R, K>(s: seq<T>, n: int, skip: T -> bool, f: T --> R, key: R -> K): (src: seq<int>)
    requires 0 <= n <= |s|
    requires forall i :: 0 <= i < n && !skip(s[i]) ==> f.requires(s[i])
    ensures |src| == |FirstByKey(FilterMap(s, n, skip, f), key)|
  {
    var all := FilterMap(s, n, skip, f);
    var idx := KeptPositions(s, n, skip);
    var firsts := FirstIndices(all, key);
    FilterMapIndexed(s, n, skip, f);
    FirstIndicesExact(all, key);
    FirstByKeyIndexed(all, key);
    seq(|firsts|, a requires 0 <= a < |firsts| => idx[firsts[a]])
  }

  /** Kept image `a` is the image of the element at `Sources[a]`, which is not skipped. */
  lemma SourceAt<T, R, K>(s: seq<T>, n: int, skip: T -> bool, f: T --> R, key: R -> K, a: int)
    requires 0 <= n <= |s|
    requires forall i :: 0 <= i < n && !skip(s[i]) ==> f.requires(s[i])
    requires 0 <= a < |FirstByKey(FilterMap(s, n, skip, f), key)|
    ensures var src := Sources(s, n, skip, f, key);
            0 <= src[a] < n && !skip(s[src[a]]) && FirstByKey(FilterMap(s, n, skip, f), key)[a] == f(s[src[a]])
  {
    var all := FilterMap(s, n, skip, f);
    FilterMapIndexed(s, n, skip, f);
    FirstByKeyIndexed(all, key);
    FirstIndicesExact(all, key);
  }

  /** The positions of the kept images increase. */
  lemma SourcesIncrease<T, R, K>(s: seq<T>, n: int, skip: T -> bool, f: T --> R, key: R -> K, a: int, b: int)
    requires 0 <= n <= |s|
    requires forall i :: 0 <= i < n && !skip(s[i]) ==> f.requires(s[i])
    requires 0 <= a < b < |Sources(s, n, skip, f, key)|
    ensures Sources(s, n, skip, f, key)[a] < Sources(s, n, skip, f, key)[b]
  {
    var all := FilterMap(s, n, skip, f);
    var idx := KeptPositions(s, n, skip);
    var firsts := FirstIndices(all, key);
    FilterMapIndexed(s, n, skip, f);
    KeptPositionsExact(s, n, skip);
    FirstIndicesExact(all, key);
    assert firsts[a] < firsts[b];
  }

  /** An element before the element at `FirstIndices[a]` has a key other than kept element `a`. */
  lemma FirstByKeyEarliest<T, K>(xs: seq<T>, key: T -> K, a: int, c: int)
    requires 0 <= a < |FirstIndices(xs, key)|
    requires 0 <= c < FirstIndices(xs, key)[a]
    ensures |FirstByKey(xs, key)| == |FirstIndices(xs, key)| && FirstIndices(xs, key)[a] < |xs|
    ensures key(xs[c]) != key(FirstByKey(xs, key)[a])
  {
    var idx := FirstIndices(xs, key);
    FirstIndicesExact(xs, key);
    FirstByKeyIndexed(xs, key);
    assert idx[a] in idx;
    assert FirstWithKey(xs, idx[a], key);
  }

  /** A position that is not skipped is kept, at an index that orders like the position. */
  lemma KeptPositionOf<T>(s: seq<T>, n: int, skip: T -> bool, j: int, b: int) returns (c: int)
    requires 0 <= n <= |s| && 0 <= j < n && !skip(s[j])
    requires 0 <= b < |KeptPositions(s, n, skip)| && j < KeptPositions(s, n, skip)[b]
    ensures 0 <= c < b && KeptPositions(s, n, skip)[c] == j
  {
    var idx := KeptPositions(s, n, skip);
    KeptPositionsExact(s, n, skip);
    c :| 0 <= c < |idx| && idx[c] == j;
  }

  /** No element before the source of kept image `a` that is not skipped has an image with its key. */
  lemma SourceEarliest<T, R, K>(s: seq<T>, n: int, skip: T -> bool, f: T --> R, key: R -> K, a: int, j: int)
    requires 0 <= n <= |s|
    requires forall i :: 0 <= i < n && !skip(s[i]) ==> f.requires(s[i])
    requires 0 <= a < |FirstByKey(FilterMap(s, n, skip, f), key)|
    requires 0 <= j < n && j < Sources(s, n, skip, f, key)[a] && !skip(s[j])
    ensures key(f(s[j])) != key(FirstByKey(FilterMap(s, n, skip, f), key)[a])
  {
    var all := FilterMap(s, n, skip, f);
    var idx := KeptPositions(s, n, skip);
    var firsts := FirstIndices(all, key);
    FilterMapIndexed(s, n, skip, f);
    FirstByKeyIndexed(all, key);
    FirstIndicesExact(all, key);
    var b := firsts[a];
    var c := KeptPositionOf(s, n, skip, j, b);
    FirstByKeyEarliest(all, key, a, c);
  }

  /** Every kept image is the image of an element that is not skipped: kept
      image `a` is that of element `src[a]`, no element before `src[a]` that is
      not skipped has an image with the same key, and the positions increase. */
  lemma FirstByKeyFilterMapFrom<T, R, K>(s: seq<T>, n: int, skip: T -> bool, f: T --> R, key: R -> K) returns (src: seq<int>)
    requires 0 <= n <= |s|
    requires forall i :: 0 <= i < n && !skip(s[i]) ==> f.requires(s[i])
    ensures var r := FirstByKey(FilterMap(s, n, skip, f), key);
            && |src| == |r|
            && (forall a :: 0 <= a < |r| ==> 0 <= src[a] < n && !skip(s[src[a]]) && r[a] == f(s[src[a]]))
            && (forall a, j :: 0 <= a < |r| && 0 <= j < src[a] && !skip(s[j]) ==> key(f(s[j])) != key(r[a]))
            && (forall a, b :: 0 <= a < b < |r| ==> src[a] < src[b])
  {
    var r := FirstByKey(FilterMap(s, n, skip, f), key);
    src := Sources(s, n, skip, f, key);
    forall a | 0 <= a < |r| ensures 0 <= src[a] < n && !skip(s[src[a]]) && r[a] == f(s[src[a]]) {
      SourceAt(s, n, skip, f, key, a);
    }
    forall a, j | 0 <= a < |r| && 0 <= j < src[a] && !skip(s[j]) ensures key(f(s[j])) != key(r[a]) {
      SourceAt(s, n, skip, f, key, a);
      SourceEarliest(s, n, skip, f, key, a, j);
    }
    forall a, b | 0 <= a < b < |r| ensures src[a] < src[b] {
      SourcesIncrease(s, n, skip, f, key, a, b);
    }
  }

  /** The key of every element that is not skipped is the key of a kept image. */
  lemma FirstByKeyFilterMapKeys<T, R, K>(s: seq<T>, n: int, skip: T -> bool, f: T --> R, key: R -> K)
    requires 0 <= n <= |s|
    requires forall i :: 0 <= i < n && !skip(s[i]) ==> f.requires(s[i])
    ensures var r := FirstByKey(FilterMap(s, n, skip, f), key);
            forall i :: 0 <= i < n && !skip(s[i]) ==> key(f(s[i])) in Keys(r, key)
  {
    var all := FilterMap(s, n, skip, f);
    var idx := KeptPositions(s, n, skip);
    FirstByKeyKeys(all, key);
    FilterMapIndexed(s, n, skip, f);
    KeptPositionsExact(s, n, skip);
    forall i | 0 <= i < n && !skip(s[i]) ensures key(f(s[i])) in Keys(all, key) {
      var a :| 0 <= a < |idx| && idx[a] == i;
      assert key(all[a]) in Keys(all, key);
    }
  }
}
