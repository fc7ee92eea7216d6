/** Python's list comprehensions and slices over sequences: mapping,
    filtering, `xs[:n]`, and order-preserving selection. */
module Lists {

  /** `s[:n]` for any integer `n`: a negative `n` drops the last `-n` elements. */
  function PyPrefix<T>(s: seq<T>, n: int): (r: seq<T>)
    ensures |r| == if n >= 0 then (if n < |s| then n else |s|) else (if |s| + n > 0 then |s| + n else 0)
    ensures r == s[..|r|]
  {
    if n >= 0 then (if n < |s| then s[..n] else s)
    else if |s| + n > 0 then s[..|s| + n] else []
  }

  /** `[f(x) for x in s]`; `f` need only be defined on the elements of `s`. */
  function MapSeq<S, T>(f: S --> T, s: seq<S>): seq<T>
    requires forall k :: 0 <= k < |s| ==> f.requires(s[k])
    decreases |s|
  {
    if s == [] then [] else MapSeq(f, s[..|s| - 1]) + [f(s[|s| - 1])]
  }

  lemma {:induction false} MapSeqIndexed<S, T>(f: S --> T, s: seq<S>)
    requires forall k :: 0 <= k < |s| ==> f.requires(s[k])
    ensures |MapSeq(f, s)| == |s|
    ensures forall k :: 0 <= k < |s| ==> MapSeq(f, s)[k] == f(s[k])
  {
    if s != [] {
      var n := |s| - 1;
      MapSeqIndexed(f, s[..n]);
      assert forall k :: 0 <= k < n ==> s[..n][k] == s[k];
    }
  }

  /** Extending the input by one element extends the output by its image. */
  lemma MapSeqSnoc<S, T>(f: S --> T, s: seq<S>, n: int)
    requires 0 <= n < |s| && forall k :: 0 <= k <= n ==> f.requires(s[k])
    ensures MapSeq(f, s[..n + 1]) == MapSeq(f, s[..n]) + [f(s[n])]
  {
    assert s[..n + 1][..n] == s[..n];
  }

  /** `[f(x) for x in s[:n] if not skip(x)]`; `f` need only be defined on the elements kept. */
  function FilterMap<T, R>(s: seq<T>, n: int, skip: T -> bool, f: T --> R): seq<R>
    requires 0 <= n <= |s|
    requires forall i :: 0 <= i < n && !skip(s[i]) ==> f.requires(s[i])
    decreases n
  {
    if n == 0 then []
    else FilterMap(s, n - 1, skip, f) + (if skip(s[n - 1]) then [] else [f(s[n - 1])])
  }

  /** The positions among the first `n` that FilterMap keeps. */
  ghost function KeptPositions<T>(s: seq<T>, n: int, skip: T -> bool): seq<int>
    requires 0 <= n <= |s|
    decreases n
  {
    if n == 0 then [] else KeptPositions(s, n - 1, skip) + (if skip(s[n - 1]) then [] else [n - 1])
  }

  /** The kept positions are in range, increasing, and exactly those not skipped. */
  lemma {:induction false} KeptPositionsExact<T>(s: seq<T>, n: int, skip: T -> bool)
    requires 0 <= n <= |s|
    ensures var idx := KeptPositions(s, n, skip);
            && (forall r :: 0 <= r < |idx| ==> 0 <= idx[r] < n)
            && (forall r, q :: 0 <= r < q < |idx| ==> idx[r] < idx[q])
            && (forall i :: 0 <= i < n ==> (i in idx <==> !skip(s[i])))
  {
    if n > 0 {
      KeptPositionsExact(s, n - 1, skip);
      var prev := KeptPositions(s, n - 1, skip);
      var last: seq<int> := if skip(s[n - 1]) then [] else [n - 1];
      assert KeptPositions(s, n, skip) == prev + last;
      assert n - 1 !in prev;
    }
  }

  /** Element `r` of the result is the image of the element at kept position `r`. */
  lemma {:induction false} FilterMapIndexed<T, R>(s: seq<T>, n: int, skip: T -> bool, f: T --> R)
    requires 0 <= n <= |s|
    requires forall i :: 0 <= i < n && !skip(s[i]) ==> f.requires(s[i])
    ensures var r := FilterMap(s, n, skip, f);
            var idx := KeptPositions(s, n, skip);
            && |r| == |idx|
            && forall a :: 0 <= a < |idx| ==> 0 <= idx[a] < n && !skip(s[idx[a]]) && r[a] == f(s[idx[a]])
  {
    if n > 0 {
      FilterMapIndexed(s, n - 1, skip, f);
    }
  }

  /** The result for the first `n` elements is a prefix of the result for the first `m`. */
  lemma {:induction false} FilterMapPrefix<T, R>(s: seq<T>, n: int, m: int, skip: T -> bool, f: T --> R)
    requires 0 <= n <= m <= |s|
    requires forall i :: 0 <= i < m && !skip(s[i]) ==> f.requires(s[i])
    ensures var pre := FilterMap(s, n, skip, f);
            var all := FilterMap(s, m, skip, f);
            |pre| <= |all| && all == pre + all[|pre|..]
  {
    if n < m {
      FilterMapPrefix(s, n, m - 1, skip, f);
      var pre := FilterMap(s, n, skip, f);
      var mid := FilterMap(s, m - 1, skip, f);
      var all := FilterMap(s, m, skip, f);
      assert all[..|mid|] == mid;
      assert all[|pre|..] == mid[|pre|..] + all[|mid|..];
    }
  }

  /** The result for the first `n` elements depends on those elements only. */
  lemma {:induction false} FilterMapAgree<T, R>(s: seq<T>, t: seq<T>, n: int, skip: T -> bool, f: T --> R)
    requires 0 <= n <= |s| && n <= |t| && s[..n] == t[..n]
    requires forall i :: 0 <= i < n && !skip(s[i]) ==> f.requires(s[i])
    ensures forall i :: 0 <= i < n && !skip(t[i]) ==> f.requires(t[i])
    ensures FilterMap(s, n, skip, f) == FilterMap(t, n, skip, f)
  {
    assert forall i :: 0 <= i < n ==> s[i] == s[..n][i] == t[..n][i] == t[i];
    if n > 0 {
      assert s[..n - 1] == s[..n][..n - 1] == t[..n][..n - 1] == t[..n - 1];
      FilterMapAgree(s, t, n - 1, skip, f);
    }
  }
}
