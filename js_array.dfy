/**
 * The parts of JavaScript's `Array.prototype` that the services rely on:
 * `slice` with its relative (negative) indices, and `filter`. Arrays are
 * modelled as sequences; a JavaScript array returned by `slice` or `filter`
 * is a fresh array, which the model expresses by returning a new value.
 */
module JsArray {

  function Min(a: int, b: int): int { if a <= b then a else b }

  function Max(a: int, b: int): int { if a <= b then b else a }

  /** No element occurs twice. */
  predicate NoDup<T(==)>(s: seq<T>) {
    forall i, j :: 0 <= i < j < |s| ==> s[i] != s[j]
  }

  /**
   * How `slice` turns one of its integer arguments into a position of an
   * array of length `len`: a negative argument counts back from the end,
   * and the result is clamped into 0..len. Note that `-0` is `0`.
   */
  function RelativeIndex(rel: int, len: nat): (k: nat)
    ensures k <= len
  {
    if rel < 0 then Max(len + rel, 0) else Min(rel, len)
  }

  /** `s.slice(start, end)`: the elements from position `start` up to, not including, `end`. */
  function Slice<T>(s: seq<T>, start: int, end: int): (r: seq<T>)
    ensures |r| <= |s|
    ensures RelativeIndex(start, |s|) <= RelativeIndex(end, |s|) ==>
              r == s[RelativeIndex(start, |s|)..RelativeIndex(end, |s|)]
    ensures RelativeIndex(end, |s|) <= RelativeIndex(start, |s|) ==> r == []
  {
    var from, to := RelativeIndex(start, |s|), RelativeIndex(end, |s|);
    if from < to then s[from..to] else []
  }

  /** `s.slice(start)`: an omitted end argument means the length of the array. */
  function SliceFrom<T>(s: seq<T>, start: int): (r: seq<T>)
    ensures r == s[RelativeIndex(start, |s|)..]
  {
    Slice(s, start, |s|)
  }

  /** `s.slice(-n)` with `n >= 1` is the last `min(n, |s|)` elements, in order. */
  lemma SliceLast<T>(s: seq<T>, n: int)
    requires 1 <= n
    ensures SliceFrom(s, -n) == s[|s| - Min(n, |s|)..]
    ensures |SliceFrom(s, -n)| == Min(n, |s|)
  {
  }

  /** `s.slice(0, n)` with `n >= 0` is the first `min(n, |s|)` elements, in order. */
  lemma SliceFirst<T>(s: seq<T>, n: int)
    requires 0 <= n
    ensures Slice(s, 0, n) == s[..Min(n, |s|)]
    ensures |Slice(s, 0, n)| <= n
  {
  }

  /** `s.filter(p)`: the elements satisfying `p`, in their original order. */
  function Filter<T>(s: seq<T>, p: T -> bool): (r: seq<T>)
    ensures |r| <= |s|
    ensures forall x :: x in r ==> x in s && p(x)
    ensures forall x :: x in s && p(x) ==> x in r
  {
    if s == [] then []
    else if p(s[0]) then [s[0]] + Filter(s[1..], p)
    else Filter(s[1..], p)
  }

  /** Filtering distributes over concatenation; with the one-element case this pins `Filter` down. */
  lemma {:induction false} FilterConcat<T>(a: seq<T>, b: seq<T>, p: T -> bool)
    ensures Filter(a + b, p) == Filter(a, p) + Filter(b, p)
  {
    if a == [] {
      assert a + b == b;
    } else {
      assert (a + b)[1..] == a[1..] + b;
      FilterConcat(a[1..], b, p);
    }
  }

  /** When every element satisfies `p`, filtering keeps the whole sequence. */
  lemma {:induction false} FilterAll<T>(s: seq<T>, p: T -> bool)
    requires forall x :: x in s ==> p(x)
    ensures Filter(s, p) == s
  {
    if s != [] {
      FilterAll(s[1..], p);
    }
  }

  /** `a` is obtained from `b` by deleting zero or more elements. */
  ghost predicate IsSubsequence<T>(a: seq<T>, b: seq<T>)
    decreases |b|
  {
    a == [] ||
    (b != [] &&
     ((a[0] == b[0] && IsSubsequence(a[1..], b[1..])) || IsSubsequence(a, b[1..])))
  }

  lemma {:induction false} FilterIsSubsequence<T>(s: seq<T>, p: T -> bool)
    ensures IsSubsequence(Filter(s, p), s)
  {
    if s != [] {
      FilterIsSubsequence(s[1..], p);
    }
  }

  /** A prefix of a subsequence of `b` is again a subsequence of `b`. */
  lemma {:induction false} PrefixIsSubsequence<T>(a: seq<T>, b: seq<T>, k: nat)
    requires k <= |a|
    requires IsSubsequence(a, b)
    ensures IsSubsequence(a[..k], b)
    decreases |b|
  {
    if k == 0 || a == [] {
      assert a[..k] == [];
    } else if a[0] == b[0] && IsSubsequence(a[1..], b[1..]) {
      assert a[..k][1..] == a[1..][..k - 1];
      PrefixIsSubsequence(a[1..], b[1..], k - 1);
    } else {
      PrefixIsSubsequence(a, b[1..], k);
    }
  }
}
