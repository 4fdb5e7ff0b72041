/**
 * Stable sorting by an integer key, largest key first. Both sorts of the
 * system are of this kind: the worker's `items.sort(key=size, reverse=True)`
 * (Python's sort is stable, also in reverse) and the history page's
 * `sort((a, b) => time(b) - time(a))` (JavaScript's sort is stable).
 */
module Sorting {

  /** Keys never increase from left to right. */
  ghost predicate NonIncreasing<T>(s: seq<T>, key: T -> int) {
    forall i, j :: 0 <= i < j < |s| ==> key(s[i]) >= key(s[j])
  }

  /** The subsequence of elements whose key is `k`, in their original order. */
  function WithKey<T>(s: seq<T>, key: T -> int, k: int): (r: seq<T>)
    ensures |r| <= |s|
  {
    if |s| == 0 then []
    else if key(s[0]) == k then [s[0]] + WithKey(s[1..], key, k)
    else WithKey(s[1..], key, k)
  }

  /** Inserts `x` in front of the first element whose key is not larger. */
  function Insert<T>(x: T, s: seq<T>, key: T -> int): (r: seq<T>)
    requires NonIncreasing(s, key)
    ensures NonIncreasing(r, key)
    ensures multiset(r) == multiset(s) + multiset{x}
    ensures |r| == |s| + 1
  {
    if |s| == 0 then [x]
    else if key(s[0]) > key(x) then
      var t := Insert(x, s[1..], key);
      assert s == [s[0]] + s[1..];
      LargerHead(s[0], x, s[1..], t, key);
      [s[0]] + t
    else
      NotSmallerHead(x, s, key);
      [x] + s
  }

  /** `x` may stand in front of `s` when its key is at least that of `s`'s first element. */
  lemma NotSmallerHead<T>(x: T, s: seq<T>, key: T -> int)
    requires NonIncreasing(s, key) && |s| > 0 && key(x) >= key(s[0])
    ensures NonIncreasing([x] + s, key)
  {
    forall i, j | 0 <= i < j < |s| + 1
      ensures key(([x] + s)[i]) >= key(([x] + s)[j])
    {
      if i > 0 {
        assert ([x] + s)[i] == s[i - 1];
      }
    }
  }

  /** `h` may stand in front of `t` when it beats `x` and every element of `tail`. */
  lemma LargerHead<T>(h: T, x: T, tail: seq<T>, t: seq<T>, key: T -> int)
    requires NonIncreasing([h] + tail, key) && NonIncreasing(t, key)
    requires key(h) > key(x)
    requires multiset(t) == multiset(tail) + multiset{x}
    ensures NonIncreasing([h] + t, key)
  {
    forall i | 0 <= i < |t|
      ensures key(h) >= key(t[i])
    {
      assert t[i] in multiset(t);
      if t[i] != x {
        assert t[i] in multiset(tail);
        var j :| 0 <= j < |tail| && tail[j] == t[i];
        assert ([h] + tail)[j + 1] == tail[j] && ([h] + tail)[0] == h;
        assert key(([h] + tail)[0]) >= key(([h] + tail)[j + 1]);
      }
    }
  }

  /** Insertion sort: a stable sort by `key`, largest first. */
  function SortByKeyDesc<T>(s: seq<T>, key: T -> int): (r: seq<T>)
    ensures NonIncreasing(r, key)
    ensures multiset(r) == multiset(s)
    ensures |r| == |s|
  {
    if |s| == 0 then []
    else
      assert s == [s[0]] + s[1..];
      Insert(s[0], SortByKeyDesc(s[1..], key), key)
  }

  lemma {:induction false} InsertWithKey<T>(x: T, s: seq<T>, key: T -> int, k: int)
    requires NonIncreasing(s, key)
    ensures WithKey(Insert(x, s, key), key, k)
         == (if key(x) == k then [x] else []) + WithKey(s, key, k)
  {
    if |s| == 0 {
    } else if key(s[0]) > key(x) {
      InsertWithKey(x, s[1..], key, k);
      var t := Insert(x, s[1..], key);
      assert ([s[0]] + t)[1..] == t;
    } else {
      assert ([x] + s)[1..] == s;
    }
  }

  /**
   * Stability: among elements with equal keys the sort keeps the input
   * order, so ties between timestamps or sizes are never reordered.
   */
  lemma {:induction false} SortIsStable<T>(s: seq<T>, key: T -> int, k: int)
    ensures WithKey(SortByKeyDesc(s, key), key, k) == WithKey(s, key, k)
  {
    if |s| > 0 {
      SortIsStable(s[1..], key, k);
      InsertWithKey(s[0], SortByKeyDesc(s[1..], key), key, k);
    }
  }

  /** The first element of a non-increasing sequence has the largest key. */
  lemma HeadIsLargest<T>(r: seq<T>, key: T -> int, x: T)
    requires NonIncreasing(r, key)
    requires x in r
    ensures key(r[0]) >= key(x)
  {
    var j :| 0 <= j < |r| && r[j] == x;
    if j > 0 {
      assert key(r[0]) >= key(r[j]);
    }
  }

  /** An element whose key beats every other element's is sorted to the front. */
  lemma StrictMaximumFirst<T>(s: seq<T>, key: T -> int, x: T)
    requires x in s
    requires forall j :: 0 <= j < |s| && s[j] != x ==> key(s[j]) < key(x)
    ensures |SortByKeyDesc(s, key)| > 0 && SortByKeyDesc(s, key)[0] == x
  {
    var r := SortByKeyDesc(s, key);
    assert x in multiset(r);
    HeadIsLargest(r, key, x);
    assert r[0] in multiset(s);
  }
}
