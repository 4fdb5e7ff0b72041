/**
 * Sums of an integer measure over a sequence, and the two facts every
 * total in the model rests on: a sum splits over concatenation, and it does
 * not depend on the order of the elements.
 */
module Sums {

  /** `f(s[0]) + ... + f(s[|s|-1])`, accumulated from the left. */
  function SumOf<T>(s: seq<T>, f: T -> int): int {
    if |s| == 0 then 0 else SumOf(s[..|s| - 1], f) + f(s[|s| - 1])
  }

  lemma {:induction false} SumOfConcat<T>(u: seq<T>, v: seq<T>, f: T -> int)
    ensures SumOf(u + v, f) == SumOf(u, f) + SumOf(v, f)
    decreases |v|
  {
    if |v| > 0 {
      assert (u + v)[..|u + v| - 1] == u + v[..|v| - 1];
      assert (u + v)[|u + v| - 1] == v[|v| - 1];
      SumOfConcat(u, v[..|v| - 1], f);
    } else {
      assert u + v == u;
    }
  }

  /** Removing the element at `j` takes exactly its measure off the sum. */
  lemma {:induction false} SumOfRemove<T>(s: seq<T>, j: nat, f: T -> int)
    requires j < |s|
    ensures SumOf(s, f) == SumOf(s[..j] + s[j + 1..], f) + f(s[j])
  {
    var left, x, right := s[..j], s[j], s[j + 1..];
    assert s == left + [x] + right;
    SumOfConcat(left + [x], right, f);
    SumOfConcat(left, [x], f);
    SumOfConcat(left, right, f);
    assert SumOf([x], f) == f(x) by { assert [x][..0] == []; }
  }

  /** Sums are invariant under permutation. */
  lemma {:induction false} SumOfPermutation<T>(a: seq<T>, b: seq<T>, f: T -> int)
    requires multiset(a) == multiset(b)
    ensures SumOf(a, f) == SumOf(b, f)
    decreases |a|
  {
    if |a| > 0 {
      var x := a[|a| - 1];
      assert x in multiset(b);
      var j :| 0 <= j < |b| && b[j] == x;
      var b' := b[..j] + b[j + 1..];
      SumOfRemove(b, j, f);
      assert a == a[..|a| - 1] + [x];
      assert b == b[..j] + [x] + b[j + 1..];
      assert multiset(a) == multiset(a[..|a| - 1]) + multiset{x};
      assert multiset(b) == multiset(b[..j]) + multiset{x} + multiset(b[j + 1..]);
      assert multiset(b') == multiset(b[..j]) + multiset(b[j + 1..]);
      assert multiset(a[..|a| - 1]) == multiset(a) - multiset{x};
      assert multiset(b') == multiset(b) - multiset{x};
      SumOfPermutation(a[..|a| - 1], b', f);
    } else {
      assert |b| == |multiset(b)|;
    }
  }
}
