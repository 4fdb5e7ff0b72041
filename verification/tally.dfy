/**
 * Insertion-ordered counters from strings to integers: the Python
 * dictionaries the worker builds with `d[k] = d.get(k, 0) + n` (category
 * byte totals, finding tallies). A key keeps the position of its first
 * insertion, as in a Python dict.
 */
module Tally {

  type Counter = seq<(string, int)>

  function Keys(m: Counter): (ks: set<string>)
    ensures forall i :: 0 <= i < |m| ==> m[i].0 in ks
    ensures forall k :: k in ks ==> exists i :: 0 <= i < |m| && m[i].0 == k
  {
    if |m| == 0 then {} else {m[0].0} + Keys(m[1..])
  }

  /** No key occurs twice, as in any dictionary. */
  predicate DistinctKeys(m: Counter) {
    |m| == 0 || (m[0].0 !in Keys(m[1..]) && DistinctKeys(m[1..]))
  }

  /** `d.get(k, 0)`. */
  function Get(m: Counter, k: string): int {
    if |m| == 0 then 0 else if m[0].0 == k then m[0].1 else Get(m[1..], k)
  }

  /** `sum(d.values())`. */
  function Total(m: Counter): int {
    if |m| == 0 then 0 else m[0].1 + Total(m[1..])
  }

  /** `d[k] = d.get(k, 0) + n`. */
  function Add(m: Counter, k: string, n: int): (r: Counter)
    ensures Total(r) == Total(m) + n
    ensures forall k' :: Get(r, k') == Get(m, k') + (if k' == k then n else 0)
    ensures Keys(r) == Keys(m) + {k}
    ensures DistinctKeys(m) ==> DistinctKeys(r)
  {
    if |m| == 0 then [(k, n)]
    else if m[0].0 == k then
      assert ([(k, m[0].1 + n)] + m[1..])[1..] == m[1..];
      [(k, m[0].1 + n)] + m[1..]
    else
      var t := Add(m[1..], k, n);
      assert ([m[0]] + t)[1..] == t;
      [m[0]] + t
  }
}
