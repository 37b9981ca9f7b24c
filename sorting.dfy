/**
 * `Array.prototype.sort` with a comparator, as the sources use it: a stable
 * sort by an integer key pair compared lexicographically (the comparators
 * `a.start - b.start`, `a.spanEnd - b.spanEnd || a.start - b.start` and
 * `a - b`). The library algorithm is not part of this model; a stable
 * insertion sort stands for it.
 */
module Sorting {

  /** Lexicographic order on key pairs. */
  predicate KeyLe(a: (int, int), b: (int, int)) {
    a.0 < b.0 || (a.0 == b.0 && a.1 <= b.1)
  }

  predicate SortedBy<X>(xs: seq<X>, key: X -> (int, int)) {
    forall i, j :: 0 <= i < j < |xs| ==> KeyLe(key(xs[i]), key(xs[j]))
  }

  /** Insert `x` after every element whose key is not greater than its own. */
  function Insert<X>(x: X, xs: seq<X>, key: X -> (int, int)): seq<X>
  {
    if xs == [] then [x]
    else if KeyLe(key(xs[0]), key(x)) then [xs[0]] + Insert(x, xs[1..], key)
    else [x] + xs
  }

  lemma {:induction false} InsertPermutes<X>(x: X, xs: seq<X>, key: X -> (int, int))
    ensures multiset(Insert(x, xs, key)) == multiset(xs) + multiset{x}
    ensures |Insert(x, xs, key)| == |xs| + 1
  {
    if xs != [] && KeyLe(key(xs[0]), key(x)) {
      InsertPermutes(x, xs[1..], key);
      assert xs == [xs[0]] + xs[1..];
    }
  }

  /** Every element of `Insert(x, xs)` is bounded below by a bound of `x` and of all of `xs`. */
  lemma {:induction false} InsertLowerBound<X>(x: X, xs: seq<X>, key: X -> (int, int), lb: (int, int))
    requires KeyLe(lb, key(x))
    requires forall k :: 0 <= k < |xs| ==> KeyLe(lb, key(xs[k]))
    ensures forall k :: 0 <= k < |Insert(x, xs, key)| ==> KeyLe(lb, key(Insert(x, xs, key)[k]))
  {
    if xs != [] && KeyLe(key(xs[0]), key(x)) {
      InsertLowerBound(x, xs[1..], key, lb);
    }
  }

  lemma {:induction false} InsertSorted<X>(x: X, xs: seq<X>, key: X -> (int, int))
    requires SortedBy(xs, key)
    ensures SortedBy(Insert(x, xs, key), key)
  {
    if xs != [] && KeyLe(key(xs[0]), key(x)) {
      InsertSorted(x, xs[1..], key);
      InsertLowerBound(x, xs[1..], key, key(xs[0]));
    }
  }

  /** The stable sort by `key`. */
  function SortBy<X>(xs: seq<X>, key: X -> (int, int)): (r: seq<X>)
    ensures multiset(r) == multiset(xs)
    ensures |r| == |xs|
    ensures SortedBy(r, key)
  {
    if xs == [] then []
    else
      var sorted := SortBy(xs[..|xs| - 1], key);
      assert xs == xs[..|xs| - 1] + [xs[|xs| - 1]];
      InsertPermutes(xs[|xs| - 1], sorted, key);
      InsertSorted(xs[|xs| - 1], sorted, key);
      Insert(xs[|xs| - 1], sorted, key)
  }

  /** An already sorted sequence of one element is left alone. */
  lemma SortSingleton<X>(x: X, key: X -> (int, int))
    ensures SortBy([x], key) == [x]
  {
    assert [x][..0] == [];
  }
}
