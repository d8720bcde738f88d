/**
 * Kotlin's `sortedByDescending { key }` and SQL's `ORDER BY key DESC`:
 * an insertion sort that puts larger keys first.
 */
module Sorting {

  ghost predicate SortedDescBy<T>(xs: seq<T>, key: T -> int) {
    forall i, j :: 0 <= i < j < |xs| ==> key(xs[i]) >= key(xs[j])
  }

  /** Inserts `x` in front of the first element whose key is not larger. */
  function InsertDescBy<T>(x: T, xs: seq<T>, key: T -> int): (r: seq<T>)
    ensures multiset(r) == multiset(xs) + multiset{x}
    decreases |xs|
  {
    if xs == [] || key(x) >= key(xs[0]) then
      [x] + xs
    else
      assert xs == [xs[0]] + xs[1..];
      [xs[0]] + InsertDescBy(x, xs[1..], key)
  }

  /** Inserting into a sorted sequence keeps it sorted. */
  lemma {:induction false} InsertKeepsSorted<T>(x: T, xs: seq<T>, key: T -> int)
    requires SortedDescBy(xs, key)
    ensures SortedDescBy(InsertDescBy(x, xs, key), key)
    decreases |xs|
  {
    if xs != [] && key(x) < key(xs[0]) {
      var tail := InsertDescBy(x, xs[1..], key);
      InsertKeepsSorted(x, xs[1..], key);
      forall j | 0 <= j < |tail| ensures key(xs[0]) >= key(tail[j]) {
        assert tail[j] in multiset(tail);
        if tail[j] != x {
          assert tail[j] in multiset(xs[1..]);
          var k :| 0 <= k < |xs[1..]| && xs[1..][k] == tail[j];
          assert xs[k + 1] == tail[j];
        }
      }
    }
  }

  /** The elements of `xs`, larger keys first. */
  function SortDescBy<T>(xs: seq<T>, key: T -> int): (r: seq<T>)
    ensures multiset(r) == multiset(xs)
    ensures SortedDescBy(r, key)
    decreases |xs|
  {
    if xs == [] then []
    else
      assert xs == [xs[0]] + xs[1..];
      InsertKeepsSorted(xs[0], SortDescBy(xs[1..], key), key);
      InsertDescBy(xs[0], SortDescBy(xs[1..], key), key)
  }

  /** A permutation keeps its length and its elements. */
  lemma PermutationFacts<T>(xs: seq<T>, ys: seq<T>)
    requires multiset(xs) == multiset(ys)
    ensures |xs| == |ys|
    ensures forall x :: x in xs <==> x in ys
  {
    assert |multiset(xs)| == |xs| && |multiset(ys)| == |ys|;
    forall x ensures x in xs <==> x in ys {
      assert x in xs <==> x in multiset(xs);
      assert x in ys <==> x in multiset(ys);
    }
  }
}
