/** Counting the elements of lists without duplicates. */
module Counting {

  ghost predicate Distinct<T>(xs: seq<T>) {
    forall i, j :: 0 <= i < j < |xs| ==> xs[i] != xs[j]
  }

  lemma {:induction false} DistinctCount<T>(xs: seq<T>)
    requires Distinct(xs)
    ensures |set x | x in xs| == |xs|
  {
    if xs != [] {
      var rest := xs[1..];
      DistinctCount(rest);
      assert xs == [xs[0]] + rest;
      assert (set x | x in xs) == {xs[0]} + set x | x in rest;
    }
  }

  lemma SameElements<T>(xs: seq<T>, elements: set<T>)
    requires Distinct(xs) && forall x :: x in xs <==> x in elements
    ensures |xs| == |elements|
  {
    DistinctCount(xs);
    assert (set x | x in xs) == elements;
  }
}
