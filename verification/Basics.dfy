/**
  What several of the models need: optional values, lists without repetition, and counting.
 */
module Basics {

  datatype Option<T> = None | Some(value: T)

  ghost predicate NoDup(s: seq<int>) { forall i, j :: 0 <= i < j < |s| ==> s[i] != s[j] }

  lemma {:induction false} SubsetSize(a: set<int>, b: set<int>)
    requires a <= b
    ensures |a| <= |b|
  {
    assert b == a + (b - a);
  }
}
