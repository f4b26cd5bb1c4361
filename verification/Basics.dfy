/**
 Small shared definitions.

 A note on form: where a contract or invariant writes `P(x) == true` for a predicate `P`, it
 says the same as `P(x)`. It keeps the verifier from splitting `P` into its conjuncts and
 proving each anew at every use, which long invariants made too costly.
 */
module Basics {

  datatype Option<+T> = None | Some(value: T)

  predicate NoDup<T(==)>(s: seq<T>) {
    forall i, j :: 0 <= i < j < |s| ==> s[i] != s[j]
  }

  /** Some element of a non-empty set. */
  lemma Pick<T>(s: set<T>) returns (x: T)
    requires s != {}
    ensures x in s
  {
    x :| x in s;
  }

  /** One row of a result set, in whatever order the rows come. */
  method Next<T(==)>(s: set<T>) returns (x: T)
    requires s != {}
    ensures x in s
  {
    x :| x in s;
  }

  lemma {:induction false} SubsetSize<T>(a: set<T>, b: set<T>)
    requires a <= b
    ensures |a| <= |b|
    decreases a
  {
    if a != {} {
      var x := Pick(a);
      SubsetSize(a - {x}, b - {x});
    }
  }

  function Max(a: int, b: int): int {
    if a < b then b else a
  }
}
