/** Picking elements of sets, and comparing their sizes. */
module Sets {
  /** The next element of a range over a set or map, in no promised order. */
  method AnyOf<T>(s: set<T>) returns (x: T)
    requires s != {}
    ensures x in s
  {
    x :| x in s;
  }

  lemma Missing<T>(a: set<T>, b: set<T>) returns (x: T)
    requires !(a <= b)
    ensures x in a && x !in b
  {
    x :| x in a && x !in b;
  }

  lemma {:induction false} SubsetIsSmaller<T>(a: set<T>, b: set<T>)
    requires a <= b
    ensures |a| <= |b|
  {
    if a != {} {
      var x :| x in a;
      SubsetIsSmaller(a - {x}, b - {x});
    }
  }

  lemma ProperSubsetIsSmaller<T>(a: set<T>, b: set<T>, x: T)
    requires a <= b && x in b && x !in a
    ensures |a| < |b|
  {
    SubsetIsSmaller(a, b - {x});
  }

  lemma RemovesNothing<T>(a: set<T>, b: set<T>)
    ensures a <= a - b <==> a * b == {}
  {
    forall x <- a * b ensures x in a && x !in a - b {}
    if a * b == {} {
      forall x <- a ensures x in a - b { assert x in b ==> x in a * b; }
    }
  }
}
