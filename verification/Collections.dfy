/** Finite sets: sizes of subsets, and picking elements in no particular order. */
module Collections {

  lemma {:induction false} SubsetSize<T>(a: set<T>, b: set<T>)
    requires a <= b
    ensures |a| <= |b|
  {
    if a != {} {
      var m :| m in a;
      SubsetSize(a - {m}, b - {m});
    }
  }

  lemma SmallerSet<T>(a: set<T>, b: set<T>, m: T)
    requires a <= b - {m} && m in b
    ensures |a| < |b|
  {
    SubsetSize(a, b - {m});
  }

  method AnyOf<T>(s: set<T>) returns (x: T)
    requires s != {}
    ensures x in s
  {
    x :| x in s;
  }
}
