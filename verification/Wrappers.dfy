/** Optional values and set sizes, shared by every module of the model. */
module Wrappers {
  datatype Option<+T> = None | Some(value: T)

  ghost predicate Injective<S(!new), T(!new)>(f: S -> T) {
    forall x, y :: f(x) == f(y) ==> x == y
  }

  lemma {:induction false} SubsetSize<T>(a: set<T>, b: set<T>)
    requires a <= b
    ensures |a| <= |b|
    ensures a != b ==> |a| < |b|
  {
    if x :| x in a {
      SubsetSize(a - {x}, b - {x});
      assert a == (a - {x}) + {x} && b == (b - {x}) + {x};
    }
  }
}
