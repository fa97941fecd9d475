/** Small shared vocabulary: optional values, and two facts about finite sets that the
    inheritance proofs count with. */
module Base {

  datatype Option<+T> = None | Some(value: T) {
    function GetOr(default: T): T {
      match this
      case None => default
      case Some(v) => v
    }
  }

  lemma {:induction false} SubsetCardinality<T>(a: set<T>, b: set<T>)
    requires a <= b
    ensures |a| <= |b|
    ensures |a| == |b| <==> a == b
  {
    if a == {} {
      assert |b| == 0 <==> b == {};
    } else {
      var x :| x in a;
      SubsetCardinality(a - {x}, b - {x});
      assert a == (a - {x}) + {x} && b == (b - {x}) + {x};
    }
  }

  /** A set that an injective function maps into another set is no larger than it. */
  lemma {:induction false} InjectiveImage<A, B>(s: set<A>, f: A -> B, image: set<B>)
    requires forall x :: x in s ==> f(x) in image
    requires forall x, y :: x in s && y in s && f(x) == f(y) ==> x == y
    ensures |s| <= |image|
  {
    if s != {} {
      var x :| x in s;
      InjectiveImage(s - {x}, f, image - {f(x)});
    }
  }
}
