/** Sums of a natural-valued function over a finite set. */
module SetSums {

  ghost function SumOver<T>(s: set<T>, f: T -> nat): nat {
    if s == {} then 0
    else
      var x :| x in s;
      f(x) + SumOver(s - {x}, f)
  }

  /** The order of summation does not matter: any element may go first. */
  lemma {:induction false} SumTake<T>(s: set<T>, f: T -> nat, y: T)
    requires y in s
    ensures SumOver(s, f) == f(y) + SumOver(s - {y}, f)
    decreases s
  {
    var x :| x in s && SumOver(s, f) == f(x) + SumOver(s - {x}, f);
    if x != y {
      SumTake(s - {x}, f, y);
      SumTake(s - {y}, f, x);
      assert s - {x} - {y} == s - {y} - {x};
    }
  }

  lemma {:induction false} SumSubset<T>(a: set<T>, b: set<T>, f: T -> nat)
    requires a <= b
    ensures SumOver(a, f) <= SumOver(b, f)
    decreases a
  {
    if a != {} {
      var x :| x in a;
      SumTake(a, f, x);
      SumTake(b, f, x);
      SumSubset(a - {x}, b - {x}, f);
    }
  }

  lemma {:induction false} SumPointwise<T>(s: set<T>, f: T -> nat, g: T -> nat)
    requires forall x :: x in s ==> f(x) <= g(x)
    ensures SumOver(s, f) <= SumOver(s, g)
    decreases s
  {
    if s != {} {
      var x :| x in s;
      SumTake(s, f, x);
      SumTake(s, g, x);
      SumPointwise(s - {x}, f, g);
    }
  }

  lemma {:induction false} SumConstant<T>(s: set<T>, f: T -> nat, k: nat)
    requires forall x :: x in s ==> f(x) == k
    ensures SumOver(s, f) == k * |s|
    decreases s
  {
    if s != {} {
      var x :| x in s;
      SumTake(s, f, x);
      SumConstant(s - {x}, f, k);
    }
  }
}
