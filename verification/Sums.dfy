/** Sums over finite sets, taken in any order. */
module Sums {
  ghost function SumOf<T(!new)>(s: set<T>, f: T -> nat): nat {
    if s == {} then 0 else
    var x :| x in s;
    f(x) + SumOf(s - {x}, f)
  }

  /** Any element may be taken first. */
  lemma {:induction false} SumTakes<T(!new)>(s: set<T>, f: T -> nat, x: T)
    requires x in s
    ensures SumOf(s, f) == f(x) + SumOf(s - {x}, f)
    decreases |s|
  {
    var y :| y in s && SumOf(s, f) == f(y) + SumOf(s - {y}, f);
    if y != x {
      SumTakes(s - {y}, f, x);
      SumTakes(s - {x}, f, y);
      assert s - {y} - {x} == s - {x} - {y};
    }
  }

  lemma SumAdds<T(!new)>(s: set<T>, f: T -> nat, x: T)
    requires x !in s
    ensures SumOf(s + {x}, f) == f(x) + SumOf(s, f)
  {
    SumTakes(s + {x}, f, x);
    assert s + {x} - {x} == s;
  }

  lemma {:induction false} SumSame<T(!new)>(s: set<T>, f: T -> nat, g: T -> nat)
    requires forall x | x in s :: f(x) == g(x)
    ensures SumOf(s, f) == SumOf(s, g)
    decreases |s|
  {
    if s != {} {
      var x :| x in s;
      SumTakes(s, f, x);
      SumTakes(s, g, x);
      SumSame(s - {x}, f, g);
    }
  }

  /** Changing the value at one element changes the sum by as much. */
  lemma SumChanges<T(!new)>(s: set<T>, f: T -> nat, g: T -> nat, x: T)
    requires x in s && forall y | y in s && y != x :: f(y) == g(y)
    ensures SumOf(s, g) + f(x) == SumOf(s, f) + g(x)
  {
    SumTakes(s, f, x);
    SumTakes(s, g, x);
    SumSame(s - {x}, f, g);
  }

  lemma {:induction false} SumSplits<T(!new)>(a: set<T>, b: set<T>, f: T -> nat)
    requires a !! b
    ensures SumOf(a + b, f) == SumOf(a, f) + SumOf(b, f)
    decreases |a|
  {
    if a == {} {
      assert a + b == b;
    } else {
      var x :| x in a;
      SumTakes(a, f, x);
      SumTakes(a + b, f, x);
      assert a + b - {x} == (a - {x}) + b;
      SumSplits(a - {x}, b, f);
    }
  }

  /** What balances at every element balances in sum. */
  lemma {:induction false} SumBalance<T(!new)>(s: set<T>, f: T -> nat, g: T -> nat, h: T -> nat, k: T -> nat)
    requires forall x | x in s :: f(x) + g(x) == h(x) + k(x)
    ensures SumOf(s, f) + SumOf(s, g) == SumOf(s, h) + SumOf(s, k)
    decreases |s|
  {
    if s != {} {
      var x :| x in s;
      SumTakes(s, f, x);
      SumTakes(s, g, x);
      SumTakes(s, h, x);
      SumTakes(s, k, x);
      SumBalance(s - {x}, f, g, h, k);
    }
  }
}
