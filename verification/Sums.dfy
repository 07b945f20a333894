/** Sums of natural numbers over finite sets. */
module Sums {
  ghost function Sum<T(!new)>(f: T -> nat, s: set<T>): nat {
    if s == {} then 0
    else
      var x :| x in s;
      f(x) + Sum(f, s - {x})
  }

  /** The order in which the elements are added up does not matter. */
  lemma {:induction false} SumTake<T(!new)>(f: T -> nat, s: set<T>, x: T)
    requires x in s
    ensures Sum(f, s) == f(x) + Sum(f, s - {x})
    decreases s
  {
    var y :| y in s && Sum(f, s) == f(y) + Sum(f, s - {y});
    if y != x {
      SumTake(f, s - {y}, x);
      SumTake(f, s - {x}, y);
      assert s - {y} - {x} == s - {x} - {y};
    }
  }

  lemma SumAdd<T(!new)>(f: T -> nat, s: set<T>, x: T)
    ensures Sum(f, s + {x}) == Sum(f, s - {x}) + f(x)
  {
    SumTake(f, s + {x}, x);
    assert s + {x} - {x} == s - {x};
  }

  lemma {:induction false} SumSame<T(!new)>(f: T -> nat, g: T -> nat, s: set<T>)
    requires forall x | x in s :: f(x) == g(x)
    ensures Sum(f, s) == Sum(g, s)
    decreases s
  {
    if s != {} {
      var x :| x in s;
      SumTake(f, s, x);
      SumTake(g, s, x);
      SumSame(f, g, s - {x});
    }
  }

  lemma OneMore(i: nat, j: nat, n: nat)
    requires j == i + 1
    ensures j * n == i * n + n
  {
  }

  /** Raising the value of each of `a`'s elements by `n`. */
  lemma {:induction false} SumRaise<T(!new)>(f: T -> nat, g: T -> nat, s: set<T>, a: set<T>, n: nat)
    requires a <= s
    requires forall x | x in s :: g(x) == f(x) + if x in a then n else 0
    ensures Sum(g, s) == Sum(f, s) + |a| * n
    decreases s
  {
    if s != {} {
      var x :| x in s;
      SumTake(f, s, x);
      SumTake(g, s, x);
      SumRaise(f, g, s - {x}, a - {x}, n);
      if x in a {
        OneMore(|a - {x}|, |a|, n);
      } else {
        assert a - {x} == a;
      }
    } else {
      assert a == {};
    }
  }

  /** Changing the value of one element. */
  lemma SumChange<T(!new)>(f: T -> nat, g: T -> nat, s: set<T>, x: T)
    requires x in s && forall y | y in s && y != x :: g(y) == f(y)
    ensures Sum(g, s) + f(x) == Sum(f, s) + g(x)
  {
    SumTake(f, s, x);
    SumTake(g, s, x);
    SumSame(f, g, s - {x});
  }
}
