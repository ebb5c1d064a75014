/** Finite sets and sums over them. */
module Sums {

  lemma AnElement<T>(s: set<T>) returns (x: T)
    requires s != {}
    ensures x in s
  {
    x :| x in s;
  }

  /** An element at which `f` is smallest. */
  lemma {:induction false} Least(s: set<int>, f: int -> int) returns (x: int)
    requires s != {}
    ensures x in s && forall y :: y in s ==> f(x) <= f(y)
  {
    var first := AnElement(s);
    var rest := s - {first};
    x := first;
    if rest != {} {
      var y := Least(rest, f);
      if f(y) < f(first) {
        x := y;
      }
    }
    forall y | y in s
      ensures f(x) <= f(y)
    {
      assert y == first || y in rest;
    }
  }

  lemma Outside<T>(a: set<T>, b: set<T>) returns (x: T)
    requires !(a <= b)
    ensures x in a && x !in b
  {
    x :| x in a && x !in b;
  }

  lemma Differing<K, V>(m: map<K, V>, m': map<K, V>) returns (k: K)
    requires m != m'
    ensures k in m || k in m'
    ensures k in m && k in m' ==> m[k] != m'[k]
  {
    if !(m.Keys <= m'.Keys) {
      k := Outside(m.Keys, m'.Keys);
    } else if !(m'.Keys <= m.Keys) {
      k := Outside(m'.Keys, m.Keys);
    } else {
      k :| k in m && m[k] != m'[k];
    }
  }

  /** Maps with the same keys and the same values at them are equal. */
  lemma SameMap<V>(m: map<int, V>, m': map<int, V>)
    requires forall i :: i in m <==> i in m'
    requires forall i :: i in m ==> m[i] == m'[i]
    ensures m == m'
  {
    if m != m' {
      var k := Differing(m, m');
    }
  }

  lemma {:induction false} SubsetSize<T>(a: set<T>, b: set<T>)
    requires a <= b
    ensures |a| <= |b|
  {
    if a != {} {
      var x :| x in a;
      SubsetSize(a - {x}, b - {x});
    }
  }

  /** Two sets that together outnumber the set they are drawn from share an element. */
  lemma Overlap<T>(a: set<T>, b: set<T>, all: set<T>) returns (x: T)
    requires a <= all && b <= all
    requires |a| + |b| > |all|
    ensures x in a && x in b
  {
    if a * b == {} {
      SubsetSize(a + b, all);
      assert false;
    }
    x :| x in a * b;
  }

  /** The sum of `f` over `s`. */
  ghost function Sum<T(!new)>(s: set<T>, f: T -> int): int {
    if s == {} then 0
    else
      var x :| x in s;
      f(x) + Sum(s - {x}, f)
  }

  /** Any element may be taken out first. */
  lemma {:induction false} SumTake<T(!new)>(s: set<T>, f: T -> int, y: T)
    requires y in s
    ensures Sum(s, f) == f(y) + Sum(s - {y}, f)
  {
    var x :| x in s && Sum(s, f) == f(x) + Sum(s - {x}, f);
    if x != y {
      SumTake(s - {x}, f, y);
      SumTake(s - {y}, f, x);
      assert s - {x} - {y} == s - {y} - {x};
    }
  }

  /** Functions that agree on the set have the same sum. */
  lemma {:induction false} SumSame<T(!new)>(s: set<T>, f: T -> int, g: T -> int)
    requires forall x :: x in s ==> f(x) == g(x)
    ensures Sum(s, f) == Sum(s, g)
  {
    if s != {} {
      var x :| x in s;
      SumTake(s, f, x);
      SumTake(s, g, x);
      SumSame(s - {x}, f, g);
    }
  }

  /** A pointwise bound is a bound on the sums. */
  lemma {:induction false} SumBound(s: set<int>, f: int -> int, g: int -> int)
    requires forall x :: x in s ==> f(x) <= g(x)
    ensures Sum(s, f) <= Sum(s, g)
  {
    if s != {} {
      var x := AnElement(s);
      SumTake(s, f, x);
      SumTake(s, g, x);
      SumBound(s - {x}, f, g);
    }
  }

  /** Changing one summand changes the sum by the difference. */
  lemma SumChange<T(!new)>(s: set<T>, f: T -> int, g: T -> int, y: T)
    requires y in s
    requires forall x :: x in s && x != y ==> f(x) == g(x)
    ensures Sum(s, g) == Sum(s, f) + g(y) - f(y)
  {
    SumTake(s, f, y);
    SumTake(s, g, y);
    SumSame(s - {y}, f, g);
  }

  lemma {:induction false} SumZero<T(!new)>(s: set<T>, f: T -> int)
    requires forall x :: x in s ==> f(x) == 0
    ensures Sum(s, f) == 0
  {
    if s != {} {
      var x :| x in s;
      SumTake(s, f, x);
      SumZero(s - {x}, f);
    }
  }

  /** Without negative summands, the summands of any two elements together do not exceed the sum. */
  lemma SumCovers<T(!new)>(s: set<T>, f: T -> int, x: T, y: T)
    requires x in s && y in s && forall z :: z in s ==> f(z) >= 0
    ensures f(x) <= Sum(s, f)
    ensures x != y ==> f(x) + f(y) <= Sum(s, f)
  {
    SumTake(s, f, x);
    SumNonNegative(s - {x}, f);
    if x != y {
      SumTake(s - {x}, f, y);
      SumNonNegative(s - {x} - {y}, f);
    }
  }

  lemma {:induction false} SumNonNegative<T(!new)>(s: set<T>, f: T -> int)
    requires forall z :: z in s ==> f(z) >= 0
    ensures Sum(s, f) >= 0
  {
    if s != {} {
      var x :| x in s;
      SumTake(s, f, x);
      SumNonNegative(s - {x}, f);
    }
  }
}
