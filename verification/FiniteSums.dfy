/** Sums and products over finite sets. Choosing the elements in any order gives the same value. */
module FiniteSums {
  import opened PrimeField

  ghost function Sum(s: set<nat>, f: nat -> int): (r: int) {
    if s == {} then 0 else
      var x :| x in s;
      f(x) + Sum(s - {x}, f)
  }

  ghost function Product(s: set<nat>, f: nat -> int): (r: int) {
    if s == {} then 1 else
      var x :| x in s;
      f(x) * Product(s - {x}, f)
  }

  /** Any element may be taken out first. */
  lemma {:induction false} SumTake(s: set<nat>, f: nat -> int, y: nat)
    requires y in s
    ensures Sum(s, f) == f(y) + Sum(s - {y}, f)
    decreases s
  {
    var x :| x in s && Sum(s, f) == f(x) + Sum(s - {x}, f);
    if x != y {
      SumTake(s - {x}, f, y);
      SumTake(s - {y}, f, x);
      assert s - {x} - {y} == s - {y} - {x};
    }
  }

  lemma ProductFirst(s: set<nat>, f: nat -> int) returns (x: nat)
    requires s != {}
    ensures x in s && Product(s, f) == f(x) * Product(s - {x}, f)
  {
    x :| x in s && Product(s, f) == f(x) * Product(s - {x}, f);
  }

  lemma SwapFactors(a: int, b: int, r: int)
    ensures a * (b * r) == b * (a * r)
  {
  }

  lemma {:induction false} ProductTake(s: set<nat>, f: nat -> int, y: nat)
    requires y in s
    ensures Product(s, f) == f(y) * Product(s - {y}, f)
    decreases s
  {
    hide Product;
    var x := ProductFirst(s, f);
    if x != y {
      ProductTake(s - {x}, f, y);
      ProductTake(s - {y}, f, x);
      assert s - {x} - {y} == s - {y} - {x};
      SwapFactors(f(x), f(y), Product(s - {x} - {y}, f));
    }
  }

  lemma {:induction false} ProductSame(s: set<nat>, f: nat -> int, g: nat -> int)
    requires forall x :: x in s ==> f(x) == g(x)
    ensures Product(s, f) == Product(s, g)
    decreases s
  {
    if s != {} {
      var x :| x in s;
      ProductTake(s, f, x);
      ProductTake(s, g, x);
      ProductSame(s - {x}, f, g);
    }
  }

  lemma {:induction false} SumCong(p: int, s: set<nat>, f: nat -> int, g: nat -> int)
    requires forall x :: x in s ==> Cong(p, f(x), g(x))
    ensures Cong(p, Sum(s, f), Sum(s, g))
    decreases s
  {
    if s == {} {
      CongRefl(p, 0);
    } else {
      var x :| x in s;
      SumTake(s, f, x);
      SumTake(s, g, x);
      SumCong(p, s - {x}, f, g);
      CongAdd(p, f(x), g(x), Sum(s - {x}, f), Sum(s - {x}, g));
    }
  }

  lemma {:induction false} SumSame(s: set<nat>, f: nat -> int, g: nat -> int)
    requires forall x :: x in s ==> f(x) == g(x)
    ensures Sum(s, f) == Sum(s, g)
    decreases s
  {
    if s != {} {
      var x :| x in s;
      SumTake(s, f, x);
      SumTake(s, g, x);
      SumSame(s - {x}, f, g);
    }
  }

  lemma Distribute(a: int, fx: int, sf: int, b: int, gx: int, sg: int)
    ensures (a * fx + b * gx) + (a * sf + b * sg) == a * (fx + sf) + b * (gx + sg)
  {
    assert a * (fx + sf) == a * fx + a * sf;
    assert b * (gx + sg) == b * gx + b * sg;
  }

  /** Summation is linear. */
  lemma {:induction false} SumLinear(s: set<nat>, a: int, f: nat -> int, b: int, g: nat -> int, h: nat -> int)
    requires forall x :: x in s ==> h(x) == a * f(x) + b * g(x)
    ensures Sum(s, h) == a * Sum(s, f) + b * Sum(s, g)
    decreases s
  {
    if s != {} {
      hide Sum;
      var x :| x in s;
      SumTake(s, f, x);
      SumTake(s, g, x);
      SumTake(s, h, x);
      SumLinear(s - {x}, a, f, b, g, h);
      Distribute(a, f(x), Sum(s - {x}, f), b, g(x), Sum(s - {x}, g));
    }
  }

  lemma {:induction false} SumSplit(s: set<nat>, t: set<nat>, f: nat -> int)
    requires s !! t
    ensures Sum(s + t, f) == Sum(s, f) + Sum(t, f)
    decreases s
  {
    if s == {} {
      assert s + t == t;
    } else {
      var x :| x in s;
      SumTake(s, f, x);
      SumTake(s + t, f, x);
      assert s + t - {x} == (s - {x}) + t;
      SumSplit(s - {x}, t, f);
    }
  }

  /** A product of residues that are all non-zero is non-zero. */
  lemma {:induction false} ProductNonZero(p: int, s: set<nat>, f: nat -> int)
    requires IsPrime(p)
    requires forall x :: x in s ==> !Cong(p, f(x), 0)
    ensures !Cong(p, Product(s, f), 0)
    decreases s
  {
    if s == {} {
      SmallDistinct(p, 1, 0);
    } else {
      var x :| x in s;
      ProductTake(s, f, x);
      ProductNonZero(p, s - {x}, f);
      if Cong(p, f(x) * Product(s - {x}, f), 0) {
        NoZeroDivisors(p, f(x), Product(s - {x}, f));
      }
    }
  }
}
