/** Polynomials as coefficient sequences (constant term first) and Lagrange interpolation at 0,
    as in section 4.2 and Appendix C.1 of RFC 9591. */
module Polynomials {
  import opened PrimeField
  import opened FiniteSums

  type Poly = seq<int>

  /** Horner form: c[0] + x*(c[1] + x*(...)). */
  function Eval(c: Poly, x: int): (r: int) {
    if c == [] then 0 else c[0] + x * Eval(c[1..], x)
  }

  function PolyAdd(a: Poly, b: Poly): (r: Poly)
    ensures |r| == if |a| < |b| then |b| else |a|
  {
    if a == [] then b
    else if b == [] then a
    else [a[0] + b[0]] + PolyAdd(a[1..], b[1..])
  }

  lemma {:induction false} EvalAdd(a: Poly, b: Poly, x: int)
    ensures Eval(PolyAdd(a, b), x) == Eval(a, x) + Eval(b, x)
  {
    if a != [] && b != [] {
      EvalAdd(a[1..], b[1..], x);
      var s := PolyAdd(a, b);
      assert s[1..] == PolyAdd(a[1..], b[1..]);
      assert x * (Eval(a[1..], x) + Eval(b[1..], x)) == x * Eval(a[1..], x) + x * Eval(b[1..], x);
    }
  }

  function PolyScale(k: int, a: Poly): (r: Poly)
    ensures |r| == |a|
  {
    if a == [] then [] else [k * a[0]] + PolyScale(k, a[1..])
  }

  lemma {:induction false} EvalScale(k: int, a: Poly, x: int)
    ensures Eval(PolyScale(k, a), x) == k * Eval(a, x)
  {
    if a != [] {
      EvalScale(k, a[1..], x);
      assert PolyScale(k, a)[1..] == PolyScale(k, a[1..]);
      var e := Eval(a[1..], x);
      assert k * a[0] + x * (k * e) == k * (a[0] + x * e);
    }
  }

  /** Division by `x - m`: `c(x) - c(m) == (x - m) * Quotient(c, m)(x)`, one degree lower. */
  function Quotient(c: Poly, m: int): (r: Poly)
    ensures |r| == if c == [] then 0 else |c| - 1
  {
    if |c| <= 1 then [] else PolyAdd(c[1..], PolyScale(m, Quotient(c[1..], m)))
  }

  lemma {:induction false} QuotientDivides(c: Poly, m: int, x: int)
    ensures Eval(c, x) - Eval(c, m) == (x - m) * Eval(Quotient(c, m), x)
  {
    if |c| == 1 {
      assert c[1..] == [];
      assert Eval(c, x) == c[0] + x * 0 && Eval(c, m) == c[0] + m * 0;
    } else if |c| > 1 {
      var h := c[1..];
      var q := Quotient(h, m);
      QuotientDivides(h, m, x);
      EvalAdd(h, PolyScale(m, q), x);
      EvalScale(m, q, x);
      DivideStep(x, m, Eval(h, x), Eval(h, m), Eval(q, x));
    }
  }

  lemma DivideStep(x: int, m: int, hx: int, hm: int, qx: int)
    requires hx - hm == (x - m) * qx
    ensures x * hx - m * hm == (x - m) * (hx + m * qx)
  {
    assert m * (hx - hm) == m * ((x - m) * qx) == (x - m) * (m * qx);
    assert x * hx - m * hm == (x - m) * hx + m * (hx - hm);
  }

  // ----- Lagrange interpolation at 0 -----

  function BasisFactor(p: int, x: nat, y: nat): (r: int)
    requires 2 <= p
  {
    y * Inv(p, y - x)
  }

  function BasisFactors(p: int, x: nat): (r: nat -> int)
    requires 2 <= p
  {
    (y: nat) => BasisFactor(p, x, y)
  }

  /** The Lagrange coefficient at 0 of the point `x` within the points `s`. */
  ghost function Basis(p: int, s: set<nat>, x: nat): (r: int)
    requires 2 <= p
  {
    Product(s - {x}, BasisFactors(p, x))
  }

  ghost function Term(p: int, s: set<nat>, v: nat -> int): (r: nat -> int)
    requires 2 <= p
  {
    (x: nat) => Basis(p, s, x) * v(x)
  }

  /** The value at 0 that the points `s` carrying the values `v` interpolate to. */
  ghost function AtZero(p: int, s: set<nat>, v: nat -> int): (r: int)
    requires 2 <= p
  {
    Sum(s, Term(p, s, v))
  }

  ghost predicate DistinctResidues(p: int, s: set<nat>) {
    forall x, y :: x in s && y in s && x != y ==> !Cong(p, x, y)
  }

  function Values(c: Poly): (r: nat -> int) {
    (x: nat) => Eval(c, x)
  }

  lemma BasisTake(p: int, s: set<nat>, m: nat, x: nat)
    requires 2 <= p && m in s && x in s && x != m
    ensures Basis(p, s, x) == BasisFactor(p, x, m) * Basis(p, s - {m}, x)
  {
    ProductTake(s - {x}, BasisFactors(p, x), m);
    assert s - {x} - {m} == s - {m} - {x};
  }

  /** One summand of the interpolation, with the point `m` split off. */
  lemma TermSplit(p: int, s: set<nat>, c: Poly, m: nat, x: nat)
    requires IsPrime(p) && DistinctResidues(p, s) && m in s && x in s && x != m
    ensures Cong(p, Basis(p, s, x) * Eval(c, x),
                 Eval(c, m) * Basis(p, s, x) + (0 - m) * (Basis(p, s - {m}, x) * Eval(Quotient(c, m), x)))
  {
    hide Eval, Basis, Inv, Quotient;
    BasisTake(p, s, m, x);
    CongDiff(p, m, x);
    InvInverts(p, m - x);
    QuotientDivides(c, m, x);
    SplitProduct(p, Basis(p, s, x), Basis(p, s - {m}, x), Eval(c, x), Eval(c, m),
                 m, x, Inv(p, m - x), Eval(Quotient(c, m), x));
  }

  lemma SplitProduct(p: int, b: int, b': int, cx: int, cm: int, m: int, x: int, i: int, q: int)
    requires b == (m * i) * b'
    requires cx - cm == (x - m) * q
    requires Cong(p, (m - x) * i, 1)
    ensures Cong(p, b * cx, cm * b + (0 - m) * (b' * q))
  {
    var d := (0 - m) * (b' * q);
    calc {
      b * cx;
      b * (cm + (x - m) * q);
      cm * b + b * ((x - m) * q);
      { Regroup(m, i, b', x - m, q); }
      cm * b + d * ((m - x) * i);
    }
    CongScale(p, d, (m - x) * i, 1);
    CongRefl(p, cm * b);
    CongAdd(p, cm * b, cm * b, d * ((m - x) * i), d * 1);
  }

  lemma Regroup(m: int, i: int, b: int, d: int, q: int)
    ensures ((m * i) * b) * (d * q) == ((0 - m) * (b * q)) * ((0 - d) * i)
  {
    var k := b * q;
    assert ((m * i) * b) * (d * q) == (m * i) * (d * k) by {
      assert b * (d * q) == d * k;
      assert ((m * i) * b) * (d * q) == (m * i) * (b * (d * q));
    }
    assert (m * i) * (d * k) == (m * k) * (d * i) by {
      assert i * (d * k) == k * (d * i);
    }
    assert ((0 - m) * k) * ((0 - d) * i) == (m * k) * (d * i) by {
      assert (0 - m) * k == -(m * k);
      assert (0 - d) * i == -(d * i);
    }
  }

  function Mix(a: int, t: int, m: int, u: int): (r: int) {
    a * t - m * u
  }

  ghost function SplitTerm(p: int, s: set<nat>, c: Poly, m: nat): (r: nat -> int)
    requires 2 <= p
  {
    var one, g := Term(p, s, Values([1])), Term(p, s - {m}, Values(Quotient(c, m)));
    (x: nat) => Eval(c, m) * one(x) + (0 - m) * g(x)
  }

  lemma TermsSplit(p: int, s: set<nat>, c: Poly, m: nat)
    requires IsPrime(p) && DistinctResidues(p, s) && m in s
    ensures Cong(p, Sum(s - {m}, Term(p, s, Values(c))),
                 Mix(Eval(c, m), Sum(s - {m}, Term(p, s, Values([1]))), m, AtZero(p, s - {m}, Values(Quotient(c, m)))))
  {
    hide Eval, Product, Sum, Quotient, Inv, BasisFactor;
    var f, h := Term(p, s, Values(c)), SplitTerm(p, s, c, m);
    forall x: nat | x in s - {m} ensures Cong(p, f(x), h(x)) {
      TermSplit(p, s, c, m, x);
      ConstantOne(x);
    }
    SumCong(p, s - {m}, f, h);
    SumLinear(s - {m}, Eval(c, m), Term(p, s, Values([1])), 0 - m, Term(p, s - {m}, Values(Quotient(c, m))), h);
  }

  /** Interpolating `c` over `s` reduces to the constant 1 over `s` and the quotient over `s - {m}`. */
  lemma AtZeroSplit(p: int, s: set<nat>, c: Poly, m: nat)
    requires IsPrime(p) && DistinctResidues(p, s) && m in s
    ensures Cong(p, AtZero(p, s, Values(c)),
                 Mix(Eval(c, m), AtZero(p, s, Values([1])), m, AtZero(p, s - {m}, Values(Quotient(c, m)))))
  {
    hide Eval, Product, Sum, Quotient, Inv, Mix;
    var s' := s - {m};
    var f, one := Term(p, s, Values(c)), Term(p, s, Values([1]));
    TermsSplit(p, s, c, m);
    SumTake(s, f, m);
    SumTake(s, one, m);
    ConstantOne(m);
    AddFirst(p, Basis(p, s, m), Eval(c, m), Sum(s', f), Sum(s', one), m, AtZero(p, s', Values(Quotient(c, m))));
  }

  lemma AddFirst(p: int, b: int, cm: int, sf: int, so: int, m: int, sg: int)
    requires Cong(p, sf, Mix(cm, so, m, sg))
    ensures Cong(p, b * cm + sf, Mix(cm, b * 1 + so, m, sg))
  {
    CongRefl(p, b * cm);
    CongAdd(p, b * cm, b * cm, sf, cm * so - m * sg);
    assert cm * (b * 1 + so) == b * cm + cm * so;
  }

  lemma ConstantOne(x: int)
    ensures Eval([1], x) == 1
  {
    assert [1][1..] == [];
    assert Eval([], x) == 0;
  }

  lemma IdentityPoly(x: int)
    ensures Eval([0, 1], x) == x && Quotient([0, 1], x) == [1]
  {
    assert [0, 1][1..] == [1];
    ConstantOne(x);
  }

  /** The Lagrange coefficients at 0 add up to 1. */
  lemma {:induction false} BasisSumsToOne(p: int, s: set<nat>)
    requires IsPrime(p) && DistinctResidues(p, s) && s != {}
    ensures Cong(p, AtZero(p, s, Values([1])), 1)
    decreases |s|
  {
    var m :| m in s;
    if s == {m} {
      ConstantOne(m);
      SumTake(s, Term(p, s, Values([1])), m);
      assert s - {m} == {};
      CongRefl(p, 1);
    } else {
      assert s - {m} != {};
      var n :| n in s - {m};
      var t := AtZero(p, s, Values([1]));
      var u := AtZero(p, s, Values([0, 1]));
      IdentityVia(p, s, m);
      assert m in s - {n};
      IdentityVia(p, s, n);
      CongSym(p, u, m * (t - 1));
      CongTrans(p, m * (t - 1), u, n * (t - 1));
      CongDiff(p, m * (t - 1), n * (t - 1));
      assert m * (t - 1) - n * (t - 1) == (m - n) * (t - 1);
      CongDiff(p, m, n);
      NoZeroDivisors(p, m - n, t - 1);
      CongDiff(p, t, 1);
    }
  }

  /** Interpolating the identity in two ways pins down the sum of the coefficients. */
  lemma IdentityVia(p: int, s: set<nat>, m: nat)
    requires IsPrime(p) && DistinctResidues(p, s) && m in s && s - {m} != {}
    ensures Cong(p, AtZero(p, s, Values([0, 1])), m * (AtZero(p, s, Values([1])) - 1))
    decreases |s|, 0
  {
    var t := AtZero(p, s, Values([1]));
    var t' := AtZero(p, s - {m}, Values([1]));
    IdentityPoly(m);
    AtZeroSplit(p, s, [0, 1], m);
    BasisSumsToOne(p, s - {m});
    SubtractOne(p, AtZero(p, s, Values([0, 1])), m, t, t');
  }

  lemma SubtractOne(p: int, u: int, m: int, t: int, t': int)
    requires Cong(p, u, Mix(m, t, m, t')) && Cong(p, t', 1)
    ensures Cong(p, u, m * (t - 1))
  {
    CongScale(p, 0 - m, t', 1);
    CongRefl(p, m * t);
    CongAdd(p, m * t, m * t, (0 - m) * t', (0 - m) * 1);
    assert m * t + (0 - m) * 1 == m * (t - 1);
    CongTrans(p, u, m * t + (0 - m) * t', m * (t - 1));
  }

  /** Interpolation is exact: any set of at least as many points as the polynomial has coefficients
      recovers its constant term. */
  lemma {:induction false} InterpolatesConstantTerm(p: int, s: set<nat>, c: Poly)
    requires IsPrime(p) && DistinctResidues(p, s)
    requires |c| <= |s|
    ensures Cong(p, AtZero(p, s, Values(c)), Eval(c, 0))
    decreases |s|
  {
    if s == {} {
      CongRefl(p, 0);
    } else {
      hide Eval, Product, Sum, Inv, AtZero, Mix;
      var m :| m in s;
      var q := Quotient(c, m);
      AtZeroSplit(p, s, c, m);
      BasisSumsToOne(p, s);
      InterpolatesConstantTerm(p, s - {m}, q);
      ValueAtZero(c, m);
      Combine(p, AtZero(p, s, Values(c)), Eval(c, m), AtZero(p, s, Values([1])),
              m, AtZero(p, s - {m}, Values(q)), Eval(q, 0), Eval(c, 0));
    }
  }

  lemma ValueAtZero(c: Poly, m: int)
    ensures Eval(c, 0) == Mix(Eval(c, m), 1, m, Eval(Quotient(c, m), 0))
  {
    QuotientDivides(c, m, 0);
  }

  lemma Combine(p: int, total: int, cm: int, t: int, m: int, t': int, q0: int, c0: int)
    requires Cong(p, total, Mix(cm, t, m, t'))
    requires Cong(p, t, 1) && Cong(p, t', q0)
    requires c0 == Mix(cm, 1, m, q0)
    ensures Cong(p, total, c0)
  {
    CongScale(p, cm, t, 1);
    CongScale(p, 0 - m, t', q0);
    CongAdd(p, cm * t, cm * 1, (0 - m) * t', (0 - m) * q0);
    CongTrans(p, total, cm * t + (0 - m) * t', c0);
  }

  /** Points and values that agree modulo `p` interpolate to the same residue. */
  lemma AtZeroCong(p: int, s: set<nat>, v: nat -> int, w: nat -> int)
    requires 2 <= p
    requires forall x: nat :: x in s ==> Cong(p, v(x), w(x))
    ensures Cong(p, AtZero(p, s, v), AtZero(p, s, w))
  {
    forall x: nat | x in s ensures Cong(p, Term(p, s, v)(x), Term(p, s, w)(x)) {
      CongScale(p, Basis(p, s, x), v(x), w(x));
    }
    SumCong(p, s, Term(p, s, v), Term(p, s, w));
  }

  /** A Lagrange coefficient is a unit when no point is 0. */
  lemma BasisNonZero(p: int, s: set<nat>, x: nat)
    requires IsPrime(p) && DistinctResidues(p, s) && x in s
    requires forall y :: y in s ==> !Cong(p, y, 0)
    ensures !Cong(p, Basis(p, s, x), 0)
  {
    forall y: nat | y in s - {x} ensures !Cong(p, BasisFactor(p, x, y), 0) {
      CongDiff(p, y, x);
      InvInverts(p, y - x);
      if Cong(p, y * Inv(p, y - x), 0) {
        NoZeroDivisors(p, y, Inv(p, y - x));
        CongScale(p, y - x, Inv(p, y - x), 0);
        CongSym(p, (y - x) * Inv(p, y - x), 1);
        CongTrans(p, 1, (y - x) * Inv(p, y - x), 0);
        SmallDistinct(p, 1, 0);
      }
    }
    ProductNonZero(p, s - {x}, BasisFactors(p, x));
  }
}
