/** Arithmetic modulo a prime `p`, stated over the integers by congruence.
    The scalar field of the signature scheme is one instance; nothing here depends on its size. */
module PrimeField {

  ghost predicate IsPrime(p: int) {
    2 <= p && forall d :: 1 < d < p ==> p % d != 0
  }

  predicate Differ(p: int, a: int, b: int, k: int) {
    a - b == k * p
  }

  /** `a` and `b` name the same residue modulo `p`. */
  ghost predicate Cong(p: int, a: int, b: int) {
    exists k :: Differ(p, a, b, k)
  }

  lemma CongBy(p: int, a: int, b: int, k: int)
    requires a - b == k * p
    ensures Cong(p, a, b)
  {
    assert Differ(p, a, b, k);
  }

  lemma CongRefl(p: int, a: int)
    ensures Cong(p, a, a)
  {
    CongBy(p, a, a, 0);
  }

  lemma CongSym(p: int, a: int, b: int)
    requires Cong(p, a, b)
    ensures Cong(p, b, a)
  {
    var k :| Differ(p, a, b, k);
    CongBy(p, b, a, -k);
  }

  lemma CongTrans(p: int, a: int, b: int, c: int)
    requires Cong(p, a, b) && Cong(p, b, c)
    ensures Cong(p, a, c)
  {
    var k :| Differ(p, a, b, k);
    var m :| Differ(p, b, c, m);
    assert a - c == (k + m) * p;
    CongBy(p, a, c, k + m);
  }

  lemma CongAdd(p: int, a: int, b: int, c: int, d: int)
    requires Cong(p, a, b) && Cong(p, c, d)
    ensures Cong(p, a + c, b + d)
  {
    var k :| Differ(p, a, b, k);
    var m :| Differ(p, c, d, m);
    assert (a + c) - (b + d) == (k + m) * p;
    CongBy(p, a + c, b + d, k + m);
  }

  lemma CongScale(p: int, c: int, a: int, b: int)
    requires Cong(p, a, b)
    ensures Cong(p, c * a, c * b)
  {
    var k :| Differ(p, a, b, k);
    calc {
      c * a - c * b;
      c * (a - b);
      c * (k * p);
      (c * k) * p;
    }
    CongBy(p, c * a, c * b, c * k);
  }

  lemma CongMul(p: int, a: int, b: int, c: int, d: int)
    requires Cong(p, a, b) && Cong(p, c, d)
    ensures Cong(p, a * c, b * d)
  {
    CongScale(p, c, a, b);
    CongScale(p, b, c, d);
    assert c * a == a * c && c * b == b * c;
    CongTrans(p, a * c, b * c, b * d);
  }

  /** A value is congruent to its residue. */
  lemma CongMod(p: int, a: int)
    requires 0 < p
    ensures Cong(p, a, a % p) && Cong(p, a % p, a)
  {
    assert a - a % p == (a / p) * p;
    CongBy(p, a, a % p, a / p);
    CongSym(p, a, a % p);
  }

  /** Congruence is equality of residues. */
  lemma CongIffSameResidue(p: int, a: int, b: int)
    requires 0 < p
    ensures Cong(p, a, b) <==> a % p == b % p
  {
    CongMod(p, a);
    CongMod(p, b);
    if a % p == b % p {
      CongTrans(p, a, a % p, b);
    }
    if Cong(p, a, b) {
      CongTrans(p, a % p, a, b);
      CongTrans(p, a % p, b, b % p);
      SmallCongEqual(p, a % p, b % p);
    }
  }

  lemma MultipleInRange(p: int, k: int)
    requires -p < k * p < p
    ensures k == 0
  {
  }

  lemma SmallCongEqual(p: int, a: int, b: int)
    requires 0 <= a < p && 0 <= b < p
    requires Cong(p, a, b)
    ensures a == b
  {
    var k :| Differ(p, a, b, k);
    assert -p < k * p < p;
    MultipleInRange(p, k);
  }

  // ----- Inverses -----

  /** Euclid's recursion: `p = (p/a)*a + p%a` turns an inverse of `p % a` into one of `a`. */
  function InvSmall(p: int, a: int): (r: int)
    requires 1 <= a < p
    decreases a
  {
    if a == 1 || p % a == 0 then 1 else -(p / a) * InvSmall(p, p % a)
  }

  lemma {:induction false} InvSmallInverts(p: int, a: int)
    requires IsPrime(p) && 1 <= a < p
    ensures Cong(p, a * InvSmall(p, a), 1)
    decreases a
  {
    if a == 1 {
      CongRefl(p, 1);
    } else {
      var q, r := p / a, p % a;
      assert r != 0;
      InvSmallInverts(p, r);
      var s := InvSmall(p, r);
      var k :| Differ(p, r * s, 1, k);
      assert r == p - q * a;
      calc {
        a * (-q * s) - 1;
        (r - p) * s - 1;
        r * s - 1 - p * s;
        k * p - s * p;
        (k - s) * p;
      }
      CongBy(p, a * (-q * s), 1, k - s);
    }
  }

  /** The inverse of any integer that is not a multiple of `p` (0 otherwise). */
  function Inv(p: int, a: int): (r: int)
    requires 2 <= p
  {
    if a % p == 0 then 0 else InvSmall(p, a % p)
  }

  lemma InvInverts(p: int, a: int)
    requires IsPrime(p) && !Cong(p, a, 0)
    ensures Cong(p, a * Inv(p, a), 1)
  {
    CongIffSameResidue(p, a, 0);
    assert 0 % p == 0;
    InvSmallInverts(p, a % p);
    CongMod(p, a);
    CongRefl(p, Inv(p, a));
    CongMul(p, a, a % p, Inv(p, a), Inv(p, a));
    CongTrans(p, a * Inv(p, a), (a % p) * Inv(p, a), 1);
  }

  /** A prime field has no zero divisors. */
  lemma NoZeroDivisors(p: int, a: int, b: int)
    requires IsPrime(p) && Cong(p, a * b, 0) && !Cong(p, a, 0)
    ensures Cong(p, b, 0)
  {
    var i := Inv(p, a);
    InvInverts(p, a);
    CongScale(p, b, a * i, 1);
    CongSym(p, b * (a * i), b * 1);
    CongScale(p, i, a * b, 0);
    assert i * (a * b) == b * (a * i);
    CongTrans(p, b, b * (a * i), 0);
  }

  lemma CongDiff(p: int, a: int, b: int)
    ensures Cong(p, a, b) <==> Cong(p, a - b, 0)
  {
    if Cong(p, a, b) {
      var k :| Differ(p, a, b, k);
      CongBy(p, a - b, 0, k);
    }
    if Cong(p, a - b, 0) {
      var k :| Differ(p, a - b, 0, k);
      CongBy(p, a, b, k);
    }
  }

  /** Distinct numbers below `p` are distinct residues. */
  lemma SmallDistinct(p: int, a: int, b: int)
    requires 0 <= a < p && 0 <= b < p && a != b
    ensures !Cong(p, a, b)
  {
    if Cong(p, a, b) {
      SmallCongEqual(p, a, b);
    }
  }
}
