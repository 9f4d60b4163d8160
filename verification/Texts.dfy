/** Decimal text of a natural number. */
module Texts {
  predicate IsDigit(c: char) {
    '0' <= c <= '9'
  }

  function DigitOf(d: nat): (r: char)
    requires d < 10
    ensures IsDigit(r)
  {
    "0123456789"[d]
  }

  function Decimal(n: nat): (r: string)
    ensures r != [] && forall c :: c in r ==> IsDigit(c)
  {
    if n < 10 then [DigitOf(n)] else Decimal(n / 10) + [DigitOf(n % 10)]
  }

  /** Digits are written most significant first. */
  lemma DecimalMeans(a: nat, d: nat)
    requires d < 10
    ensures Decimal(d) == ["0123456789"[d]]
    ensures a > 0 ==> Decimal(10 * a + d) == Decimal(a) + ["0123456789"[d]]
  {
    assert a > 0 ==> (10 * a + d) / 10 == a && (10 * a + d) % 10 == d;
  }

  lemma DigitInjective(a: nat, b: nat)
    requires a < 10 && b < 10 && DigitOf(a) == DigitOf(b)
    ensures a == b
  {
  }

  lemma {:induction false} DecimalInjective(a: nat, b: nat)
    requires Decimal(a) == Decimal(b)
    ensures a == b
    decreases a
  {
    hide DigitOf;
    var s := Decimal(a);
    if a < 10 || b < 10 {
      assert |s| == 1;
      assert a < 10 && b < 10;
      DigitInjective(a, b);
    } else {
      var n := |s| - 1;
      assert s[..n] == Decimal(a / 10) && s[..n] == Decimal(b / 10);
      assert s[n] == DigitOf(a % 10) && s[n] == DigitOf(b % 10);
      DecimalInjective(a / 10, b / 10);
      DigitInjective(a % 10, b % 10);
    }
  }
}
