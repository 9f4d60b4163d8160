/** Positional numerals, least significant digit first, in any base. */
module Positional {

  predicate DigitsOf(d: seq<nat>, base: nat) {
    forall i :: 0 <= i < |d| ==> d[i] < base
  }

  function FromDigits(d: seq<nat>, base: nat): (r: nat) {
    if d == [] then 0 else d[0] + base * FromDigits(d[1..], base)
  }

  /** The numeral without superfluous zeros; 0 is the empty numeral. */
  function ToDigits(v: nat, base: nat): (r: seq<nat>)
    requires 2 <= base
    ensures DigitsOf(r, base)
    decreases v
  {
    if v == 0 then [] else
      DivShrinks(v, base);
      [v % base] + ToDigits(v / base, base)
  }

  lemma DivShrinks(v: nat, base: nat)
    requires 0 < v && 2 <= base
    ensures 0 <= v / base < v
    ensures v == base * (v / base) + v % base
  {
    var q := v / base;
    assert v == base * q + v % base;
    if q >= 1 {
      MulGrows(base, q);
    }
  }

  lemma MulGrows(base: nat, q: nat)
    requires 2 <= base && 1 <= q
    ensures base * q >= 2 * q
  {
  }

  lemma {:induction false} DigitsRoundTrip(v: nat, base: nat)
    requires 2 <= base
    ensures FromDigits(ToDigits(v, base), base) == v
    decreases v
  {
    if v != 0 {
      DivShrinks(v, base);
      DigitsRoundTrip(v / base, base);
      assert ToDigits(v, base)[1..] == ToDigits(v / base, base);
    }
  }

  /** No superfluous zero at the most significant end. */
  predicate Trimmed(d: seq<nat>) {
    d == [] || d[|d| - 1] != 0
  }

  lemma {:induction false} ToDigitsTrimmed(v: nat, base: nat)
    requires 2 <= base
    ensures Trimmed(ToDigits(v, base))
    ensures v == 0 <==> ToDigits(v, base) == []
    decreases v
  {
    if v != 0 {
      DivShrinks(v, base);
      ToDigitsTrimmed(v / base, base);
      var rest := ToDigits(v / base, base);
      if rest == [] {
        assert v / base == 0;
        assert ToDigits(v, base) == [v % base];
      } else {
        assert ToDigits(v, base)[|rest|] == rest[|rest| - 1];
      }
    }
  }

  lemma SplitDigit(a: nat, rest: nat, base: nat)
    requires 2 <= base && a < base
    ensures (a + base * rest) / base == rest && (a + base * rest) % base == a
  {
    var v := a + base * rest;
    var q, r := v / base, v % base;
    assert v == base * q + r;
    assert base * (rest - q) == base * rest - base * q == r - a;
    SmallMultiple(base, rest - q);
  }

  lemma SmallMultiple(base: nat, k: int)
    requires 0 - base < base * k < base
    ensures k == 0
  {
  }

  lemma {:induction false} TrimmedPositive(d: seq<nat>, base: nat)
    requires 2 <= base && Trimmed(d) && d != []
    ensures FromDigits(d, base) > 0
  {
    if |d| > 1 {
      TrimmedPositive(d[1..], base);
      MulGrows(base, FromDigits(d[1..], base));
    } else {
      assert d[1..] == [];
    }
  }

  /** A trimmed numeral is the only one for its value. */
  lemma {:induction false} TrimmedRoundTrip(d: seq<nat>, base: nat)
    requires 2 <= base && DigitsOf(d, base) && Trimmed(d)
    ensures ToDigits(FromDigits(d, base), base) == d
    decreases |d|
  {
    if d != [] {
      TrimmedPositive(d, base);
      assert Trimmed(d[1..]);
      TrimmedRoundTrip(d[1..], base);
      SplitDigit(d[0], FromDigits(d[1..], base), base);
      assert d == [d[0]] + d[1..];
    }
  }

  // ----- Reversal and leading elements -----

  function Reversed<T>(s: seq<T>): (r: seq<T>)
    ensures |r| == |s|
    ensures forall i :: 0 <= i < |s| ==> r[i] == s[|s| - 1 - i]
  {
    seq(|s|, i requires 0 <= i < |s| => s[|s| - 1 - i])
  }

  lemma ReversedTwice<T>(s: seq<T>)
    ensures Reversed(Reversed(s)) == s
  {
  }

  /** How many copies of `x` a sequence starts with. */
  function Leading<T(==)>(s: seq<T>, x: T): (r: nat)
    ensures r <= |s|
    ensures forall i :: 0 <= i < r ==> s[i] == x
    ensures r < |s| ==> s[r] != x
  {
    if s == [] || s[0] != x then 0 else 1 + Leading(s[1..], x)
  }

  function Repeat<T>(x: T, n: nat): (r: seq<T>)
    ensures |r| == n && forall i :: 0 <= i < n ==> r[i] == x
  {
    seq(n, _ => x)
  }

  lemma LeadingSplit<T>(s: seq<T>, x: T)
    ensures s == Repeat(x, Leading(s, x)) + s[Leading(s, x)..]
  {
    hide Leading;
    var n := Leading(s, x);
    assert s[..n] == Repeat(x, n);
  }

  lemma LeadingOf<T>(x: T, n: nat, rest: seq<T>)
    requires rest == [] || rest[0] != x
    ensures Leading(Repeat(x, n) + rest, x) == n
  {
    var s := Repeat(x, n) + rest;
    assert forall i :: 0 <= i < n ==> s[i] == x;
    if rest != [] {
      assert s[n] == rest[0];
    }
  }
}
