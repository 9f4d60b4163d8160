/** Bytes and fixed-width little-endian integers. */
module Bytes {
  import Positional

  type Byte = x: nat | x < 256

  datatype Option<+T> = None | Some(value: T)

  function Pow256(n: nat): (r: nat)
    ensures r > 0
  {
    if n == 0 then 1 else 256 * Pow256(n - 1)
  }

  /** The `n` low-order bytes of `v`, least significant first. */
  function ToLE(v: nat, n: nat): (r: seq<Byte>)
    ensures |r| == n
  {
    if n == 0 then [] else [v % 256] + ToLE(v / 256, n - 1)
  }

  function FromLE(b: seq<Byte>): (r: nat) {
    if b == [] then 0 else b[0] + 256 * FromLE(b[1..])
  }

  /** Byte `k` is the k-th base-256 digit. */
  lemma {:induction false} LittleEndianByte(v: nat, n: nat, k: nat)
    requires k < n
    ensures ToLE(v, n)[k] == v / Pow256(k) % 256
    decreases k
  {
    if k > 0 {
      LittleEndianByte(v / 256, n - 1, k - 1);
      DivideTwice(v, Pow256(k - 1));
    }
  }

  lemma DivideTwice(v: nat, b: nat)
    requires b > 0
    ensures v / 256 / b == v / (256 * b)
  {
    var q := v / 256 / b;
    var r := v / 256 - q * b;
    assert v == 256 * (q * b + r) + v % 256;
    assert v == (256 * b) * q + (256 * r + v % 256);
    assert 0 <= 256 * r + v % 256 < 256 * b;
    QuotientIs(v, 256 * b, q, 256 * r + v % 256);
  }

  lemma QuotientIs(v: nat, d: nat, q: nat, r: nat)
    requires d > 0 && v == d * q + r && r < d
    ensures v / d == q
  {
    var e := v / d - q;
    assert d * (v / d) + v % d == v;
    assert d * e == r - v % d;
    Positional.SmallMultiple(d, e);
  }

  lemma {:induction false} LittleEndianRoundTrip(v: nat, n: nat)
    requires v < Pow256(n)
    ensures FromLE(ToLE(v, n)) == v
  {
    if n > 0 {
      assert v / 256 < Pow256(n - 1);
      LittleEndianRoundTrip(v / 256, n - 1);
      assert ToLE(v, n)[1..] == ToLE(v / 256, n - 1);
    }
  }

  lemma {:induction false} FromLEBound(b: seq<Byte>)
    ensures FromLE(b) < Pow256(|b|)
  {
    if b != [] {
      FromLEBound(b[1..]);
    }
  }

  /** Wider numbers fit in wider fields. */
  lemma {:induction false} Pow256Grows(m: nat, n: nat)
    requires m <= n
    ensures Pow256(m) <= Pow256(n)
  {
    if m > 0 {
      Pow256Grows(m - 1, n - 1);
    }
  }
}
