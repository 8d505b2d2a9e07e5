/** Products and quotients of reals, with the facts about signs and order the
    proofs need attached to them. */
module Reals {
  function Mul(a: real, b: real): (p: real)
    ensures (a > 0.0 && b > 0.0) || (a < 0.0 && b < 0.0) ==> p > 0.0
    ensures (a > 0.0 && b < 0.0) || (a < 0.0 && b > 0.0) ==> p < 0.0
    ensures (a >= 0.0 && b >= 0.0) || (a <= 0.0 && b <= 0.0) ==> p >= 0.0
    ensures (a >= 0.0 && b <= 0.0) || (a <= 0.0 && b >= 0.0) ==> p <= 0.0
  {
    a * b
  }

  function Sq(v: real): (s: real)
    ensures s >= 0.0
    ensures s == 0.0 <==> v == 0.0
  {
    Mul(v, v)
  }

  lemma MulBelow(a: real, b: real, c: real)
    requires a <= b && c >= 0.0
    ensures Mul(a, c) <= Mul(b, c)
  {}

  lemma MulAdds(a: real, b: real, c: real)
    ensures Mul(a, c) + Mul(b, c) == Mul(a + b, c)
  {}

  function Clamp(v: real, lo: real, hi: real): real {
    if v < lo then lo else if v > hi then hi else v
  }

  /** `x` out of `n`, as a fraction between nought and one. */
  function Fraction(x: real, n: real): (f: real)
    requires n > 0.0
    ensures 0.0 <= f <= 1.0
    ensures x <= 0.0 ==> f == 0.0
    ensures x > 0.0 ==> f > 0.0
    ensures 0.0 <= x <= n ==> f == x / n
  {
    var r := x / n;
    QuotientSigns(x, n);
    Clamp(r, 0.0, 1.0)
  }

  lemma QuotientSigns(x: real, n: real)
    requires n > 0.0
    ensures x > 0.0 ==> x / n > 0.0
    ensures x <= 0.0 ==> x / n <= 0.0
    ensures x <= n ==> x / n <= 1.0
  {
    var r := x / n;
    assert Mul(r, n) == x;
    if x <= n {
      assert Mul(r - 1.0, n) == x - n;
    }
  }

  lemma FractionMonotone(x: real, y: real, n: real)
    requires x <= y && n > 0.0
    ensures Fraction(x, n) <= Fraction(y, n)
  {
    assert x / n <= y / n;
  }

  /** The point `x / n` of the way from `lo` to `hi`. */
  function Part(lo: real, hi: real, x: real, n: real): (v: real)
    requires n > 0.0
    ensures lo <= hi ==> lo <= v <= hi
    ensures lo < hi && x > 0.0 ==> lo < v
    ensures x <= 0.0 ==> v == lo
  {
    var f := Fraction(x, n);
    assert Mul(hi - lo, f) + Mul(hi - lo, 1.0 - f) == hi - lo;
    lo + Mul(hi - lo, f)
  }

  lemma PartMonotone(lo: real, hi: real, x: real, y: real, n: real)
    requires lo <= hi && x <= y && n > 0.0
    ensures Part(lo, hi, x, n) <= Part(lo, hi, y, n)
  {
    FractionMonotone(x, y, n);
    var f, g := Fraction(x, n), Fraction(y, n);
    assert Mul(hi - lo, g) - Mul(hi - lo, f) == Mul(hi - lo, g - f);
  }

  /** The same point without the clamp. */
  function Spread(lo: real, hi: real, x: real, n: real): real
    requires n > 0.0
  {
    lo + (hi - lo) * x / n
  }

  lemma SpreadIsPart(lo: real, hi: real, x: real, n: real)
    requires 0.0 <= x <= n && n > 0.0
    ensures Spread(lo, hi, x, n) == Part(lo, hi, x, n)
  {
    var h := hi - lo;
    assert h * x / n == h * (x / n);
  }

  lemma SpreadBelow(hi: real, x: real, n: real)
    requires hi > 0.0 && n > 0.0 && x < 0.0
    ensures Spread(0.0, hi, x, n) < 0.0
  {
    var p := Mul(hi, x);
    assert Mul(hi, -x) > 0.0;
    assert p == -Mul(hi, -x);
    QuotientSigns(-p, n);
    assert p / n == -((-p) / n);
    assert Spread(0.0, hi, x, n) == p / n;
  }
}
