/** Powers of two, and division by them. */
module Powers {
  function Pow2(n: nat): (p: nat)
    ensures p >= 1
  {
    if n == 0 then 1 else 2 * Pow2(n - 1)
  }

  lemma Pow2Small()
    ensures Pow2(4) == 16 && Pow2(5) == 32 && Pow2(8) == 256 && Pow2(12) == 4096
  {
    assert Pow2(8) == 16 * Pow2(4);
    assert Pow2(12) == 16 * Pow2(8);
  }

  lemma {:induction false} Pow2Add(a: nat, b: nat)
    ensures Pow2(a + b) == Pow2(a) * Pow2(b)
  {
    if b > 0 { Pow2Add(a, b - 1); }
  }

  lemma DivMod(n: nat, q: nat, p: nat, r: nat)
    requires p > 0 && r < p && n == q * p + r
    ensures n / p == q && n % p == r
  {
    var q', r' := n / p, n % p;
    assert n == q' * p + r';
    if q' >= q + 1 {
      Multiples(q + 1, q', p);
    } else if q >= q' + 1 {
      Multiples(q' + 1, q, p);
    }
  }

  lemma Multiples(a: nat, b: nat, p: nat)
    requires a <= b
    ensures a * p <= b * p && a * p == (a - 1) * p + p
  {}

  lemma {:induction false} Pow2Monotone(a: nat, b: nat)
    requires a < b
    ensures Pow2(a) < Pow2(b)
  {
    if a < b - 1 { Pow2Monotone(a, b - 1); }
  }

  lemma Pow2ThirtyTwo()
    ensures Pow2(32) == 0x1_0000_0000
  {
    Pow2Small();
    Pow2Add(8, 8);
    Pow2Add(16, 16);
  }

  lemma Quotient(n: nat, p: nat)
    requires p > 0
    ensures n == (n / p) * p + n % p
  {}

  /** `n` shifted right by `bits`, and the low bits the shift drops. */
  function Shr(n: nat, bits: nat): nat {
    Over(n, Pow2(bits))
  }

  function Over(n: nat, p: nat): nat
    requires p > 0
  {
    n / p
  }

  function Low(n: nat, bits: nat): nat {
    n % Pow2(bits)
  }

  lemma ShrLow(n: nat, bits: nat)
    ensures n == Shr(n, bits) * Pow2(bits) + Low(n, bits) && Low(n, bits) < Pow2(bits)
  {
    Quotient(n, Pow2(bits));
  }

  lemma ShrLowUnique(n: nat, bits: nat, q: nat, r: nat)
    requires n == q * Pow2(bits) + r && r < Pow2(bits)
    ensures Shr(n, bits) == q && Low(n, bits) == r
  {
    DivMod(n, q, Pow2(bits), r);
  }

  lemma ModBelow(n: nat, p: nat)
    requires p > 0
    ensures n % p <= n
  {
    Multiples(0, n / p, p);
    Quotient(n, p);
  }

  /** Numbers in the same multiple of `p` are those from its start on. */
  lemma SameQuotient(n: nat, a: nat, p: nat)
    requires p > 0
    ensures n / p == a / p <==> n - n % p <= a < n - n % p + p
  {
    var q, r := n / p, n % p;
    assert n == q * p + r;
    var b, c := a / p, a % p;
    assert a == b * p + c;
    if b >= q + 1 {
      Multiples(q + 1, b, p);
    } else if q >= b + 1 {
      Multiples(b + 1, q, p);
    }
  }
}
