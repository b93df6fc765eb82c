/** Finite decimal numbers `coef * 10^exp`, with exact comparison. */
module Decimals {

  datatype Decimal = NonFinite | Finite(coef: int, exp: int)

  function Pow10(n: nat): (r: nat)
    ensures r > 0
  {
    if n == 0 then 1 else 10 * Pow10(n - 1)
  }

  lemma {:induction false} Pow10Add(a: nat, b: nat)
    ensures Pow10(a + b) == Pow10(a) * Pow10(b)
  {
    if a > 0 {
      Pow10Add(a - 1, b);
      assert Pow10(a + b) == 10 * Pow10(a - 1 + b);
    }
  }

  lemma {:induction false} Pow10Monotone(a: nat, b: nat)
    requires a <= b
    ensures Pow10(a) <= Pow10(b)
  {
    if a < b { Pow10Monotone(a, b - 1); }
  }

  /** Number of digits of the coefficient as written. */
  function Digits(n: nat): (r: nat)
    ensures r >= 1
  {
    if n < 10 then 1 else 1 + Digits(n / 10)
  }

  lemma {:induction false} DigitsBound(n: nat, k: nat)
    ensures Digits(n) <= k + 1 <==> n < Pow10(k + 1)
  {
    if k > 0 && n >= 10 {
      DigitsBound(n / 10, k - 1);
      var p := Pow10(k);
      assert Pow10(k + 1) == 10 * p;
    } else if k == 0 {
      assert Pow10(1) == 10 * Pow10(0);
    } else {
      assert Pow10(k + 1) == 10 * Pow10(k);
    }
  }

  /** `Decimal.normalize()`: trailing zeros move into the exponent. */
  function Normalize(d: Decimal): (r: Decimal)
    requires d.Finite?
    ensures r.Finite?
    ensures d.coef > 0 ==> r.coef > 0
    decreases if d.coef < 0 then -d.coef else d.coef
  {
    if d.coef == 0 then Finite(0, 0)
    else if d.coef % 10 == 0 then Normalize(Finite(d.coef / 10, d.exp + 1))
    else d
  }

  /** Significant figures of a positive coefficient. */
  function Sig(n: nat): (r: nat)
    ensures r >= 1
  {
    if n != 0 && n % 10 == 0 then Sig(n / 10) else Digits(n)
  }

  lemma {:induction false} NormalizeCoef(c: nat, e: int)
    requires c > 0
    ensures Digits(Normalize(Finite(c, e)).coef) == Sig(c)
    decreases c
  {
    if c % 10 == 0 { NormalizeCoef(c / 10, e + 1); }
  }

  /** The value is an integer multiple of `10^e`. */
  predicate IsMultipleOf(d: Decimal, e: int)
    requires d.Finite?
  {
    d.exp >= e || d.coef % Pow10(e - d.exp) == 0
  }

  lemma ModByProduct(c: int, p: nat)
    requires p > 0
    ensures c % (10 * p) == 0 <==> c % 10 == 0 && (c / 10) % p == 0
  {
    if c % (10 * p) == 0 {
      var q := c / (10 * p);
      assert c == 10 * (p * q) by { assert (10 * p) * q == 10 * (p * q); }
      assert c / 10 == p * q;
      MultipleMod(q, p);
    }
    if c % 10 == 0 && (c / 10) % p == 0 {
      var q := (c / 10) / p;
      assert c / 10 == p * q;
      assert c == (10 * p) * q by { assert 10 * (p * q) == (10 * p) * q; }
      MultipleMod(q, 10 * p);
    }
  }

  lemma MulAtLeast(p: nat, k: int)
    ensures k >= 1 ==> p * k >= p
    ensures k <= -1 ==> p * k <= 0 - p
  {
  }

  lemma MultipleMod(q: int, p: nat)
    requires p > 0
    ensures (p * q) % p == 0
  {
    var m := p * q;
    var quo, rem := m / p, m % p;
    assert m == p * quo + rem;
    assert p * (q - quo) == rem by { assert p * (q - quo) == p * q - p * quo; }
    MulAtLeast(p, q - quo);
  }

  /** The normalised exponent is the largest power of ten dividing the value. */
  lemma {:induction false} NormalizeExponent(c: nat, e: int, at: int)
    requires c > 0
    ensures Normalize(Finite(c, e)).exp >= at <==> IsMultipleOf(Finite(c, e), at)
    decreases c
  {
    if c % 10 == 0 {
      NormalizeExponent(c / 10, e + 1, at);
      if e < at {
        ModByProduct(c, Pow10(at - e - 1));
      } else {
        NormalizeExponent(c / 10, e + 1, e + 1);
      }
    } else if e < at {
      ModByProduct(c, Pow10(at - e - 1));
    }
  }

  // ---- Comparison ----

  /** The value as a multiple of `10^e`, for `e` at or below its exponent. */
  function Scaled(d: Decimal, e: int): int
    requires d.Finite? && e <= d.exp
  {
    d.coef * Pow10(d.exp - e)
  }

  function Min(a: int, b: int): int { if a <= b then a else b }

  predicate Le(a: Decimal, b: Decimal)
    requires a.Finite? && b.Finite?
  {
    var e := Min(a.exp, b.exp);
    Scaled(a, e) <= Scaled(b, e)
  }

  predicate Eq(a: Decimal, b: Decimal)
    requires a.Finite? && b.Finite?
  {
    Le(a, b) && Le(b, a)
  }

  lemma Rescale(d: Decimal, e: int, f: int)
    requires d.Finite? && f <= e <= d.exp
    ensures Scaled(d, f) == Scaled(d, e) * Pow10(e - f)
  {
    Pow10Add(d.exp - e, e - f);
    assert d.coef * (Pow10(d.exp - e) * Pow10(e - f)) == d.coef * Pow10(d.exp - e) * Pow10(e - f);
  }

  lemma Distribute(a: int, b: int, p: int)
    ensures (b - a) * p == b * p - a * p
  {
  }

  lemma MulPositive(k: int, p: nat)
    requires p > 0 && k >= 1
    ensures k * p >= p
  {
  }

  lemma MulOrder(a: int, b: int, p: nat)
    requires p > 0
    ensures a * p <= b * p <==> a <= b
  {
    Distribute(a, b, p);
    Distribute(b, a, p);
    if a < b { MulPositive(b - a, p); }
    if a > b { MulPositive(a - b, p); }
  }

  /** Comparison may be made at any common exponent. */
  lemma LeAt(a: Decimal, b: Decimal, e: int)
    requires a.Finite? && b.Finite? && e <= a.exp && e <= b.exp
    ensures Le(a, b) <==> Scaled(a, e) <= Scaled(b, e)
  {
    var m := Min(a.exp, b.exp);
    Rescale(a, m, e);
    Rescale(b, m, e);
    MulOrder(Scaled(a, m), Scaled(b, m), Pow10(m - e));
  }
}
