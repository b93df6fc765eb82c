/** Price shaping for the Hyperliquid tick rule: at most five significant
    figures and at most `cap - szDecimals` decimals, integers always legal. */
module HyperliquidPrices {
  import opened Common
  import opened Decimals

  const MAX_DECIMALS_PERPS := 6
  const MAX_DECIMALS_SPOT := 8
  const MAX_PRICE_SIGNIFICANT_FIGURES := 5

  datatype Error = InvalidOrder | BadArgument

  function DecimalsCap(isSpot: bool): int {
    if isSpot then MAX_DECIMALS_SPOT else MAX_DECIMALS_PERPS
  }

  /** Validates a user price, returning it unchanged. */
  function QuantizePrice(price: Decimal, szDecimals: int, isSpot: bool): Result<Decimal, Error> {
    if price.NonFinite? then Err(InvalidOrder)
    else if price.coef <= 0 then Err(InvalidOrder)
    else if szDecimals < 0 then Err(BadArgument)
    else
      var normalized := Normalize(price);
      if normalized.exp >= 0 then Ok(price)
      else if Digits(normalized.coef) > MAX_PRICE_SIGNIFICANT_FIGURES then Err(InvalidOrder)
      else if -normalized.exp > DecimalsCap(isSpot) - szDecimals then Err(InvalidOrder)
      else Ok(price)
  }

  /** A value on the shaped grid: five significant figures, `places` decimals. */
  predicate OnGrid(m: Decimal, places: int) {
    m.Finite? && m.coef > 0 && Sig(m.coef) <= MAX_PRICE_SIGNIFICANT_FIGURES && IsMultipleOf(m, -places)
  }

  /** The validator accepts exactly the positive integers and the values on the grid. */
  lemma QuantizeAcceptsExactly(price: Decimal, szDecimals: int, isSpot: bool)
    ensures QuantizePrice(price, szDecimals, isSpot) ==
            if price.NonFinite? || price.coef <= 0 then Err(InvalidOrder)
            else if szDecimals < 0 then Err(BadArgument)
            else if IsMultipleOf(price, 0) || OnGrid(price, (if isSpot then 8 else 6) - szDecimals) then Ok(price)
            else Err(InvalidOrder)
  {
    if price.Finite? && price.coef > 0 && szDecimals >= 0 {
      NormalizeCoef(price.coef, price.exp);
      NormalizeExponent(price.coef, price.exp, 0);
      NormalizeExponent(price.coef, price.exp, -(DecimalsCap(isSpot) - szDecimals));
    }
  }

  // ---- Rounding to an integer number of ticks ----

  /** The coefficient of `price.quantize(10^-places)` for a positive price. */
  function QuantizeCoef(price: Decimal, places: int, up: bool): (r: nat)
    requires price.Finite? && price.coef > 0
  {
    if price.exp + places >= 0 then price.coef * Pow10(price.exp + places)
    else Ratio(price.coef, Pow10(-(price.exp + places)), up)
  }

  function Ratio(n: nat, d: nat, up: bool): nat
    requires d > 0
  {
    if up then (n + d - 1) / d else n / d
  }

  lemma RatioBounds(n: nat, d: nat, t: nat)
    requires d > 0
    ensures t * d <= n <==> t <= Ratio(n, d, false)
    ensures n <= t * d <==> Ratio(n, d, true) <= t
  {
    var f, c := n / d, (n + d - 1) / d;
    assert n == d * f + n % d;
    assert n + d - 1 == d * c + (n + d - 1) % d;
    Product(t, f, d);
    Product(t, c, d);
  }

  lemma Product(t: int, f: int, d: nat)
    requires d > 0
    ensures t <= f ==> t * d <= d * f
    ensures t >= f + 1 ==> t * d >= d * f + d
    ensures t <= f - 1 ==> t * d <= d * f - d
    ensures t >= f ==> t * d >= d * f
  {
    var k := f - t;
    assert d * f == t * d + d * k;
    MulAtLeast(d, k);
  }

  lemma RatioNestedAt(n: nat, d: nat, e: nat, t: nat)
    requires d > 0 && e > 0 && d * e > 0
    ensures t <= Ratio(Ratio(n, d, false), e, false) <==> t <= Ratio(n, d * e, false)
    ensures Ratio(Ratio(n, d, true), e, true) <= t <==> Ratio(n, d * e, true) <= t
  {
    RatioBounds(n, d * e, t);
    RatioBounds(n, d, t * e);
    RatioBounds(Ratio(n, d, false), e, t);
    RatioBounds(Ratio(n, d, true), e, t);
    Reassociate(t, d, e);
  }

  lemma Associative(a: int, b: int, c: int)
    ensures (a * b) * c == a * (b * c)
  {
  }

  lemma Reassociate(t: int, d: int, e: int)
    ensures t * (d * e) == (t * e) * d
  {
  }

  /** Rounding to a coarser tick in two stages equals rounding once. */
  lemma RatioNested(n: nat, d: nat, e: nat, up: bool)
    requires d > 0 && e > 0
    ensures d * e > 0
    ensures Ratio(Ratio(n, d, up), e, up) == Ratio(n, d * e, up)
  {
    MulAtLeast(d, e);
    RatioNestedAt(n, d, e, Ratio(Ratio(n, d, up), e, up));
    RatioNestedAt(n, d, e, Ratio(n, d * e, up));
  }

  lemma Whole(c: nat, e: nat, up: bool)
    requires e > 0
    ensures Ratio(c * e, e, up) == c
  {
    RatioBounds(c * e, e, c);
    RatioBounds(c * e, e, Ratio(c * e, e, up));
    MulOrder(Ratio(c * e, e, up), c, e);
  }

  /** Each pass of the rounding loop drops one digit of the previous candidate. */
  lemma QuantizeStep(price: Decimal, places: int, up: bool)
    requires price.Finite? && price.coef > 0
    ensures QuantizeCoef(price, places - 1, up) == Ratio(QuantizeCoef(price, places, up), 10, up)
  {
    var k := price.exp + places;
    if k >= 1 {
      var p := Pow10(k - 1);
      assert price.coef * Pow10(k) == (price.coef * p) * 10;
      Whole(price.coef * p, 10, up);
    } else if k == 0 {
      assert Pow10(1) == 10 * Pow10(0);
      assert price.coef * Pow10(0) == price.coef;
    } else {
      assert Pow10(-(k - 1)) == 10 * Pow10(-k);
      RatioNested(price.coef, Pow10(-k), 10, up);
    }
  }

  lemma {:induction false} QuantizeChain(price: Decimal, places: int, k: nat, up: bool)
    requires price.Finite? && price.coef > 0
    ensures QuantizeCoef(price, places - k, up) == Ratio(QuantizeCoef(price, places, up), Pow10(k), up)
  {
    if k == 0 {
      var c := QuantizeCoef(price, places, up);
      Whole(c, 1, up);
      assert c * 1 == c;
    } else {
      QuantizeChain(price, places, k - 1, up);
      QuantizeStep(price, places - (k - 1), up);
      RatioNested(QuantizeCoef(price, places, up), Pow10(k - 1), 10, up);
    }
  }

  // ---- Ticks ----

  /** `t` ticks of `10^-places` lie below the price exactly when they lie below
      its rounded-down count, and dually above. */
  lemma TickCompare(t: nat, places: int, price: Decimal)
    requires price.Finite? && price.coef > 0
    ensures var e := Min(-places, price.exp);
            && (t * Pow10(-places - e) <= Scaled(price, e) <==> t <= QuantizeCoef(price, places, false))
            && (Scaled(price, e) <= t * Pow10(-places - e) <==> QuantizeCoef(price, places, true) <= t)
  {
    if price.exp + places >= 0 {
      assert Pow10(0) == 1;
    } else {
      RatioBounds(price.coef, Pow10(-(price.exp + places)), t);
      assert Scaled(price, price.exp) == price.coef;
    }
  }

  lemma TickLe(t: nat, places: int, price: Decimal)
    requires price.Finite? && price.coef > 0
    ensures Le(Finite(t, -places), price) <==> t <= QuantizeCoef(price, places, false)
    ensures Le(price, Finite(t, -places)) <==> QuantizeCoef(price, places, true) <= t
  {
    TickCompare(t, places, price);
  }

  /** Moving zeros between coefficient and exponent does not change comparisons. */
  lemma SameValue(c: int, e: int, k: nat, x: Decimal)
    requires x.Finite?
    ensures Le(Finite(c * Pow10(k), e), x) <==> Le(Finite(c, e + k), x)
    ensures Le(x, Finite(c * Pow10(k), e)) <==> Le(x, Finite(c, e + k))
  {
    var f := Min(e, x.exp);
    LeAt(Finite(c * Pow10(k), e), x, f);
    LeAt(Finite(c, e + k), x, f);
    LeAt(x, Finite(c * Pow10(k), e), f);
    LeAt(x, Finite(c, e + k), f);
    SameScaled(c, e, k, f);
  }

  lemma SameScaled(c: int, e: int, k: nat, f: int)
    requires f <= e
    ensures Scaled(Finite(c * Pow10(k), e), f) == Scaled(Finite(c, e + k), f)
  {
    var p, q := Pow10(k), Pow10(e - f);
    Pow10Add(k, e - f);
    Associative(c, p, q);
    assert Scaled(Finite(c * p, e), f) == (c * p) * q;
    assert Scaled(Finite(c, e + k), f) == c * Pow10(k + (e - f));
  }

  lemma SigTen(t: nat)
    requires t > 0
    ensures Sig(10 * t) == Sig(t)
  {
    assert (10 * t) % 10 == 0 && (10 * t) / 10 == t;
  }

  lemma {:induction false} SigShift(c: nat, k: nat)
    requires c > 0
    ensures c * Pow10(k) > 0 && Sig(c * Pow10(k)) == Sig(c)
  {
    if k == 0 {
      assert c * Pow10(0) == c;
    } else {
      SigShift(c, k - 1);
      SigTen(c * Pow10(k - 1));
      Associative(10, c, Pow10(k - 1));
      Associative(c, 10, Pow10(k - 1));
    }
  }

  /** A value on the grid as a count of ticks of `10^-places`. */
  function TicksOf(m: Decimal, places: int): int
    requires m.Finite? && m.coef > 0
  {
    if m.exp >= -places then m.coef * Pow10(m.exp + places) else m.coef / Pow10(-places - m.exp)
  }

  lemma DividesOut(c: nat, d: nat)
    requires d > 0 && c % d == 0
    ensures c == (c / d) * d
  {
  }

  lemma TicksShape(m: Decimal, places: int)
    requires OnGrid(m, places)
    ensures TicksOf(m, places) > 0 && Sig(TicksOf(m, places)) <= MAX_PRICE_SIGNIFICANT_FIGURES
  {
    if m.exp >= -places {
      SigShift(m.coef, m.exp + places);
    } else {
      var k := -places - m.exp;
      DividesOut(m.coef, Pow10(k));
      SigShift(m.coef / Pow10(k), k);
    }
  }

  /** Its count of ticks compares like the value itself. */
  lemma TicksSame(m: Decimal, places: int, x: Decimal)
    requires OnGrid(m, places) && x.Finite?
    ensures Le(m, x) <==> Le(Finite(TicksOf(m, places), -places), x)
    ensures Le(x, m) <==> Le(x, Finite(TicksOf(m, places), -places))
  {
    if m.exp >= -places {
      SameValue(m.coef, -places, m.exp + places, x);
    } else {
      var k := -places - m.exp;
      DividesOut(m.coef, Pow10(k));
      SameValue(TicksOf(m, places), m.exp, k, x);
    }
  }

  // ---- Optimality of the first coarsening that fits ----

  lemma {:induction false} SigAtMostDigits(n: nat)
    ensures Sig(n) <= Digits(n)
  {
    if n != 0 && n % 10 == 0 { SigAtMostDigits(n / 10); }
  }

  lemma SigExceedsFive(n: nat)
    requires Sig(n) > MAX_PRICE_SIGNIFICANT_FIGURES
    ensures n >= 100001
  {
    SigAtMostDigits(n);
    DigitsBound(n, 4);
    HundredThousand();
    SigShift(1, 5);
  }

  lemma HundredThousand()
    ensures Pow10(4) == 10000 && Pow10(5) == 100000
  {
    assert Pow10(1) == 10 && Pow10(2) == 100 && Pow10(3) == 1000;
  }

  /** A five-figure value as large as `10^(k+4)` is a multiple of `10^k`. */
  lemma {:induction false} LargeGridValue(m: nat, k: nat)
    requires Sig(m) <= MAX_PRICE_SIGNIFICANT_FIGURES && m >= Pow10(k + 4)
    ensures m % Pow10(k) == 0
  {
    if k > 0 {
      assert Pow10(k + 4) == 10 * Pow10(k - 1 + 4);
      Pow10Monotone(5, k + 4);
      DigitsBound(m, 4);
      assert m % 10 == 0;
      LargeGridValue(m / 10, k - 1);
      ModByProduct(m, Pow10(k - 1));
    }
  }

  /** The first coarsening `k` whose candidate has five figures is the best
      grid value on its side of `n` ticks. */
  lemma FirstFitIsBest(n: nat, k: nat, up: bool, m: nat, ticks: nat)
    requires Sig(Ratio(n, Pow10(k), up)) <= MAX_PRICE_SIGNIFICANT_FIGURES
    requires k > 0 ==> Sig(Ratio(n, Pow10(k - 1), up)) > MAX_PRICE_SIGNIFICANT_FIGURES
    requires Sig(m) <= MAX_PRICE_SIGNIFICANT_FIGURES
    requires ticks == Ratio(n, Pow10(k), up) * Pow10(k)
    ensures !up && m <= n ==> m <= ticks
    ensures up && n <= m ==> ticks <= m
  {
    if k == 0 {
      Whole(n, 1, up);
    } else {
      CoarsenedIsLarge(n, k, up);
      Pow10Add(4, k);
      HundredThousand();
      if up && n <= m {
        LargeGridValue(m, k);
        WholeTicksAbove(n, Pow10(k), m, ticks);
      }
      if !up && ticks < m <= n {
        LeadingTicks(n, Pow10(k), ticks);
        LargeGridValue(m, k);
        WholeTicksBelow(n, Pow10(k), m, ticks);
      }
    }
  }

  lemma WholeTicksAbove(n: nat, p: nat, m: nat, ticks: nat)
    requires p > 0 && m % p == 0 && n <= m && ticks == Ratio(n, p, true) * p
    ensures ticks <= m
  {
    var t := m / p;
    assert m == t * p;
    RatioBounds(n, p, t);
    MulOrder(Ratio(n, p, true), t, p);
  }

  lemma WholeTicksBelow(n: nat, p: nat, m: nat, ticks: nat)
    requires p > 0 && m % p == 0 && m <= n && ticks == Ratio(n, p, false) * p
    ensures m <= ticks
  {
    var t := m / p;
    assert m == t * p;
    RatioBounds(n, p, t);
    MulOrder(t, Ratio(n, p, false), p);
  }

  lemma LeadingTicks(n: nat, p: nat, ticks: nat)
    requires p > 0 && ticks == Ratio(n, p, false) * p && n >= 10000 * p
    ensures ticks >= 10000 * p
  {
    RatioBounds(n, p, 10000);
    MulOrder(10000, Ratio(n, p, false), p);
  }

  lemma CoarsenedIsLarge(n: nat, k: nat, up: bool)
    requires k > 0 && Sig(Ratio(n, Pow10(k - 1), up)) > MAX_PRICE_SIGNIFICANT_FIGURES
    ensures n > Pow10(k + 4)
  {
    var p := Pow10(k - 1);
    SigExceedsFive(Ratio(n, p, up));
    RatioBounds(n, p, 100000);
    RatioBounds(n, p, 100001);
    Pow10Add(5, k - 1);
    HundredThousand();
  }

  /** `r` is the grid value nearest to the price on the requested side. */
  ghost predicate IsBest(r: Decimal, price: Decimal, places: int, up: bool)
    requires price.Finite?
  {
    && OnGrid(r, places)
    && (if up then Le(price, r) else Le(r, price))
    && forall m: Decimal :: OnGrid(m, places) ==>
         if up then Le(price, m) ==> Le(r, m) else Le(m, price) ==> Le(m, r)
  }

  /** The distance is under one finest tick, or under price / 10^4. */
  predicate Near(r: Decimal, price: Decimal, places: int)
    requires r.Finite? && price.Finite? && r.exp >= -places
  {
    var e := Min(-places, price.exp);
    var gap := Scaled(r, e) - Scaled(price, e);
    var distance := if gap < 0 then -gap else gap;
    distance < Pow10(-places - e) || 10000 * distance < Scaled(price, e)
  }

  lemma CandidateOnGrid(c: nat, places: int, k: nat)
    requires c > 0 && Sig(c) <= MAX_PRICE_SIGNIFICANT_FIGURES
    ensures OnGrid(Finite(c, k - places), places)
  {
  }

  lemma SameValueOf(c: int, e: int, k: nat, ticks: int, x: Decimal)
    requires x.Finite? && ticks == c * Pow10(k)
    ensures Le(Finite(ticks, e), x) <==> Le(Finite(c, e + k), x)
    ensures Le(x, Finite(ticks, e)) <==> Le(x, Finite(c, e + k))
  {
    SameValue(c, e, k, x);
  }

  lemma CandidateCompare(c: nat, places: int, k: nat, ticks: nat, t: nat)
    requires ticks == c * Pow10(k)
    ensures Le(Finite(t, -places), Finite(c, k - places)) <==> t <= ticks
    ensures Le(Finite(c, k - places), Finite(t, -places)) <==> ticks <= t
  {
    SameExponent(t, ticks, -places);
    SameExponent(ticks, t, -places);
    assert -places + k == k - places;
    SameValueOf(c, -places, k, ticks, Finite(t, -places));
  }

  lemma SameExponent(a: int, b: int, e: int)
    ensures Le(Finite(a, e), Finite(b, e)) <==> a <= b
  {
    assert Pow10(0) == 1;
  }

  lemma CandidateSide(price: Decimal, places: int, k: nat, up: bool)
    requires price.Finite? && price.coef > 0
    ensures var r := Finite(QuantizeCoef(price, places - k, up), k - places);
            if up then Le(price, r) else Le(r, price)
  {
    var n, c := QuantizeCoef(price, places, up), QuantizeCoef(price, places - k, up);
    QuantizeChain(price, places, k, up);
    SameValue(c, -places, k, price);
    RatioBounds(n, Pow10(k), c);
    TickLe(c * Pow10(k), places, price);
  }

  /** No count of ticks with five figures lies between the price and the candidate. */
  lemma NoTicksBetween(price: Decimal, places: int, k: nat, up: bool, t: nat)
    requires price.Finite? && price.coef > 0
    requires Sig(QuantizeCoef(price, places - k, up)) <= MAX_PRICE_SIGNIFICANT_FIGURES
    requires k > 0 ==> Sig(QuantizeCoef(price, places - k + 1, up)) > MAX_PRICE_SIGNIFICANT_FIGURES
    requires Sig(t) <= MAX_PRICE_SIGNIFICANT_FIGURES
    ensures var n, ticks := QuantizeCoef(price, places, up), QuantizeCoef(price, places - k, up) * Pow10(k);
            (!up && t <= n ==> t <= ticks) && (up && n <= t ==> ticks <= t)
  {
    QuantizeChain(price, places, k, up);
    if k > 0 { QuantizeChain(price, places, k - 1, up); }
    FirstFitIsBest(
      QuantizeCoef(price, places, up), k, up, t, QuantizeCoef(price, places - k, up) * Pow10(k));
  }

  lemma CandidateBeats(price: Decimal, places: int, k: nat, up: bool, m: Decimal)
    requires price.Finite? && price.coef > 0
    requires Sig(QuantizeCoef(price, places - k, up)) <= MAX_PRICE_SIGNIFICANT_FIGURES
    requires k > 0 ==> Sig(QuantizeCoef(price, places - k + 1, up)) > MAX_PRICE_SIGNIFICANT_FIGURES
    requires OnGrid(m, places)
    ensures var r := Finite(QuantizeCoef(price, places - k, up), k - places);
            if up then Le(price, m) ==> Le(r, m) else Le(m, price) ==> Le(m, r)
  {
    var c, t := QuantizeCoef(price, places - k, up), TicksOf(m, places);
    TicksShape(m, places);
    TicksSame(m, places, price);
    TicksSame(m, places, Finite(c, k - places));
    TickLe(t, places, price);
    NoTicksBetween(price, places, k, up, t);
    CandidateCompare(c, places, k, c * Pow10(k), t);
  }

  lemma CandidateIsBest(price: Decimal, places: int, k: nat, up: bool)
    requires price.Finite? && price.coef > 0
    requires QuantizeCoef(price, places - k, up) > 0
    requires Sig(QuantizeCoef(price, places - k, up)) <= MAX_PRICE_SIGNIFICANT_FIGURES
    requires k > 0 ==> Sig(QuantizeCoef(price, places - k + 1, up)) > MAX_PRICE_SIGNIFICANT_FIGURES
    ensures IsBest(Finite(QuantizeCoef(price, places - k, up), k - places), price, places, up)
  {
    CandidateSide(price, places, k, up);
    CandidateOnGrid(QuantizeCoef(price, places - k, up), places, k);
    forall m: Decimal | OnGrid(m, places)
      ensures var r := Finite(QuantizeCoef(price, places - k, up), k - places);
              if up then Le(price, m) ==> Le(r, m) else Le(m, price) ==> Le(m, r)
    {
      CandidateBeats(price, places, k, up, m);
    }
  }

  /** In units of `1/u` tick: the candidate is within one coarse tick, and a
      coarse tick is at most a ten-thousandth of a price that needed coarsening. */
  lemma CandidateGap(price: Decimal, places: int, k: nat, up: bool, e: int, u: nat, b: int, p: nat, c: nat)
    requires price.Finite? && price.coef > 0
    requires c == QuantizeCoef(price, places - k, up) && c > 0
    requires k > 0 ==> Sig(QuantizeCoef(price, places - k + 1, up)) > MAX_PRICE_SIGNIFICANT_FIGURES
    requires e == Min(-places, price.exp) && u == Pow10(-places - e) && b == Scaled(price, e) && p == Pow10(k)
    ensures if up then 0 <= (c * p) * u - b < p * u else 0 <= b - (c * p) * u < p * u
    ensures k > 0 ==> 10000 * (p * u) <= b
  {
    CandidateBracket(price, places, k, up, e, u, b, p, c);
    if k > 0 { CoarseTickIsSmall(price, places, k, up, e, u, b, p); }
  }

  lemma CandidateBracket(price: Decimal, places: int, k: nat, up: bool, e: int, u: nat, b: int, p: nat, c: nat)
    requires price.Finite? && price.coef > 0
    requires c == QuantizeCoef(price, places - k, up) && c > 0
    requires e == Min(-places, price.exp) && u == Pow10(-places - e) && b == Scaled(price, e) && p == Pow10(k)
    ensures if up then 0 <= (c * p) * u - b < p * u else 0 <= b - (c * p) * u < p * u
  {
    var n := QuantizeCoef(price, places, up);
    QuantizeChain(price, places, k, up);
    var s := if up then -1 else 1;
    RatioBounds(n, p, c);
    RatioBounds(n, p, c + s);
    TickBracket(price, places, c * p, e, u, b);
    TickBracket(price, places, (c + s) * p, e, u, b);
    Neighbour(c, s, p, u);
  }

  lemma TickBracket(price: Decimal, places: int, t: nat, e: int, u: nat, b: int)
    requires price.Finite? && price.coef > 0
    requires e == Min(-places, price.exp) && u == Pow10(-places - e) && b == Scaled(price, e)
    ensures t * u <= b <==> t <= QuantizeCoef(price, places, false)
    ensures b <= t * u <==> QuantizeCoef(price, places, true) <= t
  {
    TickCompare(t, places, price);
  }

  lemma CoarseTickIsSmall(price: Decimal, places: int, k: nat, up: bool, e: int, u: nat, b: int, p: nat)
    requires price.Finite? && price.coef > 0
    requires k > 0 && Sig(QuantizeCoef(price, places - k + 1, up)) > MAX_PRICE_SIGNIFICANT_FIGURES
    requires e == Min(-places, price.exp) && u == Pow10(-places - e) && b == Scaled(price, e) && p == Pow10(k)
    ensures 10000 * (p * u) <= b
  {
    QuantizeChain(price, places, k - 1, up);
    CoarsenedIsLarge(QuantizeCoef(price, places, up), k, up);
    Pow10Add(4, k);
    HundredThousand();
    TickCompare(10000 * p, places, price);
    Associative(10000, p, u);
  }

  lemma CandidateIsNear(price: Decimal, places: int, k: nat, up: bool)
    requires price.Finite? && price.coef > 0
    requires QuantizeCoef(price, places - k, up) > 0
    requires k > 0 ==> Sig(QuantizeCoef(price, places - k + 1, up)) > MAX_PRICE_SIGNIFICANT_FIGURES
    ensures Near(Finite(QuantizeCoef(price, places - k, up), k - places), price, places)
  {
    var c := QuantizeCoef(price, places - k, up);
    var e := Min(-places, price.exp);
    var u, b, p := Pow10(-places - e), Scaled(price, e), Pow10(k);
    CandidateGap(price, places, k, up, e, u, b, p, c);
    SameScaled(c, -places, k, e);
    assert Scaled(Finite(c, k - places), e) == (c * p) * u;
    if k == 0 { assert p == 1; }
  }

  lemma Neighbour(c: int, s: int, p: int, u: int)
    ensures ((c + s) * p) * u == (c * p) * u + s * (p * u)
  {
    assert (c + s) * p == c * p + s * p;
    assert (c * p + s * p) * u == (c * p) * u + (s * p) * u;
    Associative(s, p, u);
  }

  lemma CoarserStaysPositive(price: Decimal, places: int, up: bool)
    requires price.Finite? && price.coef > 0
    requires Sig(QuantizeCoef(price, places, up)) > MAX_PRICE_SIGNIFICANT_FIGURES
    ensures 0 < QuantizeCoef(price, places - 1, up) < QuantizeCoef(price, places, up)
  {
    QuantizeStep(price, places, up);
    SigExceedsFive(QuantizeCoef(price, places, up));
  }

  lemma ZeroOnlyBelowFirstTick(price: Decimal, places: int, up: bool)
    requires price.Finite? && price.coef > 0
    ensures QuantizeCoef(price, places, up) == 0 <==> !up && !Le(Finite(1, -places), price)
  {
    TickLe(1, places, price);
    TickLe(0, places, price);
    assert Scaled(Finite(0, -places), Min(price.exp, -places)) == 0;
    assert Scaled(price, Min(price.exp, -places)) > 0 by {
      MulAtLeast(Pow10(price.exp - Min(price.exp, -places)), price.coef);
    }
  }

  lemma CandidateIsLegal(c: nat, places: int, szDecimals: int, isSpot: bool)
    requires 0 < c && Sig(c) <= MAX_PRICE_SIGNIFICANT_FIGURES && szDecimals >= 0
    requires places <= DecimalsCap(isSpot) - szDecimals
    ensures QuantizePrice(Finite(c, -places), szDecimals, isSpot) == Ok(Finite(c, -places))
  {
    QuantizeAcceptsExactly(Finite(c, -places), szDecimals, isSpot);
  }

  lemma CandidateAccepted(price: Decimal, szDecimals: int, isSpot: bool, places: int, up: bool, c: nat)
    requires price.Finite? && price.coef > 0 && szDecimals >= 0
    requires places <= DecimalsCap(isSpot) - szDecimals
    requires c == QuantizeCoef(price, places, up) && 0 < c && Sig(c) <= MAX_PRICE_SIGNIFICANT_FIGURES
    requires places < DecimalsCap(isSpot) - szDecimals ==>
               Sig(QuantizeCoef(price, places + 1, up)) > MAX_PRICE_SIGNIFICANT_FIGURES
    ensures IsBest(Finite(c, -places), price, DecimalsCap(isSpot) - szDecimals, up)
    ensures Near(Finite(c, -places), price, DecimalsCap(isSpot) - szDecimals)
    ensures QuantizePrice(Finite(c, -places), szDecimals, isSpot) == Ok(Finite(c, -places))
  {
    var limit := DecimalsCap(isSpot) - szDecimals;
    CandidateIsBest(price, limit, limit - places, up);
    CandidateIsNear(price, limit, limit - places, up);
    CandidateIsLegal(c, places, szDecimals, isSpot);
  }

  /** Rounds a price onto the tick grid, dropping one decimal at a time. */
  method RoundPriceToTick(price: Decimal, szDecimals: int, isSpot: bool, direction: string)
    returns (r: Result<Decimal, Error>)
    ensures price.NonFinite? || price.coef <= 0 ==> r == Err(InvalidOrder)
    ensures price.Finite? && price.coef > 0 ==>
              (r == Err(BadArgument) <==> szDecimals < 0 || direction !in {"up", "down"})
    ensures price.Finite? && price.coef > 0 && r != Err(BadArgument) ==>
              var places := DecimalsCap(isSpot) - szDecimals;
              (r == Err(InvalidOrder) <==> direction == "down" && !Le(Finite(1, -places), price))
    ensures r.Ok? ==>
              var places := DecimalsCap(isSpot) - szDecimals;
              && price.Finite?
              && IsBest(r.value, price, places, direction == "up")
              && r.value.exp >= -places && Near(r.value, price, places)
              && QuantizePrice(r.value, szDecimals, isSpot) == Ok(r.value)
  {
    if price.NonFinite? { return Err(InvalidOrder); }
    if price.coef <= 0 { return Err(InvalidOrder); }
    if szDecimals < 0 { return Err(BadArgument); }
    var up := direction == "up";
    if !up && direction != "down" { return Err(BadArgument); }
    var limit := DecimalsCap(isSpot) - szDecimals;
    var places := limit;
    ZeroOnlyBelowFirstTick(price, limit, up);
    while true
      invariant places <= limit
      invariant places < limit ==> Sig(QuantizeCoef(price, places + 1, up)) > MAX_PRICE_SIGNIFICANT_FIGURES
      invariant places < limit ==> QuantizeCoef(price, places, up) > 0 && QuantizeCoef(price, limit, up) > 0
      decreases QuantizeCoef(price, places, up)
    {
      var candidate := QuantizeCoef(price, places, up);
      if candidate <= 0 { return Err(InvalidOrder); }
      NormalizeCoef(candidate, -places);
      if Digits(Normalize(Finite(candidate, -places)).coef) <= MAX_PRICE_SIGNIFICANT_FIGURES {
        CandidateAccepted(price, szDecimals, isSpot, places, up, candidate);
        return Ok(Finite(candidate, -places));
      }
      CoarserStaysPositive(price, places, up);
      places := places - 1;
    }
  }

  lemma RatioMeets(n: nat, d: nat, t: nat)
    requires d > 0 && t <= Ratio(n, d, false) && Ratio(n, d, true) <= t
    ensures n == t * d
  {
    RatioBounds(n, d, t);
  }

  lemma {:induction false} TicksOnGrid(price: Decimal, places: int, t: nat)
    requires price.Finite? && price.coef > 0 && t > 0 && Sig(t) <= MAX_PRICE_SIGNIFICANT_FIGURES
    requires t <= QuantizeCoef(price, places, false) && QuantizeCoef(price, places, true) <= t
    ensures OnGrid(price, places)
  {
    var k := price.exp + places;
    if k >= 0 {
      SigShift(price.coef, k);
    } else {
      var d := Pow10(-k);
      RatioMeets(price.coef, d, t);
      SigShift(t, -k);
      MultipleMod(t, d);
      assert d * t == t * d;
    }
  }

  /** Rounding leaves a price's value alone exactly when the price is on the grid.
      So of the prices the validator accepts it moves those off the grid, such as an
      integer with more than five significant figures. */
  lemma RoundingFixesTheGrid(r: Decimal, price: Decimal, places: int, up: bool)
    requires price.Finite? && price.coef > 0 && IsBest(r, price, places, up)
    ensures Eq(r, price) <==> OnGrid(price, places)
  {
    if Eq(r, price) {
      TicksShape(r, places);
      TicksSame(r, places, price);
      TickLe(TicksOf(r, places), places, price);
      TicksOnGrid(price, places, TicksOf(r, places));
    }
    if OnGrid(price, places) { assert Le(price, price); }
  }

  // ---- The tick size reported for an instrument ----

  /** `Decimal.adjusted()`: the exponent of the leading digit. */
  function Adjusted(d: Decimal): int
    requires d.Finite? && d.coef >= 0
  {
    Digits(d.coef) + d.exp - 1
  }

  /** The price quantum: a power of ten derived from the mark, never finer than
      the decimal cap; without a usable mark, the decimal cap itself. */
  function PriceTick(mark: Decimal, szDecimals: int, isSpot: bool): Decimal
    requires mark.Finite?
  {
    var finest := -(DecimalsCap(isSpot) - szDecimals);
    if mark.coef > 0 then
      var fromMark := Adjusted(mark) - (MAX_PRICE_SIGNIFICANT_FIGURES - 1);
      Finite(1, if fromMark >= finest then fromMark else finest)
    else Finite(1, finest)
  }

  lemma AdjustedBrackets(c: nat, e: int)
    requires c > 0
    ensures Pow10(Digits(c) - 1) <= c < Pow10(Digits(c))
  {
    DigitsBound(c, Digits(c) - 1);
    if Digits(c) >= 2 { DigitsBound(c, Digits(c) - 2); }
  }

  lemma CoarserThanDecade(j: nat, t: int, top: int)
    requires j > 0
    ensures t > top ==> !Le(Finite(j, t), Finite(1, top))
  {
    if t > top {
      MulAtLeast(Pow10(t - top), j);
      Pow10Monotone(1, t - top);
      assert Pow10(0) == 1 && Pow10(1) == 10;
    }
  }

  /** Every multiple of the derived tick up to the top of the mark's decade is a
      price the validator accepts. */
  lemma DerivedTickIsLegal(mark: Decimal, szDecimals: int, isSpot: bool, j: nat)
    requires mark.Finite? && mark.coef > 0 && szDecimals >= 0 && j > 0
    requires Le(Finite(j, PriceTick(mark, szDecimals, isSpot).exp), Finite(1, Adjusted(mark) + 1))
    ensures var multiple := Finite(j, PriceTick(mark, szDecimals, isSpot).exp);
            QuantizePrice(multiple, szDecimals, isSpot) == Ok(multiple)
  {
    var t := PriceTick(mark, szDecimals, isSpot).exp;
    var top := Adjusted(mark) + 1;
    QuantizeAcceptsExactly(Finite(j, t), szDecimals, isSpot);
    HundredThousand();
    LeAt(Finite(j, t), Finite(1, top), Min(t, top));
    CoarserThanDecade(j, t, top);
    assert Scaled(Finite(1, top), t) == Pow10(top - t);
    assert Scaled(Finite(j, t), t) == j * Pow10(0);
    Pow10Monotone(top - t, 5);
    SigAtMostDigits(j);
    DigitsBound(j, 4);
    SigShift(1, 5);
  }

  /** And it is fine enough: every price on the grid that is at least the mark's
      decade is a multiple of it. */
  lemma DerivedTickIsFineEnough(mark: Decimal, szDecimals: int, isSpot: bool, m: Decimal)
    requires mark.Finite? && mark.coef > 0
    requires OnGrid(m, DecimalsCap(isSpot) - szDecimals) && Le(Finite(1, Adjusted(mark)), m)
    ensures PriceTick(mark, szDecimals, isSpot).coef == 1 && IsMultipleOf(m, PriceTick(mark, szDecimals, isSpot).exp)
  {
    var decade := Adjusted(mark);
    var k := decade - (MAX_PRICE_SIGNIFICANT_FIGURES - 1) - m.exp;
    if k > 0 {
      LeAt(Finite(1, decade), m, m.exp);
      assert Pow10(0) == 1;
      LargeGridValue(m.coef, k);
    }
  }

  /** Without a usable mark the tick is itself legal, and every grid price is a
      multiple of it. */
  lemma FallbackTick(mark: Decimal, szDecimals: int, isSpot: bool)
    requires mark.Finite? && mark.coef <= 0 && szDecimals >= 0
    ensures PriceTick(mark, szDecimals, isSpot).coef == 1
    ensures QuantizePrice(PriceTick(mark, szDecimals, isSpot), szDecimals, isSpot) == Ok(PriceTick(mark, szDecimals, isSpot))
    ensures forall m :: OnGrid(m, DecimalsCap(isSpot) - szDecimals) ==>
                          IsMultipleOf(m, PriceTick(mark, szDecimals, isSpot).exp)
  {
    QuantizeAcceptsExactly(PriceTick(mark, szDecimals, isSpot), szDecimals, isSpot);
  }

  /** The mark itself lies under the top of that decade, so the multiples up to
      it cover every price at or below the mark. */
  lemma MarkBelowDecadeTop(mark: Decimal)
    requires mark.Finite? && mark.coef > 0
    ensures Le(mark, Finite(1, Adjusted(mark) + 1)) && Le(Finite(1, Adjusted(mark)), mark)
  {
    AdjustedBrackets(mark.coef, mark.exp);
    LeAt(mark, Finite(1, Adjusted(mark) + 1), mark.exp);
    LeAt(Finite(1, Adjusted(mark)), mark, mark.exp);
  }
}