/**
  Decimal money: the 28-digit default context, half-up quantisation to four decimals and
  the conversion to USD. USD amounts are counted in units of 0.0001.
 */
module Money {
  import opened Prelude

  /** A finite value is coef * 10^exp; NaN and the infinities are one case. */
  datatype Decimal = Finite(coef: int, exp: int) | NotFinite

  datatype MoneyError = NotFiniteError | RateNotPositive | InvalidOperation

  const PRECISION := 28

  function Pow10(n: nat): (r: nat)
    ensures r >= 1
  {
    if n == 0 then 1 else 10 * Pow10(n - 1)
  }

  function Abs(n: int): nat {
    if n < 0 then -n else n
  }

  predicate Fits(coef: int, digits: nat) {
    Abs(coef) < Pow10(digits)
  }

  function Digits(n: nat): nat {
    if n == 0 then 0 else 1 + Digits(n / 10)
  }

  /** A number has at most `k` digits exactly if it is below 10^k. */
  lemma {:induction false} DigitsFit(n: nat, k: nat)
    ensures Digits(n) <= k <==> n < Pow10(k)
    decreases k
  {
    if n > 0 && k > 0 {
      DigitsFit(n / 10, k - 1);
      assert n < 10 * Pow10(k - 1) <==> n / 10 < Pow10(k - 1);
    }
  }

  // ------------------------------------------------------------------ rounding

  /** n / d to the nearest integer, ties away from zero. */
  function RoundHalfUp(n: int, d: nat): int
    requires d > 0
  {
    if n >= 0 then (2 * n + d) / (2 * d) else -((2 * -n + d) / (2 * d))
  }

  /** n / d to the nearest integer, ties to the even one. */
  function RoundHalfEven(n: int, d: nat): int
    requires d > 0
  {
    var q := Abs(n) / d;
    var r := Abs(n) % d;
    var up := 2 * r > d || (2 * r == d && q % 2 == 1);
    var m := if up then q + 1 else q;
    if n < 0 then -m else m
  }

  /** The product in the default context: rounded only when it needs more than 28 digits. */
  function Multiply(a: Decimal, b: Decimal): Decimal
    requires a.Finite? && b.Finite?
  {
    var coef := a.coef * b.coef;
    var exp := a.exp + b.exp;
    if Digits(Abs(coef)) <= PRECISION then Finite(coef, exp)
    else
      var excess := Digits(Abs(coef)) - PRECISION;
      Finite(RoundHalfEven(coef, Pow10(excess)), exp + excess)
  }

  /** The value in units of 0.0001, rounded half up when it has more than four decimals. */
  function Units(v: Decimal): int
    requires v.Finite?
  {
    if v.exp >= -4 then v.coef * Pow10(v.exp + 4) else RoundHalfUp(v.coef, Pow10(-4 - v.exp))
  }

  /** `quantize_usd`: the value in units of 0.0001, refused when it needs more than 28 digits. */
  function QuantizeUsd(v: Decimal): Result<int, MoneyError>
    requires v.Finite?
  {
    if Fits(Units(v), PRECISION) then Ok(Units(v)) else Err(InvalidOperation)
  }

  /** `convert_to_usd`, with the guards in the order the service checks them. */
  function ConvertToUsd(amount: Decimal, rate: Decimal): Result<int, MoneyError> {
    if !amount.Finite? || !rate.Finite? then Err(NotFiniteError)
    else if rate.coef <= 0 then Err(RateNotPositive)
    else QuantizeUsd(Multiply(amount, rate))
  }

  // ----------------------------------------------------- what rounding achieves

  /** The nearest integer to n / d; of two equally near ones the one away from zero. */
  ghost predicate Nearest(q: int, n: int, d: nat) {
    Near(q * d, n, d)
  }

  ghost predicate Near(multiple: int, n: int, d: nat) {
    && 2 * Abs(multiple - n) <= d
    && (2 * Abs(multiple - n) == d ==> Abs(multiple) > Abs(n))
  }

  lemma DivisionBounds(x: nat, y: nat)
    requires y > 0
    ensures (x / y) * y <= x < (x / y) * y + y
  {
  }

  lemma RoundHalfUpIsNearest(n: int, d: nat)
    requires d > 0
    ensures Nearest(RoundHalfUp(n, d), n, d)
  {
    var m := Abs(n);
    var q := (2 * m + d) / (2 * d);
    DivisionBounds(2 * m + d, 2 * d);
    assert q * (2 * d) == 2 * (q * d);
    assert (-q) * d == -(q * d);
    assert q * d >= 0;
  }

  /** Multiples of d are at least d apart. */
  lemma {:induction false} MultiplesApart(p: int, q: int, d: nat)
    requires d > 0 && p < q
    ensures p * d + d <= q * d
    decreases q - p
  {
    if q == p + 1 {
      assert q * d == p * d + d;
    } else {
      MultiplesApart(p, q - 1, d);
      assert (q - 1) * d == q * d - d;
    }
  }

  lemma NearestIsMonotone(p: int, n: int, q: int, m: int, d: nat)
    requires d > 0 && n <= m && Nearest(p, n, d) && Nearest(q, m, d)
    ensures p <= q
  {
    if q < p {
      MultiplesApart(q, p, d);
    }
  }

  /** There is only one such integer, so `Nearest` says everything about the rounding. */
  lemma NearestIsUnique(p: int, q: int, n: int, d: nat)
    requires d > 0 && Nearest(p, n, d) && Nearest(q, n, d)
    ensures p == q
  {
    NearestIsMonotone(p, n, q, n, d);
    NearestIsMonotone(q, n, p, n, d);
  }

  lemma NearestIsOdd(q: int, n: int, d: nat)
    requires d > 0 && Nearest(q, n, d)
    ensures Nearest(-q, -n, d)
  {
    assert (-q) * d == -(q * d);
  }

  lemma ScaleOrder(a: int, b: int, k: nat)
    requires k > 0
    ensures a * k <= b * k <==> a <= b
    ensures a * k == b * k <==> a == b
  {
    if a < b {
      MultiplesApart(a, b, k);
    } else if b < a {
      MultiplesApart(b, a, k);
    }
  }

  lemma ScaleAbs(a: int, k: nat)
    ensures Abs(a * k) == Abs(a) * k
  {
    assert (-a) * k == -(a * k);
    if a >= 0 {
      assert a * k >= 0;
    } else {
      assert -a * k >= 0;
    }
  }

  lemma NearScales(multiple: int, n: int, d: nat, k: nat)
    requires k > 0
    ensures Near(multiple * k, n * k, d * k) <==> Near(multiple, n, d)
  {
    ScaleAbs(multiple - n, k);
    ScaleAbs(multiple, k);
    ScaleAbs(n, k);
    assert multiple * k - n * k == (multiple - n) * k;
    assert 2 * (Abs(multiple - n) * k) == (2 * Abs(multiple - n)) * k;
    ScaleOrder(2 * Abs(multiple - n), d, k);
    ScaleOrder(Abs(multiple), Abs(n), k);
  }

  lemma Associates(a: int, b: int, c: int)
    ensures a * (b * c) == (a * b) * c
  {
  }

  lemma NearestScales(q: int, n: int, d: nat, k: nat)
    requires k > 0
    ensures Nearest(q, n * k, d * k) <==> Nearest(q, n, d)
  {
    hide Near;
    Associates(q, d, k);
    NearScales(q * d, n, d, k);
  }

  // ------------------------------------------------------------- the conversion

  /** At most 20 digits, at most four of them decimals. */
  predicate AmountInRange(a: Decimal) {
    a.Finite? && a.exp >= -4 && Fits(a.coef * Pow10(a.exp + 4), 20)
  }

  /** A positive rate below 10^4 with a coefficient of at most 8 digits. */
  predicate RateInRange(r: Decimal) {
    && r.Finite? && 0 < r.coef && Fits(r.coef, 8)
    && (if r.exp >= 0 then r.coef * Pow10(r.exp) < Pow10(4) else r.coef < Pow10(4 - r.exp))
  }

  /** amount * rate in units of 0.0001 is ExactNumerator / ExactDenominator. */
  function ExactNumerator(a: Decimal, r: Decimal): int
    requires a.Finite? && r.Finite? && a.exp >= -4
  {
    a.coef * r.coef * (Pow10(a.exp + 4) * (if r.exp >= 0 then Pow10(r.exp) else 1))
  }

  function ExactDenominator(r: Decimal): nat
    requires r.Finite?
  {
    if r.exp >= 0 then 1 else Pow10(-r.exp)
  }

  lemma {:induction false} Pow10Adds(m: nat, n: nat)
    ensures Pow10(m + n) == Pow10(m) * Pow10(n)
  {
    if m == 0 {
    } else {
      Pow10Adds(m - 1, n);
      assert 10 * (Pow10(m - 1) * Pow10(n)) == (10 * Pow10(m - 1)) * Pow10(n);
    }
  }

  lemma MulOrder(a: nat, b: nat, c: nat, d: nat)
    requires a <= b && c <= d
    ensures a * c <= b * d
  {
    if a < b && c > 0 { MultiplesApart(a, b, c); }
    if c < d && b > 0 { MultiplesApart(c, d, b); }
    assert a * c <= b * c && c * b <= d * b;
  }

  /** In range, the product needs no context rounding. */
  lemma ProductIsExact(amount: Decimal, rate: Decimal)
    requires AmountInRange(amount) && RateInRange(rate)
    ensures Multiply(amount, rate) == Finite(amount.coef * rate.coef, amount.exp + rate.exp)
  {
    hide Pow10, Digits;
    var k := Pow10(amount.exp + 4);
    ScaleAbs(amount.coef, k);
    MulOrder(Abs(amount.coef), Abs(amount.coef), 1, k);
    assert Abs(amount.coef) <= Pow10(20) - 1;
    ScaleAbs(amount.coef, rate.coef);
    MulOrder(Abs(amount.coef), Pow10(20) - 1, rate.coef, Pow10(8));
    Pow10Adds(20, 8);
    MultiplesApart(Pow10(20) - 1, Pow10(20), Pow10(8));
    DigitsFit(Abs(amount.coef * rate.coef), PRECISION);
  }

  /** A product with at most four decimals is not rounded at all. */
  lemma FewDecimals(n: int, scale: nat, units: nat, d: nat)
    requires d > 0 && scale == units * d
    ensures Nearest(n * units, n * scale, d)
  {
    assert n * (units * d) == (n * units) * d;
  }

  /** In range, the code's rounding is the nearest unit to the exact product: one rounding only. */
  lemma RoundedOnce(amount: Decimal, rate: Decimal)
    requires AmountInRange(amount) && RateInRange(rate)
    ensures Nearest(Units(Finite(amount.coef * rate.coef, amount.exp + rate.exp)),
                    ExactNumerator(amount, rate), ExactDenominator(rate))
  {
    hide Pow10;
    var n := amount.coef * rate.coef;
    var e := amount.exp + rate.exp;
    var k := Pow10(amount.exp + 4);
    if rate.exp >= 0 {
      Pow10Adds(amount.exp + 4, rate.exp);
      FewDecimals(n, k * Pow10(rate.exp), Pow10(e + 4), 1);
    } else if e >= -4 {
      Pow10Adds(e + 4, -rate.exp);
      FewDecimals(n, k, Pow10(e + 4), Pow10(-rate.exp));
    } else {
      Pow10Adds(-4 - e, amount.exp + 4);
      RoundHalfUpIsNearest(n, Pow10(-4 - e));
      NearestScales(RoundHalfUp(n, Pow10(-4 - e)), n, Pow10(-4 - e), k);
    }
  }

  lemma NearestWithin(q: int, n: int, d: nat, bound: nat)
    requires d > 0 && Nearest(q, n, d) && Abs(n) <= bound * d
    ensures Abs(q) <= bound
  {
    assert Nearest(bound, bound * d, d);
    NearestIsMonotone(q, n, bound, bound * d, d);
    NearestIsOdd(q, n, d);
    NearestIsMonotone(-q, -n, bound, bound * d, d);
  }

  lemma BoundOfProduct(a: nat, r: nat, x: nat, t: nat, d: nat)
    requires a < x && r < t * d && 1 <= d && 1 <= t
    ensures a * r <= (x * t - 1) * d
  {
    MulOrder(a, x - 1, r, t * d - 1);
    var y := t * d;
    assert (x - 1) * (y - 1) == x * y - x - y + 1;
    assert x * y == x * t * d;
    MulOrder(1, t, d, d);
    assert (x * t - 1) * d == x * t * d - d;
  }

  lemma BoundOfScaledProduct(a: int, r: nat, k: nat, rest: nat, x: nat, t: nat, d: nat)
    requires Abs(a * k) < x && r * rest < t * d && 1 <= d && 1 <= t
    ensures Abs(a * r * (k * rest)) <= (x * t - 1) * d
  {
    assert a * r * (k * rest) == (a * k) * (r * rest);
    ScaleAbs(a * k, r * rest);
    BoundOfProduct(Abs(a * k), r * rest, x, t, d);
  }

  lemma ProductBound(amount: Decimal, rate: Decimal)
    requires AmountInRange(amount) && RateInRange(rate)
    ensures Abs(ExactNumerator(amount, rate)) <= (Pow10(24) - 1) * ExactDenominator(rate)
  {
    hide Pow10;
    Pow10Adds(20, 4);
    var rest := if rate.exp >= 0 then Pow10(rate.exp) else 1;
    if rate.exp < 0 { Pow10Adds(4, -rate.exp); }
    BoundOfScaledProduct(amount.coef, rate.coef, Pow10(amount.exp + 4), rest,
                         Pow10(20), Pow10(4), ExactDenominator(rate));
  }

  lemma UnitsFit(amount: Decimal, rate: Decimal)
    requires AmountInRange(amount) && RateInRange(rate)
    ensures var units := Units(Finite(amount.coef * rate.coef, amount.exp + rate.exp));
            Fits(units, 24) && Fits(units, PRECISION)
  {
    hide Pow10;
    RoundedOnce(amount, rate);
    ProductBound(amount, rate);
    NearestWithin(Units(Finite(amount.coef * rate.coef, amount.exp + rate.exp)),
                  ExactNumerator(amount, rate), ExactDenominator(rate), Pow10(24) - 1);
    Pow10Adds(24, 4);
    MulOrder(Pow10(24), Pow10(24), 1, Pow10(4));
  }

  /**
    Conversion is a single correct rounding: it succeeds, the result is the nearest multiple
    of 0.0001 to the exact product with ties away from zero, and it fits NUMERIC(24,4).
   */
  lemma ConversionIsNearest(amount: Decimal, rate: Decimal)
    requires AmountInRange(amount) && RateInRange(rate)
    ensures var c := ConvertToUsd(amount, rate);
            && c.Ok?
            && Nearest(c.value, ExactNumerator(amount, rate), ExactDenominator(rate))
            && Fits(c.value, 24)
  {
    ProductIsExact(amount, rate);
    RoundedOnce(amount, rate);
    UnitsFit(amount, rate);
  }

  // ------------------------------------------------- outside the usual ranges too

  /** The nearest integer to n / d; of two equally near ones the even one. */
  ghost predicate NearestEven(q: int, n: int, d: nat) {
    2 * Abs(q * d - n) <= d && (2 * Abs(q * d - n) == d ==> q % 2 == 0)
  }

  lemma HalfEvenParts(a: nat, d: nat, q: nat, r: nat, below: nat, above: nat)
    requires a == below + r && r < d && above == below + d
    ensures var up := 2 * r > d || (2 * r == d && q % 2 == 1);
            var m, multiple := (if up then q + 1 else q), (if up then above else below);
            2 * Abs(multiple - a) <= d && (2 * Abs(multiple - a) == d ==> m % 2 == 0)
  {
  }

  lemma EitherSign(m: int, n: int, d: nat)
    requires m >= 0
    ensures NearestEven(if n < 0 then -m else m, n, d) <==>
            2 * Abs(m * d - Abs(n)) <= d && (2 * Abs(m * d - Abs(n)) == d ==> m % 2 == 0)
  {
    assert (-m) * d == -(m * d);
  }

  lemma HalfEvenNearest(n: int, d: nat, q: nat, r: nat)
    requires Abs(n) == q * d + r && r < d
    ensures var m: int := if 2 * r > d || (2 * r == d && q % 2 == 1) then q + 1 else q;
            NearestEven(if n < 0 then -m else m, n, d)
  {
    var m := if 2 * r > d || (2 * r == d && q % 2 == 1) then q + 1 else q;
    NextMultiple(q, d);
    HalfEvenParts(Abs(n), d, q, r, q * d, (q + 1) * d);
    EitherSign(m, n, d);
    hide NearestEven;
  }

  lemma RoundHalfEvenIsNearest(n: int, d: nat)
    requires d > 0
    ensures NearestEven(RoundHalfEven(n, d), n, d)
  {
    hide NearestEven, RoundHalfEven;
    var q, r := RoundedOf(n, d);
    HalfEvenNearest(n, d, q, r);
  }

  /** The quotient and the remainder that the rounding decides by. */
  lemma RoundedOf(n: int, d: nat) returns (q: nat, r: nat)
    requires d > 0
    ensures Abs(n) == q * d + r && r < d
    ensures var m: int := if 2 * r > d || (2 * r == d && q % 2 == 1) then q + 1 else q;
            RoundHalfEven(n, d) == if n < 0 then -m else m
  {
    hide Abs;
    q, r := Abs(n) / d, Abs(n) % d;
    DivMod(Abs(n), d);
  }

  lemma DivMod(x: nat, y: nat)
    requires y > 0
    ensures x == (x / y) * y + x % y
  {
  }

  lemma NextMultiple(q: nat, d: nat)
    ensures (q + 1) * d == q * d + d
  {
  }

  /** n / d stays between the integers that n is between in units of d. */
  lemma RoundHalfEvenBetween(n: int, d: nat, lo: nat, hi: nat)
    requires d > 0 && lo * d <= Abs(n) < hi * d
    ensures lo <= Abs(RoundHalfEven(n, d)) <= hi
  {
    hide RoundHalfEven;
    var q, r := RoundedOf(n, d);
    NextMultiple(q, d);
    ScaleOrder(q + 1, lo, d);
    ScaleOrder(hi, q, d);
  }

  /** The product is exact below 10^28; any other is rounded once, half to even, to 28 digits. */
  lemma MultiplyRoundsOnce(a: Decimal, b: Decimal)
    requires a.Finite? && b.Finite?
    ensures var c, p := a.coef * b.coef, Multiply(a, b);
            if Abs(c) < Pow10(28) then p == Finite(c, a.exp + b.exp)
            else
              && p.Finite? && p.exp > a.exp + b.exp
              && NearestEven(p.coef, c, Pow10(p.exp - a.exp - b.exp))
              && Pow10(27) <= Abs(p.coef) <= Pow10(28)
  {
    hide Pow10, Digits;
    var c := a.coef * b.coef;
    DigitsFit(Abs(c), 28);
    if Abs(c) >= Pow10(28) {
      var e := Digits(Abs(c)) - 28;
      RoundHalfEvenIsNearest(c, Pow10(e));
      DigitsFit(Abs(c), 28 + e);
      DigitsFit(Abs(c), 27 + e);
      Pow10Adds(28, e);
      Pow10Adds(27, e);
      hide RoundHalfEven;
      RoundHalfEvenBetween(c, Pow10(e), Pow10(27), Pow10(28));
    }
  }

  /** Quantising to four decimals is exact when there are no more, and one half-up rounding otherwise. */
  lemma UnitsAreNearest(v: Decimal)
    requires v.Finite?
    ensures if v.exp >= -4 then Units(v) == v.coef * Pow10(v.exp + 4) else Nearest(Units(v), v.coef, Pow10(-4 - v.exp))
  {
    if v.exp < -4 { RoundHalfUpIsNearest(v.coef, Pow10(-4 - v.exp)); }
  }

  /** The guards in order, for all arguments: not finite, rate not positive, more than 28 digits. */
  lemma ConversionAnswers(amount: Decimal, rate: Decimal)
    ensures var c := ConvertToUsd(amount, rate);
            && (c == Err(NotFiniteError) <==> amount == NotFinite || rate == NotFinite)
            && (c == Err(RateNotPositive) <==> amount != NotFinite && rate != NotFinite && rate.coef <= 0)
            && (amount != NotFinite && rate != NotFinite && rate.coef > 0 ==>
                  var units := Units(Multiply(amount, rate));
                  c == if Abs(units) < Pow10(28) then Ok(units) else Err(InvalidOperation))
  {
    hide Pow10, Multiply, Units;
  }

  function Negate(a: Decimal): Decimal {
    if a.Finite? then Finite(-a.coef, a.exp) else a
  }

  lemma NegateProduct(a: int, r: int, scale: int)
    ensures (-a) * r * scale == -(a * r * scale)
  {
    assert (-a) * r == -(a * r);
    assert -(a * r) * scale == -(a * r * scale);
  }

  lemma NegateInRange(amount: Decimal, rate: Decimal)
    requires AmountInRange(amount) && RateInRange(rate)
    ensures AmountInRange(Negate(amount))
    ensures ExactNumerator(Negate(amount), rate) == -ExactNumerator(amount, rate)
  {
    hide Pow10;
    NegateProduct(amount.coef, Pow10(amount.exp + 4), 1);
    NegateProduct(amount.coef, rate.coef, Pow10(amount.exp + 4) * (if rate.exp >= 0 then Pow10(rate.exp) else 1));
  }

  /** Refunds convert like charges: the conversion is odd. */
  lemma ConversionIsOdd(amount: Decimal, rate: Decimal)
    requires AmountInRange(amount) && RateInRange(rate)
    ensures var c := ConvertToUsd(amount, rate);
            c.Ok? && ConvertToUsd(Negate(amount), rate) == Ok(-c.value)
  {
    hide Pow10;
    ConversionIsNearest(amount, rate);
    NegateInRange(amount, rate);
    ConversionIsNearest(Negate(amount), rate);
    var q, p := ConvertToUsd(amount, rate).value, ConvertToUsd(Negate(amount), rate).value;
    var n, d := ExactNumerator(amount, rate), ExactDenominator(rate);
    NearestIsOdd(q, n, d);
    NearestIsUnique(-q, p, -n, d);
  }

  lemma Regroup(a: int, r: int, k: int, rest: int)
    ensures a * r * (k * rest) == (a * k) * (r * rest)
  {
  }

  lemma NumeratorIsMonotone(a: Decimal, b: Decimal, rate: Decimal)
    requires AmountInRange(a) && AmountInRange(b) && RateInRange(rate)
    requires a.coef * Pow10(a.exp + 4) <= b.coef * Pow10(b.exp + 4)
    ensures ExactNumerator(a, rate) <= ExactNumerator(b, rate)
  {
    hide Pow10;
    var rest := if rate.exp >= 0 then Pow10(rate.exp) else 1;
    Regroup(a.coef, rate.coef, Pow10(a.exp + 4), rest);
    Regroup(b.coef, rate.coef, Pow10(b.exp + 4), rest);
    MulOrder(1, rate.coef, 1, rest);
    ScaleOrder(a.coef * Pow10(a.exp + 4), b.coef * Pow10(b.exp + 4), rate.coef * rest);
  }

  /** A larger amount never converts to less. */
  lemma ConversionIsMonotone(a: Decimal, b: Decimal, rate: Decimal)
    requires AmountInRange(a) && AmountInRange(b) && RateInRange(rate)
    requires a.coef * Pow10(a.exp + 4) <= b.coef * Pow10(b.exp + 4)
    ensures var x, y := ConvertToUsd(a, rate), ConvertToUsd(b, rate);
            x.Ok? && y.Ok? && x.value <= y.value
  {
    hide Pow10;
    ConversionIsNearest(a, rate);
    ConversionIsNearest(b, rate);
    NumeratorIsMonotone(a, b, rate);
    NearestIsMonotone(ConvertToUsd(a, rate).value, ExactNumerator(a, rate),
                      ConvertToUsd(b, rate).value, ExactNumerator(b, rate), ExactDenominator(rate));
  }

  /** The exact product in units of 0.0001. */
  ghost function ExactUnits(amount: Decimal, rate: Decimal): real
    requires AmountInRange(amount) && RateInRange(rate)
  {
    ExactNumerator(amount, rate) as real / ExactDenominator(rate) as real
  }

  lemma RealScaleOrder(x: real, y: real, d: real)
    requires d > 0.0 && x * d <= y * d
    ensures x <= y
  {
  }

  lemma ScaledGap(q: int, n: int, d: nat)
    requires d > 0
    ensures (q as real - n as real / d as real) * d as real == (q * d - n) as real
  {
    var z, x := d as real, n as real / d as real;
    assert x * z == n as real;
    assert (q * d) as real == q as real * z;
  }

  lemma RealBetween(gap: real, z: real, m: real)
    requires z > 0.0 && gap * z == m && -0.5 * z <= m <= 0.5 * z
    ensures -0.5 <= gap <= 0.5
  {
    RealScaleOrder(gap, 0.5, z);
    RealScaleOrder(-0.5, gap, z);
  }

  lemma HalfOf(miss: int, d: nat)
    requires 2 * Abs(miss) <= d
    ensures -0.5 * (d as real) <= miss as real <= 0.5 * (d as real)
  {
  }

  lemma NearestWithinHalf(q: int, n: int, d: nat)
    requires d > 0 && Nearest(q, n, d)
    ensures -0.5 <= q as real - n as real / d as real <= 0.5
  {
    ScaledGap(q, n, d);
    HalfOf(q * d - n, d);
    RealBetween(q as real - n as real / d as real, d as real, (q * d - n) as real);
  }

  /** One stored amount is within half a unit, that is 0.00005, of the exact product. */
  lemma ConversionDrift(amount: Decimal, rate: Decimal)
    requires AmountInRange(amount) && RateInRange(rate)
    ensures var c := ConvertToUsd(amount, rate);
            c.Ok? && -0.5 <= c.value as real - ExactUnits(amount, rate) <= 0.5
  {
    ConversionIsNearest(amount, rate);
    NearestWithinHalf(ConvertToUsd(amount, rate).value, ExactNumerator(amount, rate), ExactDenominator(rate));
  }
}
