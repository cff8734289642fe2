/**
 * The exact conversion of a provider's decimal cost to integer microusd.
 *
 * Decimal arithmetic follows the default context: results keep 28 digits, rounded half to even,
 * and a result whose adjusted exponent exceeds 999999 overflows.
 */
module ExactCost {
  const MICROUSD_PER_USD: nat := 1_000_000
  const PRECISION: nat := 28
  const LARGEST_ADJUSTED_EXPONENT: nat := 999_999

  datatype Decimal =
    | Finite(negative: bool, coefficient: nat, exponent: int)
    | Infinite
    | NotANumber

  /** What the response may hold for the cost; a text that is no decimal literal is Malformed. */
  datatype CostInput = Boolean | Integer(n: int) | Exact(amount: Decimal) | Malformed | OtherType

  datatype Conversion = Cost(microusd: nat) | Rejected | Overflowed

  function Power(k: nat): (p: nat)
    ensures p > 0
  {
    if k == 0 then 1 else 10 * Power(k - 1)
  }

  /** How many decimal digits n is written with; none for 0. */
  function Digits(n: nat): nat { if n == 0 then 0 else 1 + Digits(n / 10) }

  /** n in whole units, the nearest, and the even one of two equally near. */
  function RoundAt(n: nat, unit: nat): nat
    requires unit > 0
  {
    var q, r := n / unit, n % unit;
    if 2 * r > unit || (2 * r == unit && q % 2 == 1) then q + 1 else q
  }

  function RoundHalfEven(n: nat, k: nat): nat { RoundAt(n, Power(k)) }

  /** A coefficient and exponent reduced to 28 digits; a carry into a 29th digit drops a zero. */
  function Fix(coefficient: nat, exponent: int): (nat, int) {
    if Digits(coefficient) <= PRECISION then (coefficient, exponent)
    else
      var k := Digits(coefficient) - PRECISION;
      var q := RoundHalfEven(coefficient, k);
      if Digits(q) > PRECISION then (q / 10, exponent + k + 1) else (q, exponent + k)
  }

  function ToIntegral(coefficient: nat, exponent: int): nat {
    if exponent >= 0 then coefficient * Power(exponent) else RoundHalfEven(coefficient, -exponent)
  }

  function ConvertAmount(amount: Decimal): Conversion {
    if !amount.Finite? || (amount.negative && amount.coefficient > 0) || amount.exponent < -6 then Rejected
    else
      var (coefficient, exponent) := Fix(amount.coefficient * MICROUSD_PER_USD, amount.exponent);
      if coefficient > 0 && exponent + Digits(coefficient) - 1 > LARGEST_ADJUSTED_EXPONENT then Overflowed
      else
        var integral := ToIntegral(coefficient, exponent);
        if exponent < 0 && coefficient != integral * Power(-exponent) then Rejected else Cost(integral)
  }

  function Convert(value: CostInput): Conversion {
    match value
    case Integer(n) => ConvertAmount(Finite(n < 0, if n < 0 then -n else n, 0))
    case Exact(amount) => ConvertAmount(amount)
    case _ => Rejected
  }

  // Powers and digits

  lemma {:induction false} PowerAdds(a: nat, b: nat)
    ensures Power(a + b) == Power(a) * Power(b)
  {
    if a > 0 {
      PowerAdds(a - 1, b);
      assert Power(a + b) == 10 * (Power(a - 1) * Power(b));
    }
  }

  lemma {:induction false} PowerGrows(a: nat, b: nat)
    ensures a <= b ==> Power(a) <= Power(b)
  {
    if a < b {
      PowerGrows(a, b - 1);
    }
  }

  /** A positive n has d digits exactly when it lies between consecutive powers of ten. */
  lemma {:induction false} DigitsBound(n: nat)
    ensures n < Power(Digits(n)) && (n > 0 ==> Digits(n) > 0 && Power(Digits(n) - 1) <= n)
  {
    if n > 0 {
      DigitsBound(n / 10);
    }
  }

  lemma DigitsAre(n: nat, d: nat)
    requires d > 0 && Power(d - 1) <= n < Power(d)
    ensures Digits(n) == d
  {
    DigitsBound(n);
    PowerGrows(Digits(n), d - 1);
    PowerGrows(d, Digits(n) - 1);
  }

  lemma DigitsGrow(a: nat, b: nat)
    requires a <= b
    ensures Digits(a) <= Digits(b)
  {
    DigitsBound(a);
    DigitsBound(b);
    if a > 0 {
      PowerGrows(Digits(b), Digits(a) - 1);
    }
  }

  lemma {:induction false} DigitsShift(n: nat, k: nat)
    requires n > 0
    ensures Digits(n * Power(k)) == Digits(n) + k
  {
    if k > 0 {
      DigitsShift(n, k - 1);
      assert n * Power(k) == 10 * (n * Power(k - 1));
      assert n * Power(k) > 0;
    }
  }

  // Rounding

  lemma Times(a: int, b: int, c: nat)
    requires a <= b
    ensures a * c <= b * c
  {
  }

  lemma DivisionIs(n: nat, unit: nat, q: nat, r: nat)
    requires unit > 0 && n == q * unit + r && r < unit
    ensures n / unit == q && n % unit == r
  {
    var p := n / unit;
    assert n == p * unit + n % unit;
    assert p <= q by { if p > q { Times(q + 1, p, unit); } }
    assert p >= q by { if p < q { Times(p + 1, q, unit); } }
  }

  lemma DivisionGrows(a: nat, b: nat, unit: nat)
    requires a <= b && unit > 0
    ensures a / unit < b / unit || (a / unit == b / unit && a % unit <= b % unit)
  {
    var p, q := a / unit, b / unit;
    assert a == p * unit + a % unit && b == q * unit + b % unit;
    if q < p {
      Times(q + 1, p, unit);
    }
  }

  lemma RoundAtMonotone(a: nat, b: nat, unit: nat)
    requires a <= b && unit > 0
    ensures RoundAt(a, unit) <= RoundAt(b, unit)
  {
    DivisionGrows(a, b, unit);
  }

  lemma RoundAtExact(q: nat, unit: nat)
    requires unit > 0
    ensures RoundAt(q * unit, unit) == q
  {
    DivisionIs(q * unit, unit, q, 0);
  }

  lemma RoundAtScales(n: nat, unit: nat, scale: nat)
    requires unit > 0 && scale > 0
    ensures unit * scale > 0 && RoundAt(n * scale, unit * scale) == RoundAt(n, unit)
  {
    var q, r := n / unit, n % unit;
    assert n == q * unit + r;
    Scaled(q, unit, r, scale);
    DivisionIs(n * scale, unit * scale, q, r * scale);
    ScaledOrder(2 * r, unit, scale);
    Scaled(2, r, 0, scale);
  }

  lemma Scaled(q: nat, unit: nat, r: nat, scale: nat)
    ensures (q * unit + r) * scale == q * (unit * scale) + r * scale
    ensures unit > 0 && scale > 0 ==> unit * scale > 0
    ensures r < unit && scale > 0 ==> r * scale < unit * scale
  {
    if r < unit {
      Times(r + 1, unit, scale);
    }
  }

  lemma ScaledOrder(a: nat, b: nat, scale: nat)
    requires scale > 0
    ensures (a < b <==> a * scale < b * scale) && (a > b <==> a * scale > b * scale)
  {
    if a < b {
      Times(a + 1, b, scale);
    } else if a > b {
      Times(b + 1, a, scale);
    }
  }

  /** Rounding moves a number by at most half a unit. */
  lemma RoundAtIsNearest(n: nat, unit: nat)
    requires unit > 0
    ensures -1 * unit <= 2 * (RoundAt(n, unit) * unit - n) <= unit
  {
    var q := n / unit;
    assert n == q * unit + n % unit;
    assert (q + 1) * unit == q * unit + unit;
  }

  // The amount in microusd, and the amount kept to 28 digits

  /** `v` to 28 significant digits, half to even. */
  function Significant(v: nat): nat {
    if Digits(v) <= PRECISION then v
    else RoundHalfEven(v, Digits(v) - PRECISION) * Power(Digits(v) - PRECISION)
  }

  /** The microusd an accepted amount stands for; a whole number, as the exponent is at least -6. */
  function Microusd(amount: Decimal): nat
    requires amount.Finite? && amount.exponent >= -6
  {
    amount.coefficient * Power(amount.exponent + 6)
  }

  lemma Regroup(a: nat, b: nat, c: nat)
    ensures a * (b * c) == (a * b) * c == (a * c) * b
  {
  }

  /** Writing an amount with more zeros does not change what it is rounded to. */
  lemma SignificantShift(v: nat, j: nat)
    ensures Significant(v * Power(j)) == Significant(v) * Power(j)
  {
    hide RoundAt, Power;
    var d := Digits(v);
    if v > 0 {
      DigitsShift(v, j);
      if d > PRECISION {
        var k := d - PRECISION;
        PowerAdds(k, j);
        RoundAtScales(v, Power(k), Power(j));
        Regroup(RoundHalfEven(v, k), Power(k), Power(j));
      } else if d + j > PRECISION {
        var k := d + j - PRECISION;
        PowerAdds(j - k, k);
        Regroup(v, Power(j - k), Power(k));
        RoundAtExact(v * Power(j - k), Power(k));
      }
    }
  }

  /** A number of 28 + k digits rounds at place k to one of 28 digits, or to the power just above. */
  lemma RoundedDigits(n: nat, k: nat)
    requires Digits(n) == PRECISION + k
    ensures Power(PRECISION - 1) <= RoundHalfEven(n, k) <= Power(PRECISION)
    ensures RoundHalfEven(n, k) < Power(PRECISION) ==> Digits(RoundHalfEven(n, k)) == PRECISION
  {
    hide RoundAt, Power;
    DigitsBound(n);
    PowerAdds(PRECISION - 1, k);
    PowerAdds(PRECISION, k);
    RoundAtExact(Power(PRECISION - 1), Power(k));
    RoundAtExact(Power(PRECISION), Power(k));
    RoundAtMonotone(Power(PRECISION - 1) * Power(k), n, Power(k));
    RoundAtMonotone(n, Power(PRECISION) * Power(k), Power(k));
    if RoundHalfEven(n, k) < Power(PRECISION) {
      DigitsAre(RoundHalfEven(n, k), PRECISION);
    }
  }

  lemma Tenfold(k: nat)
    requires k > 0
    ensures Power(k) == 10 * Power(k - 1) && Digits(Power(k - 1)) == k
  {
    DigitsAre(Power(k - 1), k);
  }

  /** Reducing a coefficient to 28 digits rounds the number it stands for. */
  lemma FixIsSignificant(coefficient: nat, exponent: int)
    ensures var (c, e) := Fix(coefficient, exponent);
            && e >= exponent && c * Power(e - exponent) == Significant(coefficient)
            && Digits(c) <= PRECISION && (c == 0 <==> coefficient == 0)
  {
    hide RoundAt, Power;
    var d := Digits(coefficient);
    assert Power(0) == 1 by { PowerAtZero(); }
    if d > PRECISION {
      var k := d - PRECISION;
      var q := RoundHalfEven(coefficient, k);
      RoundedDigits(coefficient, k);
      Tenfold(PRECISION);
      Tenfold(PRECISION + 1);
      if q == Power(PRECISION) {
        PowerAdds(1, k);
        Tenfold(1);
        Regroup(Power(PRECISION - 1), 10, Power(k));
      }
    }
  }

  lemma PowerAtZero()
    ensures Power(0) == 1
  {
  }

  // What the conversion returns

  lemma ZeroDigits(n: nat)
    ensures Digits(n) == 0 <==> n == 0
  {
  }

  /** A fixed coefficient at a non-negative exponent stands for its shifted value. */
  lemma DigitsOfValue(c: nat, e: nat)
    ensures c > 0 ==> Digits(c * Power(e)) == Digits(c) + e
  {
    if c > 0 {
      DigitsShift(c, e);
    }
  }

  lemma MillionIs()
    ensures Power(6) == MICROUSD_PER_USD
  {
    assert Power(3) == 1000;
    PowerAdds(3, 3);
  }

  predicate TooLarge(v: nat) { Digits(v) > LARGEST_ADJUSTED_EXPONENT + 1 }

  predicate Acceptable(amount: Decimal) {
    amount.Finite? && !(amount.negative && amount.coefficient > 0) && amount.exponent >= -6
  }

  /** The integral value of a coefficient whose value is a whole number v is v, and it is exact. */
  lemma WholeToIntegral(c: nat, e: int, v: nat)
    requires if e >= 0 then v == c * Power(e) else c == v * Power(-e)
    ensures ToIntegral(c, e) == v && (e < 0 ==> c == ToIntegral(c, e) * Power(-e))
  {
    if e < 0 {
      RoundAtExact(v, Power(-e));
    }
  }

  /** The fixed product stands for the amount in microusd kept to 28 digits, a whole number. */
  lemma FixedProduct(amount: Decimal)
    requires Acceptable(amount)
    ensures var (c, e) := Fix(amount.coefficient * MICROUSD_PER_USD, amount.exponent);
            var v := Significant(Microusd(amount));
            && (if e >= 0 then v == c * Power(e) else c == v * Power(-e))
            && (c == 0 <==> v == 0)
  {
    hide Fix, Significant, Power;
    var raw := amount.coefficient * MICROUSD_PER_USD;
    var x := amount.exponent;
    var (c, e) := Fix(raw, x);
    var v := Significant(Microusd(amount));
    FixIsSignificant(raw, x);
    MillionIs();
    if x >= 0 {
      PowerAdds(6, x);
      Regroup(amount.coefficient, Power(6), Power(x));
      SignificantShift(raw, x);
      PowerAdds(e - x, x);
      Regroup(c, Power(e - x), Power(x));
    } else {
      PowerAdds(x + 6, -x);
      Regroup(amount.coefficient, Power(x + 6), Power(-x));
      SignificantShift(Microusd(amount), -x);
      Balanced(c, e - x, v, -x);
    }
    Positive(c, e - x);
    Positive(v, if x >= 0 then 0 else -x);
    Positive(raw, if x >= 0 then x else 0);
  }

  lemma Positive(n: nat, k: nat)
    ensures n * Power(k) == 0 <==> n == 0
  {
  }

  /** Equal values on two scales: the common powers cancel. */
  lemma Balanced(c: nat, a: nat, v: nat, b: nat)
    requires c * Power(a) == v * Power(b)
    ensures if a >= b then v == c * Power(a - b) else c == v * Power(b - a)
  {
    if a >= b {
      PowerAdds(a - b, b);
      Regroup(c, Power(a - b), Power(b));
      Cancel(v, c * Power(a - b), Power(b));
    } else {
      PowerAdds(b - a, a);
      Regroup(v, Power(b - a), Power(a));
      Cancel(c, v * Power(b - a), Power(a));
    }
  }

  lemma Cancel(a: nat, b: nat, c: nat)
    requires c > 0 && a * c == b * c
    ensures a == b
  {
    if a < b {
      Times(a + 1, b, c);
    } else if b < a {
      Times(b + 1, a, c);
    }
  }

  /**
   * Every finite non-negative amount of at most six decimals converts to its microusd kept to 28
   * digits, unless that has over a million digits; the integrality test never rejects.
   */
  lemma ConversionKeeps28Digits(amount: Decimal)
    ensures ConvertAmount(amount).Rejected? <==> !Acceptable(amount)
    ensures Acceptable(amount) ==>
              ConvertAmount(amount) == if TooLarge(Significant(Microusd(amount))) then Overflowed
                                       else Cost(Significant(Microusd(amount)))
  {
    hide Fix, Significant, Power, Digits;
    if Acceptable(amount) {
      var (c, e) := Fix(amount.coefficient * MICROUSD_PER_USD, amount.exponent);
      var v := Significant(Microusd(amount));
      FixedProduct(amount);
      WholeToIntegral(c, e, v);
      ZeroDigits(v);
      if e >= 0 {
        DigitsOfValue(c, e);
      } else {
        DigitsOfValue(v, -e);
        FixIsSignificant(amount.coefficient * MICROUSD_PER_USD, amount.exponent);
      }
    }
  }

  /** Nothing is lost to rounding exactly when all digits after the 28th are zeros. */
  lemma SignificantIsExact(v: nat)
    ensures Significant(v) == v
            <==> Digits(v) <= PRECISION || v % Power(Digits(v) - PRECISION) == 0
  {
    if Digits(v) > PRECISION {
      hide RoundAt, Power, Digits;
      ExactAt(v, Power(Digits(v) - PRECISION));
    }
  }

  lemma ExactAt(v: nat, unit: nat)
    requires unit > 0
    ensures RoundAt(v, unit) * unit == v <==> v % unit == 0
  {
    var q := v / unit;
    assert v == q * unit + v % unit;
    if v % unit == 0 {
      RoundAtExact(q, unit);
    } else if RoundAt(v, unit) == q + 1 {
      assert (q + 1) * unit == q * unit + unit;
    }
  }

  /** What rounding does lose is at most half a unit of the 28th digit. */
  lemma SignificantIsNearest(v: nat)
    requires Digits(v) > PRECISION
    ensures var unit: int := Power(Digits(v) - PRECISION);
            -unit <= 2 * (Significant(v) - v) <= unit
  {
    RoundAtIsNearest(v, Power(Digits(v) - PRECISION));
  }

  /** A coefficient of at most 28 digits converts exactly: coefficient * 10^(exponent + 6). */
  lemma ShortCostsAreExact(amount: Decimal)
    requires Acceptable(amount) && Digits(amount.coefficient) <= PRECISION && !TooLarge(Microusd(amount))
    ensures ConvertAmount(amount) == Cost(amount.coefficient * Power(amount.exponent + 6))
  {
    hide Power, ConvertAmount;
    ConversionKeeps28Digits(amount);
    SignificantShift(amount.coefficient, amount.exponent + 6);
  }

  lemma SignificantMonotone(a: nat, b: nat)
    requires a <= b
    ensures Significant(a) <= Significant(b)
  {
    hide Power, RoundAt;
    DigitsGrow(a, b);
    var d, f := Digits(a), Digits(b);
    if f > PRECISION {
      var k := f - PRECISION;
      if d == f {
        RoundAtMonotone(a, b, Power(k));
        Times(RoundHalfEven(a, k), RoundHalfEven(b, k), Power(k));
      } else {
        SignificantBelow(a, f - 1);
        RoundedDigits(b, k);
        PowerAdds(PRECISION - 1, k);
        Times(Power(PRECISION - 1), RoundHalfEven(b, k), Power(k));
      }
    }
  }

  lemma SignificantBelow(v: nat, d: nat)
    requires Digits(v) <= d
    ensures Significant(v) <= Power(d)
  {
    hide Power, RoundAt;
    DigitsBound(v);
    PowerGrows(Digits(v), d);
    if Digits(v) > PRECISION {
      var k := Digits(v) - PRECISION;
      RoundedDigits(v, k);
      PowerAdds(PRECISION, k);
      Times(RoundHalfEven(v, k), Power(PRECISION), Power(k));
    }
  }

  /** A larger amount never costs less, however either is written, rounded or not. */
  lemma ConversionIsMonotone(a: Decimal, b: Decimal)
    requires Acceptable(a) && Acceptable(b) && Microusd(a) <= Microusd(b)
    ensures ConvertAmount(b).Cost? ==>
              ConvertAmount(a).Cost? && ConvertAmount(a).microusd <= ConvertAmount(b).microusd
    ensures Microusd(a) == Microusd(b) ==> ConvertAmount(a) == ConvertAmount(b)
  {
    hide Significant, ConvertAmount, Microusd;
    ConversionKeeps28Digits(a);
    ConversionKeeps28Digits(b);
    SignificantMonotone(Microusd(a), Microusd(b));
    DigitsGrow(Significant(Microusd(a)), Significant(Microusd(b)));
  }

  /** With 29 digits the conversion can be wrong without a word: the 29th digit, a one, is lost. */
  lemma LongCostIsRounded()
    ensures var amount := Finite(false, Power(28) + 1, -6);
            Microusd(amount) == Power(28) + 1 && ConvertAmount(amount) == Cost(Power(28))
  {
    hide Power, RoundAt, Digits;
    var v := Power(28) + 1;
    var amount := Finite(false, v, -6);
    assert Power(0) == 1 by { PowerAtZero(); }
    Tenfold(29);
    Tenfold(28);
    Tenfold(1);
    DigitsBound(Power(27));
    DigitsBound(Power(28));
    DigitsAre(v, 29) by { assert Power(28) <= v < Power(29); }
    LastDigitLost(Power(27));
    assert Significant(v) == Power(28);
    ConversionKeeps28Digits(amount);
  }

  lemma LastDigitLost(n: nat)
    ensures RoundAt(10 * n + 1, 10) == n
  {
  }

  /** Of what a response may hold, integers cost a million each; texts that are no decimal are refused. */
  lemma InputsConvert(value: CostInput)
    ensures value.Integer? && 0 <= value.n && Digits(value.n) <= PRECISION ==>
            Convert(value) == Cost(value.n * MICROUSD_PER_USD)
    ensures Convert(value).Rejected?
            <==> (value.Integer? && value.n < 0) || (value.Exact? && !Acceptable(value.amount))
                 || value.Boolean? || value.Malformed? || value.OtherType?
  {
    match value
    case Integer(n) =>
      var amount := Finite(n < 0, if n < 0 then -n else n, 0);
      ConversionKeeps28Digits(amount);
      MillionIs();
      if 0 <= n && Digits(n) <= PRECISION {
        DigitsOfValue(n, 6);
        ZeroDigits(n);
        ZeroDigits(n * MICROUSD_PER_USD);
        ShortCostsAreExact(amount);
      }
    case Exact(amount) => ConversionKeeps28Digits(amount);
    case _ =>
  }
}
