/** What a written amount is worth: the value asked for, exactly, and the nearest one when it
    was asked for in finer units than the currency has. */
module AmountLaws {
  import opened Wrappers
  import opened Amounts

  /** The number a decimal stands for. */
  function Value(a: Decimal): real {
    PowPositive(a.scale);
    a.units as real / Pow10(a.scale) as real
  }

  /** The sum of the numbers, one after the other. */
  function Total(amounts: seq<Decimal>): real {
    if amounts == [] then 0.0 else Total(amounts[..|amounts| - 1]) + Value(amounts[|amounts| - 1])
  }

  /** `written` is `asked` in the units it is written in: the same number when it can be, or
      else the nearest, and of two equally near the even one. Half a unit of the written
      amount is compared over the common denominator. */
  predicate Denotes(written: Decimal, asked: Decimal) {
    var apart, unit := written.units * Pow10(asked.scale) - asked.units * Pow10(written.scale), Pow10(asked.scale);
    && (asked.scale <= written.scale ==> Value(written) == Value(asked) && apart == 0)
    && 2 * apart <= unit && -2 * apart <= unit
    && (2 * apart == unit || -2 * apart == unit ==> written.units % 2 == 0)
  }

  // --- arithmetic on fractions -----------------------------------------------------------

  lemma Extended(x: real, p: real, k: real)
    requires p > 0.0 && k > 0.0
    ensures p * k > 0.0 && (x * k) / (p * k) == x / p
  {
    var q := x / p;
    assert q * p == x;
    assert q * (p * k) == x * k;
  }

  lemma AddedOver(x: real, y: real, p: real)
    requires p > 0.0
    ensures (x + y) / p == x / p + y / p
  {
  }

  lemma RealTimes(x: int, y: int)
    ensures (x * y) as real == x as real * y as real
  {
  }

  /** More decimal places for the same number. */
  lemma ScaledUp(a: Decimal, k: nat)
    ensures Value(Decimal(a.units * Pow10(k), a.scale + k)) == Value(a)
  {
    var p, t := Pow10(a.scale), Pow10(k);
    PowPositive(a.scale);
    PowPositive(k);
    PowSum(a.scale, k);
    SameFraction(a.units, p, t);
  }

  lemma SameFraction(n: nat, p: nat, k: nat)
    requires p >= 1 && k >= 1
    ensures p * k >= 1 && (n * k) as real / (p * k) as real == n as real / p as real
  {
    RealTimes(n, k);
    RealTimes(p, k);
    Extended(n as real, p as real, k as real);
  }

  lemma SameScale(x: nat, y: nat, scale: nat)
    ensures Value(Decimal(x + y, scale)) == Value(Decimal(x, scale)) + Value(Decimal(y, scale))
  {
    PowPositive(scale);
    AddedOver(x as real, y as real, Pow10(scale) as real);
  }

  lemma PlusAdds(a: Decimal, b: Decimal)
    ensures Value(Plus(a, b)) == Value(a) + Value(b)
  {
    var s := Plus(a, b).scale;
    ScaledUp(a, s - a.scale);
    ScaledUp(b, s - b.scale);
    SameScale(a.units * Pow10(s - a.scale), b.units * Pow10(s - b.scale), s);
  }

  /** The control sum is the sum of the amounts, whatever their scales. */
  lemma {:induction false} SumIsTotal(amounts: seq<Decimal>)
    ensures Value(Sum(amounts)) == Total(amounts)
  {
    if amounts != [] {
      SumIsTotal(amounts[..|amounts| - 1]);
      PlusAdds(Sum(amounts[..|amounts| - 1]), amounts[|amounts| - 1]);
    } else {
      assert Pow10(0) == 1;
    }
  }

  // --- rounding -----------------------------------------------------------------------------

  /** The quotient is the nearest, and of two equally near the even one. */
  lemma RoundsToNearest(n: nat, d: nat)
    requires d >= 1
    ensures var off := RoundHalfEven(n, d) * d - n;
            2 * off <= d && -2 * off <= d && (2 * off == d || -2 * off == d ==> RoundHalfEven(n, d) % 2 == 0)
  {
    var q, r := n / d, n % d;
    assert n == q * d + r;
    assert (q + 1) * d == q * d + d;
  }

  /** Rounding to the currency's units keeps the number, or takes the nearest. */
  lemma QuantizedDenotes(a: Decimal, m: nat)
    ensures Denotes(Decimal(Quantized(a, m), m), a)
  {
    PowPositive(a.scale);
    if a.scale <= m {
      ScaledUp(a, m - a.scale);
      Rescale(a.units, m - a.scale, a.scale);
    } else {
      var k := a.scale - m;
      PowPositive(m);
      PowPositive(k);
      PowSum(m, k);
      RoundsToNearest(a.units, Pow10(k));
      Coarser(Quantized(a, m), a.units, Pow10(m), Pow10(k));
    }
  }

  /** Half a unit, over the finer denominator. */
  lemma Coarser(q: nat, n: nat, p: nat, k: nat)
    requires p >= 1 && k >= 1
    ensures var off, apart := q * k - n, q * (p * k) - n * p;
            && (2 * off <= k ==> 2 * apart <= p * k) && (-2 * off <= k ==> -2 * apart <= p * k)
            && (2 * apart == p * k ==> 2 * off == k) && (-2 * apart == p * k ==> -2 * off == k)
  {
    var off, apart := q * k - n, q * (p * k) - n * p;
    CommonFactor(q, n, p, k);
    Scaled(p, 2 * off, k);
    Scaled(p, -2 * off, k);
    Doubled(p, off);
  }

  lemma CommonFactor(q: int, n: int, p: int, k: int)
    ensures q * (p * k) - n * p == p * (q * k - n)
  {
    assert q * (p * k) == p * (q * k);
  }

  lemma Doubled(p: int, off: int)
    ensures p * (2 * off) == 2 * (p * off) && p * (-2 * off) == -2 * (p * off)
  {
  }

  lemma Scaled(p: nat, x: int, y: int)
    requires p >= 1
    ensures (x <= y ==> p * x <= p * y) && (p * x == p * y ==> x == y)
  {
  }

  // --- what is written ------------------------------------------------------------------------

  /** An amount is written with as many decimal places as its currency has minor units, and
      denotes what was asked for: exactly, when it was asked for in minor units. */
  lemma WrittenAmountDenotes(a: Decimal, currency: string)
    ensures var written := DecimalOf(FormatAmount(a, currency));
            written.Some? && written.value.scale == MinorUnits(currency) && Denotes(written.value, a)
  {
    FormattedReads(Quantized(a, MinorUnits(currency)), MinorUnits(currency));
    QuantizedDenotes(a, MinorUnits(currency));
  }

  /** The same without fractions. */
  lemma WrittenUnits(a: Decimal, currency: string)
    requires a.scale <= MinorUnits(currency)
    ensures var written := DecimalOf(FormatAmount(a, currency));
            written.Some? && written.value.units * Pow10(a.scale) == a.units * Pow10(MinorUnits(currency))
  {
    var m := MinorUnits(currency);
    FormattedReads(Quantized(a, m), m);
    Rescale(a.units, m - a.scale, a.scale);
  }

  /** One currency of each kind, and the exceptions among the others by count. */
  lemma UnitsOfCurrencies()
    ensures MinorUnits("CHF") == 2 && MinorUnits("EUR") == 2 && MinorUnits("USD") == 2 && MinorUnits("GBP") == 2
    ensures MinorUnits("JPY") == 0 && MinorUnits("KRW") == 0 && MinorUnits("ISK") == 0 && MinorUnits("CLP") == 0
    ensures MinorUnits("KWD") == 3 && MinorUnits("BHD") == 3 && MinorUnits("TND") == 3
    ensures MinorUnits("CLF") == 4 && MinorUnits("UYW") == 4
  {
  }
}
