/** Decimal amounts, the digits a payment document writes for them, and the sum of what it
    writes. */
module Amounts {
  import opened Wrappers

  /** `units` at `scale` decimal places: 1.50 is 150 at 2. */
  datatype Decimal = Decimal(units: nat, scale: nat)

  function Pow10(n: nat): nat {
    if n == 0 then 1 else 10 * Pow10(n - 1)
  }

  lemma {:induction false} PowPositive(n: nat)
    ensures Pow10(n) >= 1
  {
    if n > 0 { PowPositive(n - 1); }
  }

  lemma {:induction false} PowSum(a: nat, b: nat)
    ensures Pow10(a + b) == Pow10(a) * Pow10(b)
  {
    if a > 0 { PowSum(a - 1, b); }
  }

  /** The minor units of a currency, two unless the currency is an exception. */
  function MinorUnits(currency: string): nat {
    if currency in {"BIF", "CLP", "DJF", "GNF", "ISK", "JPY", "KMF", "KRW", "PYG", "RWF",
                    "UGX", "UYI", "VND", "VUV", "XAF", "XOF", "XPF"} then 0
    else if currency in {"BHD", "IQD", "JOD", "KWD", "LYD", "OMR", "TND"} then 3
    else if currency in {"CLF", "UYW"} then 4
    else 2
  }

  /** Quotient to the nearest integer, ties to even. */
  function RoundHalfEven(n: nat, d: nat): nat
    requires d >= 1
  {
    var q, r := n / d, n % d;
    if 2 * r < d then q else if 2 * r > d then q + 1 else if q % 2 == 0 then q else q + 1
  }

  /** The amount in the smallest unit of `m` decimal places. */
  function Quantized(a: Decimal, m: nat): nat {
    if a.scale <= m then a.units * Pow10(m - a.scale)
    else
      PowPositive(a.scale - m);
      RoundHalfEven(a.units, Pow10(a.scale - m))
  }

  function Plus(a: Decimal, b: Decimal): Decimal {
    var scale := if a.scale < b.scale then b.scale else a.scale;
    Decimal(a.units * Pow10(scale - a.scale) + b.units * Pow10(scale - b.scale), scale)
  }

  function Sum(amounts: seq<Decimal>): Decimal {
    if amounts == [] then Decimal(0, 0) else Plus(Sum(amounts[..|amounts| - 1]), amounts[|amounts| - 1])
  }

  function SumQuantized(amounts: seq<Decimal>, m: nat): nat {
    if amounts == [] then 0
    else SumQuantized(amounts[..|amounts| - 1], m) + Quantized(amounts[|amounts| - 1], m)
  }

  predicate InMinorUnits(amounts: seq<Decimal>, m: nat) {
    forall k | 0 <= k < |amounts| :: amounts[k].scale <= m
  }

  lemma Rescale(units: nat, a: nat, b: nat)
    ensures units * Pow10(a) * Pow10(b) == units * Pow10(a + b)
  {
    PowSum(a, b);
    assert units * Pow10(a) * Pow10(b) == units * (Pow10(a) * Pow10(b));
  }

  lemma PlusQuantized(a: Decimal, b: Decimal, m: nat)
    requires a.scale <= m && b.scale <= m
    ensures Plus(a, b).scale <= m
    ensures Quantized(Plus(a, b), m) == Quantized(a, m) + Quantized(b, m)
  {
    var s := Plus(a, b).scale;
    Rescale(a.units, s - a.scale, m - s);
    Rescale(b.units, s - b.scale, m - s);
    var x, y := a.units * Pow10(s - a.scale), b.units * Pow10(s - b.scale);
    assert (x + y) * Pow10(m - s) == x * Pow10(m - s) + y * Pow10(m - s);
  }

  /** With every amount in minor units, the control sum is exactly the sum of the amounts as
      they are written. */
  lemma {:induction false} ControlSumIsExact(amounts: seq<Decimal>, m: nat)
    requires InMinorUnits(amounts, m)
    ensures Sum(amounts).scale <= m
    ensures Quantized(Sum(amounts), m) == SumQuantized(amounts, m)
    decreases |amounts|
  {
    if amounts != [] {
      var front := amounts[..|amounts| - 1];
      assert forall k | 0 <= k < |front| :: front[k] == amounts[k];
      ControlSumIsExact(front, m);
      PlusQuantized(Sum(front), amounts[|amounts| - 1], m);
    }
  }

  /** With finer amounts it need not be: half a cent twice is one cent, written as two
      times nothing. */
  lemma FinerAmountsDrift()
    ensures var amounts := [Decimal(5, 3), Decimal(5, 3)];
            Quantized(Sum(amounts), 2) == 1 && SumQuantized(amounts, 2) == 0
  {
    var a := Decimal(5, 3);
    assert [a, a][..1] == [a] && [a][..0] == [];
    assert Pow10(1) == 10 && Pow10(3) == 1000 by {
      assert Pow10(2) == 100;
    }
    assert Sum([a]) == Decimal(5, 3);
    assert Sum([a, a]) == Decimal(10, 3);
    assert Quantized(a, 2) == 0;
    assert SumQuantized([a], 2) == 0;
  }

  // --- digits -------------------------------------------------------------------------

  predicate IsDigit(c: char) { '0' <= c <= '9' }

  function Digit(n: nat): char
    requires n < 10
  {
    '0' + n as char
  }

  function Digits(n: nat): (s: string)
    ensures |s| >= 1 && forall c | c in s :: IsDigit(c)
  {
    if n < 10 then [Digit(n)] else Digits(n / 10) + [Digit(n % 10)]
  }

  function NatOf(s: string): nat
    requires forall c | c in s :: IsDigit(c)
  {
    if s == "" then 0
    else
      assert s[|s| - 1] in s && IsDigit(s[|s| - 1]);
      NatOf(s[..|s| - 1]) * 10 + (s[|s| - 1] as int - '0' as int)
  }

  lemma {:induction false} DigitsRead(n: nat)
    ensures NatOf(Digits(n)) == n
    decreases n
  {
    if n < 10 {
      assert Digits(n)[..0] == "";
    } else {
      var front := Digits(n / 10);
      assert Digits(n)[..|Digits(n)| - 1] == front;
      DigitsRead(n / 10);
    }
  }

  function Padded(s: string, width: nat): (p: string)
    requires forall c | c in s :: IsDigit(c)
    ensures |p| >= width && |p| >= |s| && forall c | c in p :: IsDigit(c)
    decreases width - |s|
  {
    if |s| >= width then s else Padded("0" + s, width)
  }

  lemma {:induction false} LeadingZero(s: string)
    requires forall c | c in s :: IsDigit(c)
    ensures NatOf("0" + s) == NatOf(s)
    decreases |s|
  {
    if s == "" {
      assert ("0" + s)[..0] == "";
    } else {
      assert ("0" + s)[..|s|] == "0" + s[..|s| - 1];
      LeadingZero(s[..|s| - 1]);
    }
  }

  lemma {:induction false} PaddingReads(s: string, width: nat)
    requires forall c | c in s :: IsDigit(c)
    ensures NatOf(Padded(s, width)) == NatOf(s)
    decreases width - |s|
  {
    if |s| < width {
      LeadingZero(s);
      PaddingReads("0" + s, width);
    }
  }

  /** `n` smallest units with `m` decimal places, never in exponent notation. */
  function Formatted(n: nat, m: nat): string {
    if m == 0 then Digits(n)
    else
      var s := Padded(Digits(n), m + 1);
      s[..|s| - m] + "." + s[|s| - m..]
  }

  function FormatAmount(a: Decimal, currency: string): string {
    Formatted(Quantized(a, MinorUnits(currency)), MinorUnits(currency))
  }

  /** Where the decimal point of a text is; past its end when there is none. */
  function PointOf(text: string): (p: nat)
    ensures p <= |text| && (p < |text| ==> text[p] == '.') && forall k | 0 <= k < p :: text[k] != '.'
  {
    if text == "" || text[0] == '.' then 0 else 1 + PointOf(text[1..])
  }

  /** The number a text denotes: its digits, and how many of them follow the point. */
  function DecimalOf(text: string): Option<Decimal> {
    var p := PointOf(text);
    var digits := if p < |text| then text[..p] + text[p + 1..] else text;
    if digits == "" || exists c | c in digits :: !IsDigit(c) then None
    else Some(Decimal(NatOf(digits), if p < |text| then |text| - p - 1 else 0))
  }

  /** What is written reads back as what was meant. */
  lemma FormattedReads(n: nat, m: nat)
    ensures DecimalOf(Formatted(n, m)) == Some(Decimal(n, m))
  {
    DigitsRead(n);
    if m == 0 {
      NoPoint(Digits(n));
    } else {
      var s := Padded(Digits(n), m + 1);
      PaddingReads(Digits(n), m + 1);
      assert s[..|s| - m] + s[|s| - m..] == s;
      PointRemoved(s[..|s| - m], s[|s| - m..]);
    }
  }

  lemma {:induction false} PointAfter(a: string, b: string)
    requires forall c | c in a :: c != '.'
    ensures PointOf(a + b) == |a| + PointOf(b)
    decreases |a|
  {
    if a == "" {
      assert a + b == b;
    } else {
      assert a[0] in a && (a + b)[1..] == a[1..] + b && forall c | c in a[1..] :: c in a;
      PointAfter(a[1..], b);
    }
  }

  lemma NoPoint(s: string)
    requires s != "" && forall c | c in s :: IsDigit(c)
    ensures DecimalOf(s) == Some(Decimal(NatOf(s), 0))
  {
    assert s + "" == s;
    PointAfter(s, "");
  }

  lemma PointRemoved(a: string, b: string)
    requires a != "" && forall c | c in a + b :: IsDigit(c)
    ensures DecimalOf(a + "." + b) == Some(Decimal(NatOf(a + b), |b|))
  {
    var text := a + "." + b;
    assert text == a + ("." + b) && forall c | c in a :: c in a + b;
    PointAfter(a, "." + b);
    assert text[..|a|] == a && text[|a| + 1..] == b;
  }

  /** Only digits, with at most a point between them. */
  lemma FormattedShape(n: nat, m: nat)
    ensures Formatted(n, m) != ""
    ensures forall c | c in Formatted(n, m) :: IsDigit(c) || c == '.'
  {
  }
}
