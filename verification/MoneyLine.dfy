/** Invoice lines in exact minor units: two roundings, half away from zero, and how far
    they can take a total from the exact product. */
module MoneyLine {

  datatype Line = Line(quantityMilli: int, rateMinor: int, taxBasisPoints: nat)

  datatype Amounts = Amounts(taxable: int, tax: int, total: int)

  /** Division of big integers truncates, so both branches divide a non-negative number. */
  function RoundRatio(numerator: int, denominator: int): int
    requires denominator > 0
  {
    if numerator < 0 then -((-numerator + denominator / 2) / denominator)
    else (numerator + denominator / 2) / denominator
  }

  function CalculateMoneyLine(l: Line): Amounts {
    var taxable := RoundRatio(l.quantityMilli * l.rateMinor, 1000);
    var tax := RoundRatio(taxable * l.taxBasisPoints, 10000);
    Amounts(taxable, tax, taxable + tax)
  }

  function Abs(n: int): int {
    if n < 0 then -n else n
  }

  /** The multiple is within half a step, and on a tie the one further from zero. */
  predicate Near(numerator: int, denominator: int, multiple: int) {
    && 2 * Abs(multiple - numerator) <= denominator
    && (2 * Abs(multiple - numerator) == denominator ==> Abs(multiple) > Abs(numerator))
  }

  /** An integer nearest to the ratio. */
  predicate IsRounded(numerator: int, denominator: int, r: int) {
    Near(numerator, denominator, denominator * r)
  }

  /** Rounding finds the nearest integer, and nothing else is nearest in that sense. */
  lemma RoundRatioIsNearest(n: int, d: int, r: int)
    requires d > 0 && d % 2 == 0
    ensures r == RoundRatio(n, d) <==> IsRounded(n, d, r)
  {
    hide RoundRatio, Near, Abs;
    RoundRatioIsNear(n, d);
    if IsRounded(n, d, r) && r != RoundRatio(n, d) {
      MulApart(d, r, RoundRatio(n, d));
      MultipleIsFar(d, r);
      MultipleIsFar(d, RoundRatio(n, d));
      NearMultiplesAreClose(n, d, d * r, d * RoundRatio(n, d));
    }
  }

  lemma RoundRatioIsNear(n: int, d: int)
    requires d > 0 && d % 2 == 0
    ensures Near(n, d, d * RoundRatio(n, d))
  {
  }

  lemma MultipleIsFar(d: int, r: int)
    requires d > 0
    ensures d * r == 0 || Abs(d * r) >= d
  {
  }

  lemma NearMultiplesAreClose(n: int, d: int, p: int, q: int)
    requires d > 0 && Near(n, d, p) && Near(n, d, q)
    requires (p == 0 || Abs(p) >= d) && (q == 0 || Abs(q) >= d)
    ensures Abs(p - q) < d
  {
  }

  lemma MulNeg(d: int, q: int)
    ensures d * -q == -(d * q)
  {
  }

  lemma Distributes(d: int, s: int, k: int)
    ensures d * (s + k) == d * s + d * k
  {
  }

  lemma ProductNonNegative(x: int, y: int)
    requires x >= 0 && y >= 0
    ensures x * y >= 0
  {
  }

  lemma MulApart(d: int, r: int, s: int)
    requires d > 0 && r != s
    ensures Abs(d * r - d * s) >= d
  {
    if r > s {
      Distributes(d, s, r - s);
      Distributes(d, 1, r - s - 1);
      ProductNonNegative(d, r - s - 1);
    } else {
      Distributes(d, r, s - r);
      Distributes(d, 1, s - r - 1);
      ProductNonNegative(d, s - r - 1);
    }
  }

  lemma RoundRatioIsOdd(n: int, d: int)
    requires d > 0
    ensures RoundRatio(-n, d) == -RoundRatio(n, d)
  {
  }

  lemma RoundRatioIsMonotone(n: int, m: int, d: int)
    requires d > 0 && n <= m
    ensures RoundRatio(n, d) <= RoundRatio(m, d)
  {
    if n >= 0 {
      DivMonotone(n + d / 2, m + d / 2, d);
    } else if m < 0 {
      DivMonotone(-m + d / 2, -n + d / 2, d);
    } else {
      DivMonotone(0, -n + d / 2, d);
      DivMonotone(0, m + d / 2, d);
    }
  }

  lemma DivMonotone(x: int, y: int, d: int)
    requires 0 <= x <= y && d > 0
    ensures 0 <= x / d <= y / d
  {
    var p, q := x / d, y / d;
    assert x == d * p + x % d && y == d * q + y % d;
    if q < p {
      Distributes(d, q + 1, p - q - 1);
      Distributes(d, q, 1);
      ProductNonNegative(d, p - q - 1);
    }
  }

  // ---------------------------------------------------------------------------
  // The error of a line and of an invoice
  // ---------------------------------------------------------------------------

  /** The exact total, in units of one ten-millionth. */
  function Exact(l: Line): int {
    l.quantityMilli * l.rateMinor * (10000 + l.taxBasisPoints)
  }

  function Drift(l: Line): int {
    10000000 * CalculateMoneyLine(l).total - Exact(l)
  }

  /** The total differs from the exact product by at most the two roundings. */
  lemma LineErrorBound(l: Line)
    ensures Abs(Drift(l)) <= 500 * (10000 + l.taxBasisPoints) + 5000000
  {
    var n, t := l.quantityMilli * l.rateMinor, l.taxBasisPoints;
    var taxable := RoundRatio(n, 1000);
    var m := taxable * t;
    var tax := RoundRatio(m, 10000);
    RoundRatioIsNearest(n, 1000, taxable);
    RoundRatioIsNearest(m, 10000, tax);
    var first, second := 1000 * taxable - n, 10000 * tax - m;
    assert Exact(l) == n * (10000 + t);
    ErrorsAddUp(n, t, taxable, tax, m, first, second);
    ScaledBound(first, 10000 + t);
  }

  lemma ErrorsAddUp(n: int, t: nat, taxable: int, tax: int, m: int, first: int, second: int)
    requires m == taxable * t && first == 1000 * taxable - n && second == 10000 * tax - m
    ensures 10000000 * (taxable + tax) - n * (10000 + t) == first * (10000 + t) + 1000 * second
  {
  }

  lemma ScaledBound(e: int, k: int)
    requires Abs(e) <= 500 && k >= 0
    ensures Abs(e * k) <= 500 * k
  {
    ProductNonNegative(500 - e, k);
    ProductNonNegative(500 + e, k);
    assert (500 - e) * k == 500 * k - e * k && (500 + e) * k == 500 * k + e * k;
  }

  function SumTaxable(lines: seq<Line>): int {
    if lines == [] then 0 else CalculateMoneyLine(lines[0]).taxable + SumTaxable(lines[1..])
  }

  function SumTax(lines: seq<Line>): int {
    if lines == [] then 0 else CalculateMoneyLine(lines[0]).tax + SumTax(lines[1..])
  }

  /** The amounts stored on an invoice. */
  function InvoiceAmounts(lines: seq<Line>): Amounts {
    Amounts(SumTaxable(lines), SumTax(lines), SumTaxable(lines) + SumTax(lines))
  }

  function SumExact(lines: seq<Line>): int {
    if lines == [] then 0 else Exact(lines[0]) + SumExact(lines[1..])
  }

  function SumTotals(lines: seq<Line>): int {
    if lines == [] then 0 else CalculateMoneyLine(lines[0]).total + SumTotals(lines[1..])
  }

  /** An invoice's total is the sum of its lines' totals. */
  lemma {:induction false} InvoiceIsTheSumOfItsLines(lines: seq<Line>)
    ensures InvoiceAmounts(lines).total == SumTotals(lines)
  {
    if lines != [] {
      InvoiceIsTheSumOfItsLines(lines[1..]);
    }
  }

  /** Any invoice drifts at most one and a half minor units a line from the exact total. */
  lemma {:induction false} InvoiceErrorBound(lines: seq<Line>)
    requires forall l <- lines :: l.taxBasisPoints <= 10000
    ensures Abs(10000000 * InvoiceAmounts(lines).total - SumExact(lines)) <= 15000000 * |lines|
  {
    hide CalculateMoneyLine, Exact;
    if lines != [] {
      assert lines[0] in lines;
      LineErrorBound(lines[0]);
      InvoiceErrorBound(lines[1..]);
      InvoiceIsTheSumOfItsLines(lines);
      InvoiceIsTheSumOfItsLines(lines[1..]);
    }
  }

  // ---------------------------------------------------------------------------
  // Two roundings against one
  // ---------------------------------------------------------------------------

  /** The total as it would be if the exact product were rounded once. */
  function RoundedOnce(l: Line): int {
    RoundRatio(Exact(l), 10000000)
  }

  function Total(n: int, t: nat): int {
    var taxable := RoundRatio(n, 1000);
    taxable + RoundRatio(taxable * t, 10000)
  }

  lemma TotalIsClose(n: int, t: nat)
    requires t <= 10000
    ensures Abs(Total(n, t) - RoundRatio(n * (10000 + t), 10000000)) <= 1
  {
    hide RoundRatio;
    var taxable := RoundRatio(n, 1000);
    var m, exact := taxable * t, n * (10000 + t);
    var tax, first := RoundRatio(m, 10000), 1000 * taxable - n;
    RoundRatioIsNearest(n, 1000, taxable);
    RoundRatioIsNearest(m, 10000, tax);
    RoundRatioIsNearest(exact, 10000000, RoundRatio(exact, 10000000));
    ErrorsAddUp(n, t, taxable, tax, m, first, 10000 * tax - m);
    ScaledBound(first, 10000 + t);
    if t == 10000 { FullTaxIsExact(taxable); }
    TotalsAreClose(exact, taxable + tax, RoundRatio(exact, 10000000), first * (10000 + t), 10000 * tax - m, t);
  }

  lemma TotalIsExact(n: int, t: nat)
    requires n % 1000 == 0
    ensures Total(n, t) == RoundRatio(n * (10000 + t), 10000000)
  {
    hide RoundRatio, Near;
    var taxable := RoundRatio(n, 1000);
    var m, exact := taxable * t, n * (10000 + t);
    var tax := RoundRatio(m, 10000);
    RoundRatioIsNearest(m, 10000, tax);
    WholeTaxableIsExact(n);
    SameSign(taxable, t);
    ErrorsAddUp(n, t, taxable, tax, m, 0, 10000 * tax - m);
    assert 0 * (10000 + t) == 0;
    OnlyTaxIsRounded(exact, taxable, tax, m, 10000 * tax - m);
    RoundRatioIsNearest(exact, 10000000, taxable + tax);
  }

  /** Rounding twice moves a total by at most one minor unit against rounding once, and by
      none if the first rounding is exact or there is no tax. */
  lemma TwoRoundingsAgainstOne(l: Line)
    requires l.taxBasisPoints <= 10000
    ensures Abs(CalculateMoneyLine(l).total - RoundedOnce(l)) <= 1
    ensures l.quantityMilli * l.rateMinor % 1000 == 0 || l.taxBasisPoints == 0 ==> CalculateMoneyLine(l).total == RoundedOnce(l)
  {
    hide RoundRatio;
    var n, t := l.quantityMilli * l.rateMinor, l.taxBasisPoints;
    TotalIsClose(n, t);
    if n % 1000 == 0 { TotalIsExact(n, t); }
    if t == 0 { NoTaxIsExact(n); }
  }

  lemma TotalsAreClose(exact: int, total: int, once: int, e: int, second: int, t: nat)
    requires 10000000 * total - exact == e + 1000 * second && Near(exact, 10000000, 10000000 * once)
    requires Abs(e) <= 500 * (10000 + t) && 2 * Abs(second) <= 10000 && t <= 10000 && (t == 10000 ==> second == 0)
    ensures Abs(total - once) <= 1
  {
  }

  /** Adding the taxable amount, of the same sign, does not change the side of a tie. */
  lemma OnlyTaxIsRounded(exact: int, taxable: int, tax: int, m: int, second: int)
    requires second == 10000 * tax - m && Near(m, 10000, 10000 * tax)
    requires 10000000 * (taxable + tax) - exact == 1000 * second
    requires (taxable >= 0 ==> m >= 0) && (taxable <= 0 ==> m <= 0)
    ensures Near(exact, 10000000, 10000000 * (taxable + tax))
  {
  }

  lemma FullTaxIsExact(taxable: int)
    ensures RoundRatio(taxable * 10000, 10000) == taxable
  {
  }

  lemma NoTaxIsExact(n: int)
    ensures Total(n, 0) == RoundRatio(n * 10000, 10000000)
  {
  }

  lemma WholeTaxableIsExact(n: int)
    requires n % 1000 == 0
    ensures 1000 * RoundRatio(n, 1000) == n
  {
  }

  lemma SameSign(x: int, t: nat)
    ensures x >= 0 ==> x * t >= 0
    ensures x <= 0 ==> x * t <= 0
  {
  }

  /** The one unit is reached by every line of this family. */
  lemma OneUnitIsReached(k: nat)
    ensures var l := Line(1, 1000 * k + 499, 10000);
            CalculateMoneyLine(l).total == 2 * k && RoundedOnce(l) == 2 * k + 1
  {
  }

  // ---------------------------------------------------------------------------
  // Signs and order
  // ---------------------------------------------------------------------------

  /** A credit at the negated rate cancels the charge exactly. */
  lemma NegatedRateNegates(l: Line)
    ensures var a, b := CalculateMoneyLine(l), CalculateMoneyLine(l.(rateMinor := -l.rateMinor));
            b == Amounts(-a.taxable, -a.tax, -a.total)
  {
    var n := l.quantityMilli * l.rateMinor;
    MulNeg(l.quantityMilli, l.rateMinor);
    RoundRatioIsOdd(n, 1000);
    var taxable := RoundRatio(n, 1000);
    MulNeg(l.taxBasisPoints, taxable);
    RoundRatioIsOdd(taxable * l.taxBasisPoints, 10000);
  }

  /** A higher rate never lowers any amount. */
  lemma AmountsAreMonotone(quantityMilli: nat, rate: int, higher: int, taxBasisPoints: nat)
    requires rate <= higher
    ensures var a, b := CalculateMoneyLine(Line(quantityMilli, rate, taxBasisPoints)),
                        CalculateMoneyLine(Line(quantityMilli, higher, taxBasisPoints));
            a.taxable <= b.taxable && a.tax <= b.tax && a.total <= b.total
  {
    MulMonotone(quantityMilli, rate, higher);
    RoundRatioIsMonotone(quantityMilli * rate, quantityMilli * higher, 1000);
    var a, b := RoundRatio(quantityMilli * rate, 1000), RoundRatio(quantityMilli * higher, 1000);
    MulMonotone(taxBasisPoints, a, b);
    RoundRatioIsMonotone(a * taxBasisPoints, b * taxBasisPoints, 10000);
  }

  lemma MulMonotone(k: nat, x: int, y: int)
    requires x <= y
    ensures k * x <= k * y && x * k <= y * k
  {
  }
}
