/** Means and confidence intervals over real numbers: what the reports compute of a list of values, and what that
    says about the list. */
module Estimates {
  import opened Wrappers
  import opened BenchmarkText

  // ---- sums and means ----------------------------------------------------------------------

  function Sum(values: seq<real>): real {
    if values == [] then 0.0 else Sum(values[..|values| - 1]) + values[|values| - 1]
  }

  function Mean(values: seq<real>): real
    requires values != []
  {
    Sum(values) / |values| as real
  }

  /** A product by name, so that proofs need not multiply it out. */
  function Product(a: real, b: real): real {
    a * b
  }

  function Squared(x: real): real {
    Product(x, x)
  }

  function SumOfSquares(values: seq<real>): real {
    if values == [] then 0.0 else SumOfSquares(values[..|values| - 1]) + Squared(values[|values| - 1])
  }

  /** Python's fmean. */
  function Fmean(values: seq<real>): Result<real, Failure> {
    if values == [] then Err(StatisticsError) else Ok(Mean(values))
  }

  lemma TimesCount(total: real, n: real)
    requires n != 0.0
    ensures total / n * n == total
  {
  }

  lemma MeanTimesCount(values: seq<real>)
    requires values != []
    ensures Mean(values) * |values| as real == Sum(values)
  {
    TimesCount(Sum(values), |values| as real);
  }

  // ---- the interval ------------------------------------------------------------------------

  /** A mean and the half width of its confidence interval. */
  datatype Estimate = Estimate(mean: real, interval: real)

  /** What the statistics library provides: the 97.5% quantile of Student's t distribution for a number of degrees of
      freedom, and the square root. */
  datatype Library = Library(quantile: nat -> real, root: real -> real)

  ghost predicate IsLibrary(l: Library) {
    && (forall freedom: nat :: freedom > 0 ==> l.quantile(freedom) > 0.0)
    && forall x: real :: x >= 0.0 ==> l.root(x) >= 0.0 && l.root(x) * l.root(x) == x
  }

  function SquaredDeviations(values: seq<real>, center: real): real {
    if values == [] then 0.0
    else
      var last := values[|values| - 1] - center;
      SquaredDeviations(values[..|values| - 1], center) + Squared(last)
  }

  /** The square of the standard error of the mean: the sample variance over the count. */
  function SquaredError(values: seq<real>): real
    requires |values| >= 2
  {
    var n := |values| as real;
    SquaredDeviations(values, Mean(values)) / (n - 1.0) / n
  }

  function EstimateOf(values: seq<real>, l: Library): Estimate
    requires values != []
  {
    Estimate(Mean(values), if |values| == 1 then 0.0 else Product(l.quantile(|values| - 1), l.root(SquaredError(values))))
  }

  /** The shared mean and interval of the reports. */
  function MeanAndInterval(values: seq<real>, l: Library): Result<Estimate, Failure> {
    if values == [] then Err(StatisticsError) else Ok(EstimateOf(values, l))
  }

  /** The count times the sum of squares less the square of the sum: nought exactly for equal values. */
  function Variation(n: real, sum: real, squares: real): real {
    n * squares - sum * sum
  }

  /** The square of the standard error in terms of the count, the sum of the values and that of their squares. */
  function MomentError(n: real, sum: real, squares: real): real
    requires n > 1.0
  {
    Variation(n, sum, squares) / (n * n * (n - 1.0))
  }

  /** What an estimate is, in terms of the sum of the values and the sum of their squares. */
  ghost predicate IsEstimate(values: seq<real>, l: Library, e: Estimate) {
    && values != [] && Product(e.mean, |values| as real) == Sum(values)
    && (|values| == 1 ==> e.interval == 0.0)
    && (|values| > 1 ==>
          e.interval ==
          Product(l.quantile(|values| - 1), l.root(MomentError(|values| as real, Sum(values), SumOfSquares(values)))))
  }

  // ---- deviations and moments --------------------------------------------------------------

  /** The squared deviations of `n` values with a sum and a sum of squares. */
  function FromMoments(squares: real, sum: real, n: real, center: real): real {
    squares - 2.0 * center * sum + n * (center * center)
  }

  lemma NextMoments(squares: real, sum: real, n: real, center: real, x: real)
    ensures FromMoments(squares, sum, n, center) + Squared(x - center) ==
            FromMoments(squares + Squared(x), sum + x, n + 1.0, center)
  {
    assert Squared(x - center) == x * x - 2.0 * center * x + center * center;
    assert 2.0 * center * (sum + x) == 2.0 * center * sum + 2.0 * center * x;
    assert (n + 1.0) * (center * center) == n * (center * center) + center * center;
  }

  lemma {:induction false} DeviationsAsMoments(values: seq<real>, center: real)
    ensures SquaredDeviations(values, center) == FromMoments(SumOfSquares(values), Sum(values), |values| as real, center)
  {
    if values == [] {
      assert FromMoments(0.0, 0.0, 0.0, center) == 0.0;
    } else {
      hide FromMoments, Squared;
      var n, x := |values| - 1, values[|values| - 1];
      DeviationsAsMoments(values[..n], center);
      NextMoments(SumOfSquares(values[..n]), Sum(values[..n]), n as real, center, x);
    }
  }

  /** At the mean, the count times the squared deviations is the difference of the moments. */
  lemma AtTheMean(squares: real, sum: real, n: real, mean: real, deviations: real)
    requires n > 0.0 && mean * n == sum && deviations == FromMoments(squares, sum, n, mean)
    ensures deviations * n == Variation(n, sum, squares)
  {
    assert n * (mean * mean) == (mean * n) * mean == sum * mean;
    assert deviations == squares - mean * sum;
    assert (squares - mean * sum) * n == squares * n - (mean * n) * sum;
  }

  lemma DivideTwice(x: real, n: real, sum: real, squares: real)
    requires n > 1.0 && x * n == Variation(n, sum, squares)
    ensures x / (n - 1.0) / n == MomentError(n, sum, squares)
  {
    hide Variation;
    var q, y := x / (n - 1.0) / n, Variation(n, sum, squares);
    TimesCount(x, n - 1.0);
    TimesCount(x / (n - 1.0), n);
    assert q * n * (n - 1.0) == x;
    assert q * (n * n * (n - 1.0)) == q * n * (n - 1.0) * n == y;
    TimesCount(y, n * n * (n - 1.0));
    SameFactor(q, y / (n * n * (n - 1.0)), n * n * (n - 1.0));
  }

  lemma SameFactor(a: real, b: real, d: real)
    requires d != 0.0 && a * d == b * d
    ensures a == b
  {
    assert (a - b) * d == 0.0;
  }

  lemma DeviationsAtTheMean(values: seq<real>)
    requires values != []
    ensures SquaredDeviations(values, Mean(values)) * |values| as real ==
            Variation(|values| as real, Sum(values), SumOfSquares(values))
  {
    hide Sum, SumOfSquares, SquaredDeviations, Mean, FromMoments, Variation;
    MeanTimesCount(values);
    DeviationsAsMoments(values, Mean(values));
    AtTheMean(SumOfSquares(values), Sum(values), |values| as real, Mean(values), SquaredDeviations(values, Mean(values)));
  }

  lemma ErrorOfMoments(values: seq<real>)
    requires |values| > 1
    ensures SquaredError(values) == MomentError(|values| as real, Sum(values), SumOfSquares(values))
  {
    hide Sum, SumOfSquares, SquaredDeviations, Mean, MomentError, Variation;
    DeviationsAtTheMean(values);
    DivideTwice(SquaredDeviations(values, Mean(values)), |values| as real, Sum(values), SumOfSquares(values));
  }

  lemma MeanProduct(values: seq<real>)
    requires values != []
    ensures Product(Mean(values), |values| as real) == Sum(values)
  {
    MeanTimesCount(values);
  }

  /** What the reports compute is an estimate of the values. */
  lemma EstimateIs(values: seq<real>, l: Library)
    requires values != []
    ensures IsEstimate(values, l, EstimateOf(values, l))
  {
    hide Product, Mean, Sum, SumOfSquares, SquaredError, MomentError;
    MeanProduct(values);
    if |values| > 1 {
      ErrorOfMoments(values);
    }
  }

  lemma SameProduct(a: real, b: real, d: real)
    requires d != 0.0 && Product(a, d) == Product(b, d)
    ensures a == b
  {
    SameFactor(a, b, d);
  }

  lemma EstimateIsUnique(values: seq<real>, l: Library, e: Estimate, f: Estimate)
    requires IsEstimate(values, l, e) && IsEstimate(values, l, f)
    ensures e == f
  {
    hide Product, Sum, SumOfSquares, MomentError;
    SameProduct(e.mean, f.mean, |values| as real);
  }

  lemma EstimateMean(values: seq<real>, l: Library, e: Estimate)
    requires IsEstimate(values, l, e)
    ensures e.mean == Mean(values)
  {
    assert values != [];
    EstimateIs(values, l);
    EstimateIsUnique(values, l, e, EstimateOf(values, l));
    hide Mean, IsEstimate, SquaredError, Product;
  }

  // ---- what an interval says ---------------------------------------------------------------

  predicate AllEqual(values: seq<real>) {
    forall i, j :: 0 <= i < |values| && 0 <= j < |values| ==> values[i] == values[j]
  }

  lemma PositiveProduct(a: real, b: real)
    requires a > 0.0 && b > 0.0
    ensures a * b > 0.0
  {
  }

  lemma SignOfProduct(a: real, b: real)
    ensures (a > 0.0 && b > 0.0) || (a < 0.0 && b < 0.0) ==> Product(a, b) > 0.0
    ensures a == 0.0 ==> Product(a, b) == 0.0
  {
  }

  lemma SquareSign(x: real)
    ensures Squared(x) >= 0.0 && (Squared(x) == 0.0 <==> x == 0.0)
  {
    hide Product;
    SignOfProduct(x, x);
  }

  lemma {:induction false} DeviationsSign(values: seq<real>, center: real)
    ensures SquaredDeviations(values, center) >= 0.0
    ensures SquaredDeviations(values, center) == 0.0 <==> forall i :: 0 <= i < |values| ==> values[i] == center
  {
    if values != [] {
      var n := |values| - 1;
      DeviationsSign(values[..n], center);
      SquareSign(values[n] - center);
      hide Squared;
      assert values == values[..n] + [values[n]];
    }
  }

  lemma {:induction false} SumOfEqual(values: seq<real>, x: real)
    requires forall i :: 0 <= i < |values| ==> values[i] == x
    ensures Sum(values) == |values| as real * x
  {
    if values != [] {
      SumOfEqual(values[..|values| - 1], x);
      assert ((|values| - 1) as real + 1.0) * x == (|values| - 1) as real * x + x;
    }
  }

  lemma EqualIsMean(values: seq<real>)
    requires values != []
    ensures AllEqual(values) <==> forall i :: 0 <= i < |values| ==> values[i] == Mean(values)
  {
    if AllEqual(values) {
      var n := |values| as real;
      SumOfEqual(values, values[0]);
      MeanTimesCount(values);
      SameFactor(Mean(values), values[0], n);
    }
  }

  lemma NegativeProduct(q: real, n: real)
    requires q < 0.0 && n > 0.0
    ensures q * n < 0.0
  {
  }

  lemma QuotientSign(x: real, n: real)
    requires n > 0.0 && x >= 0.0
    ensures x / n >= 0.0 && (x / n == 0.0 <==> x == 0.0)
  {
    TimesCount(x, n);
    var q := x / n;
    if q < 0.0 {
      NegativeProduct(q, n);
    }
  }

  lemma ErrorSign(values: seq<real>)
    requires |values| > 1
    ensures SquaredError(values) >= 0.0 && (SquaredError(values) == 0.0 <==> AllEqual(values))
  {
    hide Sum, Mean, SquaredDeviations, AllEqual;
    var n := |values| as real;
    DeviationsSign(values, Mean(values));
    EqualIsMean(values);
    QuotientSign(SquaredDeviations(values, Mean(values)), n - 1.0);
    QuotientSign(SquaredDeviations(values, Mean(values)) / (n - 1.0), n);
  }

  lemma ProductSign(q: real, root: real, square: real)
    requires q > 0.0 && root >= 0.0 && Squared(root) == square
    ensures Product(q, root) >= 0.0 && (Product(q, root) == 0.0 <==> square == 0.0)
  {
    SquareSign(root);
    hide Squared;
    if root > 0.0 {
      SignOfProduct(q, root);
    } else {
      SignOfProduct(root, q);
      assert Product(q, root) == Product(root, q);
    }
  }

  /** An interval is never negative, and it is nought exactly when all values are equal, as a single value is. */
  lemma IntervalZeroExactlyWhen(values: seq<real>, l: Library, e: Estimate)
    requires IsLibrary(l) && IsEstimate(values, l, e)
    ensures e.interval >= 0.0
    ensures e.interval == 0.0 <==> AllEqual(values)
  {
    hide Product, Squared, Sum, SumOfSquares, MomentError, SquaredError, AllEqual;
    if |values| > 1 {
      ErrorOfMoments(values);
      ErrorSign(values);
      var x := SquaredError(values);
      RootOf(l, x);
      ProductSign(l.quantile(|values| - 1), l.root(x), x);
    } else {
      OneIsEqual(values);
    }
  }

  lemma OneIsEqual(values: seq<real>)
    requires |values| == 1
    ensures AllEqual(values)
  {
  }

  lemma RootOf(l: Library, x: real)
    requires IsLibrary(l) && x >= 0.0
    ensures l.root(x) >= 0.0 && Squared(l.root(x)) == x
  {
  }

  function Abs(x: real): real {
    if x < 0.0 then -x else x
  }

  lemma ErrorOfTwo(a: real, b: real)
    ensures MomentError(2.0, a + b, Squared(a) + Squared(b)) == Squared(Abs(a - b) / 2.0)
  {
    var h := Abs(a - b) / 2.0;
    assert h * h == (a - b) * (a - b) / 4.0;
    assert Variation(2.0, a + b, Squared(a) + Squared(b)) == (a - b) * (a - b);
  }

  lemma SumsOfTwo(a: real, b: real)
    ensures Sum([a, b]) == a + b && SumOfSquares([a, b]) == Squared(a) + Squared(b)
  {
    hide Squared;
    assert [a, b][..1] == [a] && [a][..0] == [];
    assert Sum([a]) == 0.0 + a && SumOfSquares([a]) == 0.0 + Squared(a);
  }

  /** Of two values the interval is half their distance times the quantile for one degree of freedom. */
  lemma IntervalOfTwo(a: real, b: real, l: Library, e: Estimate)
    requires IsLibrary(l) && IsEstimate([a, b], l, e)
    ensures e.mean + e.mean == a + b && e.interval == Product(l.quantile(1), Abs(a - b) / 2.0)
  {
    SumsOfTwo(a, b);
    ErrorOfTwo(a, b);
    var h := Abs(a - b) / 2.0;
    assert h >= 0.0 && Product(e.mean, 2.0) == e.mean + e.mean;
    hide Abs, MomentError, Sum, SumOfSquares, Product;
    SquareSign(h);
    RootOf(l, Squared(h));
    RootUnique(l.root(Squared(h)), h);
  }

  lemma RootUnique(a: real, b: real)
    requires a >= 0.0 && b >= 0.0 && Squared(a) == Squared(b)
    ensures a == b
  {
    SameRoot(a, b);
  }

  // ---- the order of the values -------------------------------------------------------------

  lemma {:induction false} SumsRemove(values: seq<real>, j: nat)
    requires j < |values|
    ensures var rest := values[..j] + values[j + 1..];
            && Sum(values) == Sum(rest) + values[j]
            && SumOfSquares(values) == SumOfSquares(rest) + Squared(values[j])
  {
    hide Squared;
    var n := |values| - 1;
    var rest := values[..j] + values[j + 1..];
    if j < n {
      SumsRemove(values[..n], j);
      assert rest[..|rest| - 1] == values[..n][..j] + values[..n][j + 1..];
      assert rest[|rest| - 1] == values[n];
    } else {
      assert rest == values[..n];
    }
  }

  lemma WithoutOne(values: seq<real>, j: nat)
    requires j < |values|
    ensures multiset(values) == multiset(values[..j] + values[j + 1..]) + multiset{values[j]}
  {
    assert values == values[..j] + [values[j]] + values[j + 1..];
  }

  lemma SameOthers(a: multiset<real>, b: multiset<real>, x: real)
    requires a + multiset{x} == b + multiset{x}
    ensures a == b
  {
    assert a == a + multiset{x} - multiset{x};
    assert b == b + multiset{x} - multiset{x};
  }

  lemma {:induction false} SumsOrderFree(a: seq<real>, b: seq<real>)
    requires multiset(a) == multiset(b)
    ensures |a| == |b| && Sum(a) == Sum(b) && SumOfSquares(a) == SumOfSquares(b)
  {
    assert |multiset(a)| == |a| && |multiset(b)| == |b|;
    if a != [] {
      hide Squared;
      var n := |a| - 1;
      WithoutOne(a, n);
      assert a[..n] + a[n + 1..] == a[..n];
      assert a[n] in multiset(b);
      var j :| 0 <= j < |b| && b[j] == a[n];
      WithoutOne(b, j);
      SameOthers(multiset(a[..n]), multiset(b[..j] + b[j + 1..]), a[n]);
      SumsOrderFree(a[..n], b[..j] + b[j + 1..]);
      SumsRemove(b, j);
    }
  }

  /** The order in which the runs were made does not matter. */
  lemma EstimateOrderFree(a: seq<real>, b: seq<real>, l: Library, e: Estimate)
    requires multiset(a) == multiset(b) && IsEstimate(a, l, e)
    ensures IsEstimate(b, l, e)
  {
    hide Sum, SumOfSquares, MomentError, Product;
    SumsOrderFree(a, b);
  }

  // ---- offset and factor -------------------------------------------------------------------

  function Affine(x: real, offset: real, factor: real): real {
    (x - offset) * factor
  }

  /** The values less an offset, times a factor. */
  function Scaled(values: seq<real>, offset: real, factor: real): (scaled: seq<real>)
    ensures |scaled| == |values| && forall i :: 0 <= i < |values| ==> scaled[i] == Affine(values[i], offset, factor)
  {
    if values == [] then []
    else Scaled(values[..|values| - 1], offset, factor) + [Affine(values[|values| - 1], offset, factor)]
  }

  /** The sum of `k` values with sum `s`, scaled. */
  function ScaledSum(s: real, k: real, offset: real, factor: real): real {
    (s - k * offset) * factor
  }

  lemma Distribute(s: real, k: real, x: real, offset: real, factor: real)
    ensures ScaledSum(s, k, offset, factor) + Affine(x, offset, factor) == ScaledSum(s + x, k + 1.0, offset, factor)
  {
    var a, b := s - k * offset, x - offset;
    assert (k + 1.0) * offset == k * offset + offset;
    assert a * factor + b * factor == (a + b) * factor;
  }

  lemma {:induction false} SumScaled(values: seq<real>, offset: real, factor: real)
    ensures Sum(Scaled(values, offset, factor)) == ScaledSum(Sum(values), |values| as real, offset, factor)
  {
    if values == [] {
      assert ScaledSum(0.0, 0.0, offset, factor) == 0.0;
    } else {
      hide Affine, ScaledSum;
      var n := |values| - 1;
      SumScaled(values[..n], offset, factor);
      Distribute(Sum(values[..n]), n as real, values[n], offset, factor);
      var before := Scaled(values[..n], offset, factor);
      assert (before + [Affine(values[n], offset, factor)])[..n] == before;
    }
  }

  lemma DivideOut(total: real, n: real, offset: real, factor: real)
    requires n != 0.0
    ensures ((total - n * offset) * factor) / n == (total / n - offset) * factor
  {
    var mean := total / n;
    assert total == mean * n;
    var x := (mean - offset) * factor;
    assert (total - n * offset) * factor == x * n;
    assert (x * n) / n == x;
  }

  /** The mean commutes with the affine map. */
  lemma {:induction false} MeanScaled(values: seq<real>, offset: real, factor: real)
    requires values != []
    ensures Mean(Scaled(values, offset, factor)) == (Mean(values) - offset) * factor
  {
    hide Affine, Scaled;
    SumScaled(values, offset, factor);
    assert ScaledSum(Sum(values), |values| as real, offset, factor) == (Sum(values) - |values| as real * offset) * factor;
    hide ScaledSum;
    DivideOut(Sum(values), |values| as real, offset, factor);
  }

  lemma SquareScaled(x: real, center: real, offset: real, factor: real)
    ensures Squared(Affine(x, offset, factor) - Affine(center, offset, factor)) ==
            Product(Squared(factor), Squared(x - center))
  {
    var d := x - center;
    assert Affine(x, offset, factor) - Affine(center, offset, factor) == d * factor;
    assert (d * factor) * (d * factor) == (factor * factor) * (d * d);
  }

  lemma ProductOfSum(a: real, b: real, d: real)
    ensures Product(a, b + d) == Product(a, b) + Product(a, d) && Product(a, 0.0) == 0.0
  {
  }

  lemma {:induction false} DeviationsScaled(values: seq<real>, center: real, offset: real, factor: real)
    ensures SquaredDeviations(Scaled(values, offset, factor), Affine(center, offset, factor)) ==
            Product(Squared(factor), SquaredDeviations(values, center))
  {
    hide Affine, Squared, Product;
    if values == [] {
      ProductOfSum(Squared(factor), 0.0, 0.0);
    } else {
      var n := |values| - 1;
      var before := Scaled(values[..n], offset, factor);
      DeviationsScaled(values[..n], center, offset, factor);
      assert (before + [Affine(values[n], offset, factor)])[..n] == before;
      SquareScaled(values[n], center, offset, factor);
      ProductOfSum(Squared(factor), SquaredDeviations(values[..n], center), Squared(values[n] - center));
    }
  }

  lemma DivideScaled(k: real, x: real, n: real)
    requires n != 0.0
    ensures Product(k, x) / n == Product(k, x / n)
  {
    TimesCount(k * x, n);
    TimesCount(x, n);
    assert (k * (x / n)) * n == k * ((x / n) * n);
    SameFactor((k * x) / n, k * (x / n), n);
  }

  lemma MeanIsAffine(values: seq<real>, offset: real, factor: real)
    requires values != []
    ensures Mean(Scaled(values, offset, factor)) == Affine(Mean(values), offset, factor)
  {
    MeanScaled(values, offset, factor);
  }

  lemma ErrorScaled(values: seq<real>, offset: real, factor: real)
    requires |values| > 1
    ensures SquaredError(Scaled(values, offset, factor)) == Product(Squared(factor), SquaredError(values))
  {
    hide Mean, SquaredDeviations, Affine, Squared, Product;
    var n, mean := |values| as real, Mean(values);
    MeanIsAffine(values, offset, factor);
    DeviationsScaled(values, mean, offset, factor);
    var deviations := SquaredDeviations(values, mean);
    DivideScaled(Squared(factor), deviations, n - 1.0);
    DivideScaled(Squared(factor), deviations / (n - 1.0), n);
  }

  lemma SquareGrows(a: real, b: real)
    requires 0.0 <= a < b
    ensures a * a < b * b
  {
    PositiveProduct(b - a, b + a);
    assert (b - a) * (b + a) == b * b - a * a;
  }

  lemma SameRoot(a: real, b: real)
    requires a >= 0.0 && b >= 0.0 && a * a == b * b
    ensures a == b
  {
    if a < b {
      SquareGrows(a, b);
    } else if b < a {
      SquareGrows(b, a);
    }
  }

  lemma ScaledRoot(factor: real, root: real, x: real)
    requires root >= 0.0 && root * root == x
    ensures Product(Abs(factor), root) >= 0.0
    ensures Product(Abs(factor), root) * Product(Abs(factor), root) == Product(Squared(factor), x)
  {
    var size := Abs(factor);
    assert size * size == factor * factor;
    assert (size * root) * (size * root) == (size * size) * (root * root);
  }

  lemma RootScaled(l: Library, factor: real, x: real)
    requires IsLibrary(l) && x >= 0.0
    ensures l.root(Product(Squared(factor), x)) == Product(Abs(factor), l.root(x))
  {
    hide Product, Squared, Abs;
    ScaledRoot(factor, l.root(x), x);
    var y, root := Product(Squared(factor), x), Product(Abs(factor), l.root(x));
    NonNegativeSquare(root, y);
    SameRoot(l.root(y), root);
  }

  lemma NonNegativeSquare(root: real, y: real)
    requires root * root == y
    ensures y >= 0.0
  {
    SquareSign(root);
  }

  lemma Exchange(a: real, b: real, d: real)
    ensures Product(a, Product(b, d)) == Product(b, Product(a, d))
  {
    assert a * (b * d) == b * (a * d);
  }

  lemma IntervalScaled(values: seq<real>, offset: real, factor: real, l: Library)
    requires IsLibrary(l) && values != []
    ensures EstimateOf(Scaled(values, offset, factor), l).interval == Product(Abs(factor), EstimateOf(values, l).interval)
  {
    hide Sum, Mean, SquaredError, Squared, Abs, AllEqual, Product;
    if |values| > 1 {
      ErrorScaled(values, offset, factor);
      ErrorSign(values);
      RootScaled(l, factor, SquaredError(values));
      var quantile, root := l.quantile(|values| - 1), l.root(SquaredError(values));
      Exchange(quantile, Abs(factor), root);
    } else {
      ProductOfSum(Abs(factor), 0.0, 0.0);
    }
  }

  /** An offset moves the mean and leaves the interval; a factor scales the mean, and the interval by its size. */
  lemma EstimateScaled(values: seq<real>, offset: real, factor: real, l: Library, e: Estimate, scaled: Estimate)
    requires IsLibrary(l) && IsEstimate(values, l, e) && IsEstimate(Scaled(values, offset, factor), l, scaled)
    ensures scaled.mean == Affine(e.mean, offset, factor) && scaled.interval == Product(Abs(factor), e.interval)
  {
    assert values != [];
    hide IsEstimate, Affine, Product, Mean, SquaredError, Abs;
    var own, other := EstimateOf(values, l), EstimateOf(Scaled(values, offset, factor), l);
    EstimateIs(values, l);
    EstimateIs(Scaled(values, offset, factor), l);
    EstimateIsUnique(values, l, e, own);
    EstimateIsUnique(Scaled(values, offset, factor), l, scaled, other);
    MeanIsAffine(values, offset, factor);
    IntervalScaled(values, offset, factor, l);
  }
}
