/** Tick positions of the full-schema charts, over real numbers. */
module AxisTicks {
  import opened Wrappers
  import opened BenchmarkText

  // ---- powers of ten -----------------------------------------------------------------------

  function Pow10(e: int): (p: real)
    ensures p > 0.0
    decreases if e >= 0 then e else -e
  {
    if e == 0 then 1.0 else if e > 0 then 10.0 * Pow10(e - 1) else Pow10(e + 1) / 10.0
  }

  lemma {:induction false} Pow10Next(e: int)
    ensures Pow10(e + 1) == 10.0 * Pow10(e)
  {
  }

  lemma {:induction false} Pow10Grows(e: int, f: int)
    requires e <= f
    ensures Pow10(e) <= Pow10(f)
    ensures e < f ==> 10.0 * Pow10(e) <= Pow10(f)
    decreases f - e
  {
    if e < f {
      Pow10Next(e);
      Pow10Grows(e + 1, f);
    }
  }

  /** The exponent of the leading digit: floor(log10(x)). */
  ghost predicate IsFloorLog(x: real, e: int) {
    Pow10(e) <= x < Pow10(e + 1)
  }

  /** ceil(log10(x)). */
  ghost predicate IsCeilLog(x: real, e: int) {
    Pow10(e - 1) < x <= Pow10(e)
  }

  lemma FloorLogUnique(x: real, e: int, f: int)
    requires IsFloorLog(x, e) && IsFloorLog(x, f)
    ensures e == f
  {
    if e < f {
      Pow10Grows(e + 1, f);
    } else if f < e {
      Pow10Grows(f + 1, e);
    }
  }

  /** How far a number is from having a single digit before the point. */
  function Distance(x: real): int
    requires x > 0.0
  {
    if x >= 10.0 then x.Floor else if x >= 1.0 then 0 else (1.0 / x).Floor + 1
  }

  /** Dividing or multiplying by ten until a single digit is left before the point. */
  function FloorLog10(x: real): (e: int)
    requires x > 0.0
    ensures IsFloorLog(x, e)
    decreases Distance(x)
  {
    if x >= 10.0 then
      Smaller(x);
      var e := FloorLog10(x / 10.0);
      Pow10Next(e);
      Pow10Next(e + 1);
      e + 1
    else if x < 1.0 then
      Larger(x);
      var e := FloorLog10(x * 10.0);
      Pow10Next(e);
      Pow10Next(e - 1);
      e - 1
    else
      assert Pow10(0) == 1.0 && Pow10(1) == 10.0;
      0
  }

  lemma Smaller(x: real)
    requires x >= 10.0
    ensures 1.0 <= x / 10.0 && 0 <= Distance(x / 10.0) < Distance(x)
  {
  }

  lemma Larger(x: real)
    requires 0.0 < x < 1.0
    ensures 0.0 < x * 10.0 && 0 <= Distance(x * 10.0) < Distance(x)
  {
  }

  function CeilLog10(x: real): (e: int)
    requires x > 0.0
    ensures IsCeilLog(x, e)
  {
    var e := FloorLog10(x);
    Pow10Next(e - 1);
    if Pow10(e) == x then e else e + 1
  }

  // ---- linear ticks ------------------------------------------------------------------------

  const LINEAR_STEP_MANTISSAS: seq<real> := [1.0, 2.0, 2.5, 5.0, 10.0]

  lemma DivideBy(x: real, d: real)
    requires d > 0.0
    ensures (x / d) * d == x
  {
  }

  lemma Scale(a: real, b: real, d: real)
    requires d > 0.0
    ensures a <= b ==> a * d <= b * d
    ensures a < b ==> a * d < b * d
  {
  }

  lemma Cancel(a: real, b: real, d: real)
    requires d > 0.0
    ensures a * d == b * d ==> a == b
    ensures a * d <= b * d ==> a <= b
    ensures a * d < b * d ==> a < b
  {
    if a > b {
      Scale(b, a, d);
    } else if a < b {
      Scale(a, b, d);
    }
  }

  lemma SameOrder(a: real, b: real, d: real)
    requires d > 0.0
    ensures a <= b <==> a * d <= b * d
  {
    Scale(a, b, d);
    Cancel(a, b, d);
  }

  lemma Normalized(x: real, magnitude: real, n: real)
    requires magnitude > 0.0 && n == x / magnitude && magnitude <= x < 10.0 * magnitude
    ensures n * magnitude == x && 1.0 <= n < 10.0
  {
    DivideBy(x, magnitude);
    if n < 1.0 {
      Scale(n, 1.0, magnitude);
    } else if n >= 10.0 {
      Scale(10.0, n, magnitude);
    }
  }

  lemma StepBounds(x: real, magnitude: real, n: real, mantissa: real)
    requires magnitude > 0.0 && n * magnitude == x && n <= mantissa < 2.0 * n
    ensures x <= mantissa * magnitude < 2.0 * x
  {
  }

  /** One, two, two and a half, five or ten times a power of ten. */
  ghost predicate NiceAt(x: real, e: int) {
    x == 1.0 * Pow10(e) || x == 2.0 * Pow10(e) || x == 2.5 * Pow10(e) || x == 5.0 * Pow10(e) || x == 10.0 * Pow10(e)
  }

  ghost predicate IsNice(x: real) {
    exists e :: NiceAt(x, e)
  }

  /** The least nice value that is not below a minimum. */
  ghost predicate IsLeastNice(minimum: real, step: real) {
    IsNice(step) && minimum <= step && forall x :: IsNice(x) && minimum <= x ==> step <= x
  }

  lemma LeastNiceIsUnique(minimum: real, step: real, other: real)
    requires IsLeastNice(minimum, step) && IsLeastNice(minimum, other)
    ensures step == other
  {
  }

  ghost predicate IsMantissa(a: real) {
    a == 1.0 || a == 2.0 || a == 2.5 || a == 5.0 || a == 10.0
  }

  /** A mantissa times a power of ten. */
  function Shifted(a: real, e: int): real {
    a * Pow10(e)
  }

  lemma PositivePower(e: int)
    ensures Pow10(e) > 0.0 && Shifted(1.0, e) == Pow10(e)
  {
  }

  lemma ShiftedOrder(a: real, b: real, e: int)
    ensures a <= b ==> Shifted(a, e) <= Shifted(b, e)
    ensures a < b ==> Shifted(a, e) < Shifted(b, e)
  {
    PositivePower(e);
    hide Pow10;
    Scale(a, b, Pow10(e));
  }

  lemma NiceIsMantissa(x: real, e: int) returns (b: real)
    requires NiceAt(x, e)
    ensures IsMantissa(b) && x == Shifted(b, e)
  {
    hide Pow10;
    var p := Pow10(e);
    b := if x == 1.0 * p then 1.0 else if x == 2.0 * p then 2.0 else if x == 2.5 * p then 2.5
         else if x == 5.0 * p then 5.0 else 10.0;
  }

  lemma MantissaIsNice(a: real, e: int)
    requires IsMantissa(a)
    ensures NiceAt(Shifted(a, e), e)
  {
    hide Pow10;
  }

  lemma TenIsNext(e: int)
    ensures Shifted(10.0, e) == Pow10(e + 1)
  {
    Pow10Next(e);
    hide Pow10;
  }

  lemma MantissaRange(a: real)
    requires IsMantissa(a)
    ensures 1.0 <= a <= 10.0
  {
  }

  /** Values of a larger exponent are not below any of this one. */
  lemma LargerExponent(a: real, b: real, f: int, e: int)
    requires IsMantissa(a) && IsMantissa(b) && f < e
    ensures Shifted(a, f) <= Shifted(b, e)
  {
    hide Shifted, Pow10, IsMantissa;
    MantissaRange(a);
    MantissaRange(b);
    ShiftedOrder(a, 10.0, f);
    TenIsNext(f);
    Pow10Grows(f + 1, e);
    PositivePower(e);
    ShiftedOrder(1.0, b, e);
  }

  lemma NoSmallerNice(minimum: real, a: real, f: int, x: real, e: int)
    requires IsMantissa(a) && Pow10(f) <= minimum <= x && NiceAt(x, e)
    requires forall b :: IsMantissa(b) && minimum <= Shifted(b, f) ==> a <= b
    ensures Shifted(a, f) <= x
  {
    hide Shifted, Pow10, NiceAt;
    var b := NiceIsMantissa(x, e);
    if e < f {
      LargerExponent(b, 1.0, e, f);
      PositivePower(f);
      assert minimum <= Shifted(1.0, f);
      ShiftedOrder(a, 1.0, f);
    } else if e == f {
      ShiftedOrder(a, b, f);
    } else {
      LargerExponent(a, b, f, e);
    }
  }

  /** With the least mantissa that reaches the minimum, the value is the least nice one. */
  lemma LeastMantissa(minimum: real, a: real, f: int)
    requires IsMantissa(a) && Pow10(f) <= minimum <= Shifted(a, f)
    requires forall b :: IsMantissa(b) && minimum <= Shifted(b, f) ==> a <= b
    ensures IsLeastNice(minimum, Shifted(a, f))
  {
    hide Pow10, IsMantissa, NiceAt, Shifted;
    MantissaIsNice(a, f);
    forall x | IsNice(x) && minimum <= x
      ensures Shifted(a, f) <= x
    {
      var e :| NiceAt(x, e);
      NoSmallerNice(minimum, a, f, x, e);
    }
  }

  lemma ListedMantissas(b: real, k: nat)
    requires IsMantissa(b) && k < |LINEAR_STEP_MANTISSAS|
    ensures LINEAR_STEP_MANTISSAS[k] <= b || (k > 0 && b <= LINEAR_STEP_MANTISSAS[k - 1])
  {
  }

  lemma ListedMantissa(k: nat)
    requires k < |LINEAR_STEP_MANTISSAS|
    ensures IsMantissa(LINEAR_STEP_MANTISSAS[k])
  {
  }

  /** The first mantissa of the list that reaches the normalized step gives the least nice value. */
  lemma FirstIsLeast(minimum: real, exponent: int, normalized: real, n: nat)
    requires n < |LINEAR_STEP_MANTISSAS| && (n > 0 ==> LINEAR_STEP_MANTISSAS[n - 1] < normalized)
    requires Shifted(normalized, exponent) == minimum && Pow10(exponent) <= minimum
    requires minimum <= Shifted(LINEAR_STEP_MANTISSAS[n], exponent)
    ensures IsLeastNice(minimum, Shifted(LINEAR_STEP_MANTISSAS[n], exponent))
  {
    hide Pow10, Shifted, IsMantissa, IsLeastNice;
    ListedMantissa(n);
    var mantissa := LINEAR_STEP_MANTISSAS[n];
    forall b | IsMantissa(b) && minimum <= Shifted(b, exponent)
      ensures mantissa <= b
    {
      ListedMantissas(b, n);
      ShiftedOrder(b, normalized, exponent);
    }
    LeastMantissa(minimum, mantissa, exponent);
  }

  lemma NormalizedStep(minimum: real, exponent: int, normalized: real)
    requires minimum > 0.0 && IsFloorLog(minimum, exponent) && Pow10(exponent) > 0.0
    requires normalized == minimum / Pow10(exponent)
    ensures Shifted(normalized, exponent) == minimum && 1.0 <= normalized < 10.0
  {
    Pow10Next(exponent);
    var magnitude := Pow10(exponent);
    hide Pow10;
    Normalized(minimum, magnitude, normalized);
  }

  /** A mantissa that reaches the normalized step: the step it gives, and how far from the minimum it can be. */
  lemma Reaching(minimum: real, exponent: int, normalized: real, n: nat)
    requires n < |LINEAR_STEP_MANTISSAS| && (n > 0 ==> LINEAR_STEP_MANTISSAS[n - 1] < normalized)
    requires Shifted(normalized, exponent) == minimum && 1.0 <= normalized <= LINEAR_STEP_MANTISSAS[n]
    ensures var step := Shifted(LINEAR_STEP_MANTISSAS[n], exponent);
            IsLeastNice(minimum, step) && minimum <= step < 2.0 * minimum
  {
    hide Pow10, IsLeastNice;
    PositivePower(exponent);
    StepBounds(minimum, Pow10(exponent), normalized, LINEAR_STEP_MANTISSAS[n]);
    ShiftedOrder(1.0, normalized, exponent);
    assert Shifted(LINEAR_STEP_MANTISSAS[n], exponent) == LINEAR_STEP_MANTISSAS[n] * Pow10(exponent);
    hide Shifted;
    FirstIsLeast(minimum, exponent, normalized, n);
  }

  /** The step chosen for a minimum step: for a positive minimum it is always found, it is the least nice value that
      is not below the minimum, and it is less than twice the minimum. */
  method NiceLinearStep(minimumStep: real) returns (step: Result<real, Failure>)
    ensures minimumStep > 0.0 ==>
              step.Ok? && IsLeastNice(minimumStep, step.value) && minimumStep <= step.value < 2.0 * minimumStep
    ensures minimumStep <= 0.0 ==> step == Err(ValueError)
  {
    if minimumStep <= 0.0 {
      return Err(ValueError);
    }
    hide IsLeastNice, Pow10, Shifted;
    var exponent := FloorLog10(minimumStep);
    var normalizedStep := minimumStep / Pow10(exponent);
    NormalizedStep(minimumStep, exponent, normalizedStep);
    for n := 0 to |LINEAR_STEP_MANTISSAS|
      invariant n > 0 ==> LINEAR_STEP_MANTISSAS[n - 1] < normalizedStep
    {
      var mantissa := LINEAR_STEP_MANTISSAS[n];
      if mantissa >= normalizedStep {
        Reaching(minimumStep, exponent, normalizedStep, n);
        return Ok(Shifted(mantissa, exponent));
      }
    }
    assert false;
  }

  function Ceil(x: real): int {
    -(-x).Floor
  }

  /** The axis as far as ticks need it: its height and the spacing of labels, in display units. */
  datatype Axis = Axis(height: real, spacing: real)

  /** Display units per unit of the axis. */
  function PerUnit(axis: Axis, range: real): real
    requires range > 0.0
  {
    axis.height / range
  }

  /** Where a value is drawn on a linear axis. */
  function Position(axis: Axis, lower: real, upper: real, value: real): real
    requires lower < upper
  {
    (value - lower) * PerUnit(axis, upper - lower)
  }

  /** The bounds are drawn at the ends of the axis. */
  lemma BoundsAtEnds(axis: Axis, lower: real, upper: real)
    requires lower < upper
    ensures Position(axis, lower, upper, lower) == 0.0 && Position(axis, lower, upper, upper) == axis.height
  {
    var range := upper - lower;
    assert axis.height / range * range == axis.height;
  }

  /** The smallest step that leaves room for the labels. */
  function MinimumStep(axis: Axis, range: real): real
    requires axis.height > 0.0
  {
    range * axis.spacing / axis.height
  }

  function Multiple(step: real, k: int): real {
    k as real * step
  }

  /** The multiples of the step from one index to another. */
  function Multiples(step: real, first: int, last: int): (ticks: seq<real>)
    ensures |ticks| == if last < first then 0 else last - first + 1
    ensures forall k :: 0 <= k < |ticks| ==> ticks[k] == Multiple(step, first + k)
  {
    seq(if last < first then 0 else last - first + 1, k requires 0 <= k => Multiple(step, first + k))
  }

  /** The ticks of a linear axis; one whose bounds are not in order has no logarithm to take. */
  method LinearTicks(axis: Axis, lower: real, upper: real) returns (ticks: Result<seq<real>, Failure>, ghost step: real)
    requires axis.height > 0.0 && axis.spacing > 0.0
    ensures lower >= upper ==> ticks == Err(ValueError)
    ensures lower < upper ==>
              && 0.0 < MinimumStep(axis, upper - lower) <= step < 2.0 * MinimumStep(axis, upper - lower)
              && IsLeastNice(MinimumStep(axis, upper - lower), step)
              && ticks == Ok(TicksBetween(lower, upper, step))
  {
    var visibleRange := upper - lower;
    var minimumStep := MinimumStep(axis, visibleRange);
    SameSign(visibleRange, axis);
    hide MinimumStep, IsLeastNice;
    var found := NiceLinearStep(minimumStep);
    if found.Err? {
      return Err(found.error), 0.0;
    }
    step := found.value;
    var firstMultiple := Ceil(lower / found.value);
    var lastMultiple := (upper / found.value).Floor;
    ticks := Ok(Multiples(found.value, firstMultiple, lastMultiple));
  }

  lemma SameSign(range: real, axis: Axis)
    requires axis.height > 0.0 && axis.spacing > 0.0
    ensures MinimumStep(axis, range) > 0.0 <==> range > 0.0
  {
  }

  lemma RoundingBounds(q: real, k: int)
    ensures k <= q.Floor <==> k as real <= q
    ensures Ceil(q) <= k <==> q <= k as real
  {
  }

  lemma FloorOfQuotient(x: real, step: real, k: int)
    requires step > 0.0
    ensures k <= (x / step).Floor <==> Multiple(step, k) <= x
    ensures Ceil(x / step) <= k <==> x <= Multiple(step, k)
  {
    DivideBy(x, step);
    var q := x / step;
    RoundingBounds(q, k);
    SameOrder(k as real, q, step);
    SameOrder(q, k as real, step);
    hide Ceil;
  }

  /** The ticks between two bounds. */
  function TicksBetween(lower: real, upper: real, step: real): seq<real>
    requires step > 0.0
  {
    Multiples(step, Ceil(lower / step), (upper / step).Floor)
  }

  lemma SameMultiple(k: int, n: int, step: real)
    requires step > 0.0 && Multiple(step, k) == Multiple(step, n)
    ensures k == n
  {
    Scale(k as real, n as real, step);
    Scale(n as real, k as real, step);
  }

  /** The ticks are exactly the multiples of the step inside the bounds. */
  lemma TicksAreTheMultiples(lower: real, upper: real, step: real, k: int)
    requires step > 0.0
    ensures Multiple(step, k) in TicksBetween(lower, upper, step) <==> lower <= Multiple(step, k) <= upper
  {
    FloorOfQuotient(upper, step, k);
    FloorOfQuotient(lower, step, k);
    hide Multiple;
    var first, last, ticks := Ceil(lower / step), (upper / step).Floor, TicksBetween(lower, upper, step);
    if first <= k <= last {
      assert ticks[k - first] == Multiple(step, k);
    }
    if i :| 0 <= i < |ticks| && ticks[i] == Multiple(step, k) {
      SameMultiple(first + i, k, step);
    }
  }

  /** How far apart two values are drawn. */
  function Gap(axis: Axis, lower: real, upper: real, x: real, y: real): real
    requires lower < upper
  {
    Position(axis, lower, upper, y) - Position(axis, lower, upper, x)
  }

  lemma Regroup(a: real, b: real, d: real)
    ensures (a * b) * d == a * (b * d) == (a * d) * b
  {
  }

  lemma Distribute(a: real, b: real, d: real)
    ensures (a - b) * d == a * d - b * d
    ensures (a + b) * d == a * d + b * d
  {
  }

  /** A range at the minimum step is drawn exactly the label spacing wide. */
  lemma MinimumIsSpacing(axis: Axis, range: real)
    requires range > 0.0 && axis.height > 0.0
    ensures MinimumStep(axis, range) * PerUnit(axis, range) == axis.spacing
    ensures PerUnit(axis, range) * range == axis.height
  {
    var least, unit := MinimumStep(axis, range), PerUnit(axis, range);
    DivideBy(range * axis.spacing, axis.height);
    DivideBy(axis.height, range);
    hide MinimumStep, PerUnit;
    Regroup(least, unit, range);
    assert (least * unit) * range == least * axis.height == axis.spacing * range;
    Cancel(least * unit, axis.spacing, range);
  }

  lemma GapOfDistance(axis: Axis, lower: real, upper: real, x: real, y: real)
    requires lower < upper
    ensures Gap(axis, lower, upper, x, y) == (y - x) * PerUnit(axis, upper - lower)
  {
    var unit := PerUnit(axis, upper - lower);
    hide PerUnit;
    Distribute(y - lower, x - lower, unit);
    assert (y - lower) - (x - lower) == y - x;
  }

  lemma NextMultiple(step: real, k: int)
    ensures Multiple(step, k + 1) - Multiple(step, k) == step
  {
    Distribute((k + 1) as real, k as real, step);
  }

  lemma PerUnitPositive(axis: Axis, range: real)
    requires range > 0.0 && axis.height > 0.0
    ensures PerUnit(axis, range) > 0.0
  {
    MinimumIsSpacing(axis, range);
    var unit := PerUnit(axis, range);
    hide PerUnit, MinimumStep;
    if unit <= 0.0 {
      Scale(unit, 0.0, range);
    }
  }

  lemma NeighbourGap(axis: Axis, lower: real, upper: real, step: real, k: int)
    requires lower < upper && axis.height > 0.0 && axis.spacing > 0.0
    requires MinimumStep(axis, upper - lower) <= step < 2.0 * MinimumStep(axis, upper - lower)
    ensures axis.spacing <= Gap(axis, lower, upper, Multiple(step, k), Multiple(step, k + 1)) < 2.0 * axis.spacing
  {
    GapOfDistance(axis, lower, upper, Multiple(step, k), Multiple(step, k + 1));
    NextMultiple(step, k);
    var least, unit := MinimumStep(axis, upper - lower), PerUnit(axis, upper - lower);
    MinimumIsSpacing(axis, upper - lower);
    PerUnitPositive(axis, upper - lower);
    hide Gap, Multiple, MinimumStep, PerUnit;
    Scale(least, step, unit);
    Scale(step, 2.0 * least, unit);
    assert (2.0 * least) * unit == 2.0 * (least * unit);
  }

  /** Neighbouring ticks are drawn at least the label spacing apart, and less than twice that. */
  lemma TicksAreReadable(axis: Axis, lower: real, upper: real, step: real)
    requires lower < upper && axis.height > 0.0 && axis.spacing > 0.0 && step > 0.0
    requires MinimumStep(axis, upper - lower) <= step < 2.0 * MinimumStep(axis, upper - lower)
    ensures var ticks := TicksBetween(lower, upper, step);
            forall k :: 0 <= k < |ticks| - 1 ==>
              axis.spacing <= Gap(axis, lower, upper, ticks[k], ticks[k + 1]) < 2.0 * axis.spacing
  {
    hide Gap, MinimumStep, Multiple;
    var ticks, first := TicksBetween(lower, upper, step), Ceil(lower / step);
    forall k | 0 <= k < |ticks| - 1
      ensures axis.spacing <= Gap(axis, lower, upper, ticks[k], ticks[k + 1]) < 2.0 * axis.spacing
    {
      NeighbourGap(axis, lower, upper, step, first + k);
    }
  }

  // ---- number of ticks ---------------------------------------------------------------------

  lemma FloorBounds(x: real)
    ensures x.Floor as real <= x < x.Floor as real + 1.0
    ensures x <= Ceil(x) as real < x + 1.0
  {
  }

  lemma Difference(lower: real, upper: real, step: real)
    requires step > 0.0
    ensures upper / step - lower / step == (upper - lower) / step
  {
  }

  /** With the least step, the range holds as many steps as the height holds labels. */
  lemma LeastStepCount(axis: Axis, range: real)
    requires range > 0.0 && axis.height > 0.0 && axis.spacing > 0.0
    ensures MinimumStep(axis, range) > 0.0
    ensures (axis.height / axis.spacing) * MinimumStep(axis, range) == range
  {
    SameSign(range, axis);
    var least, count := MinimumStep(axis, range), axis.height / axis.spacing;
    DivideBy(range * axis.spacing, axis.height);
    DivideBy(axis.height, axis.spacing);
    assert least * axis.height == range * axis.spacing && count * axis.spacing == axis.height;
    hide MinimumStep;
    Regroup(count, least, axis.spacing);
    assert (count * least) * axis.spacing == axis.height * least == range * axis.spacing;
    Cancel(count * least, range, axis.spacing);
  }

  lemma HalfOf(x: real, d: real)
    requires d > 0.0
    ensures 2.0 * (x / (2.0 * d)) == x / d
  {
    DivideBy(x, d);
    DivideBy(x, 2.0 * d);
    var half := x / (2.0 * d);
    Regroup(2.0, half, d);
    assert (2.0 * half) * d == (2.0 * d) * half == (x / d) * d;
    Cancel(2.0 * half, x / d, d);
  }

  lemma FewerLargerSteps(count: real, least: real, quotient: real, step: real)
    requires count > 0.0 && 0.0 < least <= step && count * least == quotient * step
    ensures quotient <= count
  {
    Scale(least, step, count);
    Cancel(quotient, count, step);
  }

  lemma MoreSmallerSteps(half: real, least: real, quotient: real, step: real)
    requires half > 0.0 && 0.0 < step < 2.0 * least && (2.0 * half) * least == quotient * step
    ensures half < quotient
  {
    Scale(step, 2.0 * least, half);
    Regroup(2.0, least, half);
    Regroup(2.0, half, least);
    assert (2.0 * least) * half == (2.0 * half) * least == quotient * step;
    Cancel(half, quotient, step);
  }

  lemma PositiveFactor(count: real, least: real)
    requires least > 0.0 && count * least > 0.0
    ensures count > 0.0
  {
    if count <= 0.0 {
      Scale(count, 0.0, least);
    }
  }

  lemma RangeOverStep(axis: Axis, range: real, step: real)
    requires range > 0.0 && axis.height > 0.0 && axis.spacing > 0.0
    requires MinimumStep(axis, range) <= step < 2.0 * MinimumStep(axis, range)
    ensures step > 0.0
    ensures axis.height / (2.0 * axis.spacing) < range / step <= axis.height / axis.spacing
  {
    LeastStepCount(axis, range);
    HalfOf(axis.height, axis.spacing);
    var least, count, half := MinimumStep(axis, range), axis.height / axis.spacing, axis.height / (2.0 * axis.spacing);
    hide MinimumStep;
    DivideBy(range, step);
    var quotient := range / step;
    PositiveFactor(count, least);
    FewerLargerSteps(count, least, quotient, step);
    MoreSmallerSteps(half, least, quotient, step);
  }

  /** The number of ticks is bounded on both sides by the axis height over the label spacing. */
  lemma TickCount(axis: Axis, lower: real, upper: real, step: real)
    requires lower < upper && axis.height > 0.0 && axis.spacing > 0.0
    requires MinimumStep(axis, upper - lower) <= step < 2.0 * MinimumStep(axis, upper - lower)
    ensures step > 0.0
    ensures var count := |TicksBetween(lower, upper, step)| as real;
            axis.height / (2.0 * axis.spacing) - 1.0 < count <= axis.height / axis.spacing + 1.0
  {
    RangeOverStep(axis, upper - lower, step);
    hide MinimumStep;
    Difference(lower, upper, step);
    FloorBounds(upper / step);
    FloorBounds(lower / step);
    DivideBy(axis.height, axis.spacing);
    if axis.height / axis.spacing <= 0.0 {
      Scale(axis.height / axis.spacing, 0.0, axis.spacing);
    }
  }

  // ---- logarithmic ticks -------------------------------------------------------------------

  const LOGARITHMIC_MANTISSA_TIERS: seq<seq<real>> := [
    [1.0],
    [1.0, 3.0],
    [1.0, 2.0, 5.0],
    [1.0, 1.5, 2.0, 3.0, 5.0, 7.0],
    [1.0, 1.25, 1.5, 2.0, 2.5, 3.0, 4.0, 5.0, 6.0, 8.0],
    [1.0, 1.25, 1.5, 2.0, 2.5, 3.0, 3.5, 4.0, 4.5, 5.0, 5.5, 6.0, 6.5, 7.0, 7.5, 8.0],
    [1.0, 1.25, 1.5, 2.0, 2.5, 3.0, 3.5, 4.0, 4.5, 5.0, 5.5, 6.0, 6.5, 7.0, 7.5, 8.0, 8.5, 9.0, 9.5]
  ]

  function NextMantissaOf(mantissas: seq<real>, i: nat): real
    requires i < |mantissas|
  {
    if i + 1 < |mantissas| then mantissas[i + 1] else 10.0
  }

  /** No mantissa is more than a factor below the next one, ten following the last. */
  ghost predicate Within(mantissas: seq<real>, factor: real) {
    forall i :: 0 <= i < |mantissas| ==>
      NextMantissaOf(mantissas, i) <= factor * mantissas[i]
  }

  /** The widest gap of each tier, as a factor. */
  const WIDEST: seq<real> := [10.0, 10.0 / 3.0, 2.5, 5.0 / 3.0, 4.0 / 3.0, 4.0 / 3.0, 4.0 / 3.0]

  lemma WidestReached(k: nat, factor: real)
    requires k < |LOGARITHMIC_MANTISSA_TIERS| && Within(LOGARITHMIC_MANTISSA_TIERS[k], factor)
    ensures WIDEST[k] <= factor
  {
    var widest := if k == 0 then 0 else if k == 1 then 1 else if k == 2 then 1 else if k == 3 then 3 else 2;
    var tier := LOGARITHMIC_MANTISSA_TIERS[k];
    assert widest < |tier| && NextMantissaOf(tier, widest) == WIDEST[k] * tier[widest];
    assert NextMantissaOf(tier, widest) <= factor * tier[widest];
    Cancel(WIDEST[k], factor, tier[widest]);
  }

  lemma WidestSuffices(k: nat)
    requires k < |LOGARITHMIC_MANTISSA_TIERS|
    ensures Within(LOGARITHMIC_MANTISSA_TIERS[k], WIDEST[k])
  {
  }

  lemma WithinMore(mantissas: seq<real>, factor: real, more: real)
    requires Digits(mantissas) && Within(mantissas, factor) && factor <= more
    ensures Within(mantissas, more)
  {
    forall i | 0 <= i < |mantissas|
      ensures NextMantissaOf(mantissas, i) <= more * mantissas[i]
    {
      Scale(factor, more, mantissas[i]);
    }
  }

  /** A later tier has more mantissas, and its widest gap is not wider than that of the tier before it. */
  lemma TiersAreFiner(k: nat, factor: real)
    requires k + 1 < |LOGARITHMIC_MANTISSA_TIERS| && Within(LOGARITHMIC_MANTISSA_TIERS[k], factor)
    ensures |LOGARITHMIC_MANTISSA_TIERS[k]| < |LOGARITHMIC_MANTISSA_TIERS[k + 1]|
    ensures Within(LOGARITHMIC_MANTISSA_TIERS[k + 1], factor)
  {
    hide Within;
    WidestReached(k, factor);
    WidestSuffices(k + 1);
    TierDigits(k + 1);
    assert WIDEST[k + 1] <= WIDEST[k];
    WithinMore(LOGARITHMIC_MANTISSA_TIERS[k + 1], WIDEST[k + 1], factor);
  }

  /** The finest tier has every half, the one before it every half up to eight, and both the quarter above one. */
  lemma FinestHaveHalves(half: nat)
    requires 2 <= half <= 19
    ensures half as real / 2.0 in LOGARITHMIC_MANTISSA_TIERS[6] && 1.25 in LOGARITHMIC_MANTISSA_TIERS[6]
    ensures half <= 16 ==> half as real / 2.0 in LOGARITHMIC_MANTISSA_TIERS[5]
    ensures 1.25 in LOGARITHMIC_MANTISSA_TIERS[5]
  {
    var at := if half == 2 then 0 else half - 1;
    assert LOGARITHMIC_MANTISSA_TIERS[6][at] == half as real / 2.0 && LOGARITHMIC_MANTISSA_TIERS[6][1] == 1.25;
    assert half <= 16 ==> LOGARITHMIC_MANTISSA_TIERS[5][at] == half as real / 2.0;
    assert LOGARITHMIC_MANTISSA_TIERS[5][1] == 1.25;
  }

  predicate Digits(mantissas: seq<real>) {
    forall i :: 0 <= i < |mantissas| ==> 1.0 <= mantissas[i] < 10.0
  }

  predicate Increasing(ticks: seq<real>) {
    forall i, j :: 0 <= i < j < |ticks| ==> ticks[i] < ticks[j]
  }

  /** A set is kept as its elements in ascending order; adding one that is there changes nothing. */
  function Insert(ticks: seq<real>, x: real): (longer: seq<real>)
    requires Increasing(ticks)
    ensures Increasing(longer)
    ensures forall y :: y in longer <==> y == x || y in ticks
  {
    if ticks == [] then [x]
    else if x < ticks[0] then [x] + ticks
    else if x == ticks[0] then ticks
    else
      var rest := Insert(ticks[1..], x);
      assert forall y :: y in ticks <==> y == ticks[0] || y in ticks[1..];
      assert forall i :: 0 <= i < |rest| ==> rest[i] in rest;
      [ticks[0]] + rest
  }

  /** A mantissa of the tier times a power of ten. */
  ghost predicate IsCandidate(mantissas: seq<real>, lower: real, upper: real, e: int, n: nat, x: real) {
    n < |mantissas| && x == mantissas[n] * Pow10(e) && lower <= x <= upper
  }

  ghost predicate SomeCandidate(mantissas: seq<real>, lower: real, upper: real, first: int, end: int, x: real) {
    exists e, n: nat :: first <= e < end && IsCandidate(mantissas, lower, upper, e, n, x)
  }

  ghost predicate SomeOf(mantissas: seq<real>, lower: real, upper: real, e: int, k: nat, x: real) {
    exists n: nat :: n < k && IsCandidate(mantissas, lower, upper, e, n, x)
  }

  /** The candidates with exponents from `first` up to and without `end`. */
  ghost predicate Holds(ticks: seq<real>, mantissas: seq<real>, lower: real, upper: real, first: int, end: int) {
    forall x :: x in ticks <==> SomeCandidate(mantissas, lower, upper, first, end, x)
  }

  /** Those, and with exponent `end` the ones of the first `k` mantissas. */
  ghost predicate HoldsPart(ticks: seq<real>, mantissas: seq<real>, lower: real, upper: real, first: int, end: int, k: nat) {
    forall x :: x in ticks <==>
      SomeCandidate(mantissas, lower, upper, first, end, x) || SomeOf(mantissas, lower, upper, end, k, x)
  }

  lemma NextMantissa(mantissas: seq<real>, lower: real, upper: real, e: int, k: nat, x: real)
    requires k < |mantissas|
    ensures SomeOf(mantissas, lower, upper, e, k + 1, x) <==>
              SomeOf(mantissas, lower, upper, e, k, x) || IsCandidate(mantissas, lower, upper, e, k, x)
  {
  }

  lemma NextExponent(mantissas: seq<real>, lower: real, upper: real, first: int, e: int, x: real)
    requires first <= e
    ensures SomeCandidate(mantissas, lower, upper, first, e + 1, x) <==>
              || SomeCandidate(mantissas, lower, upper, first, e, x)
              || SomeOf(mantissas, lower, upper, e, |mantissas|, x)
  {
  }

  /** One value is offered: it is taken if it is inside the bounds, and once. */
  method Offer(ticks: seq<real>, mantissas: seq<real>, lower: real, upper: real, first: int, e: int, k: nat)
    returns (more: seq<real>)
    requires Increasing(ticks) && k < |mantissas| && first <= e
    requires HoldsPart(ticks, mantissas, lower, upper, first, e, k)
    ensures Increasing(more) && HoldsPart(more, mantissas, lower, upper, first, e, k + 1)
  {
    var x := mantissas[k] * Pow10(e);
    more := ticks;
    if lower <= x && x <= upper {
      more := Insert(ticks, x);
    }
    forall y
      ensures y in more <==> SomeCandidate(mantissas, lower, upper, first, e, y)
                             || SomeOf(mantissas, lower, upper, e, k + 1, y)
    {
      NextMantissa(mantissas, lower, upper, e, k, y);
    }
  }

  /** All values of a tier inside the bounds, in order; a bound that is not positive has no logarithm. */
  method LogarithmicCandidates(lower: real, upper: real, mantissas: seq<real>)
    returns (ticks: Result<seq<real>, Failure>)
    ensures lower <= 0.0 || upper <= 0.0 ==> ticks == Err(ValueError)
    ensures lower > 0.0 && upper > 0.0 ==>
              && ticks.Ok? && Increasing(ticks.value)
              && Holds(ticks.value, mantissas, lower, upper, FloorLog10(lower) - 1, CeilLog10(upper) + 2)
  {
    if lower <= 0.0 || upper <= 0.0 {
      return Err(ValueError);
    }
    hide SomeCandidate, SomeOf;
    var firstExponent := FloorLog10(lower) - 1;
    var lastExponent := CeilLog10(upper) + 1;
    var found: seq<real> := [];
    var exponent := firstExponent;
    NoExponent(mantissas, lower, upper, firstExponent);
    while exponent < lastExponent + 1
      invariant firstExponent <= exponent
      invariant exponent <= lastExponent + 1 || exponent == firstExponent
      invariant Increasing(found) && Holds(found, mantissas, lower, upper, firstExponent, exponent)
      decreases lastExponent + 1 - exponent
    {
      NoMantissa(mantissas, lower, upper, exponent);
      for k := 0 to |mantissas|
        invariant Increasing(found) && HoldsPart(found, mantissas, lower, upper, firstExponent, exponent, k)
      {
        found := Offer(found, mantissas, lower, upper, firstExponent, exponent, k);
      }
      forall x
        ensures x in found <==> SomeCandidate(mantissas, lower, upper, firstExponent, exponent + 1, x)
      {
        NextExponent(mantissas, lower, upper, firstExponent, exponent, x);
      }
      exponent := exponent + 1;
    }
    if exponent > lastExponent + 1 {
      NoExponentBelow(mantissas, lower, upper, firstExponent, lastExponent + 1);
    }
    return Ok(found);
  }

  lemma NoExponent(mantissas: seq<real>, lower: real, upper: real, first: int)
    ensures Holds([], mantissas, lower, upper, first, first)
  {
  }

  lemma NoExponentBelow(mantissas: seq<real>, lower: real, upper: real, first: int, end: int)
    requires end < first
    ensures forall x :: !SomeCandidate(mantissas, lower, upper, first, end, x)
  {
  }

  lemma NoMantissa(mantissas: seq<real>, lower: real, upper: real, e: int)
    ensures forall x :: !SomeOf(mantissas, lower, upper, e, 0, x)
  {
  }

  lemma MantissaBounds(mantissa: real, power: real, x: real)
    requires 1.0 <= mantissa < 10.0 && power > 0.0 && x == mantissa * power
    ensures power <= x < 10.0 * power
  {
    Scale(1.0, mantissa, power);
    Scale(mantissa, 10.0, power);
    assert 1.0 * power <= mantissa * power < 10.0 * power;
  }

  lemma CandidateInside(mantissas: seq<real>, lower: real, upper: real, e: int, n: nat, x: real)
    requires lower > 0.0 && upper > 0.0 && Digits(mantissas) && IsCandidate(mantissas, lower, upper, e, n, x)
    ensures FloorLog10(lower) <= e <= CeilLog10(upper)
  {
    hide FloorLog10, CeilLog10;
    MantissaBounds(mantissas[n], Pow10(e), x);
    Pow10Next(e);
    ExponentInside(e, x, lower, upper);
  }

  /** Completeness: a mantissa times any integer power of ten that lies inside the bounds is among the
      candidates, and nothing else is. */
  lemma NoCandidateIsMissed(ticks: seq<real>, mantissas: seq<real>, lower: real, upper: real, x: real)
    requires lower > 0.0 && upper > 0.0 && Digits(mantissas)
    requires Holds(ticks, mantissas, lower, upper, FloorLog10(lower) - 1, CeilLog10(upper) + 2)
    ensures x in ticks <==> exists e, n: nat :: IsCandidate(mantissas, lower, upper, e, n, x)
  {
    hide FloorLog10, CeilLog10, IsCandidate;
    if e, n: nat :| IsCandidate(mantissas, lower, upper, e, n, x) {
      CandidateInside(mantissas, lower, upper, e, n, x);
      assert SomeCandidate(mantissas, lower, upper, FloorLog10(lower) - 1, CeilLog10(upper) + 2, x);
    }
  }

  /** The logarithms of the bounds bound the exponent. */
  lemma ExponentInside(e: int, x: real, lower: real, upper: real)
    requires lower > 0.0 && upper > 0.0 && Pow10(e) <= x < Pow10(e + 1) && lower <= x <= upper
    ensures FloorLog10(lower) <= e <= CeilLog10(upper)
  {
    var low, high := FloorLog10(lower), CeilLog10(upper);
    assert Pow10(low) <= lower && upper <= Pow10(high);
    hide Pow10, FloorLog10, CeilLog10;
    if e < low {
      Pow10Grows(e + 1, low);
    }
    if high < e {
      Pow10Between(high, e);
    }
  }

  lemma Pow10Between(e: int, f: int)
    requires e < f
    ensures Pow10(e) < Pow10(f)
  {
    Pow10Grows(e, f);
  }

  // ---- choosing a tier ---------------------------------------------------------------------

  /** Where an axis draws a value, and how far apart labels have to be. */
  datatype Scaling = Scaling(position: real -> real, spacing: real)

  /** The smallest gap between neighbours is at least the spacing. */
  predicate Readable(axis: Scaling, ticks: seq<real>) {
    forall k :: 0 <= k < |ticks| - 1 ==> axis.position(ticks[k + 1]) - axis.position(ticks[k]) >= axis.spacing
  }

  method CheckReadable(axis: Scaling, ticks: seq<real>) returns (readable: bool)
    ensures readable <==> Readable(axis, ticks)
  {
    if |ticks| < 2 {
      return true;
    }
    var minimumSpacing := axis.position(ticks[1]) - axis.position(ticks[0]);
    for k := 1 to |ticks| - 1
      invariant exists i :: 0 <= i < k && minimumSpacing == axis.position(ticks[i + 1]) - axis.position(ticks[i])
      invariant forall i :: 0 <= i < k ==> minimumSpacing <= axis.position(ticks[i + 1]) - axis.position(ticks[i])
    {
      var gap := axis.position(ticks[k + 1]) - axis.position(ticks[k]);
      if gap < minimumSpacing {
        minimumSpacing := gap;
      }
    }
    readable := minimumSpacing >= axis.spacing;
  }

  /** What a tier gives between the bounds: every candidate, in order. */
  ghost predicate TicksOf(ticks: seq<real>, mantissas: seq<real>, lower: real, upper: real) {
    Increasing(ticks) && forall x :: x in ticks <==> exists e, n: nat :: IsCandidate(mantissas, lower, upper, e, n, x)
  }

  method TierTicks(lower: real, upper: real, tier: nat) returns (ticks: seq<real>)
    requires lower > 0.0 && upper > 0.0 && tier < |LOGARITHMIC_MANTISSA_TIERS|
    ensures TicksOf(ticks, LOGARITHMIC_MANTISSA_TIERS[tier], lower, upper)
  {
    hide IsCandidate;
    var mantissas := LOGARITHMIC_MANTISSA_TIERS[tier];
    TierDigits(tier);
    var found := LogarithmicCandidates(lower, upper, mantissas);
    ticks := found.value;
    forall x
      ensures x in ticks <==> exists e, n: nat :: IsCandidate(mantissas, lower, upper, e, n, x)
    {
      NoCandidateIsMissed(ticks, mantissas, lower, upper, x);
    }
  }

  lemma TierDigits(tier: nat)
    requires tier < |LOGARITHMIC_MANTISSA_TIERS|
    ensures Digits(LOGARITHMIC_MANTISSA_TIERS[tier])
  {
  }

  /** A tier is good enough when it has ticks and they can be read. */
  ghost predicate Suits(axis: Scaling, lower: real, upper: real, tier: nat)
    requires tier < |LOGARITHMIC_MANTISSA_TIERS|
  {
    exists ticks :: TicksOf(ticks, LOGARITHMIC_MANTISSA_TIERS[tier], lower, upper) && ticks != [] && Readable(axis, ticks)
  }

  lemma {:induction false} IncreasingUnique(a: seq<real>, b: seq<real>)
    requires Increasing(a) && Increasing(b) && forall x :: x in a <==> x in b
    ensures a == b
  {
    assert a != [] ==> a[0] in a;
    assert b != [] ==> b[0] in b;
    if a != [] {
      assert a[0] == b[0];
      forall x
        ensures x in a[1..] <==> x in b[1..]
      {
        assert x in a[1..] <==> x in a && x != a[0];
        assert x in b[1..] <==> x in b && x != b[0];
      }
      IncreasingUnique(a[1..], b[1..]);
    }
  }

  /** The tiers from fine to coarse: the ticks are those of the finest tier that suits, or of the coarsest tier
      when none does. */
  method LogarithmicTicks(axis: Scaling, lower: real, upper: real)
    returns (ticks: Result<seq<real>, Failure>, ghost tier: nat)
    ensures lower <= 0.0 || upper <= 0.0 ==> ticks == Err(ValueError)
    ensures lower > 0.0 && upper > 0.0 ==>
              && tier < |LOGARITHMIC_MANTISSA_TIERS| && ticks.Ok?
              && TicksOf(ticks.value, LOGARITHMIC_MANTISSA_TIERS[tier], lower, upper)
              && (forall finer: nat :: tier < finer < |LOGARITHMIC_MANTISSA_TIERS| ==> !Suits(axis, lower, upper, finer))
              && (Suits(axis, lower, upper, tier) || tier == 0)
  {
    hide TicksOf;
    if lower <= 0.0 || upper <= 0.0 {
      return Err(ValueError), 0;
    }
    var n := |LOGARITHMIC_MANTISSA_TIERS|;
    while n > 0
      invariant 0 <= n <= |LOGARITHMIC_MANTISSA_TIERS|
      invariant forall finer: nat :: n <= finer < |LOGARITHMIC_MANTISSA_TIERS| ==> !Suits(axis, lower, upper, finer)
    {
      n := n - 1;
      var found := TierTicks(lower, upper, n);
      var readable := CheckReadable(axis, found);
      if found != [] && readable {
        return Ok(found), n;
      }
      DoesNotSuit(axis, lower, upper, n, found);
    }
    var coarsest := TierTicks(lower, upper, 0);
    return Ok(coarsest), 0;
  }

  lemma DoesNotSuit(axis: Scaling, lower: real, upper: real, tier: nat, found: seq<real>)
    requires tier < |LOGARITHMIC_MANTISSA_TIERS| && TicksOf(found, LOGARITHMIC_MANTISSA_TIERS[tier], lower, upper)
    requires found == [] || !Readable(axis, found)
    ensures !Suits(axis, lower, upper, tier)
  {
    hide IsCandidate;
    forall ticks | TicksOf(ticks, LOGARITHMIC_MANTISSA_TIERS[tier], lower, upper)
      ensures ticks == found
    {
      IncreasingUnique(ticks, found);
    }
  }
}
