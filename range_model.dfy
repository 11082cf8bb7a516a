/**
 * The value model shared by `RangeProgressBar` and `RangeSeekBar`: the clamp of a requested
 * range, the step quantization, the minimum-gap field and the start/end boundaries.
 */
module RangeModel {
  import opened Wrappers
  import JavaArith
  import MathUtils

  /**
   * The clamp of `RangeProgressBar.setProgressInternal`: the start is clamped into
   * `[0, end clamped into [0, max]]`, then the end into `[start, max]`.
   */
  function Normalize(startValue: int, endValue: int, max: int): (r: (int, int))
    ensures max >= 0 ==> 0 <= r.0 <= r.1 <= max
    ensures 0 <= endValue <= max ==> r.1 == endValue
    ensures max >= 0 && 0 <= startValue <= MathUtils.Constrain(endValue, 0, max) ==> r.0 == startValue
    ensures max >= 0 && startValue > MathUtils.Constrain(endValue, 0, max) ==> r.0 == r.1
  {
    var s := MathUtils.Constrain(startValue, 0, MathUtils.Constrain(endValue, 0, max));
    (s, MathUtils.Constrain(endValue, s, max))
  }

  /** A range already inside `0 <= start <= end <= max` is left as it is. */
  lemma NormalizeKeepsOrderedRange(startValue: int, endValue: int, max: int)
    requires 0 <= startValue <= endValue <= max
    ensures Normalize(startValue, endValue, max) == (startValue, endValue)
  {
  }

  /** Normalizing twice is normalizing once. */
  lemma NormalizeIdempotent(startValue: int, endValue: int, max: int)
    requires max >= 0
    ensures var r := Normalize(startValue, endValue, max); Normalize(r.0, r.1, max) == r
  {
    var r := Normalize(startValue, endValue, max);
    NormalizeKeepsOrderedRange(r.0, r.1, max);
  }

  /**
   * The endpoint rounding of `RangeSeekBar.setProgressInternal`. With a step above 1, a
   * positive Java remainder `rem` rounds up to the next multiple when `rem / step > 0.5` and
   * down otherwise; a zero or negative remainder leaves the value alone. The float division of
   * the source is taken over exact reals.
   */
  function Quantize(value: int, stepSize: int): (r: int)
    ensures stepSize <= 1 || value <= 0 ==> r == value
    ensures stepSize > 1 && value >= 0 ==> r >= 0 && r % stepSize == 0
    ensures stepSize > 1 && value >= 0 ==> -stepSize <= 2 * (r - value) < stepSize
  {
    if stepSize > 1 then
      var rem := JavaArith.Rem(value, stepSize);
      var q := JavaArith.Div(value, stepSize);
      if rem > 0 then
        HalfTest(rem, stepSize);
        if (rem as real) / (stepSize as real) > 0.5 then
          JavaArith.MultipleHasNoRemainder(q + 1, stepSize);
          assert value + (stepSize - rem) == stepSize * (q + 1);
          value + (stepSize - rem)
        else
          JavaArith.MultipleHasNoRemainder(q, stepSize);
          value - rem
      else
        JavaArith.MultipleHasNoRemainder(q, stepSize);
        value
    else
      value
  }

  /** The float test `rem / step > 0.5` of the source, taken exactly, is `2 * rem > step`. */
  lemma HalfTest(rem: int, stepSize: int)
    requires stepSize > 0
    ensures (rem as real) / (stepSize as real) > 0.5 <==> 2 * rem > stepSize
  {
    var S := stepSize as real;
    var x := (rem as real) / S;
    assert rem as real == x * S;
    SignOfProduct(x - 0.5, S);
    assert (x - 0.5) * S == rem as real - 0.5 * S;
  }

  /** A positive factor keeps the sign of the other factor. */
  lemma SignOfProduct(d: real, p: real)
    requires p > 0.0
    ensures d > 0.0 <==> d * p > 0.0
  {
    if d <= 0.0 {
      assert (-d) * p >= 0.0;
    }
  }

  /**
   * Quantization picks THE nearest multiple: any multiple `m` of the step in the half-open
   * window `[value - step/2, value + step/2)` is the quantized value, so an exact half rounds down.
   */
  lemma QuantizeIsNearestMultiple(value: int, stepSize: int, m: int)
    requires stepSize > 1 && value >= 0
    requires m % stepSize == 0 && -stepSize <= 2 * (m - value) < stepSize
    ensures m == Quantize(value, stepSize)
  {
    var r := Quantize(value, stepSize);
    if m > r {
      JavaArith.MultiplesApart(m, r, stepSize);
    } else if r > m {
      JavaArith.MultiplesApart(r, m, stepSize);
    }
  }

  /** A non-negative multiple of the step is left where it is. */
  lemma QuantizeFixesMultiples(m: int, stepSize: int)
    requires stepSize > 1 && m >= 0 && m % stepSize == 0
    ensures Quantize(m, stepSize) == m
  {
    QuantizeIsNearestMultiple(m, stepSize, m);
  }

  /** Quantization preserves order on non-negative values: dragging further never lands earlier. */
  lemma QuantizeMonotone(a: int, b: int, stepSize: int)
    requires 0 <= a <= b
    ensures Quantize(a, stepSize) <= Quantize(b, stepSize)
  {
    if stepSize > 1 {
      var ra, rb := Quantize(a, stepSize), Quantize(b, stepSize);
      if ra > rb {
        JavaArith.MultiplesApart(ra, rb, stepSize);
      }
    }
  }

  /** The worked case: with a step of 10, the request (24, 77) is stored as (20, 80). */
  lemma QuantizeExample()
    ensures Normalize(Quantize(24, 10), Quantize(77, 10), 100) == (20, 80)
    ensures Quantize(25, 10) == 20 && Quantize(26, 10) == 30
  {
  }

  /**
   * The clamp runs after the rounding, so a stored value can sit on `max` rather than on a
   * multiple of the step.
   */
  lemma QuantizedEndClampedToMax()
    ensures Normalize(Quantize(0, 10), Quantize(97, 10), 95) == (0, 95)
  {
  }

  /**
   * When `max` is itself a multiple of the step, both stored endpoints are multiples of the
   * step, whatever (possibly negative or inverted) pair was requested.
   */
  lemma QuantizedRangeOnGrid(startValue: int, endValue: int, max: int, stepSize: int)
    requires stepSize > 1 && max >= 0 && max % stepSize == 0
    ensures var r := Normalize(Quantize(startValue, stepSize), Quantize(endValue, stepSize), max);
      r.0 % stepSize == 0 && r.1 % stepSize == 0
  {
    var qs, qe := Quantize(startValue, stepSize), Quantize(endValue, stepSize);
    ClampOnGrid(qe, 0, max, stepSize);
    var c := MathUtils.Constrain(qe, 0, max);
    ClampOnGrid(qs, 0, c, stepSize);
    var s := MathUtils.Constrain(qs, 0, c);
    ClampOnGrid(qe, s, max, stepSize);
  }

  /** Clamping a grid point (or anything below the bound) to grid bounds stays on the grid. */
  lemma ClampOnGrid(amount: int, low: int, high: int, k: int)
    requires k > 0 && low % k == 0 && high % k == 0
    requires amount >= low ==> amount % k == 0
    ensures MathUtils.Constrain(amount, low, high) % k == 0
  {
  }

  /**
   * The minimum-gap field and the two boundary fields, `-1` meaning unset
   * (`mMinMaxStepSize`, `mProgressStartMaxValue`, `mProgressEndMinValue`).
   */
  datatype GapPolicy = GapPolicy(minGap: int, startMaxValue: int, endMinValue: int)

  /** `getProgressStartMaxValue`: the largest start a drag may reach. */
  function StartMaxValue(p: GapPolicy, end: int): (r: int)
    ensures p.startMaxValue != -1 ==> r == p.startMaxValue
    ensures p.startMaxValue == -1 ==> end - r == p.minGap
  {
    if p.startMaxValue != -1 then p.startMaxValue else end - p.minGap
  }

  /** `getProgressEndMinValue`: the smallest end a drag may reach. */
  function EndMinValue(p: GapPolicy, start: int): (r: int)
    ensures p.endMinValue != -1 ==> r == p.endMinValue
    ensures p.endMinValue == -1 ==> r - start == p.minGap
  {
    if p.endMinValue != -1 then p.endMinValue else start + p.minGap
  }

  /**
   * `setProgressStartEndBoundaries`: rejects `startMax > endMin`, then `startMax > max`;
   * otherwise stores both bounds and zeroes the gap unless both are `-1`.
   */
  function SetBoundaries(p: GapPolicy, startMax: int, endMin: int, max: int): (r: Result<GapPolicy, JavaException>)
    ensures r.Success? <==> startMax <= endMin && startMax <= max
    ensures r.Failure? ==> r.error.IllegalArgumentException?
    ensures r.Success? ==> r.value.startMaxValue == startMax && r.value.endMinValue == endMin
    ensures r.Success? && (startMax != -1 || endMin != -1) ==> r.value.minGap == 0
    ensures r.Success? && startMax == -1 && endMin == -1 ==> r.value.minGap == p.minGap
  {
    if startMax > endMin then Failure(IllegalArgumentException("startMax cannot be greater than endMin"))
    else if startMax > max then Failure(IllegalArgumentException("startMax cannot be greater max value"))
    else if startMax != -1 || endMin != -1 then Success(GapPolicy(0, startMax, endMin))
    else Success(p.(startMaxValue := startMax, endMinValue := endMin))
  }

  /** Once both boundaries are set, they are what the drag bounds report, and they are ordered. */
  lemma BoundariesDecideDragBounds(p: GapPolicy, startMax: int, endMin: int, max: int, start: int, end: int)
    requires startMax != -1 && endMin != -1
    requires SetBoundaries(p, startMax, endMin, max).Success?
    ensures var q := SetBoundaries(p, startMax, endMin, max).value;
      StartMaxValue(q, end) == startMax <= endMin == EndMinValue(q, start)
  {
  }

  /**
   * The base `setMinMaxStepSize`: rejects a gap above `max`; a nonzero gap resets both
   * boundaries to `-1`.
   */
  function SetBaseMinGap(p: GapPolicy, value: int, max: int): (r: Result<GapPolicy, JavaException>)
    ensures r.Success? <==> value <= max
    ensures r.Failure? ==> r.error.IllegalArgumentException?
    ensures r.Success? ==> r.value.minGap == value
    ensures r.Success? && value != 0 ==> r.value.startMaxValue == -1 && r.value.endMinValue == -1
    ensures r.Success? && value == 0 ==> r.value.startMaxValue == p.startMaxValue && r.value.endMinValue == p.endMinValue
  {
    if value > max then Failure(IllegalArgumentException("value cannot be greater than max value"))
    else if value != 0 then Success(GapPolicy(value, -1, -1))
    else Success(p.(minGap := value))
  }

  /** After a nonzero base gap, each drag bound is the other endpoint shifted by exactly the gap. */
  lemma BaseGapDecidesDragBounds(p: GapPolicy, value: int, max: int, start: int, end: int)
    requires value != 0 && SetBaseMinGap(p, value, max).Success?
    ensures var q := SetBaseMinGap(p, value, max).value;
      StartMaxValue(q, end) == end - value && EndMinValue(q, start) == start + value
  {
  }

  /**
   * The gap that `RangeSeekBar.setMinMaxStepSize` stores: zero stays zero, and a gap that is
   * not a multiple of the step becomes `Math.max(step, gap - gap % step)`. The Java `%` throws
   * on a zero step.
   */
  function SeekBarMinGap(value: int, stepSize: int): (r: Result<int, JavaException>)
    ensures value == 0 ==> r == Success(0)
    ensures value != 0 && stepSize == 0 ==> r == Failure(ArithmeticException)
    ensures value != 0 && stepSize != 0 && JavaArith.Rem(value, stepSize) == 0 ==> r == Success(value)
    ensures stepSize > 0 && value > 0 ==> r.Success? && 0 < r.value && r.value % stepSize == 0
    ensures stepSize > 0 && value > 0 ==> r.value <= value || r.value == stepSize
    ensures stepSize > 0 && value > 0 ==> value < r.value + stepSize
  {
    if value == 0 then Success(0)
    else if stepSize == 0 then Failure(ArithmeticException)
    else
      var rem := JavaArith.Rem(value, stepSize);
      if rem == 0 then
        JavaArith.MultipleHasNoRemainder(JavaArith.Div(value, stepSize), stepSize);
        Success(value)
      else
        JavaArith.MultipleHasNoRemainder(JavaArith.Div(value, stepSize), stepSize);
        JavaArith.MultipleHasNoRemainder(1, stepSize);
        Success(if stepSize > value - rem then stepSize else value - rem)
  }

  /**
   * The initial range `RangeSeekBar.setInitialProgress` records: a set start boundary caps the
   * start, a set end boundary raises the end; the gap field plays no part.
   */
  function InitialProgress(p: GapPolicy, startProgress: int, endProgress: int): (r: (int, int))
    ensures p.startMaxValue != -1 ==> r.0 == if startProgress < p.startMaxValue then startProgress else p.startMaxValue
    ensures p.startMaxValue == -1 ==> r.0 == startProgress
    ensures p.endMinValue != -1 ==> r.1 == if endProgress > p.endMinValue then endProgress else p.endMinValue
    ensures p.endMinValue == -1 ==> r.1 == endProgress
  {
    if p.startMaxValue != -1 || p.endMinValue != -1 then
      var s := if p.startMaxValue != -1 then (if startProgress < p.startMaxValue then startProgress else p.startMaxValue) else startProgress;
      var e := if p.endMinValue != -1 then (if endProgress > p.endMinValue then endProgress else p.endMinValue) else endProgress;
      (s, e)
    else
      (startProgress, endProgress)
  }
}
