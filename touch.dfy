/**
 * The pure part of `RangeSeekBar`'s touch handling: choosing the thumb a gesture drags and the
 * value a drag asks for.
 */
module Touch {
  import JavaArith
  import MathUtils
  import opened Graphics
  import opened RangeModel

  /** `RangeSeekBar.WhichThumb`. */
  datatype WhichThumb = Start | End | None

  /** The `MotionEvent` actions the seek bar reacts to; every other action is `OtherAction`. */
  datatype Action = Down | Move | Up | Cancel | OtherAction

  /**
   * A touch event: its action, its coordinates, and the progress value its position maps to on
   * the track (the pixel-to-value mapping of `trackTouchEvent`, taken as given).
   */
  datatype MotionEvent = MotionEvent(action: Action, x: real, y: real, progress: real)

  /** The real distance from `x` to the horizontal centre of `r`. */
  function DistanceToCenter(x: real, r: Rect): (d: real)
    ensures d >= 0.0
    ensures d == x - CenterX(r) as real || d == CenterX(r) as real - x
  {
    if x >= CenterX(r) as real then x - CenterX(r) as real else CenterX(r) as real - x
  }

  /**
   * `getNearestThumb`: a touch inside the start thumb's hit area picks the start thumb, one
   * inside the end thumb's picks the end thumb, and any other touch picks the thumb whose hit
   * area centre is strictly nearer horizontally, the end thumb on a tie.
   */
  function NearestThumb(startBounds: Rect, endBounds: Rect, x: real, y: real): (w: WhichThumb)
    ensures w != None
  {
    var h1, h2 := HitArea(startBounds), HitArea(endBounds);
    var px, py := JavaArith.Trunc(x), JavaArith.Trunc(y);
    if Contains(h1, px, py) then Start
    else if Contains(h2, px, py) then End
    else if DistanceToCenter(x, h1) < DistanceToCenter(x, h2) then Start
    else End
  }

  /** The start thumb wins whenever the touch is inside its hit area, even if it overlaps the end's. */
  lemma NearestThumbPrefersStartHit(startBounds: Rect, endBounds: Rect, x: real, y: real)
    requires Contains(HitArea(startBounds), JavaArith.Trunc(x), JavaArith.Trunc(y))
    ensures NearestThumb(startBounds, endBounds, x, y) == Start
  {
  }

  /** Outside the start thumb's hit area but inside the end thumb's, the end thumb is chosen. */
  lemma NearestThumbEndHit(startBounds: Rect, endBounds: Rect, x: real, y: real)
    requires !Contains(HitArea(startBounds), JavaArith.Trunc(x), JavaArith.Trunc(y))
    requires Contains(HitArea(endBounds), JavaArith.Trunc(x), JavaArith.Trunc(y))
    ensures NearestThumb(startBounds, endBounds, x, y) == End
  {
  }

  /**
   * Outside both hit areas, the chosen thumb is one whose centre is no farther than the other's:
   * the start thumb exactly when it is strictly nearer.
   */
  lemma NearestThumbOutsideHitAreas(startBounds: Rect, endBounds: Rect, x: real, y: real)
    requires !Contains(HitArea(startBounds), JavaArith.Trunc(x), JavaArith.Trunc(y))
    requires !Contains(HitArea(endBounds), JavaArith.Trunc(x), JavaArith.Trunc(y))
    ensures var d1, d2 := DistanceToCenter(x, startBounds), DistanceToCenter(x, endBounds);
      && (NearestThumb(startBounds, endBounds, x, y) == Start <==> d1 < d2)
      && (NearestThumb(startBounds, endBounds, x, y) == End <==> d2 <= d1)
  {
  }

  /**
   * When the two thumbs sit on the same bounds (both at the same value), a touch inside the
   * shared hit area drags the start thumb, and any touch beside it drags the end thumb.
   */
  lemma CoincidingThumbs(bounds: Rect, x: real, y: real)
    ensures Contains(HitArea(bounds), JavaArith.Trunc(x), JavaArith.Trunc(y)) ==> NearestThumb(bounds, bounds, x, y) == Start
    ensures !Contains(HitArea(bounds), JavaArith.Trunc(x), JavaArith.Trunc(y)) ==> NearestThumb(bounds, bounds, x, y) == End
  {
  }

  /**
   * The start value a drag of the start thumb asks for: the touch progress clamped into
   * `[0, getProgressStartMaxValue()]` and rounded with `Math.round`.
   */
  function DraggedStart(progress: real, end: int, p: GapPolicy): (r: int)
    ensures var b := StartMaxValue(p, end); b >= 0 ==> 0 <= r <= b
    ensures var b := StartMaxValue(p, end); b < 0 ==> r == 0 || r == b
    ensures var b := StartMaxValue(p, end); 0.0 <= progress <= b as real ==> JavaArith.Round(progress) == r
    ensures progress < 0.0 ==> r == 0
    ensures var b := StartMaxValue(p, end); !(progress < 0.0) && progress > b as real ==> r == b
  {
    JavaArith.Round(MathUtils.ConstrainReal(progress, 0.0, StartMaxValue(p, end) as real))
  }

  /**
   * The end value a drag of the end thumb asks for: the touch progress clamped into
   * `[getProgressEndMinValue(), max]` and rounded with `Math.round`.
   */
  function DraggedEnd(progress: real, start: int, max: int, p: GapPolicy): (r: int)
    ensures var b := EndMinValue(p, start); b <= max ==> b <= r <= max
    ensures var b := EndMinValue(p, start); b > max ==> r == b || r == max
    ensures var b := EndMinValue(p, start); b as real <= progress <= max as real ==> JavaArith.Round(progress) == r
    ensures var b := EndMinValue(p, start); progress < b as real ==> r == b
    ensures var b := EndMinValue(p, start); !(progress < b as real) && progress > max as real ==> r == max
  {
    JavaArith.Round(MathUtils.ConstrainReal(progress, EndMinValue(p, start) as real, max as real))
  }

  /**
   * A drag of the start thumb, once quantized and clamped as `setProgressInternal` does, keeps
   * the end where it is and never takes the start past `getProgressStartMaxValue()`: the
   * minimum gap (or the start boundary) holds. With a step above 1 this needs the bound and the
   * end on the step grid.
   */
  lemma {:induction false} StartDragRespectsBound(progress: real, start: int, end: int, max: int, stepSize: int, p: GapPolicy)
    requires 0 <= start <= end <= max
    requires 0 <= StartMaxValue(p, end) <= end
    requires stepSize <= 1 || (StartMaxValue(p, end) % stepSize == 0 && end % stepSize == 0)
    ensures var n := Normalize(Quantize(DraggedStart(progress, end, p), stepSize), Quantize(end, stepSize), max);
      n.1 == end && 0 <= n.0 <= StartMaxValue(p, end)
  {
    var b := StartMaxValue(p, end);
    var s := DraggedStart(progress, end, p);
    if stepSize > 1 {
      QuantizeMonotone(s, b, stepSize);
      QuantizeFixesMultiples(b, stepSize);
      QuantizeFixesMultiples(end, stepSize);
    }
    assert 0 <= Quantize(s, stepSize) <= b && Quantize(end, stepSize) == end;
  }

  /**
   * A drag of the end thumb, once quantized and clamped, keeps the start where it is and never
   * takes the end below `getProgressEndMinValue()` or above `max`. With a step above 1 this
   * needs the bound and the start on the step grid; `max` need not be.
   */
  lemma {:induction false} EndDragRespectsBound(progress: real, start: int, end: int, max: int, stepSize: int, p: GapPolicy)
    requires 0 <= start <= end <= max
    requires start <= EndMinValue(p, start) <= max
    requires stepSize <= 1 || (EndMinValue(p, start) % stepSize == 0 && start % stepSize == 0)
    ensures var n := Normalize(Quantize(start, stepSize), Quantize(DraggedEnd(progress, start, max, p), stepSize), max);
      n.0 == start && EndMinValue(p, start) <= n.1 <= max
  {
    var b := EndMinValue(p, start);
    var e := DraggedEnd(progress, start, max, p);
    if stepSize > 1 {
      QuantizeMonotone(b, e, stepSize);
      QuantizeFixesMultiples(b, stepSize);
      QuantizeFixesMultiples(start, stepSize);
    }
    assert b <= Quantize(e, stepSize) && Quantize(start, stepSize) == start;
  }

  /**
   * With the default policy (gap 0, no boundaries) and no step, a drag of either thumb may
   * bring it onto the other one but never past it.
   */
  lemma DraggedThumbsMeetButDoNotCross(progress: real, start: int, end: int, max: int)
    requires 0 <= start <= end <= max
    ensures var n := Normalize(DraggedStart(progress, end, GapPolicy(0, -1, -1)), end, max); n.0 <= n.1 == end
    ensures var n := Normalize(start, DraggedEnd(progress, start, max, GapPolicy(0, -1, -1)), max); start == n.0 <= n.1
  {
    StartDragRespectsBound(progress, start, end, max, 1, GapPolicy(0, -1, -1));
    EndDragRespectsBound(progress, start, end, max, 1, GapPolicy(0, -1, -1));
  }
}
