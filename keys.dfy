/** The pure part of `RangeSeekBar`'s keyboard handling. */
module Keys {
  import JavaArith
  import opened RangeModel

  const KEYCODE_DPAD_LEFT: int := 21
  const KEYCODE_DPAD_RIGHT: int := 22
  const KEYCODE_MINUS: int := 69
  const KEYCODE_EQUALS: int := 70
  const KEYCODE_PLUS: int := 81

  /** Keys that narrow the range, moving both thumbs inward. */
  predicate NarrowsRange(keyCode: int)
  {
    keyCode == KEYCODE_DPAD_LEFT || keyCode == KEYCODE_MINUS
  }

  /** Keys that widen the range, moving both thumbs outward. */
  predicate WidensRange(keyCode: int)
  {
    keyCode == KEYCODE_DPAD_RIGHT || keyCode == KEYCODE_PLUS || keyCode == KEYCODE_EQUALS
  }

  /** `setKeyProgressIncrement` stores the magnitude of the increment. */
  function KeyIncrement(increment: int): (r: int)
    ensures r >= 0 && (r == increment || r == -increment)
  {
    JavaArith.Abs(increment)
  }

  /**
   * The increment `RangeSeekBar.setMax` leaves: a zero increment, or one giving more than 20
   * key presses across the (already stored) `max`, becomes `max / 20`. It ends up zero, so
   * that keys do nothing, exactly when it was zero and `max` is below 20.
   */
  function KeyIncrementAfterSetMax(increment: int, max: int): (r: int)
    requires increment >= 0 && max >= 0
    ensures increment > 0 && max / increment <= 20 ==> r == increment
    ensures !(increment > 0 && max / increment <= 20) ==> r == max / 20
    ensures r == 0 <==> increment == 0 && max < 20
  {
    if increment == 0 || max / increment > 20 then
      Twentieth(max);
      LargeQuotient(max, increment);
      KeyIncrement(max / 20)
    else increment
  }

  /** `max / 20` is non-negative, and positive from 20 on. */
  lemma Twentieth(max: int)
    requires max >= 0
    ensures max / 20 >= 0 && (max / 20 == 0 <==> max < 20)
  {
  }

  /** More than 20 steps of a positive increment fit only in a `max` above 20. */
  lemma LargeQuotient(max: int, increment: int)
    requires max >= 0 && increment >= 0
    ensures increment > 0 && max / increment > 20 ==> max >= 20
  {
    if increment > 0 {
      var q := max / increment;
      assert max == increment * q + max % increment;
      if q > 20 {
        JavaArith.MulAtLeast(increment, q);
      }
    }
  }

  /**
   * The new increment is not checked again: after `setMax(39)` an increment of 1 is kept,
   * although it takes 39 presses to cross the track.
   */
  lemma KeyIncrementNotRechecked()
    ensures KeyIncrementAfterSetMax(1, 39) == 1 && 39 / KeyIncrementAfterSetMax(1, 39) > 20
    ensures KeyIncrementAfterSetMax(1, 100) == 5 && KeyIncrementAfterSetMax(0, 19) == 0
  {
  }

  /**
   * The range a key asks for: a widening key moves the start down and the end up by the
   * increment, a narrowing key the other way; other keys ask for nothing.
   */
  function KeyRequest(keyCode: int, increment: int, start: int, end: int): (r: (int, int))
    requires NarrowsRange(keyCode) || WidensRange(keyCode)
    ensures WidensRange(keyCode) ==> r.0 == start - increment && r.1 == end + increment
    ensures NarrowsRange(keyCode) ==> r.0 == start + increment && r.1 == end - increment
    ensures r.1 - r.0 == end - start + 2 * (r.1 - end)
  {
    var signed := if NarrowsRange(keyCode) then -increment else increment;
    (start - signed, end + signed)
  }

  /**
   * A widening key never shrinks the range, and (without a step) it changes the range exactly
   * when the increment is positive and the range does not already span the whole track.
   */
  lemma WideningKey(keyCode: int, increment: int, start: int, end: int, max: int)
    requires WidensRange(keyCode) && increment >= 0 && 0 <= start <= end <= max
    ensures var rq := KeyRequest(keyCode, increment, start, end); var n := Normalize(rq.0, rq.1, max);
      && n.0 <= start && end <= n.1
      && (n != (start, end) <==> increment > 0 && (start > 0 || end < max))
  {
  }

  /**
   * A narrowing key moves both thumbs inward by the increment while they stay apart; when
   * they would cross, the start is clamped onto the new end and the range collapses.
   */
  lemma NarrowingKey(keyCode: int, increment: int, start: int, end: int, max: int)
    requires NarrowsRange(keyCode) && increment >= 0 && 0 <= start <= end <= max
    ensures var rq := KeyRequest(keyCode, increment, start, end); var n := Normalize(rq.0, rq.1, max);
      && (2 * increment <= end - start ==> n == (start + increment, end - increment))
      && (2 * increment > end - start && increment <= end ==> n == (end - increment, end - increment))
      && (increment > end ==> n == (0, 0))
      && (n != (start, end) <==> increment > 0 && end > 0)
  {
  }

  /** The collapse in numbers: narrowing (40, 42) by 5 gives the empty range (37, 37). */
  lemma NarrowingKeyCollapses()
    ensures var rq := KeyRequest(KEYCODE_DPAD_LEFT, 5, 40, 42); Normalize(rq.0, rq.1, 100) == (37, 37)
  {
  }

  /** A zero increment asks for the current range and so, as `onKeyDown` tests, changes nothing. */
  lemma ZeroIncrementIsNoOp(keyCode: int, start: int, end: int, max: int)
    requires NarrowsRange(keyCode) || WidensRange(keyCode)
    requires 0 <= start <= end <= max
    ensures var rq := KeyRequest(keyCode, 0, start, end); Normalize(rq.0, rq.1, max) == (start, end)
  {
    NormalizeKeepsOrderedRange(start, end, max);
  }
}
