/**
 * `RangeSeekBar`: the range progress bar with step quantization, two draggable thumbs and
 * keyboard control. As for the bar, each operation is first a function on the whole state,
 * then a method of the class that updates the fields and is proved to compute that function.
 */
module SeekBar {
  import Wrappers
  import JavaArith
  import RangeModel
  import RefreshQueue
  import Graphics
  import opened Touch
  import Keys
  import opened ProgressBar

  /**
   * The seek bar's state: the bar underneath, `mStepSize`, `mKeyProgressIncrement`, the drag
   * state (`mIsDragging`, `mWhichThumb`, `mTouchDownX`, the pressed state), the view flags the
   * touch handler tests, which thumb drawables are set and their last laid-out bounds, and the
   * recorded initial range.
   */
  datatype Seek = Seek(
    bar: Bar,
    stepSize: int,
    keyIncrement: int,
    dragging: bool,
    which: WhichThumb,
    touchDownX: real,
    pressed: bool,
    userSeekable: bool,
    enabled: bool,
    touchSlop: int,
    hasStartThumb: bool,
    hasEndThumb: bool,
    startThumb: Graphics.Rect,
    endThumb: Graphics.Rect,
    initialStart: int,
    initialEnd: int)

  /** A thumb is chosen exactly while a drag is in progress. */
  predicate DragConsistent(s: Seek)
  {
    s.dragging <==> s.which != None
  }

  ghost predicate ValidSeek(s: Seek)
  {
    ValidBar(s.bar) && s.keyIncrement >= 0 && DragConsistent(s)
  }

  predicate HasThumbs(s: Seek)
  {
    s.hasStartThumb && s.hasEndThumb
  }

  /** The result of `onKeyDown`: handled here, or handed on to `View.onKeyDown`. */
  datatype KeyOutcome = Consumed | PassedToView

  /** A notification to the listener, which changes nothing else. */
  function Emit(s: Seek, n: RefreshQueue.Notification): (t: Seek)
    ensures t.bar.sched.log == s.bar.sched.log + [n]
    ensures t == s.(bar := s.bar.(sched := s.bar.sched.(log := t.bar.sched.log)))
  {
    s.(bar := s.bar.(sched := s.bar.sched.(log := s.bar.sched.log + [n])))
  }

  /** `RangeSeekBar.setProgressInternal`: both endpoints are quantized, then the base clamp runs. */
  function ApplyQuantizedProgress(s: Seek, startValue: int, endValue: int, fromUser: bool, animate: bool, onUiThread: bool): (r: (Seek, bool))
    ensures r.0 == s.(bar := r.0.bar)
    ensures r.0.bar.max == s.bar.max && r.0.bar.policy == s.bar.policy
    ensures (r.0.bar.start, r.0.bar.end) == RangeModel.Normalize(RangeModel.Quantize(startValue, s.stepSize), RangeModel.Quantize(endValue, s.stepSize), s.bar.max)
    ensures r.1 <==> (r.0.bar.start, r.0.bar.end) != (s.bar.start, s.bar.end)
    ensures !r.1 ==> r.0 == s
    ensures r.1 ==> r.0.bar == s.bar.(start := r.0.bar.start, end := r.0.bar.end,
      sched := RefreshQueue.Refresh(s.bar.sched, RefreshQueue.RefreshData(r.0.bar.start, r.0.bar.end, fromUser, animate), s.bar.max, onUiThread))
  {
    var b := ApplyProgress(s.bar, RangeModel.Quantize(startValue, s.stepSize), RangeModel.Quantize(endValue, s.stepSize), fromUser, animate, onUiThread);
    (s.(bar := b.0), b.1)
  }

  /** `setPressed`: releasing also forgets the dragged thumb. */
  function ApplyPressed(s: Seek, pressed: bool): (t: Seek)
    ensures t.pressed == pressed
    ensures pressed ==> t == s.(pressed := true)
    ensures !pressed ==> t == s.(which := None, pressed := false)
  {
    if pressed then s.(pressed := true) else s.(which := None, pressed := false)
  }

  /** `onStartTrackingTouch`. */
  function StartTracking(s: Seek): (t: Seek)
    ensures t.dragging
    ensures t.bar.sched.log == s.bar.sched.log + [RefreshQueue.StartTrackingTouch]
    ensures t == s.(dragging := true, bar := s.bar.(sched := s.bar.sched.(log := t.bar.sched.log)))
  {
    Emit(s.(dragging := true), RefreshQueue.StartTrackingTouch)
  }

  /** `onStopTrackingTouch`. */
  function StopTracking(s: Seek): (t: Seek)
    ensures !t.dragging
    ensures t.bar.sched.log == s.bar.sched.log + [RefreshQueue.StopTrackingTouch]
    ensures t == s.(dragging := false, bar := s.bar.(sched := s.bar.sched.(log := t.bar.sched.log)))
  {
    Emit(s.(dragging := false), RefreshQueue.StopTrackingTouch)
  }

  /**
   * `trackTouchEvent`: with both thumbs present, the dragged thumb follows the touch within its
   * drag bound (from the user, not animated); with no thumb chosen nothing moves.
   */
  function Track(s: Seek, ev: MotionEvent, onUiThread: bool): (t: Seek)
    ensures t == s.(bar := t.bar)
    ensures !HasThumbs(s) || s.which == None ==> t == s
    ensures t != s ==> t.bar == s.bar.(start := t.bar.start, end := t.bar.end,
      sched := RefreshQueue.Refresh(s.bar.sched, RefreshQueue.RefreshData(t.bar.start, t.bar.end, true, false), s.bar.max, onUiThread))
  {
    if !HasThumbs(s) then s
    else match s.which
      case Start => ApplyQuantizedProgress(s, DraggedStart(ev.progress, s.bar.end, s.bar.policy), s.bar.end, true, false, onUiThread).0
      case End => ApplyQuantizedProgress(s, s.bar.start, DraggedEnd(ev.progress, s.bar.start, s.bar.max, s.bar.policy), true, false, onUiThread).0
      case None => s
  }

  /**
   * `startDrag`: without both thumbs nothing happens; otherwise the nearest thumb is chosen,
   * the view is pressed, tracking starts and the touch is tracked once.
   */
  function DragStart(s: Seek, ev: MotionEvent, onUiThread: bool): (t: Seek)
    ensures !HasThumbs(s) ==> t == s
    ensures HasThumbs(s) ==> t == s.(which := NearestThumb(s.startThumb, s.endThumb, ev.x, ev.y), pressed := true, dragging := true, bar := t.bar)
    ensures t.bar.max == s.bar.max && t.bar.policy == s.bar.policy
    ensures HasThumbs(s) ==> |s.bar.sched.log| < |t.bar.sched.log| <= |s.bar.sched.log| + 2
    ensures HasThumbs(s) ==> t.bar.sched.log[..|s.bar.sched.log| + 1] == s.bar.sched.log + [RefreshQueue.StartTrackingTouch]
  {
    if !HasThumbs(s) then s
    else
      var u := StartTracking(ApplyPressed(s.(which := NearestThumb(s.startThumb, s.endThumb, ev.x, ev.y)), true));
      TrackLogsAtMostOnce(u, ev, onUiThread);
      Track(u, ev, onUiThread)
  }

  /**
   * `onTouchEvent`: ignored (`false`) unless the bar is user-seekable and enabled; otherwise
   * every event is claimed (`true`). Inside a scrolling container a press only records its `x`
   * and a drag starts once the touch moves past the slop; a release without a drag is the
   * tap-seek path, which ends with `performClick`.
   */
  function TouchEvent(s: Seek, ev: MotionEvent, inScrollingContainer: bool, onUiThread: bool): (r: (Seek, bool))
    ensures r.1 <==> s.userSeekable && s.enabled
    ensures !r.1 ==> r.0 == s
  {
    if !s.userSeekable || !s.enabled then (s, false)
    else
      var t := match ev.action
        case Down => if inScrollingContainer then s.(touchDownX := ev.x) else DragStart(s, ev, onUiThread)
        case Move =>
          if s.dragging then Track(s, ev, onUiThread)
          else if JavaArith.AbsReal(ev.x - s.touchDownX) > s.touchSlop as real then DragStart(s, ev, onUiThread)
          else s
        case Up =>
          if s.dragging then ApplyPressed(StopTracking(Track(s, ev, onUiThread)), false)
          else Emit(StopTracking(Track(StartTracking(s), ev, onUiThread)), RefreshQueue.Click)
        case Cancel => if s.dragging then ApplyPressed(StopTracking(s), false) else s
        case OtherAction => s;
      (t, true)
  }

  /**
   * `onKeyDown`: when enabled, a range key asks for the range widened or narrowed by the key
   * increment (from the user, animated); the key is consumed only if the stored range changed,
   * and otherwise goes on to `View.onKeyDown` with nothing changed.
   */
  function KeyDown(s: Seek, keyCode: int, onUiThread: bool): (r: (Seek, KeyOutcome))
    ensures r.1 == PassedToView ==> r.0 == s
  {
    if s.enabled && (Keys.NarrowsRange(keyCode) || Keys.WidensRange(keyCode)) then
      var rq := Keys.KeyRequest(keyCode, s.keyIncrement, s.bar.start, s.bar.end);
      var q := ApplyQuantizedProgress(s, rq.0, rq.1, true, true, onUiThread);
      if q.1 then (q.0, Consumed) else (s, PassedToView)
    else (s, PassedToView)
  }

  /**
   * `RangeSeekBar.setMinMaxStepSize`: stores the gap rounded to the step grid as
   * `SeekBarMinGap` says, and leaves the boundaries alone. The raw gap is stored before the
   * remainder is taken, so with a zero step the raw gap stays behind the exception.
   */
  function ApplySeekMinGap(s: Seek, value: int): (r: (Seek, Wrappers.Outcome<Wrappers.JavaException>))
    ensures r.0 == s.(bar := s.bar.(policy := s.bar.policy.(minGap := r.0.bar.policy.minGap)))
    ensures r.1.Pass? <==> RangeModel.SeekBarMinGap(value, s.stepSize).Success?
    ensures r.1.Pass? ==> r.0.bar.policy.minGap == RangeModel.SeekBarMinGap(value, s.stepSize).value
    ensures r.1.Fail? ==> r.1.error == Wrappers.ArithmeticException && r.0.bar.policy.minGap == value
  {
    match RangeModel.SeekBarMinGap(value, s.stepSize)
    case Success(g) => (s.(bar := s.bar.(policy := s.bar.policy.(minGap := g))), Wrappers.Pass)
    case Failure(e) => (s.(bar := s.bar.(policy := s.bar.policy.(minGap := value))), Wrappers.Fail(e))
  }

  /**
   * `setStepSize`: stores the step, re-rounds the gap to it (which may throw), then re-sets the
   * current range so that it is quantized to the new step.
   */
  function ApplyStepSize(s: Seek, value: int, onUiThread: bool): (r: (Seek, Wrappers.Outcome<Wrappers.JavaException>))
    ensures r.0.stepSize == value
    ensures r.1 == ApplySeekMinGap(s.(stepSize := value), s.bar.policy.minGap).1
    ensures r.1.Fail? ==> r.0 == ApplySeekMinGap(s.(stepSize := value), s.bar.policy.minGap).0
    ensures r.1.Pass? ==> r.0.bar.policy.minGap == RangeModel.SeekBarMinGap(s.bar.policy.minGap, value).value
    ensures r.1.Pass? ==> (r.0.bar.start, r.0.bar.end) == RangeModel.Normalize(RangeModel.Quantize(s.bar.start, value), RangeModel.Quantize(s.bar.end, value), s.bar.max)
  {
    var g := ApplySeekMinGap(s.(stepSize := value), s.bar.policy.minGap);
    if g.1.Fail? then g
    else (ApplyQuantizedProgress(g.0, g.0.bar.start, g.0.bar.end, false, false, onUiThread).0, Wrappers.Pass)
  }

  /** `RangeSeekBar.setMax`: the base `setMax`, then the key increment is re-derived from the new `max`. */
  function ApplySeekMax(s: Seek, newMax: int, onUiThread: bool): (r: Seek)
    requires s.keyIncrement >= 0
    ensures r == s.(bar := ApplyMax(s.bar, newMax, onUiThread), keyIncrement := r.keyIncrement)
    ensures r.keyIncrement == Keys.KeyIncrementAfterSetMax(s.keyIncrement, r.bar.max)
  {
    var b := ApplyMax(s.bar, newMax, onUiThread);
    s.(bar := b, keyIncrement := Keys.KeyIncrementAfterSetMax(s.keyIncrement, b.max))
  }

  /** `RangeSeekBar.setInitialProgress`: only records the range, as `InitialProgress` bounds it. */
  function ApplyInitialProgress(s: Seek, startProgress: int, endProgress: int): (r: Seek)
    ensures (r.initialStart, r.initialEnd) == RangeModel.InitialProgress(s.bar.policy, startProgress, endProgress)
    ensures r == s.(initialStart := r.initialStart, initialEnd := r.initialEnd)
  {
    var p := RangeModel.InitialProgress(s.bar.policy, startProgress, endProgress);
    s.(initialStart := p.0, initialEnd := p.1)
  }

  /** `setThumb`: sets or clears one drawable; any `which` other than `Start` names the end thumb. */
  function ApplyThumb(s: Seek, present: bool, which: WhichThumb): (r: Seek)
    ensures which == Start ==> r == s.(hasStartThumb := present)
    ensures which != Start ==> r == s.(hasEndThumb := present)
  {
    if which == Start then s.(hasStartThumb := present) else s.(hasEndThumb := present)
  }

  // ---------------------------------------------------------------------------------------
  // Properties of the seek bar's operations

  /** A touch event, whatever it is, keeps the seek bar valid: in particular a thumb is chosen exactly while dragging. */
  lemma TouchEventPreservesValid(s: Seek, ev: MotionEvent, inScrollingContainer: bool, onUiThread: bool)
    requires ValidSeek(s)
    ensures ValidSeek(TouchEvent(s, ev, inScrollingContainer, onUiThread).0)
  {
    if s.userSeekable && s.enabled {
      match ev.action
      case Down =>
        if !inScrollingContainer {
          DragStartPreservesValid(s, ev, onUiThread);
        }
      case Move =>
        if s.dragging {
          TrackPreservesValid(s, ev, onUiThread);
        } else {
          DragStartPreservesValid(s, ev, onUiThread);
        }
      case Up =>
        if s.dragging {
          TrackPreservesValid(s, ev, onUiThread);
        } else {
          assert Track(StartTracking(s), ev, onUiThread) == StartTracking(s);
        }
      case Cancel =>
      case OtherAction =>
    }
  }

  lemma DragStartPreservesValid(s: Seek, ev: MotionEvent, onUiThread: bool)
    requires ValidSeek(s)
    ensures ValidSeek(DragStart(s, ev, onUiThread))
  {
    if HasThumbs(s) {
      var t := StartTracking(ApplyPressed(s.(which := NearestThumb(s.startThumb, s.endThumb, ev.x, ev.y)), true));
      assert ValidSeek(t);
      TrackPreservesValid(t, ev, onUiThread);
    }
  }

  /** Tracking a touch moves at most the range, and keeps the bar valid. */
  lemma TrackPreservesValid(s: Seek, ev: MotionEvent, onUiThread: bool)
    requires ValidBar(s.bar)
    ensures ValidBar(Track(s, ev, onUiThread).bar)
  {
    if HasThumbs(s) && s.which == Start {
      ApplyProgressOrders(s.bar, RangeModel.Quantize(DraggedStart(ev.progress, s.bar.end, s.bar.policy), s.stepSize), RangeModel.Quantize(s.bar.end, s.stepSize), true, false, onUiThread);
    } else if HasThumbs(s) && s.which == End {
      ApplyProgressOrders(s.bar, RangeModel.Quantize(s.bar.start, s.stepSize), RangeModel.Quantize(DraggedEnd(ev.progress, s.bar.start, s.bar.max, s.bar.policy), s.stepSize), true, false, onUiThread);
    }
  }

  /** Setting the range through the quantizing setter keeps the bar valid and leaves it ordered. */
  lemma QuantizedProgressPreservesValid(s: Seek, startValue: int, endValue: int, fromUser: bool, animate: bool, onUiThread: bool)
    requires ValidBar(s.bar)
    ensures var t := ApplyQuantizedProgress(s, startValue, endValue, fromUser, animate, onUiThread).0;
      ValidBar(t.bar) && Ordered(t.bar)
  {
    ApplyProgressOrders(s.bar, RangeModel.Quantize(startValue, s.stepSize), RangeModel.Quantize(endValue, s.stepSize), fromUser, animate, onUiThread);
  }

  /**
   * A public `setPressed(false)` in the middle of a drag forgets the thumb but leaves the drag
   * running, so the state no longer satisfies `DragConsistent`.
   */
  lemma UnpressMidDragBreaksConsistency(s: Seek)
    requires s.dragging
    ensures var t := ApplyPressed(s, false); t.dragging && t.which == None && !DragConsistent(t)
  {
  }

  /** A touch is ignored, and not claimed, unless the bar is user-seekable and enabled. */
  lemma TouchIgnoredUnlessSeekable(s: Seek, ev: MotionEvent, inScrollingContainer: bool, onUiThread: bool)
    requires !s.userSeekable || !s.enabled
    ensures TouchEvent(s, ev, inScrollingContainer, onUiThread) == (s, false)
  {
  }

  /**
   * A press outside a scrolling container, with both thumbs present, starts a drag of the
   * nearest thumb: the view is pressed, the listener hears `onStartTrackingTouch` first, and
   * then at most one progress change.
   */
  lemma PressStartsDrag(s: Seek, ev: MotionEvent, onUiThread: bool)
    requires s.userSeekable && s.enabled && HasThumbs(s) && ev.action == Down
    ensures var t := TouchEvent(s, ev, false, onUiThread).0;
      && t.dragging && t.pressed
      && t.which == NearestThumb(s.startThumb, s.endThumb, ev.x, ev.y)
      && |s.bar.sched.log| < |t.bar.sched.log| <= |s.bar.sched.log| + 2
      && t.bar.sched.log[|s.bar.sched.log|] == RefreshQueue.StartTrackingTouch
  {
    var u := StartTracking(ApplyPressed(s.(which := NearestThumb(s.startThumb, s.endThumb, ev.x, ev.y)), true));
    TrackLogsAtMostOnce(u, ev, onUiThread);
  }

  /** Tracking a touch adds at most one notification, and keeps what was logged before. */
  lemma TrackLogsAtMostOnce(s: Seek, ev: MotionEvent, onUiThread: bool)
    ensures var t := Track(s, ev, onUiThread);
      && |s.bar.sched.log| <= |t.bar.sched.log| <= |s.bar.sched.log| + 1
      && t.bar.sched.log[..|s.bar.sched.log|] == s.bar.sched.log
  {
    var t := Track(s, ev, onUiThread);
    if t != s {
      var b := s.bar;
      var rd := RefreshQueue.RefreshData(t.bar.start, t.bar.end, true, false);
      assert t.bar.sched == RefreshQueue.Refresh(b.sched, rd, b.max, onUiThread);
    }
  }

  /** A press inside a scrolling container only records where it landed; no drag starts yet. */
  lemma PressInScrollingContainerRecordsX(s: Seek, ev: MotionEvent, onUiThread: bool)
    requires s.userSeekable && s.enabled && ev.action == Down
    ensures TouchEvent(s, ev, true, onUiThread) == (s.(touchDownX := ev.x), true)
  {
  }

  /**
   * A press held in a scrolling container that moves past the slop becomes a drag; one that
   * stays within the slop changes nothing.
   */
  lemma MoveBeyondSlopStartsDrag(s: Seek, ev: MotionEvent, inScrollingContainer: bool, onUiThread: bool)
    requires s.userSeekable && s.enabled && HasThumbs(s) && !s.dragging && ev.action == Move
    ensures var t := TouchEvent(s, ev, inScrollingContainer, onUiThread).0;
      && (JavaArith.AbsReal(ev.x - s.touchDownX) > s.touchSlop as real ==> t.dragging && t.which != None)
      && (JavaArith.AbsReal(ev.x - s.touchDownX) <= s.touchSlop as real ==> t == s)
  {
  }

  /**
   * The tap-seek path moves no thumb: with no drag in progress no thumb is chosen, so
   * `trackTouchEvent` does nothing and a release only reports start, stop and click.
   */
  lemma TapSeekMovesNothing(s: Seek, ev: MotionEvent, inScrollingContainer: bool, onUiThread: bool)
    requires ValidSeek(s) && s.userSeekable && s.enabled && !s.dragging && ev.action == Up
    ensures var t := TouchEvent(s, ev, inScrollingContainer, onUiThread).0;
      && t.bar == s.bar.(sched := s.bar.sched.(log := s.bar.sched.log + [RefreshQueue.StartTrackingTouch, RefreshQueue.StopTrackingTouch, RefreshQueue.Click]))
      && t == s.(bar := t.bar)
  {
  }

  /** A release or a cancel always ends the gesture; ending a real drag also un-presses the view. */
  lemma ReleaseEndsDrag(s: Seek, ev: MotionEvent, inScrollingContainer: bool, onUiThread: bool)
    requires ValidSeek(s) && s.userSeekable && s.enabled && (ev.action == Up || ev.action == Cancel)
    ensures var t := TouchEvent(s, ev, inScrollingContainer, onUiThread).0;
      !t.dragging && t.which == None && (s.dragging ==> !t.pressed)
  {
  }

  /**
   * While the start thumb is dragged, a move keeps the end where it is and the start within
   * `[0, getProgressStartMaxValue()]`, so the gap (or the start boundary) is never violated.
   */
  lemma DragOfStartRespectsBound(s: Seek, ev: MotionEvent, inScrollingContainer: bool, onUiThread: bool)
    requires s.userSeekable && s.enabled && HasThumbs(s) && s.dragging && s.which == Start && ev.action == Move
    requires Ordered(s.bar)
    requires 0 <= RangeModel.StartMaxValue(s.bar.policy, s.bar.end) <= s.bar.end
    requires s.stepSize <= 1 || (RangeModel.StartMaxValue(s.bar.policy, s.bar.end) % s.stepSize == 0 && s.bar.end % s.stepSize == 0)
    ensures var t := TouchEvent(s, ev, inScrollingContainer, onUiThread).0;
      t.bar.end == s.bar.end && 0 <= t.bar.start <= RangeModel.StartMaxValue(s.bar.policy, s.bar.end)
  {
    StartDragRespectsBound(ev.progress, s.bar.start, s.bar.end, s.bar.max, s.stepSize, s.bar.policy);
  }

  /**
   * While the end thumb is dragged, a move keeps the start where it is and the end within
   * `[getProgressEndMinValue(), max]`.
   */
  lemma DragOfEndRespectsBound(s: Seek, ev: MotionEvent, inScrollingContainer: bool, onUiThread: bool)
    requires s.userSeekable && s.enabled && HasThumbs(s) && s.dragging && s.which == End && ev.action == Move
    requires Ordered(s.bar)
    requires s.bar.start <= RangeModel.EndMinValue(s.bar.policy, s.bar.start) <= s.bar.max
    requires s.stepSize <= 1 || (RangeModel.EndMinValue(s.bar.policy, s.bar.start) % s.stepSize == 0 && s.bar.start % s.stepSize == 0)
    ensures var t := TouchEvent(s, ev, inScrollingContainer, onUiThread).0;
      t.bar.start == s.bar.start && RangeModel.EndMinValue(s.bar.policy, s.bar.start) <= t.bar.end <= s.bar.max
  {
    EndDragRespectsBound(ev.progress, s.bar.start, s.bar.end, s.bar.max, s.stepSize, s.bar.policy);
  }

  /** A key is consumed exactly when it is a range key, the bar is enabled and the stored range changed. */
  lemma KeyDownConsumedIffChanged(s: Seek, keyCode: int, onUiThread: bool)
    ensures var r := KeyDown(s, keyCode, onUiThread);
      && (r.1 == Consumed <==>
            s.enabled && (Keys.NarrowsRange(keyCode) || Keys.WidensRange(keyCode)) && (r.0.bar.start, r.0.bar.end) != (s.bar.start, s.bar.end))
      && r.0.bar.max == s.bar.max
  {
  }

  /**
   * Without a step, a widening key is consumed exactly when the increment is positive and the
   * range does not already span the track, and then it never shrinks the range.
   */
  lemma WideningKeyDown(s: Seek, keyCode: int, onUiThread: bool)
    requires s.enabled && Keys.WidensRange(keyCode) && s.stepSize <= 1 && s.keyIncrement >= 0 && Ordered(s.bar)
    ensures var r := KeyDown(s, keyCode, onUiThread);
      && (r.1 == Consumed <==> s.keyIncrement > 0 && (s.bar.start > 0 || s.bar.end < s.bar.max))
      && r.0.bar.start <= s.bar.start && s.bar.end <= r.0.bar.end
  {
    Keys.WideningKey(keyCode, s.keyIncrement, s.bar.start, s.bar.end, s.bar.max);
  }

  /**
   * After `setStepSize` with a step above 1 that divides `max`, the stored range lies on the
   * step grid.
   */
  lemma StepSizeRegridsRange(s: Seek, value: int, onUiThread: bool)
    requires ValidBar(s.bar) && value > 1 && s.bar.max % value == 0
    ensures var r := ApplyStepSize(s, value, onUiThread);
      r.1.Pass? && r.0.bar.start % value == 0 && r.0.bar.end % value == 0
  {
    var g := ApplySeekMinGap(s.(stepSize := value), s.bar.policy.minGap);
    RangeModel.QuantizedRangeOnGrid(g.0.bar.start, g.0.bar.end, g.0.bar.max, value);
  }

  /**
   * A zero step with a nonzero gap throws out of `setStepSize` before the range is re-set, and
   * leaves the raw gap stored.
   */
  lemma ZeroStepThrows(s: Seek, onUiThread: bool)
    requires s.bar.policy.minGap != 0
    ensures var r := ApplyStepSize(s, 0, onUiThread);
      r.1 == Wrappers.Fail(Wrappers.ArithmeticException) && r.0 == s.(stepSize := 0)
  {
  }

  /** Unlike the base setter, the seek bar's gap setter keeps the boundaries, which still decide the drag bounds. */
  lemma SeekGapKeepsBoundaries(s: Seek, value: int, end: int)
    requires s.bar.policy.startMaxValue != -1
    ensures RangeModel.StartMaxValue(ApplySeekMinGap(s, value).0.bar.policy, end) == s.bar.policy.startMaxValue
  {
  }

  // ---------------------------------------------------------------------------------------

  /**
   * The seek bar's own XML attributes: the step (1 when absent) and the three thumb attributes.
   * A thumb attribute is `None` when absent, and otherwise says whether it resolves to a drawable.
   */
  datatype SeekAttributes = SeekAttributes(stepSize: int, leftThumb: Wrappers.Option<bool>, rightThumb: Wrappers.Option<bool>, thumb: Wrappers.Option<bool>)

  /**
   * Whether a thumb drawable is found: the thumb's own attribute when present (even if it
   * resolves to nothing), otherwise the shared `android:thumb`.
   */
  function ThumbFound(own: Wrappers.Option<bool>, shared: Wrappers.Option<bool>): (found: bool)
    ensures own.Some? ==> found == own.value
    ensures own.None? ==> found == (shared == Wrappers.Some(true))
  {
    if own.Some? then own.value else shared == Wrappers.Some(true)
  }

  /** The gap policy the constructor leaves in the bar before the seek bar re-rounds the gap. */
  function ConstructedPolicy(a: Attributes): RangeModel.GapPolicy
  {
    var p0 := RangeModel.GapPolicy(a.minGap, a.startMaxValue, a.endMinValue);
    match RangeModel.SetBoundaries(p0, a.startMaxValue, a.endMinValue, StoredMax(a.max))
    case Success(p) => p
    case Failure(_) => p0
  }

  class RangeSeekBar {
    const base: RangeProgressBar
    var stepSize: int
    var keyProgressIncrement: int
    var isDragging: bool
    var whichThumb: WhichThumb
    var touchDownX: real
    var pressed: bool
    var isUserSeekable: bool
    var enabled: bool
    var scaledTouchSlop: int
    var hasThumbStart: bool
    var hasThumbEnd: bool
    var thumbStartBounds: Graphics.Rect
    var thumbEndBounds: Graphics.Rect
    var initialStartValue: int
    var initialEndValue: int

    function State(): Seek
      reads this, base
    {
      Seek(base.State(), stepSize, keyProgressIncrement, isDragging, whichThumb, touchDownX, pressed,
           isUserSeekable, enabled, scaledTouchSlop, hasThumbStart, hasThumbEnd,
           thumbStartBounds, thumbEndBounds, initialStartValue, initialEndValue)
    }

    ghost predicate Valid()
      reads this, base
    {
      ValidSeek(State())
    }

    /**
     * The constructor on the UI thread. The base constructor runs first and calls the seek
     * bar's `setMax` and `setInitialProgress`; the seek bar's field initializers then reset the
     * step and the key increment to 1, so the increment `setMax` derived is lost. Then the step
     * attribute is read, the gap is re-rounded to it and the recorded initial range is set. No
     * listener can be registered yet, so nothing is reported. Boundaries or a step the Java
     * constructor would throw on are excluded.
     */
    constructor (a: Attributes, sa: SeekAttributes, touchSlop: int)
      requires RangeModel.SetBoundaries(RangeModel.GapPolicy(a.minGap, a.startMaxValue, a.endMinValue), a.startMaxValue, a.endMinValue, StoredMax(a.max)).Success?
      requires RangeModel.SeekBarMinGap(ConstructedPolicy(a).minGap, sa.stepSize).Success?
      ensures fresh(base)
      ensures !isDragging && whichThumb == None && !pressed && isUserSeekable && enabled
      ensures hasThumbStart == ThumbFound(sa.leftThumb, sa.thumb)
      ensures hasThumbEnd == ThumbFound(sa.rightThumb, sa.thumb)
      ensures stepSize == sa.stepSize && keyProgressIncrement == 1
      ensures (initialStartValue, initialEndValue) == RangeModel.InitialProgress(ConstructedPolicy(a), a.startValue, a.endValue)
      ensures base.max == StoredMax(a.max)
      ensures base.Policy() == ConstructedPolicy(a).(minGap := RangeModel.SeekBarMinGap(ConstructedPolicy(a).minGap, sa.stepSize).value)
      ensures (base.start, base.end) == RangeModel.Normalize(RangeModel.Quantize(initialStartValue, stepSize), RangeModel.Quantize(initialEndValue, stepSize), base.max)
      ensures base.log == [] && base.refreshData == [] && !base.attached
      ensures Valid()
    {
      base := new RangeProgressBar.Bare(a);
      stepSize, keyProgressIncrement := 0, 0;
      isDragging, whichThumb, touchDownX, pressed := false, None, 0.0, false;
      isUserSeekable, enabled, scaledTouchSlop := false, true, 0;
      hasThumbStart, hasThumbEnd := ThumbFound(sa.leftThumb, sa.thumb), ThumbFound(sa.rightThumb, sa.thumb);
      thumbStartBounds, thumbEndBounds := Graphics.Rect(0, 0, 0, 0), Graphics.Rect(0, 0, 0, 0);
      initialStartValue, initialEndValue := 0, 0;
      new;
      ConstructBase(a);
      ReadStepAttribute(sa.stepSize);
      scaledTouchSlop := touchSlop;
      ShowInitialRange();
    }

    /**
     * The seek bar's own constructor after `super()`: the field initializers reset the step,
     * the key increment, the dragged thumb and seekability, then the step attribute is read
     * and the gap is re-rounded to it.
     */
    method ReadStepAttribute(stepAttr: int)
      requires RangeModel.SeekBarMinGap(base.minGap, stepAttr).Success?
      modifies this, base
      ensures State() == old(State()).(bar := old(State()).bar.(policy := old(State()).bar.policy.(minGap := RangeModel.SeekBarMinGap(old(base.minGap), stepAttr).value)),
                                       stepSize := stepAttr, keyIncrement := 1, which := None, userSeekable := true)
    {
      stepSize, keyProgressIncrement, whichThumb, isUserSeekable := 1, 1, None, true;
      stepSize := stepAttr;
      var o := SetMinMaxStepSize(base.minGap);
    }

    /**
     * The part of construction the base constructor performs on a seek bar: the seek bar's
     * `setMax`, the boundaries, and the seek bar's `setInitialProgress`.
     */
    method ConstructBase(a: Attributes)
      requires base.State() == Bar(100, 0, 100, RangeModel.GapPolicy(a.minGap, a.startMaxValue, a.endMinValue),
                                   RefreshQueue.Scheduler([], false, false, false, 0.0, 0.0, []))
      requires keyProgressIncrement >= 0
      requires RangeModel.SetBoundaries(RangeModel.GapPolicy(a.minGap, a.startMaxValue, a.endMinValue), a.startMaxValue, a.endMinValue, StoredMax(a.max)).Success?
      modifies this, base
      ensures base.max == StoredMax(a.max) && base.Policy() == ConstructedPolicy(a)
      ensures ValidBar(base.State()) && base.refreshData == [] && !base.attached
      ensures (initialStartValue, initialEndValue) == RangeModel.InitialProgress(ConstructedPolicy(a), a.startValue, a.endValue)
      ensures isDragging == old(isDragging) && pressed == old(pressed) && enabled == old(enabled)
      ensures hasThumbStart == old(hasThumbStart) && hasThumbEnd == old(hasThumbEnd)
    {
      SetMax(a.max, true);
      assert base.max == StoredMax(a.max) && base.start == 0 && base.refreshData == [] && !base.attached && !base.refreshIsPosted;
      var o := base.SetProgressStartEndBoundaries(a.startMaxValue, a.endMinValue);
      assert base.Policy() == ConstructedPolicy(a);
      SetInitialProgress(a.startValue, a.endValue);
    }

    /**
     * The constructor's last step, `setProgress(mInitialStartValue, mInitialEndValue)` on the UI
     * thread; no listener can be registered yet, so nothing is reported.
     */
    method ShowInitialRange()
      requires ValidBar(base.State())
      modifies base
      ensures ValidBar(base.State())
      ensures (base.start, base.end) == RangeModel.Normalize(RangeModel.Quantize(initialStartValue, stepSize), RangeModel.Quantize(initialEndValue, stepSize), base.max)
      ensures base.max == old(base.max) && base.Policy() == old(base.Policy())
      ensures base.refreshData == old(base.refreshData) && base.attached == old(base.attached) && base.log == []
    {
      ghost var s0 := State();
      SetProgress(initialStartValue, initialEndValue, true);
      QuantizedProgressPreservesValid(s0, initialStartValue, initialEndValue, false, false, true);
      base.log := [];
    }

    /** `RangeSeekBar.setProgressInternal`. */
    method SetProgressInternal(startValue: int, endValue: int, fromUser: bool, animate: bool, onUiThread: bool) returns (changed: bool)
      modifies base
      ensures (State(), changed) == ApplyQuantizedProgress(old(State()), startValue, endValue, fromUser, animate, onUiThread)
    {
      var s, e := startValue, endValue;
      if stepSize > 1 {
        var remainderStart := JavaArith.Rem(s, stepSize);
        if remainderStart > 0 {
          if (remainderStart as real) / (stepSize as real) > 0.5 {
            s := s + (stepSize - remainderStart);
          } else {
            s := s - remainderStart;
          }
        }
        var remainderEnd := JavaArith.Rem(e, stepSize);
        if remainderEnd > 0 {
          if (remainderEnd as real) / (stepSize as real) > 0.5 {
            e := e + (stepSize - remainderEnd);
          } else {
            e := e - remainderEnd;
          }
        }
      }
      assert s == RangeModel.Quantize(startValue, stepSize) && e == RangeModel.Quantize(endValue, stepSize);
      changed := base.SetProgressInternal(s, e, fromUser, animate, onUiThread);
    }

    /** `setProgress(start, end)`, which dispatches to the quantizing `setProgressInternal`. */
    method SetProgress(startValue: int, endValue: int, onUiThread: bool)
      modifies base
      ensures State() == ApplyQuantizedProgress(old(State()), startValue, endValue, false, false, onUiThread).0
    {
      var _ := SetProgressInternal(startValue, endValue, false, false, onUiThread);
    }

    /** `setProgress(start, end, animate)`. */
    method SetProgressAnimated(startValue: int, endValue: int, animate: bool, onUiThread: bool)
      modifies base
      ensures State() == ApplyQuantizedProgress(old(State()), startValue, endValue, false, animate, onUiThread).0
    {
      var _ := SetProgressInternal(startValue, endValue, false, animate, onUiThread);
    }

    /** `incrementEndValueBy`. */
    method IncrementEndValueBy(diff: int, onUiThread: bool)
      modifies base
      ensures State() == ApplyQuantizedProgress(old(State()), old(base.start), old(base.end) + diff, false, false, onUiThread).0
    {
      SetProgress(base.start, base.end + diff, onUiThread);
    }

    /** `RangeSeekBar.setInitialProgress`. */
    method SetInitialProgress(startProgress: int, endProgress: int)
      modifies this
      ensures State() == ApplyInitialProgress(old(State()), startProgress, endProgress)
    {
      var s, e := startProgress, endProgress;
      if base.startMaxValue != -1 || base.endMinValue != -1 {
        if base.startMaxValue != -1 {
          s := if s < base.startMaxValue then s else base.startMaxValue;
        }
        if base.endMinValue != -1 {
          e := if e > base.endMinValue then e else base.endMinValue;
        }
      }
      initialStartValue := s;
      initialEndValue := e;
    }

    /** `RangeSeekBar.setMinMaxStepSize`. */
    method SetMinMaxStepSize(value: int) returns (o: Wrappers.Outcome<Wrappers.JavaException>)
      modifies base
      ensures (State(), o) == ApplySeekMinGap(old(State()), value)
    {
      base.minGap := value;
      if base.minGap != 0 {
        if stepSize == 0 {
          return Wrappers.Fail(Wrappers.ArithmeticException);
        }
        if JavaArith.Rem(base.minGap, stepSize) != 0 {
          var rounded := base.minGap - JavaArith.Rem(base.minGap, stepSize);
          base.minGap := if stepSize > rounded then stepSize else rounded;
        }
      }
      return Wrappers.Pass;
    }

    /** `setStepSize`. */
    method SetStepSize(value: int, onUiThread: bool) returns (o: Wrappers.Outcome<Wrappers.JavaException>)
      modifies this, base
      ensures (State(), o) == ApplyStepSize(old(State()), value, onUiThread)
    {
      stepSize := value;
      o := SetMinMaxStepSize(base.minGap);
      if o.Fail? {
        return;
      }
      SetProgress(base.start, base.end, onUiThread);
    }

    /** `setKeyProgressIncrement`. */
    method SetKeyProgressIncrement(increment: int)
      modifies this
      ensures State() == old(State()).(keyIncrement := Keys.KeyIncrement(increment))
    {
      keyProgressIncrement := if increment < 0 then -increment else increment;
    }

    /** `RangeSeekBar.setMax`. */
    method SetMax(newMax: int, onUiThread: bool)
      requires keyProgressIncrement >= 0
      modifies this, base
      ensures State() == ApplySeekMax(old(State()), newMax, onUiThread)
    {
      base.SetMax(newMax, onUiThread);
      if keyProgressIncrement == 0 || base.max / keyProgressIncrement > 20 {
        Keys.Twentieth(base.max);
        SetKeyProgressIncrement(base.max / 20);
      }
    }

    /** `setThumb`, as far as it decides whether the thumb is present. */
    method SetThumb(present: bool, which: WhichThumb)
      modifies this
      ensures State() == ApplyThumb(old(State()), present, which)
    {
      if which == Start {
        hasThumbStart := present;
      } else {
        hasThumbEnd := present;
      }
    }

    /** The thumb bounds as layout (`setThumbPos`) leaves them. */
    method SetThumbBounds(startBounds: Graphics.Rect, endBounds: Graphics.Rect)
      modifies this
      ensures State() == old(State()).(startThumb := startBounds, endThumb := endBounds)
    {
      thumbStartBounds, thumbEndBounds := startBounds, endBounds;
    }

    /** `View.setEnabled`. */
    method SetEnabled(value: bool)
      modifies this
      ensures State() == old(State()).(enabled := value)
    {
      enabled := value;
    }

    /** `RangeSeekBar.setPressed`. */
    method SetPressed(value: bool)
      modifies this
      ensures State() == ApplyPressed(old(State()), value)
    {
      if !value {
        whichThumb := None;
      }
      pressed := value;
    }

    /** `onStartTrackingTouch`. */
    method OnStartTrackingTouch()
      modifies this, base
      ensures State() == StartTracking(old(State()))
    {
      isDragging := true;
      base.log := base.log + [RefreshQueue.StartTrackingTouch];
    }

    /** `onStopTrackingTouch`. */
    method OnStopTrackingTouch()
      modifies this, base
      ensures State() == StopTracking(old(State()))
    {
      isDragging := false;
      base.log := base.log + [RefreshQueue.StopTrackingTouch];
    }

    /** `View.performClick`, as far as the listener sees it. */
    method PerformClick()
      modifies base
      ensures State() == Emit(old(State()), RefreshQueue.Click)
    {
      base.log := base.log + [RefreshQueue.Click];
    }

    /** `trackTouchEvent`. */
    method TrackTouchEvent(ev: MotionEvent, onUiThread: bool)
      modifies base
      ensures State() == Track(old(State()), ev, onUiThread)
    {
      if !hasThumbStart || !hasThumbEnd {
        return;
      }
      if whichThumb == Start {
        var progress := MathUtils.ConstrainReal(ev.progress, 0.0, base.GetProgressStartMaxValue() as real);
        var _ := SetProgressInternal(JavaArith.Round(progress), base.end, true, false, onUiThread);
      } else if whichThumb == End {
        var progress := MathUtils.ConstrainReal(ev.progress, base.GetProgressEndMinValue() as real, base.max as real);
        var _ := SetProgressInternal(base.start, JavaArith.Round(progress), true, false, onUiThread);
      }
    }

    /** `startDrag`. */
    method StartDrag(ev: MotionEvent, onUiThread: bool)
      modifies this, base
      ensures State() == DragStart(old(State()), ev, onUiThread)
    {
      if !hasThumbStart || !hasThumbEnd {
        return;
      }
      whichThumb := NearestThumb(thumbStartBounds, thumbEndBounds, ev.x, ev.y);
      SetPressed(true);
      OnStartTrackingTouch();
      TrackTouchEvent(ev, onUiThread);
    }

    /** `onTouchEvent`; whether the view sits in a scrolling container is a parameter. */
    method OnTouchEvent(ev: MotionEvent, inScrollingContainer: bool, onUiThread: bool) returns (handled: bool)
      modifies this, base
      ensures (State(), handled) == TouchEvent(old(State()), ev, inScrollingContainer, onUiThread)
    {
      if !isUserSeekable || !enabled {
        return false;
      }
      match ev.action {
        case Down =>
          if inScrollingContainer {
            touchDownX := ev.x;
          } else {
            StartDrag(ev, onUiThread);
          }
        case Move =>
          if isDragging {
            TrackTouchEvent(ev, onUiThread);
          } else if JavaArith.AbsReal(ev.x - touchDownX) > scaledTouchSlop as real {
            StartDrag(ev, onUiThread);
          }
        case Up =>
          if isDragging {
            TrackTouchEvent(ev, onUiThread);
            OnStopTrackingTouch();
            SetPressed(false);
          } else {
            OnStartTrackingTouch();
            TrackTouchEvent(ev, onUiThread);
            OnStopTrackingTouch();
            PerformClick();
          }
        case Cancel =>
          if isDragging {
            OnStopTrackingTouch();
            SetPressed(false);
          }
        case OtherAction =>
      }
      return true;
    }

    /** `onKeyDown`; `View.onKeyDown`, reached when the key is not consumed, is not modelled. */
    method OnKeyDown(keyCode: int, onUiThread: bool) returns (r: KeyOutcome)
      modifies base
      ensures (State(), r) == KeyDown(old(State()), keyCode, onUiThread)
    {
      ghost var s0 := State();
      if enabled {
        var increment := keyProgressIncrement;
        if keyCode == Keys.KEYCODE_DPAD_LEFT || keyCode == Keys.KEYCODE_MINUS {
          increment := -increment;
        }
        if Keys.NarrowsRange(keyCode) || Keys.WidensRange(keyCode) {
          ghost var rq := Keys.KeyRequest(keyCode, s0.keyIncrement, s0.bar.start, s0.bar.end);
          assert (base.start - increment, base.end + increment) == rq;
          var changed := SetProgressInternal(base.start - increment, base.end + increment, true, true, onUiThread);
          assert (State(), changed) == ApplyQuantizedProgress(s0, rq.0, rq.1, true, true, onUiThread);
          if changed {
            return Consumed;
          }
          assert State() == s0;
        }
      }
      return PassedToView;
    }
  }
}
