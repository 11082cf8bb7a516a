# RangeSeekBar range engine in Dafny

A model of the range-selection engine of the Android `RangeSeekBar` library, with its
rendering removed. The model covers:

- `RangeProgressBar`: the stored range `[start, end]` and `max`, the minimum-gap and boundary
  policy, and the refresh queue that gets range changes onto the UI thread;
- `RangeSeekBar`: step quantization, the thumb hit test, the touch/drag state machine and the
  keyboard increments;
- `MathUtils.constrain`, the tint-mode tables of both `DrawableUtils` files, and
  `canSafelyMutateDrawable` over an abstract drawable tree.

Each operation is modelled twice:

1. A function on a value of the whole state: `ProgressBar.Bar` for the progress bar and
   `SeekBar.Seek` for the seek bar.
2. A method of a class whose fields are the Java fields: `ProgressBar.RangeProgressBar` and
   `SeekBar.RangeSeekBar`. Each method is proved to leave exactly the state the function
   computes.

The properties of the source are lemmas about those functions.

`RangeSeekBar` extends `RangeProgressBar` in Java. In the model it holds its base bar as a
field. Virtual dispatch is modelled by the seek bar's own methods: its `SetProgress` reaches
its quantizing `SetProgressInternal`.

Modules, one per file:

| module | models |
|---|---|
| `Wrappers` | `Option`, `Outcome` and `Result`, plus the Java exceptions the core throws |
| `JavaArith` | Java's truncating `/` and `%`, the `(int)` cast and `Math.round` |
| `MathUtils` | `MathUtils.kt` |
| `Graphics` | the parts of `android.graphics.Rect` the hit test uses |
| `RangeModel` | the clamp, quantization, gap and boundary arithmetic |
| `RefreshQueue` | the refresh scheduling state and its transitions |
| `ProgressBar` | `RangeProgressBar` |
| `Touch` | thumb choice and drag targets |
| `Keys` | key codes and increments |
| `SeekBar` | `RangeSeekBar` |
| `DrawableUtils` | both `DrawableUtils` files |

How the model represents things the view classes get from the Android framework:

- **Thread.** Whether the caller is on the UI thread is a parameter, `onUiThread`.
- **Listener.** What a listener on the bar would hear is an appended log of notifications:
  progress changes, start/stop tracking, and clicks.
- **Scrolling container.** Whether the view sits in a scrolling container is a parameter of
  the touch handler.
- **Touch progress.** A touch event carries the progress value that its pixel position maps
  to.

Behaviour of the code worth knowing:

- **Nearest-thumb tie.** Outside both hit areas, a tie in the nearest-thumb test picks the
  end thumb. The strict `<` at `RangeSeekBar.java:889` decides this.
- **Quantization half.** An exact half rounds down.
- **Order of quantization and clamp.** Quantization happens before the clamp, not after it.
- **No gap enforcement in the setter.** `setProgress` does not enforce the minimum gap. Only
  a drag is bounded by it.
- **`setMax` does not clamp the start.** A range can become inverted: see
  `ProgressBar.ShrinkingMaxInvertsRange`.
- **Missing thumb.** A drag with a thumb missing is a silent no-op. It is not a failure.
- **The seek bar's gap setter.** It neither checks `max` nor resets the boundaries.
- **Tap-seek.** The tap-seek branch of `onTouchEvent` moves no thumb: see
  `SeekBar.TapSeekMovesNothing`.
- **`setPressed(false)` during a drag.** A public `setPressed(false)` in the middle of a drag
  forgets the dragged thumb but leaves `dragging` set (`RangeSeekBar.java:921-929`). The
  resulting state breaks `DragConsistent`, so the touch lemmas that require `ValidSeek` do not
  cover it: see `SeekBar.UnpressMidDragBreaksConsistency`.

The subclass writes its gap to a field spelled `mMinMapStepSize`, while the base class
declares `mMinMaxStepSize`. Both are taken as the one gap field, `GapPolicy.minGap`.

## Model

| member | source | states |
|---|---|---|
| MathUtils.Constrain | rangeseekbar-library/src/main/java/it/sephiroth/android/library/rangeseekbar/MathUtils.kt:4-6 | an amount below `low` gives `low` even when `low > high`; otherwise an amount above `high` gives `high`; with `low <= high` the result lies in `[low, high]`; an amount inside is returned unchanged |
| MathUtils.ConstrainReal | rangeseekbar-library/src/main/java/it/sephiroth/android/library/rangeseekbar/MathUtils.kt:8-10 | the Float overload: below `low` gives `low`, otherwise above `high` gives `high`; with `low <= high` the result lies in `[low, high]`; an amount inside is returned unchanged |
| MathUtils.ConstrainIdempotent | rangeseekbar-library/src/main/java/it/sephiroth/android/library/rangeseekbar/MathUtils.kt:4-6 | with a non-empty interval, clamping twice is clamping once |
| MathUtils.ConstrainIsNearest | rangeseekbar-library/src/main/java/it/sephiroth/android/library/rangeseekbar/MathUtils.kt:4-6 | with a non-empty interval, the result is the point of `[low, high]` nearest to the amount |
| MathUtils.ConstrainRealAgrees | rangeseekbar-library/src/main/java/it/sephiroth/android/library/rangeseekbar/MathUtils.kt:4-10 | the Float overload agrees with the Int overload on integral arguments |
| JavaArith.Div | rangeseekbar-library/src/main/java/it/sephiroth/android/library/rangeseekbar/RangeSeekBar.java:874 | Java `/` truncates toward zero: `|a / b| == |a| / |b|`, the quotient is non-negative when the signs agree and non-positive when they differ, and it is Euclidean division for non-negative operands |
| JavaArith.Rem | rangeseekbar-library/src/main/java/it/sephiroth/android/library/rangeseekbar/RangeSeekBar.java:983 | Java `%` satisfies `a == b * (a / b) + a % b` and takes the sign of `a` |
| JavaArith.Trunc | rangeseekbar-library/src/main/java/it/sephiroth/android/library/rangeseekbar/RangeSeekBar.java:882 | the cast `(int) x` drops the fraction toward zero |
| JavaArith.Round | rangeseekbar-library/src/main/java/it/sephiroth/android/library/rangeseekbar/RangeSeekBar.java:971 | `Math.round` gives the integer within `[-0.5, 0.5)` of its argument, so a half rounds up |
| Graphics.CenterX | rangeseekbar-library/src/main/java/it/sephiroth/android/library/rangeseekbar/RangeSeekBar.java:879-880 | `centerX()` is `(left + right) >> 1`, which rounds down |
| Graphics.HitArea | rangeseekbar-library/src/main/java/it/sephiroth/android/library/rangeseekbar/RangeSeekBar.java:873-877 | each side moves inward by a quarter of the width or height (Java division); the inset keeps the horizontal centre and only removes points from the rectangle |
| Graphics.QuarterInsetShrinks | rangeseekbar-library/src/main/java/it/sephiroth/android/library/rangeseekbar/RangeSeekBar.java:874 | a truncated quarter taken off both sides never widens an extent and keeps an empty one empty |
| RangeModel.Normalize | rangeseekbar-library/src/main/java/it/sephiroth/android/library/rangeseekbar/RangeProgressBar.java:698-699 | with `max >= 0` the stored pair satisfies `0 <= start <= end <= max` for any input; an end inside `[0, max]` is kept; a start above the clamped end is pulled onto it |
| RangeModel.NormalizeKeepsOrderedRange | rangeseekbar-library/src/main/java/it/sephiroth/android/library/rangeseekbar/RangeProgressBar.java:698-699 | a pair already inside `0 <= start <= end <= max` is kept as it is |
| RangeModel.NormalizeIdempotent | rangeseekbar-library/src/main/java/it/sephiroth/android/library/rangeseekbar/RangeProgressBar.java:698-699 | normalizing twice is normalizing once |
| RangeModel.Quantize | rangeseekbar-library/src/main/java/it/sephiroth/android/library/rangeseekbar/RangeSeekBar.java:982-1004 | with a step above 1 a non-negative value lands on a multiple of the step within half a step; a step of at most 1 or a non-positive value is left alone |
| RangeModel.HalfTest | rangeseekbar-library/src/main/java/it/sephiroth/android/library/rangeseekbar/RangeSeekBar.java:986 | the float test `rem / step > 0.5` is `2 * rem > step` |
| RangeModel.QuantizeIsNearestMultiple | rangeseekbar-library/src/main/java/it/sephiroth/android/library/rangeseekbar/RangeSeekBar.java:982-1004 | any multiple of the step in `[value - step/2, value + step/2)` is the quantized value, so the nearest multiple is chosen and an exact half rounds down |
| RangeModel.QuantizeFixesMultiples | rangeseekbar-library/src/main/java/it/sephiroth/android/library/rangeseekbar/RangeSeekBar.java:982-1004 | a non-negative multiple of the step is left where it is |
| RangeModel.QuantizeMonotone | rangeseekbar-library/src/main/java/it/sephiroth/android/library/rangeseekbar/RangeSeekBar.java:982-1004 | on non-negative values quantization preserves order |
| RangeModel.QuantizeExample | rangeseekbar-library/src/main/java/it/sephiroth/android/library/rangeseekbar/RangeSeekBar.java:982-1006 | with step 10 the request (24, 77) is stored as (20, 80); 25 rounds down to 20 and 26 up to 30 |
| RangeModel.QuantizedEndClampedToMax | rangeseekbar-library/src/main/java/it/sephiroth/android/library/rangeseekbar/RangeSeekBar.java:1006 | the clamp runs after the rounding, so with step 10 and max 95 the end 97 is stored as 95, off the grid |
| RangeModel.QuantizedRangeOnGrid | rangeseekbar-library/src/main/java/it/sephiroth/android/library/rangeseekbar/RangeSeekBar.java:982-1006 | when `max` is a multiple of the step, both stored endpoints are multiples of the step for any request |
| RangeModel.StartMaxValue | rangeseekbar-library/src/main/java/it/sephiroth/android/library/rangeseekbar/RangeProgressBar.java:751-756 | the start boundary when set, otherwise the end minus the gap |
| RangeModel.EndMinValue | rangeseekbar-library/src/main/java/it/sephiroth/android/library/rangeseekbar/RangeProgressBar.java:758-763 | the end boundary when set, otherwise the start plus the gap |
| RangeModel.SetBoundaries | rangeseekbar-library/src/main/java/it/sephiroth/android/library/rangeseekbar/RangeProgressBar.java:717-734 | fails with IllegalArgumentException exactly when `startMax > endMin` or `startMax > max`; otherwise stores both values and zeroes the gap unless both are -1 |
| RangeModel.BoundariesDecideDragBounds | rangeseekbar-library/src/main/java/it/sephiroth/android/library/rangeseekbar/RangeProgressBar.java:728-763 | once both boundaries are set they are the drag bounds, start bound first |
| RangeModel.SetBaseMinGap | rangeseekbar-library/src/main/java/it/sephiroth/android/library/rangeseekbar/RangeProgressBar.java:736-749 | fails exactly when the gap exceeds `max`; a nonzero gap resets both boundaries to -1, a zero gap keeps them |
| RangeModel.BaseGapDecidesDragBounds | rangeseekbar-library/src/main/java/it/sephiroth/android/library/rangeseekbar/RangeProgressBar.java:736-763 | after a nonzero base gap each drag bound is the other endpoint shifted by exactly the gap |
| RangeModel.SeekBarMinGap | rangeseekbar-library/src/main/java/it/sephiroth/android/library/rangeseekbar/RangeSeekBar.java:190-199 | zero stays zero; a zero step throws ArithmeticException; a multiple is kept; otherwise a positive gap becomes a positive multiple of the step, either `step` or at most the gap and less than one step below it |
| RangeModel.InitialProgress | rangeseekbar-library/src/main/java/it/sephiroth/android/library/rangeseekbar/RangeSeekBar.java:202-219 | a set start boundary caps the start; the end becomes exactly the larger of the request and a set end boundary; unset boundaries leave each value as given |
| RefreshQueue.Scale | rangeseekbar-library/src/main/java/it/sephiroth/android/library/rangeseekbar/RangeProgressBar.java:622-623 | for `max > 0` the fraction times `max` is the value, so it lies in `[0, 1]` for a value on the track; it is 0 when `max` is not positive |
| RefreshQueue.DoRefresh | rangeseekbar-library/src/main/java/it/sephiroth/android/library/rangeseekbar/RangeProgressBar.java:616-648 | a delivery appends exactly one progress callback and leaves the queue and the flags alone |
| RefreshQueue.Refresh | rangeseekbar-library/src/main/java/it/sephiroth/android/library/rangeseekbar/RangeProgressBar.java:666-684 | on the UI thread the refresh is delivered at once; otherwise it is appended to the queue unreported, and a flush is posted when attached |
| RefreshQueue.DeliverAll | rangeseekbar-library/src/main/java/it/sephiroth/android/library/rangeseekbar/RangeProgressBar.java:574-580 | delivering a list keeps the queue and flags and adds one callback per entry |
| RefreshQueue.Run | rangeseekbar-library/src/main/java/it/sephiroth/android/library/rangeseekbar/RangeProgressBar.java:571-584 | the runnable empties the queue, clears the posted flag, keeps the attachment and runnable flags, and adds one callback per queued refresh |
| RefreshQueue.Attach | rangeseekbar-library/src/main/java/it/sephiroth/android/library/rangeseekbar/RangeProgressBar.java:1027-1040 | attaching empties the queue, marks the view attached, keeps the posted flag, and adds one callback per queued refresh |
| RefreshQueue.Detach | rangeseekbar-library/src/main/java/it/sephiroth/android/library/rangeseekbar/RangeProgressBar.java:1042-1053 | detaching marks the view detached and, once the runnable exists, clears the posted flag; queued refreshes, the log and the visual progress are kept |
| RefreshQueue.DeliverAllNotifiesInOrder | rangeseekbar-library/src/main/java/it/sephiroth/android/library/rangeseekbar/RangeProgressBar.java:574-580 | the flush loop reports every entry exactly once, in queue order |
| RefreshQueue.DeliverAllShowsLastRefresh | rangeseekbar-library/src/main/java/it/sephiroth/android/library/rangeseekbar/RangeProgressBar.java:574-580 | after a flush the visual progress is that of the last entry when it is not animated |
| RefreshQueue.RefreshPreservesInv | rangeseekbar-library/src/main/java/it/sephiroth/android/library/rangeseekbar/RangeProgressBar.java:666-684 | a refresh keeps the scheduling invariant: posted only when attached with a runnable, and while attached posted exactly when something is queued |
| RefreshQueue.RunPreservesInv | rangeseekbar-library/src/main/java/it/sephiroth/android/library/rangeseekbar/RangeProgressBar.java:571-584 | the runnable keeps the scheduling invariant |
| RefreshQueue.AttachPreservesInv | rangeseekbar-library/src/main/java/it/sephiroth/android/library/rangeseekbar/RangeProgressBar.java:1027-1040 | attaching a detached view keeps the scheduling invariant |
| RefreshQueue.DetachPreservesInv | rangeseekbar-library/src/main/java/it/sephiroth/android/library/rangeseekbar/RangeProgressBar.java:1042-1053 | detaching keeps the scheduling invariant |
| RefreshQueue.RunDeliversQueue | rangeseekbar-library/src/main/java/it/sephiroth/android/library/rangeseekbar/RangeProgressBar.java:571-584 | the runnable, and likewise attaching, reports the whole queue in FIFO order and empties it |
| RefreshQueue.EveryRefreshAccountedFor | rangeseekbar-library/src/main/java/it/sephiroth/android/library/rangeseekbar/RangeProgressBar.java:666-684 | each request adds exactly one delivered-or-queued refresh, and flushing or detaching loses none |
| RefreshQueue.OffThreadRefreshesDeliveredOnAttach | rangeseekbar-library/src/main/java/it/sephiroth/android/library/rangeseekbar/RangeProgressBar.java:1027-1040 | three off-thread requests made before attaching are reported on attach as three callbacks in request order |
| RefreshQueue.UiThreadRefreshOvertakesQueue | rangeseekbar-library/src/main/java/it/sephiroth/android/library/rangeseekbar/RangeProgressBar.java:669-670 | a UI-thread request is reported before earlier off-thread requests still queued |
| RefreshQueue.StaleRefreshDrawnPastTrack | rangeseekbar-library/src/main/java/it/sephiroth/android/library/rangeseekbar/RangeProgressBar.java:622-623 | a queued refresh is drawn against `max` at flush time, so (0, 100) flushed after `max` fell to 50 draws the end at 2.0 |
| ProgressBar.ApplyProgress | rangeseekbar-library/src/main/java/it/sephiroth/android/library/rangeseekbar/RangeProgressBar.java:696-711 | the stored pair is the normalized request; an unchanged pair leaves the bar as it was; a changed pair issues exactly one refresh of the stored pair with the caller's `fromUser` and `animate`, and nothing else changes |
| ProgressBar.ApplyMax | rangeseekbar-library/src/main/java/it/sephiroth/android/library/rangeseekbar/RangeProgressBar.java:777-791 | a negative `max` is stored as 0; an unchanged `max` changes nothing; otherwise the end is lowered onto `max` when above it, the start is untouched, and one refresh of the stored pair is issued, not from the user and not animated |
| ProgressBar.ApplyBoundaries | rangeseekbar-library/src/main/java/it/sephiroth/android/library/rangeseekbar/RangeProgressBar.java:717-734 | succeeds exactly when `SetBoundaries` does, storing its policy; on failure reports its exception |
| ProgressBar.ApplyMinGap | rangeseekbar-library/src/main/java/it/sephiroth/android/library/rangeseekbar/RangeProgressBar.java:736-749 | succeeds exactly when the gap does not exceed `max`, storing the base gap policy; otherwise fails with the `IllegalArgumentException` the base setter raises |
| ProgressBar.ApplyProgressOrders | rangeseekbar-library/src/main/java/it/sephiroth/android/library/rangeseekbar/RangeProgressBar.java:696-711 | setting a range always leaves `0 <= start <= end <= max` and keeps the bar valid |
| ProgressBar.ApplyProgressIdempotent | rangeseekbar-library/src/main/java/it/sephiroth/android/library/rangeseekbar/RangeProgressBar.java:701-703 | re-setting the same request reports no change and changes nothing |
| ProgressBar.UiThreadChangeNotifiesOnce | rangeseekbar-library/src/main/java/it/sephiroth/android/library/rangeseekbar/RangeProgressBar.java:696-711 | on the UI thread a change is reported at once as one callback carrying the stored pair, and no change reports nothing |
| ProgressBar.ApplyMaxOrdering | rangeseekbar-library/src/main/java/it/sephiroth/android/library/rangeseekbar/RangeProgressBar.java:777-791 | `setMax` keeps the bar valid, and an ordered range stays ordered exactly when its start is at most the new `max` |
| ProgressBar.ShrinkingMaxInvertsRange | rangeseekbar-library/src/main/java/it/sephiroth/android/library/rangeseekbar/RangeProgressBar.java:786-789 | `setMax(50)` turns the range (80, 90) into the inverted pair (80, 50), and reports (80, 50) not from the user |
| ProgressBar.ChangeIssuesOneRefresh | rangeseekbar-library/src/main/java/it/sephiroth/android/library/rangeseekbar/RangeProgressBar.java:704-710 | a change raises the outstanding refreshes by one: on the UI thread the stored pair is reported at once, on another thread it is the one record appended to the queue; an unchanged request adds nothing |
| ProgressBar.DefaultPolicyBounds | rangeseekbar-library/src/main/java/it/sephiroth/android/library/rangeseekbar/RangeProgressBar.java:751-763 | with gap 0 and no boundaries the drag bounds are the other endpoint |
| ProgressBar.StoredMax | rangeseekbar-library/src/main/java/it/sephiroth/android/library/rangeseekbar/RangeProgressBar.java:779-781 | a negative `max` is stored as 0, any other as given |
| ProgressBar.RangeProgressBar.Bare | rangeseekbar-library/src/main/java/it/sephiroth/android/library/rangeseekbar/RangeProgressBar.java:113-135 | the defaults of `initProgressBar` (max 100, range 0..100) with the gap and boundary attributes, nothing queued, detached |
| ProgressBar.RangeProgressBar.constructor | rangeseekbar-library/src/main/java/it/sephiroth/android/library/rangeseekbar/RangeProgressBar.java:108-205 | `max` as `setMax` stores it, the policy as `setProgressStartEndBoundaries` leaves it, the initial range normalized, and an empty log because no listener exists yet |
| ProgressBar.RangeProgressBar.GetProgressStartMaxValue | rangeseekbar-library/src/main/java/it/sephiroth/android/library/rangeseekbar/RangeProgressBar.java:751-756 | the start drag bound of the current policy and end |
| ProgressBar.RangeProgressBar.GetProgressEndMinValue | rangeseekbar-library/src/main/java/it/sephiroth/android/library/rangeseekbar/RangeProgressBar.java:758-763 | the end drag bound of the current policy and start |
| ProgressBar.RangeProgressBar.DoRefreshProgress | rangeseekbar-library/src/main/java/it/sephiroth/android/library/rangeseekbar/RangeProgressBar.java:616-648 | the fields become the state `DoRefresh` gives |
| ProgressBar.RangeProgressBar.RefreshProgress | rangeseekbar-library/src/main/java/it/sephiroth/android/library/rangeseekbar/RangeProgressBar.java:666-684 | the fields become the state `Refresh` gives |
| ProgressBar.RangeProgressBar.SetProgressInternal | rangeseekbar-library/src/main/java/it/sephiroth/android/library/rangeseekbar/RangeProgressBar.java:696-711 | the fields and the result are those of `ApplyProgress` |
| ProgressBar.RangeProgressBar.SetProgress | rangeseekbar-library/src/main/java/it/sephiroth/android/library/rangeseekbar/RangeProgressBar.java:686-689 | `setProgressInternal` not from the user and not animated |
| ProgressBar.RangeProgressBar.SetProgressAnimated | rangeseekbar-library/src/main/java/it/sephiroth/android/library/rangeseekbar/RangeProgressBar.java:692-694 | `setProgressInternal` not from the user with the given `animate` |
| ProgressBar.RangeProgressBar.IncrementEndValueBy | rangeseekbar-library/src/main/java/it/sephiroth/android/library/rangeseekbar/RangeProgressBar.java:794-796 | `setProgress` with the end moved by `diff` |
| ProgressBar.RangeProgressBar.SetMax | rangeseekbar-library/src/main/java/it/sephiroth/android/library/rangeseekbar/RangeProgressBar.java:777-791 | the fields become the state `ApplyMax` gives |
| ProgressBar.RangeProgressBar.SetProgressStartEndBoundaries | rangeseekbar-library/src/main/java/it/sephiroth/android/library/rangeseekbar/RangeProgressBar.java:717-734 | on success the fields hold the new policy; on failure an IllegalArgumentException and nothing changed |
| ProgressBar.RangeProgressBar.SetMinMaxStepSize | rangeseekbar-library/src/main/java/it/sephiroth/android/library/rangeseekbar/RangeProgressBar.java:736-749 | on success the fields hold the new policy; on failure an IllegalArgumentException and nothing changed |
| ProgressBar.RangeProgressBar.SetInitialProgress | rangeseekbar-library/src/main/java/it/sephiroth/android/library/rangeseekbar/RangeProgressBar.java:211-213 | the base `setInitialProgress` is `setProgress` |
| ProgressBar.RangeProgressBar.DeliverQueue | rangeseekbar-library/src/main/java/it/sephiroth/android/library/rangeseekbar/RangeProgressBar.java:574-580 | the index loop delivers every queued entry in order, as `DeliverAll` |
| ProgressBar.RangeProgressBar.Run | rangeseekbar-library/src/main/java/it/sephiroth/android/library/rangeseekbar/RangeProgressBar.java:571-584 | the fields become the state `Run` gives: all delivered, queue empty, not posted |
| ProgressBar.RangeProgressBar.OnAttachedToWindow | rangeseekbar-library/src/main/java/it/sephiroth/android/library/rangeseekbar/RangeProgressBar.java:1027-1040 | the fields become the state `Attach` gives: all delivered, queue empty, attached |
| ProgressBar.RangeProgressBar.OnDetachedFromWindow | rangeseekbar-library/src/main/java/it/sephiroth/android/library/rangeseekbar/RangeProgressBar.java:1042-1053 | the fields become the state `Detach` gives: queue kept, not posted once the runnable exists, detached |
| Touch.DistanceToCenter | rangeseekbar-library/src/main/java/it/sephiroth/android/library/rangeseekbar/RangeSeekBar.java:879-880 | the non-negative horizontal distance to the rectangle's centre |
| Touch.NearestThumb | rangeseekbar-library/src/main/java/it/sephiroth/android/library/rangeseekbar/RangeSeekBar.java:871-890 | the chosen thumb is never None |
| Touch.NearestThumbPrefersStartHit | rangeseekbar-library/src/main/java/it/sephiroth/android/library/rangeseekbar/RangeSeekBar.java:882-884 | a touch inside the start hit area picks Start, even where the end hit area overlaps it |
| Touch.NearestThumbEndHit | rangeseekbar-library/src/main/java/it/sephiroth/android/library/rangeseekbar/RangeSeekBar.java:885-887 | a touch outside the start hit area but inside the end hit area picks End |
| Touch.NearestThumbOutsideHitAreas | rangeseekbar-library/src/main/java/it/sephiroth/android/library/rangeseekbar/RangeSeekBar.java:889 | outside both hit areas Start is picked exactly when its centre is strictly nearer, so a tie picks End |
| Touch.CoincidingThumbs | rangeseekbar-library/src/main/java/it/sephiroth/android/library/rangeseekbar/RangeSeekBar.java:871-890 | with both thumbs on the same bounds, a touch inside the hit area picks Start and any other touch picks End |
| Touch.DraggedStart | rangeseekbar-library/src/main/java/it/sephiroth/android/library/rangeseekbar/RangeSeekBar.java:969-971 | the start a drag asks for lies in `[0, getProgressStartMaxValue()]` when that bound is non-negative; a progress below 0 asks for 0, one above the bound asks for the bound, one inside for its `Math.round` |
| Touch.DraggedEnd | rangeseekbar-library/src/main/java/it/sephiroth/android/library/rangeseekbar/RangeSeekBar.java:972-974 | the end a drag asks for lies in `[getProgressEndMinValue(), max]` when that bound is at most `max`; a progress below the bound asks for the bound, one above `max` for `max`, one inside for its `Math.round` |
| Touch.StartDragRespectsBound | rangeseekbar-library/src/main/java/it/sephiroth/android/library/rangeseekbar/RangeSeekBar.java:969-971 | after quantizing and clamping, a start drag keeps the end and leaves the start within `[0, getProgressStartMaxValue()]` (with a step, given the bound and end on the grid) |
| Touch.EndDragRespectsBound | rangeseekbar-library/src/main/java/it/sephiroth/android/library/rangeseekbar/RangeSeekBar.java:972-974 | after quantizing and clamping, an end drag keeps the start and leaves the end within `[getProgressEndMinValue(), max]` (with a step, given the bound and start on the grid) |
| Touch.DraggedThumbsMeetButDoNotCross | rangeseekbar-library/src/main/java/it/sephiroth/android/library/rangeseekbar/RangeSeekBar.java:969-974 | with the default policy and no step, a dragged thumb may meet the other but never passes it |
| Keys.KeyIncrement | rangeseekbar-library/src/main/java/it/sephiroth/android/library/rangeseekbar/RangeSeekBar.java:496-498 | the stored increment is the magnitude of the given one |
| Keys.KeyIncrementAfterSetMax | rangeseekbar-library/src/main/java/it/sephiroth/android/library/rangeseekbar/RangeSeekBar.java:504-510 | a positive increment with at most 20 presses across `max` is kept, any other becomes `max / 20`; it ends up zero exactly when it was zero and `max < 20` |
| Keys.KeyIncrementNotRechecked | rangeseekbar-library/src/main/java/it/sephiroth/android/library/rangeseekbar/RangeSeekBar.java:507-509 | the re-derived increment is not checked again: `setMax(39)` keeps an increment of 1 although that takes 39 presses |
| Keys.KeyRequest | rangeseekbar-library/src/main/java/it/sephiroth/android/library/rangeseekbar/RangeSeekBar.java:1036-1044 | a widening key asks for `(start - inc, end + inc)`, a narrowing key for `(start + inc, end - inc)` |
| Keys.WideningKey | rangeseekbar-library/src/main/java/it/sephiroth/android/library/rangeseekbar/RangeSeekBar.java:1041-1044 | a widening key never shrinks the range, and changes it exactly when the increment is positive and the range does not span the track |
| Keys.NarrowingKey | rangeseekbar-library/src/main/java/it/sephiroth/android/library/rangeseekbar/RangeSeekBar.java:1037-1044 | a narrowing key moves both thumbs inward while they stay apart, collapses the range onto `end - inc` when they would cross, and changes it exactly when the increment and the end are positive |
| Keys.NarrowingKeyCollapses | rangeseekbar-library/src/main/java/it/sephiroth/android/library/rangeseekbar/RangeSeekBar.java:1037-1044 | narrowing (40, 42) by 5 gives the empty range (37, 37) |
| Keys.ZeroIncrementIsNoOp | rangeseekbar-library/src/main/java/it/sephiroth/android/library/rangeseekbar/RangeSeekBar.java:1044 | a zero increment requests the current range, so nothing changes |
| SeekBar.ApplyQuantizedProgress | rangeseekbar-library/src/main/java/it/sephiroth/android/library/rangeseekbar/RangeSeekBar.java:979-1007 | the stored pair is the normalized pair of the quantized request; an unchanged pair changes nothing; a changed pair issues exactly one refresh of the stored pair with the caller's flags, and only the bar changes |
| SeekBar.ApplyPressed | rangeseekbar-library/src/main/java/it/sephiroth/android/library/rangeseekbar/RangeSeekBar.java:921-929 | releasing the press also forgets the dragged thumb; pressing changes only the pressed flag |
| SeekBar.StartTracking | rangeseekbar-library/src/main/java/it/sephiroth/android/library/rangeseekbar/RangeSeekBar.java:1015-1020 | tracking starts: `dragging` is set, `onStartTrackingTouch` is the one notification added, and nothing else changes |
| SeekBar.StopTracking | rangeseekbar-library/src/main/java/it/sephiroth/android/library/rangeseekbar/RangeSeekBar.java:1022-1027 | tracking stops: `dragging` is cleared, `onStopTrackingTouch` is the one notification added, and nothing else changes |
| SeekBar.Track | rangeseekbar-library/src/main/java/it/sephiroth/android/library/rangeseekbar/RangeSeekBar.java:933-976 | without both thumbs or with no thumb chosen nothing changes; any change is one refresh of the new stored pair, from the user and not animated, and touches only the bar |
| SeekBar.DragStart | rangeseekbar-library/src/main/java/it/sephiroth/android/library/rangeseekbar/RangeSeekBar.java:892-918 | without both thumbs nothing changes; otherwise the nearest thumb is chosen, the view is pressed and dragging, `max` and the policy are kept, and the log gains `onStartTrackingTouch` followed by at most one progress callback |
| SeekBar.TouchEvent | rangeseekbar-library/src/main/java/it/sephiroth/android/library/rangeseekbar/RangeSeekBar.java:814-869 | an event is claimed exactly when the bar is user-seekable and enabled, and an unclaimed event changes nothing |
| SeekBar.KeyDown | rangeseekbar-library/src/main/java/it/sephiroth/android/library/rangeseekbar/RangeSeekBar.java:1033-1053 | a key handed on to `View.onKeyDown` changes nothing |
| SeekBar.ApplySeekMinGap | rangeseekbar-library/src/main/java/it/sephiroth/android/library/rangeseekbar/RangeSeekBar.java:190-199 | only the gap changes; success exactly when `SeekBarMinGap` succeeds, storing its value; on failure ArithmeticException with the raw gap left stored |
| SeekBar.ApplyStepSize | rangeseekbar-library/src/main/java/it/sephiroth/android/library/rangeseekbar/RangeSeekBar.java:183-187 | the new step is stored; the outcome is that of re-rounding the gap to the new step; on failure the state is what that gap setter left; on success the gap is the re-rounded one and the range is the old range quantized to the new step and normalized |
| SeekBar.ApplySeekMax | rangeseekbar-library/src/main/java/it/sephiroth/android/library/rangeseekbar/RangeSeekBar.java:504-510 | the base `setMax`, then the key increment as `KeyIncrementAfterSetMax` derives it from the stored `max` |
| SeekBar.ApplyInitialProgress | rangeseekbar-library/src/main/java/it/sephiroth/android/library/rangeseekbar/RangeSeekBar.java:202-219 | only the recorded initial range changes, to `InitialProgress` |
| SeekBar.ApplyThumb | rangeseekbar-library/src/main/java/it/sephiroth/android/library/rangeseekbar/RangeSeekBar.java:268-272 | `Start` sets the start thumb and any other `which` sets the end thumb |
| SeekBar.TouchEventPreservesValid | rangeseekbar-library/src/main/java/it/sephiroth/android/library/rangeseekbar/RangeSeekBar.java:814-869 | every touch event keeps the state valid: a thumb is chosen exactly while dragging, and the bar stays valid |
| SeekBar.DragStartPreservesValid | rangeseekbar-library/src/main/java/it/sephiroth/android/library/rangeseekbar/RangeSeekBar.java:892-918 | starting a drag keeps the state valid |
| SeekBar.TrackPreservesValid | rangeseekbar-library/src/main/java/it/sephiroth/android/library/rangeseekbar/RangeSeekBar.java:933-976 | tracking keeps the bar valid |
| SeekBar.QuantizedProgressPreservesValid | rangeseekbar-library/src/main/java/it/sephiroth/android/library/rangeseekbar/RangeSeekBar.java:979-1007 | the quantizing setter keeps the bar valid and ordered |
| SeekBar.TouchIgnoredUnlessSeekable | rangeseekbar-library/src/main/java/it/sephiroth/android/library/rangeseekbar/RangeSeekBar.java:815-817 | a bar that is not user-seekable or is disabled ignores the event and does not claim it |
| SeekBar.PressStartsDrag | rangeseekbar-library/src/main/java/it/sephiroth/android/library/rangeseekbar/RangeSeekBar.java:892-918 | a press outside a scrolling container with both thumbs drags the nearest thumb, pressed, reporting start-tracking and then at most one change |
| SeekBar.PressInScrollingContainerRecordsX | rangeseekbar-library/src/main/java/it/sephiroth/android/library/rangeseekbar/RangeSeekBar.java:820-826 | a press inside a scrolling container only records its `x` and is claimed; nothing else changes |
| SeekBar.UnpressMidDragBreaksConsistency | rangeseekbar-library/src/main/java/it/sephiroth/android/library/rangeseekbar/RangeSeekBar.java:921-929 | `setPressed(false)` during a drag forgets the thumb but keeps `dragging`, breaking `DragConsistent` |
| SeekBar.TrackLogsAtMostOnce | rangeseekbar-library/src/main/java/it/sephiroth/android/library/rangeseekbar/RangeSeekBar.java:969-975 | tracking reports at most one change and keeps what was reported before |
| SeekBar.MoveBeyondSlopStartsDrag | rangeseekbar-library/src/main/java/it/sephiroth/android/library/rangeseekbar/RangeSeekBar.java:830-839 | a move before a drag starts one exactly when it goes past the slop; within the slop nothing changes |
| SeekBar.TapSeekMovesNothing | rangeseekbar-library/src/main/java/it/sephiroth/android/library/rangeseekbar/RangeSeekBar.java:846-853 | a release without a drag moves no thumb and only reports start-tracking, stop-tracking and click |
| SeekBar.ReleaseEndsDrag | rangeseekbar-library/src/main/java/it/sephiroth/android/library/rangeseekbar/RangeSeekBar.java:841-866 | a release or cancel leaves no drag and no chosen thumb, and ending a drag un-presses the view |
| SeekBar.DragOfStartRespectsBound | rangeseekbar-library/src/main/java/it/sephiroth/android/library/rangeseekbar/RangeSeekBar.java:969-971 | a move while dragging the start keeps the end and the start within `[0, getProgressStartMaxValue()]` |
| SeekBar.DragOfEndRespectsBound | rangeseekbar-library/src/main/java/it/sephiroth/android/library/rangeseekbar/RangeSeekBar.java:972-974 | a move while dragging the end keeps the start and the end within `[getProgressEndMinValue(), max]` |
| SeekBar.KeyDownConsumedIffChanged | rangeseekbar-library/src/main/java/it/sephiroth/android/library/rangeseekbar/RangeSeekBar.java:1033-1053 | a key is consumed exactly when the bar is enabled, the key is a range key and the stored range changed; `max` never changes |
| SeekBar.WideningKeyDown | rangeseekbar-library/src/main/java/it/sephiroth/android/library/rangeseekbar/RangeSeekBar.java:1041-1048 | without a step a widening key is consumed exactly when the increment is positive and the range does not span the track, and never shrinks the range |
| SeekBar.StepSizeRegridsRange | rangeseekbar-library/src/main/java/it/sephiroth/android/library/rangeseekbar/RangeSeekBar.java:183-187 | after `setStepSize` with a step above 1 dividing `max`, both stored endpoints are on the step grid |
| SeekBar.ZeroStepThrows | rangeseekbar-library/src/main/java/it/sephiroth/android/library/rangeseekbar/RangeSeekBar.java:183-193 | a zero step with a nonzero gap throws ArithmeticException before the range is re-set, leaving only the step and the raw gap changed |
| SeekBar.SeekGapKeepsBoundaries | rangeseekbar-library/src/main/java/it/sephiroth/android/library/rangeseekbar/RangeSeekBar.java:190-199 | the seek bar's gap setter keeps a set start boundary as the start drag bound |
| SeekBar.RangeSeekBar.constructor | rangeseekbar-library/src/main/java/it/sephiroth/android/library/rangeseekbar/RangeSeekBar.java:99-181 | after construction: no drag, seekable, enabled, each thumb present as its own attribute or else `android:thumb` resolves it, the step attribute, a key increment of 1, the initial range as `InitialProgress` records it, the gap re-rounded to the step, and the stored range the quantized initial range |
| SeekBar.RangeSeekBar.ConstructBase | rangeseekbar-library/src/main/java/it/sephiroth/android/library/rangeseekbar/RangeSeekBar.java:100 | the base constructor's `setMax`, boundaries and the overriding `setInitialProgress` |
| SeekBar.RangeSeekBar.ReadStepAttribute | rangeseekbar-library/src/main/java/it/sephiroth/android/library/rangeseekbar/RangeSeekBar.java:152-156 | the field initializers reset step, key increment, thumb and seekability, then the step attribute is stored and the gap re-rounded |
| SeekBar.RangeSeekBar.ShowInitialRange | rangeseekbar-library/src/main/java/it/sephiroth/android/library/rangeseekbar/RangeSeekBar.java:180 | the stored range becomes the quantized, normalized initial range |
| SeekBar.RangeSeekBar.SetProgressInternal | rangeseekbar-library/src/main/java/it/sephiroth/android/library/rangeseekbar/RangeSeekBar.java:979-1007 | the fields and the result are those of `ApplyQuantizedProgress` |
| SeekBar.RangeSeekBar.SetProgress | rangeseekbar-library/src/main/java/it/sephiroth/android/library/rangeseekbar/RangeProgressBar.java:686-689 | the base `setProgress` reaches the overriding, quantizing `setProgressInternal` |
| SeekBar.RangeSeekBar.SetProgressAnimated | rangeseekbar-library/src/main/java/it/sephiroth/android/library/rangeseekbar/RangeProgressBar.java:692-694 | the animated `setProgress` also quantizes |
| SeekBar.RangeSeekBar.IncrementEndValueBy | rangeseekbar-library/src/main/java/it/sephiroth/android/library/rangeseekbar/RangeProgressBar.java:794-796 | `incrementEndValueBy` also quantizes |
| SeekBar.RangeSeekBar.SetInitialProgress | rangeseekbar-library/src/main/java/it/sephiroth/android/library/rangeseekbar/RangeSeekBar.java:202-219 | the fields become the state `ApplyInitialProgress` gives |
| SeekBar.RangeSeekBar.SetMinMaxStepSize | rangeseekbar-library/src/main/java/it/sephiroth/android/library/rangeseekbar/RangeSeekBar.java:190-199 | the fields and the outcome are those of `ApplySeekMinGap` |
| SeekBar.RangeSeekBar.SetStepSize | rangeseekbar-library/src/main/java/it/sephiroth/android/library/rangeseekbar/RangeSeekBar.java:183-187 | the fields and the outcome are those of `ApplyStepSize` |
| SeekBar.RangeSeekBar.SetKeyProgressIncrement | rangeseekbar-library/src/main/java/it/sephiroth/android/library/rangeseekbar/RangeSeekBar.java:496-498 | only the key increment changes, to the magnitude given |
| SeekBar.RangeSeekBar.SetMax | rangeseekbar-library/src/main/java/it/sephiroth/android/library/rangeseekbar/RangeSeekBar.java:504-510 | the fields become the state `ApplySeekMax` gives |
| SeekBar.RangeSeekBar.SetThumb | rangeseekbar-library/src/main/java/it/sephiroth/android/library/rangeseekbar/RangeSeekBar.java:243-286 | the fields become the state `ApplyThumb` gives |
| SeekBar.RangeSeekBar.SetThumbBounds | rangeseekbar-library/src/main/java/it/sephiroth/android/library/rangeseekbar/RangeSeekBar.java:873-876 | only the thumb bounds the hit test copies change |
| SeekBar.RangeSeekBar.SetEnabled | rangeseekbar-library/src/main/java/it/sephiroth/android/library/rangeseekbar/RangeSeekBar.java:815 | only the enabled flag the touch and key handlers test changes |
| SeekBar.RangeSeekBar.SetPressed | rangeseekbar-library/src/main/java/it/sephiroth/android/library/rangeseekbar/RangeSeekBar.java:921-929 | the fields become the state `ApplyPressed` gives |
| SeekBar.RangeSeekBar.OnStartTrackingTouch | rangeseekbar-library/src/main/java/it/sephiroth/android/library/rangeseekbar/RangeSeekBar.java:1015-1020 | dragging is set and start-tracking reported |
| SeekBar.RangeSeekBar.OnStopTrackingTouch | rangeseekbar-library/src/main/java/it/sephiroth/android/library/rangeseekbar/RangeSeekBar.java:1022-1027 | dragging is cleared and stop-tracking reported |
| SeekBar.RangeSeekBar.PerformClick | rangeseekbar-library/src/main/java/it/sephiroth/android/library/rangeseekbar/RangeSeekBar.java:852 | a click is reported and nothing else changes |
| SeekBar.RangeSeekBar.TrackTouchEvent | rangeseekbar-library/src/main/java/it/sephiroth/android/library/rangeseekbar/RangeSeekBar.java:933-976 | the fields become the state `Track` gives |
| SeekBar.RangeSeekBar.StartDrag | rangeseekbar-library/src/main/java/it/sephiroth/android/library/rangeseekbar/RangeSeekBar.java:892-918 | the fields become the state `DragStart` gives |
| SeekBar.RangeSeekBar.OnTouchEvent | rangeseekbar-library/src/main/java/it/sephiroth/android/library/rangeseekbar/RangeSeekBar.java:814-869 | the fields and the result are those of `TouchEvent` |
| SeekBar.RangeSeekBar.OnKeyDown | rangeseekbar-library/src/main/java/it/sephiroth/android/library/rangeseekbar/RangeSeekBar.java:1033-1053 | the fields and the outcome are those of `KeyDown` |
| DrawableUtils.ParseTintMode | rangeseekbar-library/src/main/java/it/sephiroth/android/library/rangeseekbar/DrawableUtils.java:20-37 | codes 3, 5, 9, 14, 15 and 16 decode to SRC_OVER, SRC_IN, SRC_ATOP, MULTIPLY, SCREEN and ADD; any other code yields the default, null included |
| DrawableUtils.ParseTintModeKt | rangeseekbar-library/src/main/java/it/sephiroth/android/library/rangeseekbar/DrawableUtils.kt:8-18 | the Kotlin table agrees with the Java one on every input and returns the default for every other code, so it is total |
| DrawableUtils.ParseTintModeInvertsCode | rangeseekbar-library/src/main/java/it/sephiroth/android/library/rangeseekbar/DrawableUtils.java:21-33 | decoding inverts the attribute code of each of the six modes, whatever the default |
| DrawableUtils.ParseTintModeInjective | rangeseekbar-library/src/main/java/it/sephiroth/android/library/rangeseekbar/DrawableUtils.java:21-33 | the six recognised codes decode to six distinct modes |
| DrawableUtils.CanSafelyMutateDrawable | rangeseekbar-library/src/main/java/it/sephiroth/android/library/rangeseekbar/DrawableUtils.java:56-78 | never answers unsafe; the only exception is the NullPointerException `Objects.requireNonNull` throws on a wrapper or scale drawable with no inner drawable; stateless containers and other drawables are safe |
| DrawableUtils.AllChildrenSafe | rangeseekbar-library/src/main/java/it/sephiroth/android/library/rangeseekbar/DrawableUtils.java:57-68 | the children loop never answers unsafe, throws only NullPointerException, and treats a null child as safe, so a container of null children is safe |
| DrawableUtils.CanSafelyMutateCharacterized | rangeseekbar-library/src/main/java/it/sephiroth/android/library/rangeseekbar/DrawableUtils.java:56-78 | the test never answers unsafe: it answers safe, or throws NullPointerException exactly when a wrapper or scale drawable in the tree is empty |
| DrawableUtils.AllChildrenSafeCharacterized | rangeseekbar-library/src/main/java/it/sephiroth/android/library/rangeseekbar/DrawableUtils.java:57-68 | the loop over a container's children throws exactly when some child tree has an empty wrapper, and otherwise answers safe |

## Left out

- **Rendering.** Drawables, tinting, tiling, measuring, drawing, hotspots and the thumb
  positions computed by `setThumbPos` are Android canvas and drawable calls.
  `SeekBar.RangeSeekBar.SetThumbBounds` takes the laid-out thumb bounds as given.
- **Animation.** An animated refresh leaves the visual progress where it was, because the
  `ValueAnimator` timeline is not modelled. Its callback is still delivered, and `animate` is
  carried in the queued records.
- **Threads, `synchronized` and `post`/`removeCallbacks`.** The thread test becomes the
  `onUiThread` parameter. Posting becomes the `posted` flag, and running the posted flush is
  the `Run` method.
- **The pixel-to-progress mapping of `trackTouchEvent`.** Padding, thumb width and offset are
  left out: the event carries its progress value. The vertical thumb centring is left out too.
- **Accessibility, `SavedState`, the `RefreshData` object pool, interpolators,
  `attemptClaimDrag` and `invalidate`.** These are framework calls with no effect on the
  range.
- **Listener registration.** Every notification is logged as if a listener were registered.
  Both constructors clear the log when they finish, because no listener can exist yet: the
  callbacks their own `setMax` and `setProgress` calls deliver reach nobody.
- **`onKeyDown` delegation.** A key the bar does not consume is reported as `PassedToView`.
  What `View.onKeyDown` then does is not modelled.
- **`isInScrollingContainer`.** It walks the view hierarchy, so it becomes a boolean parameter.
- **`fixDrawable`.** It depends on the SDK version and on class names.
- **`RangeSeekBarBarHelper`, `AppCompatProgressBarHelper`, `ThemeUtils` and
  `SephirothViewCompat`.** These are theming and view-hierarchy code.
- **Floating point.** Floats are exact reals. The quantization test `rem / step > 0.5`, the
  drawn fractions and the drag clamp therefore ignore float rounding.
- **32-bit integers.** Integers are unbounded, so `int` overflow is not modelled. For
  example, `setKeyProgressIncrement(Integer.MIN_VALUE)` storing a negative value, or
  `end + diff` wrapping, are not captured.
- **Constructors that throw.** The source's constructors can throw, and both model
  constructors exclude those attribute sets by their `requires`:
  - a boundary pair that `setProgressStartEndBoundaries` rejects;
  - a zero step with a nonzero gap, which makes the seek bar's gap re-rounding throw.
- **The tint-mode default.** The Java constructors pass `null` as the default tint mode. The
  model's `ParseTintMode` takes that default as `Option`. `ParseTintModeKt` models the Kotlin
  signature, whose default is never null.
- SeekBar.RangeSeekBar.SetMax: requires the stored key increment to be non-negative. Every
  path that sets the increment keeps it so, up to the 32-bit overflow noted above.
- SeekBar.ApplySeekMax: same requirement as `SetMax`, for the same reason.
- Keys.KeyIncrementAfterSetMax: is stated for a non-negative increment and a non-negative
  `max`, as the class keeps them.
- RefreshQueue.AttachPreservesInv: assumes the framework attaches only a detached view.
- ProgressBar.RangeProgressBar.constructor: models the plain progress bar on the UI thread
  only.
- SeekBar.RangeSeekBar.constructor: models the seek bar on the UI thread only.
