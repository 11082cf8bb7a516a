/**
 * The range state of `RangeProgressBar`: the stored `[start, end]` pair, `max`, the gap policy
 * and the refresh scheduling, first as a value with one function per operation, then as the
 * class whose methods update its fields as the Java methods do.
 */
module ProgressBar {
  import opened Wrappers
  import opened RangeModel
  import MathUtils
  import RefreshQueue

  /** The whole range state of a bar. */
  datatype Bar = Bar(max: int, start: int, end: int, policy: GapPolicy, sched: RefreshQueue.Scheduler)

  /** A bar whose `max` is non-negative and whose scheduling keeps its invariant. */
  ghost predicate ValidBar(b: Bar)
  {
    b.max >= 0 && RefreshQueue.Inv(b.sched)
  }

  /** The stored range lies on the track, start first. */
  predicate Ordered(b: Bar)
  {
    0 <= b.start <= b.end <= b.max
  }

  /**
   * The base `setProgressInternal`: normalizes the request against `max`; an unchanged range
   * is reported as `false` and nothing else happens, a changed one is stored and refreshed.
   */
  function ApplyProgress(b: Bar, startValue: int, endValue: int, fromUser: bool, animate: bool, onUiThread: bool): (r: (Bar, bool))
    ensures r.0.max == b.max && r.0.policy == b.policy
    ensures (r.0.start, r.0.end) == Normalize(startValue, endValue, b.max)
    ensures r.1 <==> (r.0.start, r.0.end) != (b.start, b.end)
    ensures !r.1 ==> r.0 == b
    ensures r.1 ==> r.0 == b.(start := r.0.start, end := r.0.end,
      sched := RefreshQueue.Refresh(b.sched, RefreshQueue.RefreshData(r.0.start, r.0.end, fromUser, animate), b.max, onUiThread))
  {
    var n := Normalize(startValue, endValue, b.max);
    if n == (b.start, b.end) then (b, false)
    else (b.(start := n.0, end := n.1,
             sched := RefreshQueue.Refresh(b.sched, RefreshQueue.RefreshData(n.0, n.1, fromUser, animate), b.max, onUiThread)), true)
  }

  /**
   * The base `setMax`: a negative `max` counts as 0; a new `max` lowers the end onto it when the
   * end is above it, leaves the start alone, and refreshes once (not from the user, not animated).
   */
  function ApplyMax(b: Bar, newMax: int, onUiThread: bool): (r: Bar)
    ensures r.max == if newMax < 0 then 0 else newMax
    ensures r.start == b.start && r.policy == b.policy
    ensures r.max == b.max ==> r == b
    ensures r.max != b.max ==> r.end == if b.end > r.max then r.max else b.end
    ensures r.max != b.max ==> r.sched == RefreshQueue.Refresh(b.sched, RefreshQueue.RefreshData(b.start, r.end, false, false), r.max, onUiThread)
  {
    var m := if newMax < 0 then 0 else newMax;
    if m == b.max then b
    else
      var e := if b.end > m then m else b.end;
      b.(max := m, end := e, sched := RefreshQueue.Refresh(b.sched, RefreshQueue.RefreshData(b.start, e, false, false), m, onUiThread))
  }

  /** `setProgressStartEndBoundaries` on the bar. */
  function ApplyBoundaries(b: Bar, startMax: int, endMin: int): (r: Result<Bar, JavaException>)
    ensures r.Success? <==> SetBoundaries(b.policy, startMax, endMin, b.max).Success?
    ensures r.Success? ==> r.value == b.(policy := SetBoundaries(b.policy, startMax, endMin, b.max).value)
    ensures r.Failure? ==> r.error == SetBoundaries(b.policy, startMax, endMin, b.max).error
  {
    match SetBoundaries(b.policy, startMax, endMin, b.max)
    case Success(p) => Success(b.(policy := p))
    case Failure(e) => Failure(e)
  }

  /** The base `setMinMaxStepSize` on the bar. */
  function ApplyMinGap(b: Bar, value: int): (r: Result<Bar, JavaException>)
    ensures r.Success? <==> value <= b.max
    ensures r.Success? ==> r.value == b.(policy := SetBaseMinGap(b.policy, value, b.max).value)
    ensures r.Failure? ==> r.error == SetBaseMinGap(b.policy, value, b.max).error && r.error.IllegalArgumentException?
  {
    match SetBaseMinGap(b.policy, value, b.max)
    case Success(p) => Success(b.(policy := p))
    case Failure(e) => Failure(e)
  }

  /** Setting a range always leaves it ordered, and keeps the bar valid. */
  lemma ApplyProgressOrders(b: Bar, startValue: int, endValue: int, fromUser: bool, animate: bool, onUiThread: bool)
    requires ValidBar(b)
    ensures var r := ApplyProgress(b, startValue, endValue, fromUser, animate, onUiThread);
      Ordered(r.0) && ValidBar(r.0)
  {
    var rd := RefreshQueue.RefreshData(Normalize(startValue, endValue, b.max).0, Normalize(startValue, endValue, b.max).1, fromUser, animate);
    RefreshQueue.RefreshPreservesInv(b.sched, rd, b.max, onUiThread);
  }

  /**
   * Re-setting the range a bar already holds reports no change and issues no refresh, so the
   * host hears nothing.
   */
  lemma ApplyProgressIdempotent(b: Bar, startValue: int, endValue: int, fromUser: bool, animate: bool, onUiThread: bool)
    requires b.max >= 0
    ensures var r := ApplyProgress(b, startValue, endValue, fromUser, animate, onUiThread);
      ApplyProgress(r.0, startValue, endValue, fromUser, animate, onUiThread) == (r.0, false)
  {
  }

  /**
   * A change made on the UI thread reaches the host at once as exactly one notification
   * carrying the stored range.
   */
  lemma UiThreadChangeNotifiesOnce(b: Bar, startValue: int, endValue: int, fromUser: bool, animate: bool)
    ensures var r := ApplyProgress(b, startValue, endValue, fromUser, animate, true);
      r.0.sched.log == b.sched.log + (if r.1 then [RefreshQueue.ProgressChanged(r.0.start, r.0.end, fromUser)] else [])
  {
  }

  /**
   * `setMax` keeps the bar valid; an ordered range stays ordered exactly when its start still
   * fits under the new `max`, because the start is never clamped.
   */
  lemma ApplyMaxOrdering(b: Bar, newMax: int, onUiThread: bool)
    requires ValidBar(b) && Ordered(b)
    ensures var r := ApplyMax(b, newMax, onUiThread);
      ValidBar(r) && (Ordered(r) <==> b.start <= r.max)
  {
    var m := if newMax < 0 then 0 else newMax;
    var e := if b.end > m then m else b.end;
    RefreshQueue.RefreshPreservesInv(b.sched, RefreshQueue.RefreshData(b.start, e, false, false), m, onUiThread);
  }

  /**
   * Concretely: the range (80, 90) under `setMax(50)` becomes the inverted pair (80, 50), and
   * that inverted pair is what the host is told, not from the user.
   */
  lemma ShrinkingMaxInvertsRange(b: Bar)
    requires b.max == 100 && b.start == 80 && b.end == 90
    ensures var r := ApplyMax(b, 50, true);
      && r.start == 80 && r.end == 50 && !Ordered(r)
      && r.sched.log == b.sched.log + [RefreshQueue.ProgressChanged(80, 50, false)]
  {
  }

  /**
   * A change issues exactly one refresh, carrying the stored pair and the caller's flags: on the
   * UI thread it is reported at once, on any other thread it is the one record added to the
   * queue. An unchanged request adds nothing.
   */
  lemma ChangeIssuesOneRefresh(b: Bar, startValue: int, endValue: int, fromUser: bool, animate: bool, onUiThread: bool)
    ensures var r := ApplyProgress(b, startValue, endValue, fromUser, animate, onUiThread);
      var rd := RefreshQueue.RefreshData(r.0.start, r.0.end, fromUser, animate);
      && RefreshQueue.Outstanding(r.0.sched) == RefreshQueue.Outstanding(b.sched) + (if r.1 then 1 else 0)
      && (r.1 && onUiThread ==> r.0.sched.log == b.sched.log + [RefreshQueue.Notify(rd)] && r.0.sched.queue == b.sched.queue)
      && (r.1 && !onUiThread ==> r.0.sched.queue == b.sched.queue + [rd] && r.0.sched.log == b.sched.log)
  {
    var r := ApplyProgress(b, startValue, endValue, fromUser, animate, onUiThread);
    if r.1 {
      RefreshQueue.EveryRefreshAccountedFor(b.sched, RefreshQueue.RefreshData(r.0.start, r.0.end, fromUser, animate), b.max, onUiThread);
    }
  }

  /** Without a gap or boundaries, drags are bounded by the other thumb only. */
  lemma DefaultPolicyBounds(start: int, end: int)
    ensures StartMaxValue(GapPolicy(0, -1, -1), end) == end && EndMinValue(GapPolicy(0, -1, -1), start) == start
  {
  }

  /**
   * The XML attributes the constructor reads, as resolved: an absent `max` falls back on 100,
   * an absent gap on 0 and an absent boundary on -1, an absent start value on 0, and an absent
   * end value on the end `setMax` has just stored, `min(100, StoredMax(max))`.
   */
  datatype Attributes = Attributes(max: int, minGap: int, startMaxValue: int, endMinValue: int, startValue: int, endValue: int)

  /** `max` as `setMax` stores it. */
  function StoredMax(max: int): (r: int)
    ensures r >= 0 && (max >= 0 ==> r == max)
  {
    if max < 0 then 0 else max
  }

  class RangeProgressBar {
    var max: int
    var start: int
    var end: int
    var minGap: int
    var startMaxValue: int
    var endMinValue: int
    var refreshData: seq<RefreshQueue.RefreshData>
    var attached: bool
    var refreshIsPosted: bool
    var hasRunnable: bool
    var visualStart: real
    var visualEnd: real
    var log: seq<RefreshQueue.Notification>

    function Sched(): RefreshQueue.Scheduler
      reads this
    {
      RefreshQueue.Scheduler(refreshData, attached, refreshIsPosted, hasRunnable, visualStart, visualEnd, log)
    }

    function Policy(): GapPolicy
      reads this
    {
      GapPolicy(minGap, startMaxValue, endMinValue)
    }

    function State(): Bar
      reads this
    {
      Bar(max, start, end, Policy(), Sched())
    }

    ghost predicate Valid()
      reads this
    {
      ValidBar(State())
    }

    /**
     * The fields as `initProgressBar` and the attribute reads leave them, before `setMax` and
     * the rest of the constructor run; the seek bar builds on this.
     */
    constructor Bare(a: Attributes)
      ensures State() == Bar(100, 0, 100, GapPolicy(a.minGap, a.startMaxValue, a.endMinValue),
                             RefreshQueue.Scheduler([], false, false, false, 0.0, 0.0, []))
      ensures Valid()
    {
      max, start, end := 100, 0, 100;
      minGap, startMaxValue, endMinValue := a.minGap, a.startMaxValue, a.endMinValue;
      refreshData, attached, refreshIsPosted, hasRunnable := [], false, false, false;
      visualStart, visualEnd, log := 0.0, 0.0, [];
    }

    /**
     * The constructor of a plain range progress bar, on the UI thread: `setMax`, the boundaries,
     * then `setInitialProgress`, which for this class is `setProgress`. No listener can be
     * registered yet, so the callbacks these calls deliver reach nobody and the log is cleared.
     * Boundaries it would reject throw out of the Java constructor and are excluded here.
     */
    constructor (a: Attributes)
      requires SetBoundaries(GapPolicy(a.minGap, a.startMaxValue, a.endMinValue), a.startMaxValue, a.endMinValue, StoredMax(a.max)).Success?
      ensures Valid() && !attached && refreshData == []
      ensures max == StoredMax(a.max)
      ensures Policy() == SetBoundaries(GapPolicy(a.minGap, a.startMaxValue, a.endMinValue), a.startMaxValue, a.endMinValue, max).value
      ensures (start, end) == Normalize(a.startValue, a.endValue, max)
      ensures log == []
    {
      max, start, end := 100, 0, 100;
      minGap, startMaxValue, endMinValue := a.minGap, a.startMaxValue, a.endMinValue;
      refreshData, attached, refreshIsPosted, hasRunnable := [], false, false, false;
      visualStart, visualEnd, log := 0.0, 0.0, [];
      new;
      SetMax(a.max, true);
      var o := SetProgressStartEndBoundaries(a.startMaxValue, a.endMinValue);
      var _ := SetProgressInternal(a.startValue, a.endValue, false, false, true);
      log := [];
    }

    /** `getProgressStartMaxValue`. */
    function GetProgressStartMaxValue(): (r: int)
      reads this
      ensures r == StartMaxValue(Policy(), end)
    {
      if startMaxValue != -1 then startMaxValue else end - minGap
    }

    /** `getProgressEndMinValue`. */
    function GetProgressEndMinValue(): (r: int)
      reads this
      ensures r == EndMinValue(Policy(), start)
    {
      if endMinValue != -1 then endMinValue else start + minGap
    }

    /** `doRefreshProgress` with the app callback. */
    method DoRefreshProgress(rd: RefreshQueue.RefreshData)
      modifies this
      ensures State() == old(State()).(sched := RefreshQueue.DoRefresh(old(Sched()), rd, max))
    {
      if !rd.animate {
        visualStart := RefreshQueue.Scale(rd.startValue, max);
        visualEnd := RefreshQueue.Scale(rd.endValue, max);
      }
      log := log + [RefreshQueue.Notify(rd)];
    }

    /** `refreshProgress`; the calling thread is the `onUiThread` flag. */
    method RefreshProgress(rd: RefreshQueue.RefreshData, onUiThread: bool)
      modifies this
      ensures State() == old(State()).(sched := RefreshQueue.Refresh(old(Sched()), rd, max, onUiThread))
    {
      if onUiThread {
        DoRefreshProgress(rd);
      } else {
        hasRunnable := true;
        refreshData := refreshData + [rd];
        if attached && !refreshIsPosted {
          refreshIsPosted := true;
        }
      }
    }

    /** The base `setProgressInternal`. */
    method SetProgressInternal(startValue: int, endValue: int, fromUser: bool, animate: bool, onUiThread: bool) returns (changed: bool)
      modifies this
      ensures (State(), changed) == ApplyProgress(old(State()), startValue, endValue, fromUser, animate, onUiThread)
    {
      var s := MathUtils.Constrain(startValue, 0, MathUtils.Constrain(endValue, 0, max));
      var e := MathUtils.Constrain(endValue, s, max);
      if s == start && e == end {
        return false;
      }
      end := e;
      start := s;
      RefreshProgress(RefreshQueue.RefreshData(start, end, fromUser, animate), onUiThread);
      return true;
    }

    /** `setProgress(start, end)` of a plain range progress bar. */
    method SetProgress(startValue: int, endValue: int, onUiThread: bool)
      modifies this
      ensures State() == ApplyProgress(old(State()), startValue, endValue, false, false, onUiThread).0
    {
      var _ := SetProgressInternal(startValue, endValue, false, false, onUiThread);
    }

    /** `setProgress(start, end, animate)` of a plain range progress bar. */
    method SetProgressAnimated(startValue: int, endValue: int, animate: bool, onUiThread: bool)
      modifies this
      ensures State() == ApplyProgress(old(State()), startValue, endValue, false, animate, onUiThread).0
    {
      var _ := SetProgressInternal(startValue, endValue, false, animate, onUiThread);
    }

    /** `incrementEndValueBy` of a plain range progress bar. */
    method IncrementEndValueBy(diff: int, onUiThread: bool)
      modifies this
      ensures State() == ApplyProgress(old(State()), old(start), old(end) + diff, false, false, onUiThread).0
    {
      SetProgress(start, end + diff, onUiThread);
    }

    /** The base `setMax`. */
    method SetMax(newMax: int, onUiThread: bool)
      modifies this
      ensures State() == ApplyMax(old(State()), newMax, onUiThread)
    {
      var m := newMax;
      if m < 0 {
        m := 0;
      }
      if m != max {
        max := m;
        if end > m {
          end := m;
        }
        RefreshProgress(RefreshQueue.RefreshData(start, end, false, false), onUiThread);
      }
    }

    /** `setProgressStartEndBoundaries`; a thrown exception leaves the bar as it was. */
    method SetProgressStartEndBoundaries(startMax: int, endMin: int) returns (o: Outcome<JavaException>)
      modifies this
      ensures match ApplyBoundaries(old(State()), startMax, endMin)
        case Success(b) => o == Pass && State() == b
        case Failure(e) => o == Fail(e) && State() == old(State())
    {
      if startMax > endMin {
        return Fail(IllegalArgumentException("startMax cannot be greater than endMin"));
      }
      if startMax > max {
        return Fail(IllegalArgumentException("startMax cannot be greater max value"));
      }
      if startMax != -1 || endMin != -1 {
        minGap := 0;
      }
      startMaxValue := startMax;
      endMinValue := endMin;
      return Pass;
    }

    /** The base `setMinMaxStepSize`; a thrown exception leaves the bar as it was. */
    method SetMinMaxStepSize(value: int) returns (o: Outcome<JavaException>)
      modifies this
      ensures match ApplyMinGap(old(State()), value)
        case Success(b) => o == Pass && State() == b
        case Failure(e) => o == Fail(e) && State() == old(State())
    {
      if value > max {
        return Fail(IllegalArgumentException("value cannot be greater than max value"));
      }
      if value != 0 {
        endMinValue := -1;
        startMaxValue := -1;
      }
      minGap := value;
      return Pass;
    }

    /** The base `setInitialProgress`, which is `setProgress`. */
    method SetInitialProgress(startProgress: int, endProgress: int, onUiThread: bool)
      modifies this
      ensures State() == ApplyProgress(old(State()), startProgress, endProgress, false, false, onUiThread).0
    {
      SetProgress(startProgress, endProgress, onUiThread);
    }

    /** Delivers the queued refreshes in order, as both `run` and `onAttachedToWindow` do. */
    method DeliverQueue()
      modifies this
      ensures State() == old(State()).(sched := RefreshQueue.DeliverAll(old(Sched()), old(refreshData), max))
    {
      ghost var s0 := Sched();
      var count := |refreshData|;
      var i := 0;
      while i < count
        invariant 0 <= i <= count == |refreshData|
        invariant refreshData == s0.queue
        invariant max == old(max) && start == old(start) && end == old(end) && Policy() == old(Policy())
        invariant Sched() == RefreshQueue.DeliverAll(s0, s0.queue[..i], max)
      {
        assert s0.queue[..i + 1][..i] == s0.queue[..i];
        DoRefreshProgress(refreshData[i]);
        i := i + 1;
      }
      assert s0.queue[..count] == s0.queue;
    }

    /** `RefreshProgressRunnable.run`. */
    method Run()
      modifies this
      ensures State() == old(State()).(sched := RefreshQueue.Run(old(Sched()), max))
    {
      DeliverQueue();
      refreshData := [];
      refreshIsPosted := false;
    }

    /** `onAttachedToWindow`. */
    method OnAttachedToWindow()
      modifies this
      ensures State() == old(State()).(sched := RefreshQueue.Attach(old(Sched()), max))
    {
      DeliverQueue();
      refreshData := [];
      attached := true;
    }

    /** `onDetachedFromWindow`. */
    method OnDetachedFromWindow()
      modifies this
      ensures State() == old(State()).(sched := RefreshQueue.Detach(old(Sched())))
    {
      if hasRunnable {
        refreshIsPosted := false;
      }
      attached := false;
    }
  }
}
