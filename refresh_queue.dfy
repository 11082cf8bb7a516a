/**
 * The refresh scheduling of `RangeProgressBar`: a refresh requested on the UI thread is
 * delivered at once; one requested on another thread is queued, and the queue is flushed, in
 * arrival order, by the posted runnable or when the view is attached to its window.
 */
module RefreshQueue {

  /** A queued refresh (`RefreshData`); its drawable id is always the progress layer and is omitted. */
  datatype RefreshData = RefreshData(startValue: int, endValue: int, fromUser: bool, animate: bool)

  /** What the host observes: progress callbacks and the drag lifecycle callbacks. */
  datatype Notification =
    | ProgressChanged(startValue: int, endValue: int, fromUser: bool)
    | StartTrackingTouch
    | StopTrackingTouch
    | Click

  /**
   * The scheduling state: the pending `mRefreshData` list, `mAttached`, `mRefreshIsPosted`,
   * whether `mRefreshProgressRunnable` has been created, the visual progress
   * (`mVisualStartProgress`, `mVisualEndProgress`), and the log of delivered notifications.
   */
  datatype Scheduler = Scheduler(
    queue: seq<RefreshData>,
    attached: bool,
    posted: bool,
    hasRunnable: bool,
    visualStart: real,
    visualEnd: real,
    log: seq<Notification>)

  /** The notification a delivered refresh produces. */
  function Notify(rd: RefreshData): Notification
  {
    ProgressChanged(rd.startValue, rd.endValue, rd.fromUser)
  }

  /** The notifications of a list of refreshes, in list order. */
  function Notifications(q: seq<RefreshData>): (n: seq<Notification>)
    ensures |n| == |q|
    ensures forall i :: 0 <= i < |q| ==> n[i] == Notify(q[i])
  {
    seq(|q|, i requires 0 <= i < |q| => Notify(q[i]))
  }

  /** The fraction `value / max` a thumb is drawn at, 0 when `max` is not positive. */
  function Scale(value: int, max: int): (r: real)
    ensures max > 0 && 0 <= value <= max ==> 0.0 <= r <= 1.0
    ensures max <= 0 ==> r == 0.0
    ensures max > 0 ==> r * max as real == value as real
  {
    if max > 0 then value as real / max as real else 0.0
  }

  /**
   * `doRefreshProgress` with `callBackToApp` set, as every path of the core calls it: a
   * non-animated refresh snaps the visual progress to the new fractions (an animated one hands
   * them to an animator, which is not modelled), and the app callback is delivered.
   */
  function DoRefresh(s: Scheduler, rd: RefreshData, max: int): (t: Scheduler)
    ensures t.queue == s.queue && t.attached == s.attached && t.posted == s.posted && t.hasRunnable == s.hasRunnable
    ensures t.log == s.log + [Notify(rd)]
  {
    var visual := if rd.animate then (s.visualStart, s.visualEnd) else (Scale(rd.startValue, max), Scale(rd.endValue, max));
    s.(visualStart := visual.0, visualEnd := visual.1, log := s.log + [Notify(rd)])
  }

  /**
   * `refreshProgress`: on the UI thread the refresh is delivered at once; on any other thread it
   * is appended to the queue, and a flush is posted if the view is attached and none is posted yet.
   */
  function Refresh(s: Scheduler, rd: RefreshData, max: int, onUiThread: bool): (t: Scheduler)
    ensures onUiThread ==> t == DoRefresh(s, rd, max)
    ensures !onUiThread ==> t.queue == s.queue + [rd] && t.log == s.log
    ensures !onUiThread ==> t.posted == (s.posted || s.attached) && t.attached == s.attached
  {
    if onUiThread then DoRefresh(s, rd, max)
    else s.(queue := s.queue + [rd], hasRunnable := true, posted := s.posted || s.attached)
  }

  /** Delivering the refreshes of `q` one after the other, first to last. */
  function DeliverAll(s: Scheduler, q: seq<RefreshData>, max: int): (t: Scheduler)
    ensures t.queue == s.queue && t.attached == s.attached && t.posted == s.posted && t.hasRunnable == s.hasRunnable
    ensures |t.log| == |s.log| + |q|
    decreases |q|
  {
    if q == [] then s else DoRefresh(DeliverAll(s, q[..|q| - 1], max), q[|q| - 1], max)
  }

  /** `RefreshProgressRunnable.run`: delivers the whole queue, empties it and clears the posted flag. */
  function Run(s: Scheduler, max: int): (t: Scheduler)
    ensures t.queue == [] && !t.posted
    ensures t.attached == s.attached && t.hasRunnable == s.hasRunnable
    ensures |t.log| == |s.log| + |s.queue|
  {
    DeliverAll(s, s.queue, max).(queue := [], posted := false)
  }

  /** `onAttachedToWindow`: delivers the whole queue, empties it and marks the view attached. */
  function Attach(s: Scheduler, max: int): (t: Scheduler)
    ensures t.queue == [] && t.attached
    ensures t.posted == s.posted && t.hasRunnable == s.hasRunnable
    ensures |t.log| == |s.log| + |s.queue|
  {
    DeliverAll(s, s.queue, max).(queue := [], attached := true)
  }

  /**
   * `onDetachedFromWindow`: removes a posted flush (once the runnable exists) and marks the view
   * detached; queued refreshes stay queued.
   */
  function Detach(s: Scheduler): (t: Scheduler)
    ensures !t.attached
    ensures s.hasRunnable ==> !t.posted
    ensures !s.hasRunnable ==> t.posted == s.posted
    ensures t == s.(attached := false, posted := t.posted)
  {
    s.(posted := if s.hasRunnable then false else s.posted, attached := false)
  }

  /**
   * The scheduling invariant: a flush is posted only for an attached view whose runnable exists,
   * and while attached, a flush is posted exactly when something is queued, so no queued
   * refresh is stranded.
   */
  ghost predicate Inv(s: Scheduler)
  {
    && (s.posted ==> s.attached && s.hasRunnable)
    && (s.attached ==> (s.posted <==> s.queue != []))
  }

  /** Every delivery is logged exactly once, in queue order (FIFO). */
  lemma {:induction false} DeliverAllNotifiesInOrder(s: Scheduler, q: seq<RefreshData>, max: int)
    ensures DeliverAll(s, q, max).log == s.log + Notifications(q)
    decreases |q|
  {
    if q != [] {
      var p := q[..|q| - 1];
      DeliverAllNotifiesInOrder(s, p, max);
      assert Notifications(q) == Notifications(p) + [Notify(q[|q| - 1])];
    }
  }

  /** After a flush, the visual progress is that of the last refresh, when that one is not animated. */
  lemma DeliverAllShowsLastRefresh(s: Scheduler, q: seq<RefreshData>, max: int)
    requires q != [] && !q[|q| - 1].animate
    ensures var t := DeliverAll(s, q, max);
      t.visualStart == Scale(q[|q| - 1].startValue, max) && t.visualEnd == Scale(q[|q| - 1].endValue, max)
  {
  }

  lemma RefreshPreservesInv(s: Scheduler, rd: RefreshData, max: int, onUiThread: bool)
    requires Inv(s)
    ensures Inv(Refresh(s, rd, max, onUiThread))
  {
  }

  lemma RunPreservesInv(s: Scheduler, max: int)
    requires Inv(s)
    ensures Inv(Run(s, max))
  {
  }

  /** The framework attaches a detached view only. */
  lemma AttachPreservesInv(s: Scheduler, max: int)
    requires Inv(s) && !s.attached
    ensures Inv(Attach(s, max))
  {
  }

  lemma DetachPreservesInv(s: Scheduler)
    requires Inv(s)
    ensures Inv(Detach(s))
  {
  }

  /** The flush delivers the queue and leaves nothing queued. */
  lemma RunDeliversQueue(s: Scheduler, max: int)
    ensures Run(s, max).log == s.log + Notifications(s.queue) && Run(s, max).queue == []
    ensures Attach(s, max).log == s.log + Notifications(s.queue) && Attach(s, max).queue == []
  {
    DeliverAllNotifiesInOrder(s, s.queue, max);
  }

  /** The number of refreshes delivered or still queued. */
  function Outstanding(s: Scheduler): nat
  {
    |s.log| + |s.queue|
  }

  /** No refresh is dropped or merged: each request adds one, and flushing or detaching loses none. */
  lemma EveryRefreshAccountedFor(s: Scheduler, rd: RefreshData, max: int, onUiThread: bool)
    ensures Outstanding(Refresh(s, rd, max, onUiThread)) == Outstanding(s) + 1
    ensures Outstanding(Run(s, max)) == Outstanding(s)
    ensures Outstanding(Attach(s, max)) == Outstanding(s)
    ensures Outstanding(Detach(s)) == Outstanding(s)
  {
  }

  /**
   * Three refreshes requested off the UI thread before the view is attached reach the host, once
   * it attaches, as three separate notifications in the order they were requested.
   */
  lemma OffThreadRefreshesDeliveredOnAttach(s: Scheduler, a: RefreshData, b: RefreshData, c: RefreshData, max: int)
    requires s.queue == [] && !s.attached
    ensures var t := Attach(Refresh(Refresh(Refresh(s, a, max, false), b, max, false), c, max, false), max);
      t.log == s.log + [Notify(a), Notify(b), Notify(c)] && t.queue == [] && t.attached
  {
    var u := Refresh(Refresh(Refresh(s, a, max, false), b, max, false), c, max, false);
    assert u.queue == [a, b, c] && u.log == s.log;
    RunDeliversQueue(u, max);
  }

  /**
   * The order is FIFO among off-thread requests only: a request made on the UI thread is
   * delivered before earlier requests still waiting in the queue.
   */
  lemma UiThreadRefreshOvertakesQueue(s: Scheduler, a: RefreshData, b: RefreshData, max: int)
    requires s.queue == [] && s.attached
    ensures var t := Run(Refresh(Refresh(s, a, max, false), b, max, true), max);
      t.log == s.log + [Notify(b), Notify(a)]
  {
    var u := Refresh(Refresh(s, a, max, false), b, max, true);
    assert u.queue == [a];
    RunDeliversQueue(u, max);
  }

  /**
   * A queued refresh is drawn against `max` as it is when the queue is flushed: a range queued
   * for `max == 100`, delivered after `max` dropped to 50, puts the end thumb at twice the track.
   */
  lemma StaleRefreshDrawnPastTrack(s: Scheduler)
    requires s.queue == [RefreshData(0, 100, false, false)]
    ensures Run(s, 50).visualEnd == 2.0
  {
    assert s.queue[..0] == [];
  }
}
