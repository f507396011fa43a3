/**
 * The older toast lifecycle of a container view
 * (FrenchToast/Classes/UIView+Toast.swift). It follows the same protocol as
 * the current one in ToastLifecycle, with three differences: the tap
 * recognizer depends on the process-wide `ToastManager.shared` flag rather
 * than on the toast's configuration; the toast is positioned by a centre
 * point, which is not modelled; and a finished hide shows the queue head
 * without taking it off the queue. The per-toast state and the summaries of
 * `hideAllToasts` are those of ToastLifecycle.
 */
module LegacyToast {
  import opened Wrappers
  import opened ToastConfiguration
  import L = ToastLifecycle

  /** The container view under the older extension. */
  class LegacyToastHost {
    /** `ToastManager.shared.isTapToDismissEnabled`, which ToastManager does not declare: fixed for the container's lifetime here. */
    var tapToDismissEnabled: bool
    /** Each toast view's own `toastConfiguration`, where one is set. */
    var toastConfiguration: map<L.ToastId, Configuration>
    /** Toasts that carry a `didTap` closure. */
    var didTap: set<L.ToastId>
    /** `activeToasts`, oldest first. */
    var active: seq<L.ToastId>
    /** `queue`, head first. */
    var queue: seq<L.ToastId>
    var toasts: map<L.ToastId, L.ToastState>
    /** Every timer ever scheduled, in scheduling order. */
    var timers: seq<L.Timer>
    var fadeIns: seq<L.FadeIn>
    var fadeOuts: seq<L.FadeOut>
    var events: seq<L.Event>

    /**
     * Every active toast, and every toast whose fade-in is still running, is
     * one the container has shown, and the timer associated with a toast was
     * scheduled for that toast.
     */
    ghost predicate Valid()
      reads this
    {
      (forall t :: t in active ==> t in toasts) &&
      (forall f :: f in fadeIns ==> f.toast in toasts) &&
      (forall t :: t in toasts && toasts[t].timer.Some? ==>
        toasts[t].timer.value < |timers| && timers[toasts[t].timer.value].toast == t)
    }

    /** The effect of the private `hideToast(_:fromTap:)` on `t`: timer invalidated, alpha to 0, fade-out running. */
    twostate predicate HidingBegun(t: L.ToastId, fromTap: bool)
      reads this
    {
      t in old(toasts) &&
      timers == L.Invalidated(old(timers), old(toasts)[t].timer) &&
      toasts == old(toasts)[t := old(toasts)[t].(alpha := 0.0)] &&
      fadeOuts == old(fadeOuts) + [L.FadeOut(t, fromTap)]
    }

    constructor (tapToDismissEnabled: bool)
      ensures Valid()
      ensures this.tapToDismissEnabled == tapToDismissEnabled
      ensures toastConfiguration == map[] && didTap == {}
      ensures active == [] && queue == [] && toasts == map[]
      ensures timers == [] && fadeIns == [] && fadeOuts == [] && events == []
    {
      this.tapToDismissEnabled := tapToDismissEnabled;
      toastConfiguration, didTap := map[], {};
      active, queue, toasts := [], [], map[];
      timers, fadeIns, fadeOuts, events := [], [], [], [];
    }

    /** The `toastConfiguration` property, stored as an associated object; `None` clears it. */
    method SetToastConfiguration(t: L.ToastId, own: Option<Configuration>)
      modifies this`toastConfiguration
      ensures own.Some? ==> toastConfiguration == old(toastConfiguration)[t := own.value]
      ensures own.None? ==> toastConfiguration == old(toastConfiguration) - {t}
      ensures L.EffectiveConfiguration(toastConfiguration, t) == (if own.Some? then own.value else SharedDefault)
    {
      if own.Some? {
        toastConfiguration := toastConfiguration[t := own.value];
      } else {
        toastConfiguration := toastConfiguration - {t};
      }
    }

    /** `clearDidTap(for:)` */
    method ClearDidTap(t: L.ToastId)
      modifies this`didTap
      ensures didTap == old(didTap) - {t}
    {
      didTap := didTap - {t};
    }

    /** The public `showToast(_:didTap:completion:)`: both closures are dropped and the toast is shown directly. */
    method ShowToast(t: L.ToastId, didTapGiven: bool, completionGiven: bool)
      requires Valid()
      modifies this`toasts, this`active, this`fadeIns
      ensures Valid()
      ensures toasts == old(toasts)[t := L.Shown(t, tapToDismissEnabled, old(toasts))]
      ensures active == old(active) + [t]
      ensures fadeIns == old(fadeIns) + L.TimerRequest(t, L.EffectiveConfiguration(toastConfiguration, t))
    {
      Present(t);
    }

    /** The private `showToast(_:)`, without the centre-point placement. */
    method Present(t: L.ToastId)
      requires Valid()
      modifies this`toasts, this`active, this`fadeIns
      ensures Valid()
      ensures toasts == old(toasts)[t := L.Shown(t, tapToDismissEnabled, old(toasts))]
      ensures active == old(active) + [t]
      ensures fadeIns == old(fadeIns) + L.TimerRequest(t, L.EffectiveConfiguration(toastConfiguration, t))
    {
      var configuration := L.EffectiveConfiguration(toastConfiguration, t);
      toasts := toasts[t := L.Shown(t, tapToDismissEnabled, toasts)];
      active := active + [t];
      match configuration.duration {
        case Indefinite =>
        case Definite(timeInterval) =>
          fadeIns := fadeIns + [L.FadeIn(t, timeInterval)];
      }
    }

    /** The completion of the `i`-th running fade-in: schedule and associate a valid timer. */
    method FadeInFinished(i: nat)
      requires Valid() && i < |fadeIns|
      modifies this`fadeIns, this`timers, this`toasts
      ensures Valid()
      ensures var f := old(fadeIns)[i];
        fadeIns == old(fadeIns)[..i] + old(fadeIns)[i + 1..] &&
        timers == old(timers) + [L.Timer(f.toast, f.interval, true)] &&
        toasts == old(toasts)[f.toast := old(toasts)[f.toast].(timer := Some(|old(timers)|))]
    {
      var f := fadeIns[i];
      fadeIns := fadeIns[..i] + fadeIns[i + 1..];
      toasts := toasts[f.toast := toasts[f.toast].(timer := Some(|timers|))];
      timers := timers + [L.Timer(f.toast, f.interval, true)];
    }

    /** `hideToast()`: hide the oldest active toast, if there is one. */
    method HideOldest()
      requires Valid()
      modifies this`toasts, this`timers, this`fadeOuts
      ensures Valid()
      ensures old(active) == [] ==> unchanged(this)
      ensures old(active) != [] ==> HidingBegun(old(active)[0], false)
    {
      if |active| > 0 {
        Hide(active[0]);
      }
    }

    /** `hideToast(_:)`: a toast that is not active, a queued one included, is left alone. */
    method Hide(t: L.ToastId)
      requires Valid()
      modifies this`toasts, this`timers, this`fadeOuts
      ensures Valid()
      ensures t !in old(active) ==> unchanged(this)
      ensures t in old(active) ==> HidingBegun(t, false)
    {
      if t in active {
        BeginHide(t, false);
      }
    }

    /** The private `hideToast(_:fromTap:)` up to its animation; no membership check is made. */
    method BeginHide(t: L.ToastId, fromTap: bool)
      requires Valid() && t in toasts
      modifies this`toasts, this`timers, this`fadeOuts
      ensures Valid()
      ensures HidingBegun(t, fromTap)
    {
      var timer := toasts[t].timer;
      if timer.Some? && timer.value < |timers| {
        timers := timers[timer.value := timers[timer.value].(isValid := false)];
      }
      toasts := toasts[t := toasts[t].(alpha := 0.0)];
      fadeOuts := fadeOuts + [L.FadeOut(t, fromTap)];
    }

    /**
     * The completion of the `i`-th running fade-out: remove the toast from the
     * active toasts, report the hide, and show the queue head, which stays at
     * the head of the queue.
     */
    method FadeOutFinished(i: nat)
      requires Valid() && i < |fadeOuts|
      modifies this`fadeOuts, this`active, this`events, this`toasts, this`fadeIns
      ensures Valid()
      ensures queue == old(queue)
      ensures var f := old(fadeOuts)[i];
        fadeOuts == old(fadeOuts)[..i] + old(fadeOuts)[i + 1..] &&
        events == old(events) + [L.HideCompleted(f.toast, f.fromTap)]
      ensures var f := old(fadeOuts)[i];
        queue == [] ==>
          active == L.RemoveAll(old(active), f.toast) && toasts == old(toasts) && fadeIns == old(fadeIns)
      ensures var f := old(fadeOuts)[i];
        queue != [] ==>
          active == L.RemoveAll(old(active), f.toast) + [queue[0]] &&
          toasts == old(toasts)[queue[0] := L.Shown(queue[0], tapToDismissEnabled, old(toasts))] &&
          fadeIns == old(fadeIns) + L.TimerRequest(queue[0], L.EffectiveConfiguration(toastConfiguration, queue[0]))
    {
      var f := fadeOuts[i];
      fadeOuts := fadeOuts[..i] + fadeOuts[i + 1..];
      active := L.RemoveAll(active, f.toast);
      events := events + [L.HideCompleted(f.toast, f.fromTap)];
      if |queue| > 0 {
        Present(queue[0]);
      }
    }

    /** `hideAllToasts(includeActivity:clearQueue:)`: optionally empty the queue, then hide every active toast. */
    method HideAll(clearQueue: bool := true)
      requires Valid()
      modifies this`queue, this`toasts, this`timers, this`fadeOuts
      ensures Valid()
      ensures queue == if clearQueue then [] else old(queue)
      ensures fadeOuts == old(fadeOuts) + L.HideRequests(old(active))
      ensures toasts == L.FadedFor(old(toasts), old(active))
      ensures timers == L.InvalidatedFor(old(timers), old(toasts), old(active))
    {
      if clearQueue {
        ClearQueue();
      }
      HideEach(active);
    }

    /** The loop of `hideAllToasts`: the guarded hide for each of `ts`, all of them active, in order. */
    method HideEach(ts: seq<L.ToastId>)
      requires Valid() && forall t :: t in ts ==> t in active
      modifies this`toasts, this`timers, this`fadeOuts
      ensures Valid()
      ensures fadeOuts == old(fadeOuts) + L.HideRequests(ts)
      ensures toasts == L.FadedFor(old(toasts), ts)
      ensures timers == L.InvalidatedFor(old(timers), old(toasts), ts)
    {
      ghost var toasts0, timers0, fadeOuts0 := toasts, timers, fadeOuts;
      var i := 0;
      while i < |ts|
        invariant 0 <= i <= |ts|
        invariant Valid()
        invariant fadeOuts == fadeOuts0 + L.HideRequests(ts[..i])
        invariant toasts == L.FadedFor(toasts0, ts[..i])
        invariant timers == L.InvalidatedFor(timers0, toasts0, ts[..i])
      {
        assert ts[..i + 1] == ts[..i] + [ts[i]];
        HideNext(toasts0, timers0, fadeOuts0, ts[..i], ts[i]);
        i := i + 1;
      }
      assert ts[..i] == ts;
    }

    /** One step of the loop of `hideAllToasts`: the guarded hide of the next toast, `t`, after those of `prefix`. */
    method HideNext(ghost toasts0: map<L.ToastId, L.ToastState>, ghost timers0: seq<L.Timer>, ghost fadeOuts0: seq<L.FadeOut>,
                    ghost prefix: seq<L.ToastId>, t: L.ToastId)
      requires Valid() && t in active && t in toasts0
      requires forall x :: x in prefix ==> x in toasts0
      requires fadeOuts == fadeOuts0 + L.HideRequests(prefix)
      requires toasts == L.FadedFor(toasts0, prefix)
      requires timers == L.InvalidatedFor(timers0, toasts0, prefix)
      modifies this`toasts, this`timers, this`fadeOuts
      ensures Valid()
      ensures fadeOuts == fadeOuts0 + L.HideRequests(prefix + [t])
      ensures toasts == L.FadedFor(toasts0, prefix + [t])
      ensures timers == L.InvalidatedFor(timers0, toasts0, prefix + [t])
    {
      L.HideStep(toasts0, timers0, prefix, t);
      Hide(t);
    }

    /** `clearToastQueue()`: the active toasts are untouched. */
    method ClearQueue()
      modifies this`queue
      ensures queue == []
    {
      queue := [];
    }

    /** `handleToastTapped`: the toast's `didTap` closure if it has one, otherwise an unguarded hide as a tap. */
    method Tapped(t: L.ToastId)
      requires Valid() && t in toasts && toasts[t].hasTapRecognizer
      modifies this`events, this`toasts, this`timers, this`fadeOuts
      ensures Valid()
      ensures t in didTap ==> events == old(events) + [L.DidTap(t)] && unchanged(this`toasts, this`timers, this`fadeOuts)
      ensures t !in didTap ==> events == old(events) && HidingBegun(t, true)
    {
      if t in didTap {
        events := events + [L.DidTap(t)];
      } else {
        BeginHide(t, true);
      }
    }

    /** `toastTimerDidFinish`: timer `k` fires, ending its validity, and hides its toast through the guarded hide. */
    method TimerFired(k: nat)
      requires Valid() && k < |timers| && timers[k].isValid
      modifies this`timers, this`toasts, this`fadeOuts
      ensures Valid()
      ensures var t := old(timers)[k].toast;
        var fired := old(timers)[k := old(timers)[k].(isValid := false)];
        if t in old(active) then
          t in old(toasts) &&
          timers == L.Invalidated(fired, old(toasts)[t].timer) &&
          toasts == old(toasts)[t := old(toasts)[t].(alpha := 0.0)] &&
          fadeOuts == old(fadeOuts) + [L.FadeOut(t, false)]
        else
          timers == fired && toasts == old(toasts) && fadeOuts == old(fadeOuts)
    {
      var t := timers[k].toast;
      timers := timers[k := timers[k].(isValid := false)];
      Hide(t);
    }
  }

  /**
   * Because the queue head is shown but never dequeued, every finished hide
   * shows it again: two completions with one toast queued leave it active
   * twice and still queued.
   */
  method PromotionRepeatsQueueHead(host: LegacyToastHost, q: L.ToastId)
    requires host.Valid() && host.active == [] && host.queue == [q] && |host.fadeOuts| == 2
    requires forall f :: f in host.fadeOuts ==> f.toast != q
    modifies host
    ensures host.active == [q, q] && host.queue == [q]
  {
    host.FadeOutFinished(0);
    host.FadeOutFinished(0);
  }
}
