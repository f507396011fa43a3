/**
 * The toast lifecycle of a container view (FrenchToast/UIView+Toast.swift).
 *
 * The container keeps an ordered list of active toasts and a FIFO queue. The
 * animations, the run-loop timer and the tap recognizer call back into the
 * container later; each such callback is a method of its own here, callable
 * in any order, so the model covers every interleaving UIKit may produce:
 *   FadeInFinished  - the fade-in's completion, which schedules the timer;
 *   FadeOutFinished - the fade-out's completion, which removes the toast;
 *   TimerFired      - `toastTimerDidFinish`;
 *   Tapped          - `handleToastTapped`;
 *   LayoutDidChange - the toast's `layoutDidChangePassthrough`.
 */
module ToastLifecycle {
  import opened Wrappers
  import opened Geometry
  import opened Views
  import opened ToastConfiguration
  import opened ToastFrame

  /** The identity of a toast view. */
  type ToastId = nat

  /** A one-shot run-loop timer for `toast`; it can fire while it is valid. */
  datatype Timer = Timer(toast: ToastId, interval: real, isValid: bool)

  /** A running fade-in whose completion will schedule a timer of `interval` seconds. */
  datatype FadeIn = FadeIn(toast: ToastId, interval: real)

  /** A running fade-out whose completion will finish hiding `toast`. */
  datatype FadeOut = FadeOut(toast: ToastId, fromTap: bool)

  /**
   * What the container reports: a finished hide, with the flag handed to the
   * toast's completion closure, or a call of the toast's `didTap` closure.
   */
  datatype Event = HideCompleted(toast: ToastId, fromTap: bool) | DidTap(toast: ToastId)

  /**
   * What a container has set on a toast view it showed: the alpha it animates
   * to, whether a tap recognizer is attached, and the timer associated with
   * the toast (an index into the container's timers).
   */
  datatype ToastState = ToastState(alpha: real, hasTapRecognizer: bool, timer: Option<nat>)

  /** Where a container put a toast: its frame and the configuration its layout passthrough captured. */
  datatype Placement = Placement(frame: Rect, layoutConfiguration: Configuration)

  /** `toast.toastConfiguration ?? ToastConfiguration.sharedDefault`, with the toasts' own configurations in `own`. */
  function EffectiveConfiguration(own: map<ToastId, Configuration>, t: ToastId): (cfg: Configuration)
    ensures cfg == ResolvedConfiguration(if t in own then Some(own[t]) else None)
  {
    if t in own then own[t] else SharedDefault
  }

  /** The fade-in completion that showing registers: one with a timer for a definite duration only. */
  function TimerRequest(t: ToastId, cfg: Configuration): (r: seq<FadeIn>)
    ensures r == [] <==> cfg.duration.Indefinite?
    ensures r != [] ==> r == [FadeIn(t, cfg.duration.time)]
  {
    match cfg.duration
    case Indefinite => []
    case Definite(time) => [FadeIn(t, time)]
  }

  /**
   * The state of toast `t` after it is shown: alpha animated to 1, a tap
   * recognizer added when `tapToDismiss` is on (earlier recognizers stay), and
   * the timer association left as it was.
   */
  function Shown(t: ToastId, tapToDismiss: bool, toasts: map<ToastId, ToastState>): ToastState
  {
    var tapped := t in toasts && toasts[t].hasTapRecognizer;
    var timer := if t in toasts then toasts[t].timer else None;
    ToastState(1.0, tapToDismiss || tapped, timer)
  }

  /** `NSMutableArray.remove(_:)`: drops every occurrence of `t`, keeping the order of the rest. */
  function RemoveAll(s: seq<ToastId>, t: ToastId): (r: seq<ToastId>)
    ensures forall x :: x in r <==> x in s && x != t
    ensures t !in s ==> r == s
    decreases s
  {
    if s == [] then []
    else (if s[0] == t then [] else [s[0]]) + RemoveAll(s[1..], t)
  }

  /** Removal works element by element: it distributes over concatenation. */
  lemma {:induction false} RemoveAllAppend(a: seq<ToastId>, b: seq<ToastId>, t: ToastId)
    ensures RemoveAll(a + b, t) == RemoveAll(a, t) + RemoveAll(b, t)
    decreases a
  {
    if a == [] {
      assert a + b == b;
    } else {
      assert (a + b)[0] == a[0];
      assert (a + b)[1..] == a[1..] + b;
      RemoveAllAppend(a[1..], b, t);
    }
  }

  /** Removal takes out exactly the occurrences of `t` and nothing else. */
  lemma {:induction false} RemoveAllCount(s: seq<ToastId>, t: ToastId)
    ensures multiset(RemoveAll(s, t)) == multiset(s)[t := 0]
    ensures |RemoveAll(s, t)| == |s| - multiset(s)[t]
    decreases s
  {
    if s != [] {
      RemoveAllCount(s[1..], t);
      assert s == [s[0]] + s[1..];
      assert multiset(s) == multiset{s[0]} + multiset(s[1..]);
    }
  }

  /** `timers` with the timer at `k`, if any, invalidated. */
  function Invalidated(timers: seq<Timer>, k: Option<nat>): seq<Timer>
  {
    if k.Some? && k.value < |timers| then timers[k.value := timers[k.value].(isValid := false)] else timers
  }

  /** `timers` with the timers of every toast in `ts` (known in `toasts`), taken in order, invalidated. */
  function InvalidatedFor(timers: seq<Timer>, toasts: map<ToastId, ToastState>, ts: seq<ToastId>): seq<Timer>
    decreases |ts|
  {
    if ts == [] then timers
    else
      var t := ts[|ts| - 1];
      Invalidated(InvalidatedFor(timers, toasts, ts[..|ts| - 1]), if t in toasts then toasts[t].timer else None)
  }

  /**
   * Invalidating the timers of a list of toasts invalidates exactly the timers
   * associated with one of them and changes nothing else.
   */
  lemma {:induction false} InvalidatedForExactly(timers: seq<Timer>, toasts: map<ToastId, ToastState>, ts: seq<ToastId>)
    ensures |InvalidatedFor(timers, toasts, ts)| == |timers|
    ensures forall k :: 0 <= k < |timers| ==>
      InvalidatedFor(timers, toasts, ts)[k] ==
        if exists t :: t in ts && t in toasts && toasts[t].timer == Some(k) then timers[k].(isValid := false)
        else timers[k]
    decreases |ts|
  {
    if ts != [] {
      var init, last := ts[..|ts| - 1], ts[|ts| - 1];
      InvalidatedForExactly(timers, toasts, init);
      assert ts == init + [last];
      forall k | 0 <= k < |timers|
        ensures InvalidatedFor(timers, toasts, ts)[k] ==
          if exists t :: t in ts && t in toasts && toasts[t].timer == Some(k) then timers[k].(isValid := false)
          else timers[k]
      {
        if exists t :: t in ts && t in toasts && toasts[t].timer == Some(k) {
          var t :| t in ts && t in toasts && toasts[t].timer == Some(k);
          assert t in init || t == last;
        }
      }
    }
  }

  /** `toasts` with the toasts of `ts`, taken in order, faded to alpha 0. */
  function FadedFor(toasts: map<ToastId, ToastState>, ts: seq<ToastId>): map<ToastId, ToastState>
    decreases |ts|
  {
    if ts == [] then toasts
    else
      var faded := FadedFor(toasts, ts[..|ts| - 1]);
      var t := ts[|ts| - 1];
      if t in faded then faded[t := faded[t].(alpha := 0.0)] else faded
  }

  /** Fading a list of toasts sets the alpha of exactly those toasts to 0 and changes nothing else. */
  lemma {:induction false} FadedForFadesExactly(toasts: map<ToastId, ToastState>, ts: seq<ToastId>)
    ensures FadedFor(toasts, ts).Keys == toasts.Keys
    ensures forall t :: t in toasts ==>
      FadedFor(toasts, ts)[t] == if t in ts then toasts[t].(alpha := 0.0) else toasts[t]
    decreases |ts|
  {
    if ts != [] {
      var init := ts[..|ts| - 1];
      FadedForFadesExactly(toasts, init);
      assert ts == init + [ts[|ts| - 1]];
      forall t | t in toasts
        ensures FadedFor(toasts, ts)[t] == if t in ts then toasts[t].(alpha := 0.0) else toasts[t]
      {
        assert t in ts <==> t in init || t == ts[|ts| - 1];
      }
    }
  }

  /** One non-tap fade-out for each toast of `ts`, in order. */
  function HideRequests(ts: seq<ToastId>): (r: seq<FadeOut>)
    ensures |r| == |ts|
    ensures forall j :: 0 <= j < |ts| ==> r[j] == FadeOut(ts[j], false)
    decreases |ts|
  {
    if ts == [] then [] else HideRequests(ts[..|ts| - 1]) + [FadeOut(ts[|ts| - 1], false)]
  }

  /** One more hide in `hideAllToasts`: each summary of the hidden prefix grows by the next toast. */
  lemma HideStep(toasts: map<ToastId, ToastState>, timers: seq<Timer>, prefix: seq<ToastId>, t: ToastId)
    requires forall x :: x in prefix ==> x in toasts
    requires t in toasts
    ensures t in FadedFor(toasts, prefix) && FadedFor(toasts, prefix)[t].timer == toasts[t].timer
    ensures FadedFor(toasts, prefix + [t]) == FadedFor(toasts, prefix)[t := FadedFor(toasts, prefix)[t].(alpha := 0.0)]
    ensures InvalidatedFor(timers, toasts, prefix + [t]) == Invalidated(InvalidatedFor(timers, toasts, prefix), toasts[t].timer)
    ensures HideRequests(prefix + [t]) == HideRequests(prefix) + [FadeOut(t, false)]
  {
    assert (prefix + [t])[..|prefix + [t]| - 1] == prefix;
    FadedForFadesExactly(toasts, prefix);
  }

  /** The container view, with the state the toast extension attaches to it and to its toasts. */
  class ToastHost {
    /** The container's geometry, size classes and subviews. */
    var container: Superview
    /** Each toast view's own `toastConfiguration`, where one is set. */
    var toastConfiguration: map<ToastId, Configuration>
    /** Toasts that carry a `didTap` closure. */
    var didTap: set<ToastId>
    /** `activeToasts`, oldest first. */
    var active: seq<ToastId>
    /** `queue`, head first. */
    var queue: seq<ToastId>
    var toasts: map<ToastId, ToastState>
    /** The frame of each shown toast and the configuration its layout passthrough uses. */
    var placement: map<ToastId, Placement>
    /** Every timer ever scheduled, in scheduling order. */
    var timers: seq<Timer>
    var fadeIns: seq<FadeIn>
    var fadeOuts: seq<FadeOut>
    var events: seq<Event>

    /**
     * Every active toast, and every toast whose fade-in is still running, is
     * one the container has shown, and the timer associated with a toast was
     * scheduled for that toast.
     */
    ghost predicate Valid()
      reads this
    {
      (forall t :: t in active ==> t in toasts) &&
      (forall f :: f in fadeIns ==> f.toast in toasts) &&
      (forall t :: t in toasts && toasts[t].timer.Some? ==>
        toasts[t].timer.value < |timers| && timers[toasts[t].timer.value].toast == t)
    }

    /**
     * The effect of the private `hideToast(_:fromTap:)` on `t`, relative to the
     * state before the calling method: its associated timer invalidated, its
     * alpha animated to 0, and a fade-out running.
     */
    twostate predicate HidingBegun(t: ToastId, fromTap: bool)
      reads this
    {
      t in old(toasts) &&
      timers == Invalidated(old(timers), old(toasts)[t].timer) &&
      toasts == old(toasts)[t := old(toasts)[t].(alpha := 0.0)] &&
      fadeOuts == old(fadeOuts) + [FadeOut(t, fromTap)]
    }

    constructor (container: Superview)
      ensures Valid()
      ensures this.container == container
      ensures toastConfiguration == map[] && didTap == {}
      ensures active == [] && queue == [] && toasts == map[] && placement == map[]
      ensures timers == [] && fadeIns == [] && fadeOuts == [] && events == []
    {
      this.container := container;
      toastConfiguration, didTap := map[], {};
      active, queue, toasts, placement := [], [], map[], map[];
      timers, fadeIns, fadeOuts, events := [], [], [], [];
    }

    /** The `toastConfiguration` setter on a toast view; `None` clears it. */
    method SetToastConfiguration(t: ToastId, own: Option<Configuration>)
      modifies this`toastConfiguration
      ensures own.Some? ==> toastConfiguration == old(toastConfiguration)[t := own.value]
      ensures own.None? ==> toastConfiguration == old(toastConfiguration) - {t}
      ensures EffectiveConfiguration(toastConfiguration, t) == (if own.Some? then own.value else SharedDefault)
    {
      if own.Some? {
        toastConfiguration := toastConfiguration[t := own.value];
      } else {
        toastConfiguration := toastConfiguration - {t};
      }
    }

    /** `clearDidTap(for:)` */
    method ClearDidTap(t: ToastId)
      modifies this`didTap
      ensures didTap == old(didTap) - {t}
    {
      didTap := didTap - {t};
    }

    /**
     * The public `showToast(_:didTap:completion:)`: it drops both closures and
     * always shows directly, never through the queue.
     */
    method ShowToast(t: ToastId, didTapGiven: bool, completionGiven: bool)
      requires Valid()
      modifies this`toasts, this`placement, this`active, this`fadeIns
      ensures Valid()
      ensures var cfg := EffectiveConfiguration(toastConfiguration, t);
        toasts == old(toasts)[t := Shown(t, cfg.isTapToDismissEnabled, old(toasts))] &&
        placement == old(placement)[t := Placement(Frame(cfg, container), cfg)] &&
        active == old(active) + [t] &&
        fadeIns == old(fadeIns) + TimerRequest(t, cfg)
    {
      Present(t);
    }

    /**
     * The private `showToast(_:)`: frame the toast with its effective
     * configuration, append it to the active toasts, and start the fade-in,
     * whose completion schedules a timer for a definite duration only.
     */
    method Present(t: ToastId)
      requires Valid()
      modifies this`toasts, this`placement, this`active, this`fadeIns
      ensures Valid()
      ensures var cfg := EffectiveConfiguration(toastConfiguration, t);
        toasts == old(toasts)[t := Shown(t, cfg.isTapToDismissEnabled, old(toasts))] &&
        placement == old(placement)[t := Placement(Frame(cfg, container), cfg)] &&
        active == old(active) + [t] &&
        fadeIns == old(fadeIns) + TimerRequest(t, cfg)
    {
      var configuration := EffectiveConfiguration(toastConfiguration, t);
      toasts := toasts[t := Shown(t, configuration.isTapToDismissEnabled, toasts)];
      placement := placement[t := Placement(Frame(configuration, container), configuration)];
      active := active + [t];
      match configuration.duration {
        case Indefinite =>
        case Definite(timeInterval) =>
          fadeIns := fadeIns + [FadeIn(t, timeInterval)];
      }
    }

    /** The completion of the `i`-th running fade-in: schedule and associate a valid timer. */
    method FadeInFinished(i: nat)
      requires Valid() && i < |fadeIns|
      modifies this`fadeIns, this`timers, this`toasts
      ensures Valid()
      ensures var f := old(fadeIns)[i];
        fadeIns == old(fadeIns)[..i] + old(fadeIns)[i + 1..] &&
        timers == old(timers) + [Timer(f.toast, f.interval, true)] &&
        toasts == old(toasts)[f.toast := old(toasts)[f.toast].(timer := Some(|old(timers)|))]
    {
      var f := fadeIns[i];
      fadeIns := fadeIns[..i] + fadeIns[i + 1..];
      toasts := toasts[f.toast := toasts[f.toast].(timer := Some(|timers|))];
      timers := timers + [Timer(f.toast, f.interval, true)];
    }

    /** `hideToast()`: hide the oldest active toast, if there is one. */
    method HideOldest()
      requires Valid()
      modifies this`toasts, this`timers, this`fadeOuts
      ensures Valid()
      ensures old(active) == [] ==> unchanged(this)
      ensures old(active) != [] ==> HidingBegun(old(active)[0], false)
    {
      if |active| > 0 {
        Hide(active[0]);
      }
    }

    /** `hideToast(_:)`: a toast that is not active, a queued one included, is left alone. */
    method Hide(t: ToastId)
      requires Valid()
      modifies this`toasts, this`timers, this`fadeOuts
      ensures Valid()
      ensures t !in old(active) ==> unchanged(this)
      ensures t in old(active) ==> HidingBegun(t, false)
    {
      if t in active {
        BeginHide(t, false);
      }
    }

    /**
     * The private `hideToast(_:fromTap:)` up to its animation: invalidate the
     * associated timer and start the fade-out. No membership check is made.
     */
    method BeginHide(t: ToastId, fromTap: bool)
      requires Valid() && t in toasts
      modifies this`toasts, this`timers, this`fadeOuts
      ensures Valid()
      ensures HidingBegun(t, fromTap)
    {
      var timer := toasts[t].timer;
      if timer.Some? && timer.value < |timers| {
        timers := timers[timer.value := timers[timer.value].(isValid := false)];
      }
      toasts := toasts[t := toasts[t].(alpha := 0.0)];
      fadeOuts := fadeOuts + [FadeOut(t, fromTap)];
    }

    /**
     * The completion of the `i`-th running fade-out: remove the toast from the
     * active toasts, report the hide, then take the queue head off the queue
     * and show it.
     */
    method FadeOutFinished(i: nat)
      requires Valid() && i < |fadeOuts|
      modifies this`fadeOuts, this`active, this`events, this`queue, this`toasts, this`placement, this`fadeIns
      ensures Valid()
      ensures var f := old(fadeOuts)[i];
        fadeOuts == old(fadeOuts)[..i] + old(fadeOuts)[i + 1..] &&
        events == old(events) + [HideCompleted(f.toast, f.fromTap)]
      ensures var f := old(fadeOuts)[i];
        old(queue) == [] ==>
          active == RemoveAll(old(active), f.toast) && queue == [] &&
          toasts == old(toasts) && placement == old(placement) && fadeIns == old(fadeIns)
      ensures var f := old(fadeOuts)[i];
        old(queue) != [] ==>
          var next := old(queue)[0];
          var cfg := EffectiveConfiguration(toastConfiguration, next);
          queue == old(queue)[1..] &&
          active == RemoveAll(old(active), f.toast) + [next] &&
          toasts == old(toasts)[next := Shown(next, cfg.isTapToDismissEnabled, old(toasts))] &&
          placement == old(placement)[next := Placement(Frame(cfg, container), cfg)] &&
          fadeIns == old(fadeIns) + TimerRequest(next, cfg)
    {
      var f := fadeOuts[i];
      fadeOuts := fadeOuts[..i] + fadeOuts[i + 1..];
      active := RemoveAll(active, f.toast);
      events := events + [HideCompleted(f.toast, f.fromTap)];
      if |queue| > 0 {
        var nextToast := queue[0];
        queue := queue[1..];
        Present(nextToast);
      }
    }

    /**
     * `hideAllToasts(includeActivity:clearQueue:)`: optionally empty the queue,
     * then hide every active toast, oldest first. The active list itself is
     * only shortened later, by the fade-out completions.
     */
    method HideAll(clearQueue: bool := true)
      requires Valid()
      modifies this`queue, this`toasts, this`timers, this`fadeOuts
      ensures Valid()
      ensures queue == if clearQueue then [] else old(queue)
      ensures fadeOuts == old(fadeOuts) + HideRequests(old(active))
      ensures toasts == FadedFor(old(toasts), old(active))
      ensures timers == InvalidatedFor(old(timers), old(toasts), old(active))
    {
      if clearQueue {
        ClearQueue();
      }
      HideEach(active);
    }

    /** The loop of `hideAllToasts`: the guarded hide for each of `ts`, all of them active, in order. */
    method HideEach(ts: seq<ToastId>)
      requires Valid() && forall t :: t in ts ==> t in active
      modifies this`toasts, this`timers, this`fadeOuts
      ensures Valid()
      ensures fadeOuts == old(fadeOuts) + HideRequests(ts)
      ensures toasts == FadedFor(old(toasts), ts)
      ensures timers == InvalidatedFor(old(timers), old(toasts), ts)
    {
      ghost var toasts0, timers0, fadeOuts0 := toasts, timers, fadeOuts;
      var i := 0;
      while i < |ts|
        invariant 0 <= i <= |ts|
        invariant Valid()
        invariant fadeOuts == fadeOuts0 + HideRequests(ts[..i])
        invariant toasts == FadedFor(toasts0, ts[..i])
        invariant timers == InvalidatedFor(timers0, toasts0, ts[..i])
      {
        assert ts[..i + 1] == ts[..i] + [ts[i]];
        HideNext(toasts0, timers0, fadeOuts0, ts[..i], ts[i]);
        i := i + 1;
      }
      assert ts[..i] == ts;
    }

    /** One step of the loop of `hideAllToasts`: the guarded hide of the next toast, `t`, after those of `prefix`. */
    method HideNext(ghost toasts0: map<ToastId, ToastState>, ghost timers0: seq<Timer>, ghost fadeOuts0: seq<FadeOut>,
                    ghost prefix: seq<ToastId>, t: ToastId)
      requires Valid() && t in active && t in toasts0
      requires forall x :: x in prefix ==> x in toasts0
      requires fadeOuts == fadeOuts0 + HideRequests(prefix)
      requires toasts == FadedFor(toasts0, prefix)
      requires timers == InvalidatedFor(timers0, toasts0, prefix)
      modifies this`toasts, this`timers, this`fadeOuts
      ensures Valid()
      ensures fadeOuts == fadeOuts0 + HideRequests(prefix + [t])
      ensures toasts == FadedFor(toasts0, prefix + [t])
      ensures timers == InvalidatedFor(timers0, toasts0, prefix + [t])
    {
      HideStep(toasts0, timers0, prefix, t);
      Hide(t);
    }

    /** `clearToastQueue()`: the active toasts are untouched. */
    method ClearQueue()
      modifies this`queue
      ensures queue == []
    {
      queue := [];
    }

    /**
     * `handleToastTapped`: call the toast's `didTap` closure if it has one,
     * otherwise hide it as a tap, without checking that it is active.
     */
    method Tapped(t: ToastId)
      requires Valid() && t in toasts && toasts[t].hasTapRecognizer
      modifies this`events, this`toasts, this`timers, this`fadeOuts
      ensures Valid()
      ensures t in didTap ==> events == old(events) + [DidTap(t)] && unchanged(this`toasts, this`timers, this`fadeOuts)
      ensures t !in didTap ==> events == old(events) && HidingBegun(t, true)
    {
      if t in didTap {
        events := events + [DidTap(t)];
      } else {
        BeginHide(t, true);
      }
    }

    /**
     * `toastTimerDidFinish`: the one-shot timer `k` fires, which ends its
     * validity, and hides its toast through the guarded public hide.
     */
    method TimerFired(k: nat)
      requires Valid() && k < |timers| && timers[k].isValid
      modifies this`timers, this`toasts, this`fadeOuts
      ensures Valid()
      ensures var t := old(timers)[k].toast;
        var fired := old(timers)[k := old(timers)[k].(isValid := false)];
        if t in old(active) then
          t in old(toasts) &&
          timers == Invalidated(fired, old(toasts)[t].timer) &&
          toasts == old(toasts)[t := old(toasts)[t].(alpha := 0.0)] &&
          fadeOuts == old(fadeOuts) + [FadeOut(t, false)]
        else
          timers == fired && toasts == old(toasts) && fadeOuts == old(fadeOuts)
    {
      var t := timers[k].toast;
      timers := timers[k := timers[k].(isValid := false)];
      Hide(t);
    }

    /** The toast's layout passthrough: reframe it with the configuration captured when it was shown. */
    method LayoutDidChange(t: ToastId)
      requires t in placement
      modifies this`placement
      ensures placement == old(placement)[t := old(placement)[t].(frame := Frame(old(placement)[t].layoutConfiguration, container))]
    {
      placement := placement[t := placement[t].(frame := Frame(placement[t].layoutConfiguration, container))];
    }

    /** The container's geometry, size classes or subviews change. */
    method ContainerDidChange(sv: Superview)
      modifies this`container
      ensures container == sv
    {
      container := sv;
    }
  }

  /** Removing the element at `|s|` from `s + tail` leaves `s` followed by the rest of `tail`. */
  lemma DropAt<T>(s: seq<T>, tail: seq<T>)
    requires tail != []
    ensures (s + tail)[|s|] == tail[0]
    ensures (s + tail)[..|s|] + (s + tail)[|s| + 1..] == s + tail[1..]
  {
    assert (s + tail)[..|s|] == s;
    assert (s + tail)[|s| + 1..] == tail[1..];
  }

  lemma AppendTwice<T>(s: seq<T>, x: T)
    ensures s + [x] + [x] == s + [x, x]
  {
  }

  /**
   * Hiding is not idempotent: the active-membership guard is checked when hide
   * is called, and the toast leaves the active list only when its fade-out
   * completes, so a second hide issued before that also completes and reports.
   */
  method HideTwiceCompletesTwice(host: ToastHost, t: ToastId)
    requires host.Valid() && t in host.active && host.queue == []
    modifies host
    ensures host.events == old(host.events) + [HideCompleted(t, false), HideCompleted(t, false)]
    ensures host.fadeOuts == old(host.fadeOuts)
  {
    ghost var fadeOuts0, events0 := host.fadeOuts, host.events;
    var n := |host.fadeOuts|;
    host.Hide(t);
    host.Hide(t);
    DropAt(fadeOuts0, [FadeOut(t, false), FadeOut(t, false)]);
    host.FadeOutFinished(n);
    DropAt(fadeOuts0, [FadeOut(t, false)]);
    host.FadeOutFinished(n);
    AppendTwice(events0, HideCompleted(t, false));
  }


  /**
   * In a new container under the shared default (3 seconds): show a toast,
   * let its fade-in finish so its timer is scheduled, then hide it; that
   * timer ends up invalid.
   */
  method HideCancelsTimer(sv: Superview, t: ToastId) returns (timerValid: bool)
    ensures !timerValid
  {
    var host := new ToastHost(sv);
    host.ShowToast(t, false, false);
    host.FadeInFinished(0);
    host.Hide(t);
    timerValid := host.timers[0].isValid;
  }

  /**
   * Showing a toast again while a timer is associated with it schedules a
   * second timer, which replaces the first in the association; hiding then
   * invalidates only the second, so the first stays valid and will still fire.
   */
  method ReshowLeaksTimer(host: ToastHost, t: ToastId, k: nat)
    requires host.Valid() && host.fadeIns == []
    requires t in host.toasts && host.toasts[t].timer == Some(k)
    requires k < |host.timers| && host.timers[k].isValid
    requires EffectiveConfiguration(host.toastConfiguration, t).duration.Definite?
    modifies host
    ensures k < |host.timers| && host.timers[k] == old(host.timers[k])
    ensures |host.timers| == |old(host.timers)| + 1 && !host.timers[|old(host.timers)|].isValid
    ensures host.fadeOuts == old(host.fadeOuts) + [FadeOut(t, false)]
  {
    host.ShowToast(t, false, false);
    host.FadeInFinished(0);
    host.Hide(t);
  }
}
