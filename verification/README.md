# FrenchToast, modelled in Dafny

FrenchToast shows transient notification views ("toasts") over a UIKit
container view. This project models its core:

- **Placement.** A configuration with sizes, margins and alignments gives a
  toast its size and its origin inside a superview. For left, right, top and
  bottom alignment the origin takes the safe-area insets into account; for
  top and bottom alignment it also takes into account any navigation bar,
  tab bar or toolbar found in the superview's subview tree.
- **The view-tree search.** `allSubviews` lists the subviews in pre-order,
  and `traverseSubviewsAndFindType` returns the first view of a given class
  in that list.
- **The lifecycle.** A container keeps an ordered list of active toasts and
  a FIFO queue. It shows a toast by fading it in and, for a definite
  duration, starting a one-shot timer once the fade-in ends. It hides a toast
  by invalidating its timer and fading it out. When the fade-out ends, the
  toast leaves the active list, its completion is reported, and the queue
  head is shown.
- **The older copies.** The repository also carries an older extension and
  an older alignment file. The model covers both: the older lifecycle, its
  `toastViewForMessage` layout, and the older alignment code with its
  fallback to the shared default configuration.

UIKit's asynchronous callbacks become methods that can be called in any
order: fade-in finished, fade-out finished, timer fired, tapped, layout
changed. The state a toast view carries is kept per toast in the
container's model: its alpha, tap recognizer and associated timer in one
record, and its frame with the configuration its layout uses in another. The
older lifecycle shares the first record and the summaries of hiding with the
current one.

Files and modules:

| file | module | models |
|---|---|---|
| wrappers.dfy | Wrappers | `Option` and `Result` |
| geometry.dfy | Geometry | `CGRect`'s standardised width, height, minY and maxY |
| views.dfy | Views | FrenchToast/Classes/UIView+Utility.swift and the superview's metrics |
| toast_configuration.dfy | ToastConfiguration | the configuration, its defaults and `size(forToast:inSuperView:)` |
| toast_alignment.dfy | ToastAlignment | `originCoordinate` of both alignment enums |
| toast_frame.dfy | ToastFrame | `origin` and `frame` of the configuration |
| legacy_alignment.dfy | LegacyAlignment | the older ToastAlignment.swift |
| toast_lifecycle.dfy | ToastLifecycle | FrenchToast/UIView+Toast.swift |
| legacy_toast.dfy | LegacyToast | the lifecycle of FrenchToast/Classes/UIView+Toast.swift |
| toast_view_layout.dfy | ToastViewLayout | `toastViewForMessage` of FrenchToast/Classes/UIView+Toast.swift |

Some behaviour of the code that a reader may not expect:

- **Hiding is not idempotent.** The active-membership check happens when
  hide is called, but the toast leaves the active list only when its
  fade-out ends. A second hide issued in between starts a second fade-out.
  Both fade-outs then run the completion step: the completion lookup and the
  queue promotion. The model logs each run as `HideCompleted`
  (`ToastLifecycle.HideTwiceCompletesTwice`). The public `showToast` drops
  the completion closure, so no closure is actually called.
- **Re-showing can leave a timer running.** Showing a toast that already has
  a timer schedules a second one, and the association keeps only the newer
  timer. A later hide therefore cancels only the newer timer, and the older
  one still fires (`ToastLifecycle.ReshowLeaksTimer`). That firing goes
  through the guarded hide, so it does nothing once the toast has left the
  active list.
- **Horizontal margins are not added to the insets.** For the left and
  right alignments the margin is used only when the inset is not positive.
  The code never adds the horizontal margin to the inset, although the
  documentation of the horizontal margin properties says it does
  (FrenchToast/ToastConfiguration.swift:72-81). The vertical margins are
  added to the top and bottom insets, as their documentation says.
- **The width adjustment and the origin use different margins.** For a
  compact horizontal size class, the width adjustment always subtracts the
  compact horizontal margin. The origin uses whichever margin `isCompact`
  selects. With `isCompact` set, the toast starts at the margin and leaves
  the margin plus both insets on its right (`ToastFrame.CompactFullBleedGaps`).
- **No live code path queues a toast.** The queueing `showToast` overload is
  commented out, so nothing enqueues. The queue is still modelled as a
  field, and its promotion is modelled as written.

## Model

| member | source | states |
|---|---|---|
| Views.FlattenAppend | FrenchToast/Classes/UIView+Utility.swift:19-21 | the pre-order listing of a list of siblings is the listing of its first part followed by the listing of the rest, so sibling order is kept |
| Views.PreorderPosition | FrenchToast/Classes/UIView+Utility.swift:19-21 | child `i` appears right after the full listings of the children before it, and its own `allSubviews` follow it immediately |
| Views.AllSubviewsLength | FrenchToast/Classes/UIView+Utility.swift:20 | `allSubviews` has exactly one entry per strict descendant |
| Views.AllSubviewsSmaller | FrenchToast/Classes/UIView+Utility.swift:20 | every listed view roots a smaller tree, the receiver is not in its own list, and a leaf gives the empty list |
| Views.AllSubviewsAreDescendants | FrenchToast/Classes/UIView+Utility.swift:19-21 | a view is in `allSubviews` exactly when it is a strict descendant |
| Views.FirstOfKind | FrenchToast/Classes/UIView+Utility.swift:12-16 | the result is an element of the requested class with no earlier element of that class; the result is absent exactly when no element has that class |
| Views.TraverseSubviewsAndFindType | FrenchToast/Classes/UIView+Utility.swift:12-17 | the result is a descendant of the requested class, sitting at the first such index of `allSubviews`; the result is nil exactly when no descendant has that class |
| ToastConfiguration.DefaultValues | FrenchToast/ToastConfiguration.swift:52-127 | the shared default: definite 3.0 s, fade 0.2, tap to dismiss on, margins 12 compact and 24 regular on both axes, width adjustment on, sizes 350×48 and 400×64, bars avoided, centre/bottom alignment |
| ToastConfiguration.MarginsFollowIsCompact | FrenchToast/ToastAlignment.swift:49 | the compact margins are used exactly when the superview `isCompact`, on both axes (line 95 for the vertical one) |
| ToastConfiguration.ToastSize | FrenchToast/ToastConfiguration.swift:147-168 | the regular suggested size when neither size class is compact; the compact suggested size when one is compact and no width adjustment applies; under the adjustment, the width plus twice the compact margin plus both side insets fills the superview's width, and the height is the compact height |
| ToastConfiguration.HeightIgnoresGeometry | FrenchToast/ToastConfiguration.swift:149-164 | the height depends only on the size classes and is always one of the two suggested heights |
| ToastAlignment.HorizontalOrigin | FrenchToast/ToastAlignment.swift:45-81 | under width adjustment the margin, whatever the alignment; left: a positive left inset alone, else the margin; centre: the toast's midpoint is the superview's midpoint; right: origin plus width plus the positive right inset (else the margin) is the superview's width |
| ToastAlignment.VerticalOrigin | FrenchToast/ToastAlignment.swift:91-142 | top: margin plus a visible navigation bar's maxY, else margin plus the top inset; centre: midpoints coincide; bottom: origin plus height plus margin plus either the bar's distance from the bottom or the bottom inset is the superview's height |
| ToastAlignment.BottomBarPrecedence | FrenchToast/ToastAlignment.swift:123-137 | a visible tab bar wins over a toolbar; a hidden bar, or `appearOverTopAndBottomBars` off, falls through; any bar used is a visible descendant tab bar or toolbar |
| ToastFrame.Origin | FrenchToast/ToastConfiguration.swift:139-145 | x is the horizontal origin for the configuration's horizontal alignment, y the vertical origin for its vertical alignment |
| ToastFrame.Frame | FrenchToast/ToastConfiguration.swift:133-137 | the frame sits at the origin and has the configuration's toast size |
| ToastFrame.OriginAxesIndependent | FrenchToast/ToastConfiguration.swift:133-145 | the frame is the origin with the size; x does not depend on the vertical alignment, y does not depend on the horizontal one |
| ToastFrame.FrameGaps | FrenchToast/ToastAlignment.swift:68-139 | centred frames leave equal gaps on both sides of their axis; a right-aligned frame leaves the right gap; a bottom frame leaves the margin plus the inset, or ends one margin above the bar's minY |
| ToastFrame.CompactFullBleedGaps | FrenchToast/ToastConfiguration.swift:151-157 | under width adjustment the frame starts at the margin; with `isCompact` set the space on its right is the compact margin plus both insets |
| ToastFrame.RightAlignmentExample | FrenchToast/ToastAlignment.swift:72-76 | a 100-wide toast, right-aligned in a 400-wide regular superview with right inset 20, starts at x = 280 |
| ToastFrame.DefaultFrameInRegularSuperview | FrenchToast/ToastConfiguration.swift:133-137 | with the defaults, in a regular superview without bars: a 400×64 frame, centred horizontally, 24 above the bottom inset |
| ToastConfiguration.ResolvedConfiguration | ToastAlignment.swift:18 | the toast's own configuration if set, else the shared default |
| LegacyAlignment.HorizontalOrigin | ToastAlignment.swift:16-52 | the same x as the current alignment under the resolved configuration |
| LegacyAlignment.VerticalOrigin | ToastAlignment.swift:62-113 | the same y as the current alignment under the resolved configuration |
| LegacyAlignment.LegacyPlacementProperties | ToastAlignment.swift:22-49 | the width-adjustment, right and centre laws and the barless bottom law hold for the older code; a toast without its own configuration is placed as the shared default places it |
| ToastLifecycle.TimerRequest | FrenchToast/UIView+Toast.swift:222-241 | a fade-in that schedules a timer is registered exactly for a definite duration, with that duration |
| ToastLifecycle.RemoveAll | FrenchToast/UIView+Toast.swift:257 | `remove` drops every occurrence of the toast and keeps every other element |
| ToastLifecycle.RemoveAllAppend | FrenchToast/UIView+Toast.swift:257 | removal distributes over concatenation, so the order of the rest is kept |
| ToastLifecycle.RemoveAllCount | FrenchToast/UIView+Toast.swift:257 | removal takes out exactly the occurrences of the toast: as multisets, the rest is unchanged |
| ToastLifecycle.HideRequests | FrenchToast/UIView+Toast.swift:182-183 | one non-tap fade-out per toast, in the order of the list |
| ToastLifecycle.FadedForFadesExactly | FrenchToast/UIView+Toast.swift:182-183 | hiding a list of toasts sets the alpha of exactly those toasts to 0 and changes no other toast |
| ToastLifecycle.InvalidatedForExactly | FrenchToast/UIView+Toast.swift:182-183 | hiding a list of toasts invalidates exactly the timers associated with one of them, keeps the number of timers, and changes no other timer |
| ToastLifecycle.HideStep | FrenchToast/UIView+Toast.swift:182-183 | hiding one more toast extends each summary of the hidden prefix (fade-outs, alphas, invalidated timers) by that toast |
| ToastLifecycle.EffectiveConfiguration | FrenchToast/UIView+Toast.swift:203 | a toast's configuration is its own one if set, else the shared default, as `ResolvedConfiguration` gives it (also line 247) |
| ToastLifecycle.ToastHost.constructor | FrenchToast/UIView+Toast.swift:92-114 | a container starts with no active toasts, an empty queue and nothing running |
| ToastLifecycle.ToastHost.SetToastConfiguration | FrenchToast/UIView+Toast.swift:80-90 | setting stores the configuration, clearing removes it; the effective configuration is the stored one or the shared default |
| ToastLifecycle.ToastHost.ClearDidTap | FrenchToast/UIView+Toast.swift:137-139 | the toast no longer carries a `didTap` closure |
| ToastLifecycle.ToastHost.ShowToast | FrenchToast/UIView+Toast.swift:129-135 | the closures are dropped and the toast is shown directly: appended to the active list, never queued |
| ToastLifecycle.ToastHost.Present | FrenchToast/UIView+Toast.swift:201-243 | the toast gets the configuration's frame and alpha 1, a tap recognizer when tap to dismiss is on, and is appended to the active list; earlier entries and the queue are unchanged; a timer-scheduling fade-in is registered only for a definite duration |
| ToastLifecycle.ToastHost.FadeInFinished | FrenchToast/UIView+Toast.swift:234-240 | a valid timer with the duration is scheduled and becomes the toast's associated timer |
| ToastLifecycle.ToastHost.HideOldest | FrenchToast/UIView+Toast.swift:153-156 | nothing changes without active toasts; otherwise the oldest starts hiding |
| ToastLifecycle.ToastHost.Hide | FrenchToast/UIView+Toast.swift:166-169 | a toast that is not active, a queued one included, is left alone; an active one starts hiding, not as a tap |
| ToastLifecycle.ToastHost.BeginHide | FrenchToast/UIView+Toast.swift:245-255 | the associated timer is invalidated, the alpha goes to 0 and a fade-out is registered with the tap flag |
| ToastLifecycle.ToastHost.FadeOutFinished | FrenchToast/UIView+Toast.swift:256-270 | the toast leaves the active list, the completion is reported with the tap flag, and a non-empty queue loses its head, which is then shown |
| ToastLifecycle.ToastHost.HideAll | FrenchToast/UIView+Toast.swift:177-188 | the queue is emptied unless `clearQueue` is false (it defaults to true), then every active toast starts hiding, oldest first; the active list itself is unchanged |
| ToastLifecycle.ToastHost.HideEach | FrenchToast/UIView+Toast.swift:182-183 | each listed active toast starts hiding, in order |
| ToastLifecycle.ToastHost.ClearQueue | FrenchToast/UIView+Toast.swift:195-197 | the queue is empty and nothing else changes |
| ToastLifecycle.ToastHost.Tapped | FrenchToast/UIView+Toast.swift:276-288 | a stored `didTap` closure is called and nothing else changes; otherwise the toast starts hiding as a tap, without an active check |
| ToastLifecycle.ToastHost.TimerFired | FrenchToast/UIView+Toast.swift:290-294 | the timer stops being valid, and its toast starts hiding (not as a tap) only when it is still active |
| ToastLifecycle.ToastHost.LayoutDidChange | FrenchToast/UIView+Toast.swift:215-217 | the toast is re-framed with the configuration it was shown with |
| ToastLifecycle.HideTwiceCompletesTwice | FrenchToast/UIView+Toast.swift:245-270 | hiding an active toast twice before its fade-out ends reports two completions |
| ToastLifecycle.HideCancelsTimer | FrenchToast/UIView+Toast.swift:249-251 | in a new container, a toast without its own configuration (so with the shared default's 3-second duration) is shown, its fade-in completes and it is hidden: the timer that fade-in scheduled ends up invalid |
| ToastLifecycle.ReshowLeaksTimer | FrenchToast/UIView+Toast.swift:236-240 | re-showing a toast with a valid timer and hiding it leaves the older timer valid and only the newer one invalid |
| LegacyToast.LegacyToastHost.constructor | FrenchToast/Classes/UIView+Toast.swift:114-136 | a container starts with no active toasts, an empty queue and nothing running |
| LegacyToast.LegacyToastHost.SetToastConfiguration | FrenchToast/Classes/UIView+Toast.swift:102-112 | setting stores the configuration, clearing removes it; the effective configuration is the stored one or the shared default |
| LegacyToast.LegacyToastHost.ClearDidTap | FrenchToast/Classes/UIView+Toast.swift:204-206 | the toast no longer carries a `didTap` closure |
| LegacyToast.LegacyToastHost.ShowToast | FrenchToast/Classes/UIView+Toast.swift:196-202 | the closures are dropped and the toast is shown directly |
| LegacyToast.LegacyToastHost.Present | FrenchToast/Classes/UIView+Toast.swift:296-363 | alpha 1, a tap recognizer when the shared tap-to-dismiss flag is on, appended to the active list, a timer-scheduling fade-in only for a definite duration |
| LegacyToast.LegacyToastHost.FadeInFinished | FrenchToast/Classes/UIView+Toast.swift:334-343 | a valid timer with the duration is scheduled and becomes the toast's associated timer |
| LegacyToast.LegacyToastHost.HideOldest | FrenchToast/Classes/UIView+Toast.swift:248-251 | nothing changes without active toasts; otherwise the first active toast starts hiding |
| LegacyToast.LegacyToastHost.Hide | FrenchToast/Classes/UIView+Toast.swift:261-264 | a toast that is not active is left alone; an active one starts hiding |
| LegacyToast.LegacyToastHost.BeginHide | FrenchToast/Classes/UIView+Toast.swift:365-375 | the associated timer is invalidated, the alpha goes to 0 and a fade-out is registered with the tap flag |
| LegacyToast.LegacyToastHost.FadeOutFinished | FrenchToast/Classes/UIView+Toast.swift:376-385 | the toast leaves the active list and the completion is reported; the queue head is shown but stays in the queue |
| LegacyToast.LegacyToastHost.HideAll | FrenchToast/Classes/UIView+Toast.swift:272-282 | the queue is emptied unless `clearQueue` is false (it defaults to true), then every active toast starts hiding, oldest first |
| LegacyToast.LegacyToastHost.HideEach | FrenchToast/Classes/UIView+Toast.swift:277-278 | each listed active toast starts hiding, in order |
| LegacyToast.LegacyToastHost.ClearQueue | FrenchToast/Classes/UIView+Toast.swift:290-292 | the queue is empty and nothing else changes |
| LegacyToast.LegacyToastHost.Tapped | FrenchToast/Classes/UIView+Toast.swift:397-409 | a stored `didTap` closure is called; otherwise the toast starts hiding as a tap |
| LegacyToast.LegacyToastHost.TimerFired | FrenchToast/Classes/UIView+Toast.swift:412-415 | the timer stops being valid and its toast starts hiding only when still active |
| LegacyToast.PromotionRepeatsQueueHead | FrenchToast/Classes/UIView+Toast.swift:383-385 | with one toast queued, two finished hides show it twice and leave it queued |
| ToastViewLayout.ImageRect | FrenchToast/Classes/UIView+Toast.swift:457-470 | the image sits at the paddings with the style's image size; without an image the rectangle is zero |
| ToastViewLayout.MessageRect | FrenchToast/Classes/UIView+Toast.swift:499-524 | each side of the message's size is the smaller of the measured and the offered size |
| ToastViewLayout.ToastViewForMessage | FrenchToast/Classes/UIView+Toast.swift:435-551 | fails with `missingParameters` exactly when message, title and image are all absent; otherwise the layout holds a rectangle for exactly the parts given |
| ToastViewLayout.LayoutArithmetic | FrenchToast/Classes/UIView+Toast.swift:508-543 | both labels start one padding right of the image; the message is one padding below the title (one padding down without a title); both labels end as wide as the wider one; the message's height is clamped; the wrapper is at least each of the terms of its maxima |
| ToastViewLayout.ContainedWithMessageOrWithoutTitle | FrenchToast/Classes/UIView+Toast.swift:526-529 | with a message, or with only an image, every subview lies inside the wrapper |
| ToastViewLayout.TitleOnlyFitsIff | FrenchToast/Classes/UIView+Toast.swift:529 | with a title and no message, the title fits exactly when it is no taller than the image plus one padding |
| ToastViewLayout.TitleOnlyToastOverflows | FrenchToast/Classes/UIView+Toast.swift:529 | a title 20 high, with no message, no image and padding 10, gets a wrapper 20 high, so the title sticks out |
| ToastViewLayout.ToastViewForMessageCorrected | FrenchToast/Classes/UIView+Toast.swift:435-551 | the same validation and parts as the original, with the wrapper height also covering the title |
| ToastViewLayout.CorrectedContained | FrenchToast/Classes/UIView+Toast.swift:526-529 | with the corrected height, every subview lies inside the wrapper for all content |
| ToastViewLayout.CorrectedAgreesWithMessage | FrenchToast/Classes/UIView+Toast.swift:529 | whenever a message is present the corrected layout equals the original |

## Left out

- UIKit effects are not modelled as calls. Animations, `addSubview`, `removeFromSuperview`, the run loop and gesture recognizers are foreign. They appear as per-toast state (alpha target, frame, recognizer flag, associated timer) plus explicit events for the callbacks.
- Animation timing is left out. `fadeDuration` is not used, and alpha records the animation's target value.
- The `guard` clauses of the tap and timer handlers (`recognizer.view as? ToastView`, `timer.userInfo as? ToastView`) are left out. The model always knows which toast a callback is for.
- Subclass tests (`as? UINavigationBar` and the others) become a `Kind` tag on each view.
- Repeated tap recognizers are collapsed into one flag. Showing a toast again adds another recognizer in the source, and the model keeps only "has one".
- The completion and `didTap` closures are not stored, and neither is any code they run. The public `showToast` drops both, so no live code path attaches them to a toast. The events log records each point where the source would call one: `HideCompleted` where a completion gets the tap flag, and `DidTap` where a stored `didTap` runs.
- `ToastManager.isQueueEnabled` is left out: only commented-out code reads it.
- `ToastManager.shared.isTapToDismissEnabled`, which the older lifecycle reads, does not exist in ToastManager.swift. It is modelled as a field of `LegacyToast.LegacyToastHost` that the constructor sets and nothing changes afterwards, so the model does not show the flag changing between two shows.
- The older lifecycle's placement is not modelled: `configuration.alignment.centerPoint`, its trait-collection passthrough and `toast.center`. That code reads `toast.toastConfiguration?.alignment`, of type `FTAlignment`, and calls its `centerPoint(forToast:inSuperView:)`. Neither `FTAlignment` nor `centerPoint(forToast:inSuperView:)` is defined in the files this model covers, so the behaviour of that code is unknown here.
- `toast.configuration`, which the alignment code reads, is not part of this model. The alignment functions take the configuration as a parameter, and the lifecycle passes the toast's effective configuration.
- The root ToastConfiguration.swift is not modelled. It is a stale list of defaults with no behaviour.
- FrenchToast/ToastView.swift, FrenchToast/Classes/ToastView.swift, FrenchToast/Classes/DefaultToastView.swift and ToastContainerView.swift only forward callbacks, so they are left out.
- The Example app is left out, and so is all commented-out code.
- Floating point is modelled as `real`.
- Text measurement (`sizeThatFits`), fonts, colours, shadows and corner radii are left out. The measured label sizes are inputs.
- A label's bounds are taken to be the size its frame was given. UIKit's treatment of a negative frame size, which an offered width below zero could produce, is not modelled.
- `isCompact` of the superview is an input, as are its size classes, safe-area insets and subview tree.
- ToastLifecycle.ToastHost.Valid keeps only the facts that the methods need: active and fading-in toasts are known, and the associated timer was scheduled for its toast. That running fade-outs and all scheduled timers refer to known toasts is true in the source but not stated.

## Findings

| source | as written | input that shows it | evidently intended | confidence | as-written member | corrected member |
|---|---|---|---|---|---|---|
| FrenchToast/Classes/UIView+Toast.swift:529 | the wrapper's height is the larger of the message's bottom edge plus the padding and the image's height plus twice the padding; the title's bottom edge is not considered | title measured 50×20, no message, no image, both paddings 10: the title spans y = 10 to 30, but the wrapper is 20 high | the height also covers the title's bottom edge plus the padding, so every subview lies inside the wrapper | not executed | ToastViewLayout.TitleOnlyToastOverflows | ToastViewLayout.CorrectedContained |
