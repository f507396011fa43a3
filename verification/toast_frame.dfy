/**
 * `origin(forToast:inSuperView:)` and `frame(forToast:inSuperView:)` of
 * ToastConfiguration (FrenchToast/ToastConfiguration.swift): the rectangle a
 * toast is given, and what that rectangle leaves free around it.
 */
module ToastFrame {
  import opened Geometry
  import opened Views
  import opened ToastConfiguration
  import opened ToastAlignment

  /** `origin(forToast:inSuperView:)`: each coordinate from the configuration's alignment on that axis. */
  function Origin(cfg: Configuration, sv: Superview): (p: Point)
    ensures p.x == HorizontalOrigin(cfg.horizontalAlignment, cfg, sv)
    ensures p.y == VerticalOrigin(cfg.verticalAlignment, cfg, sv)
  {
    Point(HorizontalOrigin(cfg.horizontalAlignment, cfg, sv), VerticalOrigin(cfg.verticalAlignment, cfg, sv))
  }

  /** `frame(forToast:inSuperView:)`: the toast's size placed at its origin. */
  function Frame(cfg: Configuration, sv: Superview): (r: Rect)
    ensures r.origin == Origin(cfg, sv) && r.size == ToastSize(cfg, sv)
  {
    Rect(Origin(cfg, sv), ToastSize(cfg, sv))
  }

  /**
   * The x of the origin depends only on the horizontal alignment and the y only
   * on the vertical one; both depend on the configuration's other settings.
   */
  lemma OriginAxesIndependent(cfg: Configuration, sv: Superview, h: HorizontalAlignment, v: VerticalAlignment)
    ensures Origin(cfg.(verticalAlignment := v), sv).x == Origin(cfg, sv).x
    ensures Origin(cfg.(horizontalAlignment := h), sv).y == Origin(cfg, sv).y
    ensures Frame(cfg, sv).origin == Origin(cfg, sv) && Frame(cfg, sv).size == ToastSize(cfg, sv)
  {
    assert ToastSize(cfg.(verticalAlignment := v), sv) == ToastSize(cfg, sv);
    assert ToastSize(cfg.(horizontalAlignment := h), sv) == ToastSize(cfg, sv);
  }

  /**
   * The space a frame leaves on each side of the superview: centred frames
   * leave equal gaps on both sides of an axis, edge-aligned frames leave the
   * inset or margin on their own edge.
   */
  lemma FrameGaps(cfg: Configuration, sv: Superview)
    ensures var r := Frame(cfg, sv);
      !CompactOverride(cfg, sv) && cfg.horizontalAlignment == HorizontalAlignment.Center ==>
        r.origin.x == sv.Width() - (r.origin.x + r.size.width)
    ensures var r := Frame(cfg, sv);
      !CompactOverride(cfg, sv) && cfg.horizontalAlignment == Right ==>
        sv.Width() - (r.origin.x + r.size.width) == RightGap(cfg, sv)
    ensures var r := Frame(cfg, sv);
      cfg.verticalAlignment == VerticalAlignment.Center ==>
        r.origin.y == sv.view.frame.size.height - (r.origin.y + r.size.height)
    ensures var r := Frame(cfg, sv);
      cfg.verticalAlignment == Bottom && BottomBar(cfg, sv).None? ==>
        sv.Height() - (r.origin.y + r.size.height) == VerticalMargin(cfg, sv) + sv.safeAreaInsets.bottom
    ensures var r := Frame(cfg, sv);
      cfg.verticalAlignment == Bottom && BottomBar(cfg, sv).Some? && sv.view.frame.size.height >= 0.0 ==>
        r.origin.y + r.size.height + VerticalMargin(cfg, sv) == BottomBar(cfg, sv).value.frame.MinY()
  {
    var r := Frame(cfg, sv);
    assert r.origin.x == HorizontalOrigin(cfg.horizontalAlignment, cfg, sv);
    assert r.origin.y == VerticalOrigin(cfg.verticalAlignment, cfg, sv);
  }

  /**
   * With width adjustment in a compact horizontal size class the frame starts
   * at the margin and spans the width less both safe-area insets and twice the
   * compact margin. The insets are not added to the origin, so in an
   * `isCompact` superview the whole inset allowance ends up on the right.
   */
  lemma CompactFullBleedGaps(cfg: Configuration, sv: Superview)
    requires CompactOverride(cfg, sv)
    ensures Frame(cfg, sv).origin.x == HorizontalMargin(cfg, sv)
    ensures sv.isCompact ==>
      sv.Width() - (Frame(cfg, sv).origin.x + Frame(cfg, sv).size.width) ==
        cfg.horizontalMarginForCompactSizeClass + sv.safeAreaInsets.left + sv.safeAreaInsets.right
  {
    var r := Frame(cfg, sv);
    assert r.origin.x == HorizontalOrigin(cfg.horizontalAlignment, cfg, sv);
  }

  /**
   * A right-aligned toast 100 wide in a 400-wide regular superview with a
   * right safe-area inset of 20 starts at x = 280.
   */
  lemma RightAlignmentExample(cfg: Configuration, sv: Superview)
    requires cfg.horizontalAlignment == Right
    requires cfg.suggestedSizeForRegularSizeClass.width == 100.0
    requires sv.horizontalSizeClass == Regular && sv.verticalSizeClass == Regular
    requires sv.view.frame.size.width == 400.0 && sv.safeAreaInsets.right == 20.0
    ensures Frame(cfg, sv).origin.x == 280.0
  {
    assert Frame(cfg, sv).origin.x == HorizontalOrigin(Right, cfg, sv);
  }

  /**
   * The default configuration in a regular superview with no bars to avoid:
   * a 400 by 64 toast, horizontally centred, 24 above the bottom safe-area inset.
   */
  lemma DefaultFrameInRegularSuperview(sv: Superview)
    requires sv.horizontalSizeClass == Regular && sv.verticalSizeClass == Regular && !sv.isCompact
    requires sv.VisibleBar(TabBar).None? && sv.VisibleBar(Toolbar).None?
    ensures Frame(SharedDefault, sv).size == Size(400.0, 64.0)
    ensures Frame(SharedDefault, sv).origin.x == sv.Width() / 2.0 - 200.0
    ensures Frame(SharedDefault, sv).origin.y == sv.Height() - 24.0 - 64.0 - sv.safeAreaInsets.bottom
  {
    var r := Frame(SharedDefault, sv);
    assert r.origin.x == HorizontalOrigin(HorizontalAlignment.Center, SharedDefault, sv);
    assert r.origin.y == VerticalOrigin(Bottom, SharedDefault, sv);
  }
}
