/**
 * `originCoordinate` of ToastHorizontalAlignment and ToastVerticalAlignment
 * (FrenchToast/ToastAlignment.swift): where a toast's frame starts on each axis.
 */
module ToastAlignment {
  import opened Wrappers
  import opened Geometry
  import opened Views
  import opened ToastConfiguration

  /** The gap the right alignment leaves: the right safe-area inset if positive, else the margin. */
  function RightGap(cfg: Configuration, sv: Superview): real
  {
    if sv.safeAreaInsets.right > 0.0 then sv.safeAreaInsets.right else HorizontalMargin(cfg, sv)
  }

  /** The bar a bottom-aligned toast sits above: a visible tab bar first, then a visible toolbar. */
  function BottomBar(cfg: Configuration, sv: Superview): Option<View>
  {
    if cfg.appearOverTopAndBottomBars && sv.VisibleBar(TabBar).Some? then sv.VisibleBar(TabBar)
    else if cfg.appearOverTopAndBottomBars && sv.VisibleBar(Toolbar).Some? then sv.VisibleBar(Toolbar)
    else None
  }

  /** `ToastHorizontalAlignment.originCoordinate`: the x of the toast's origin. */
  function HorizontalOrigin(a: HorizontalAlignment, cfg: Configuration, sv: Superview): (x: real)
    ensures CompactOverride(cfg, sv) ==> x == HorizontalMargin(cfg, sv)
    ensures !CompactOverride(cfg, sv) && a == Left ==>
      if sv.safeAreaInsets.left > 0.0 then x == sv.safeAreaInsets.left else x == HorizontalMargin(cfg, sv)
    ensures !CompactOverride(cfg, sv) && a == HorizontalAlignment.Center ==>
      x + ToastSize(cfg, sv).width / 2.0 == sv.Width() / 2.0
    ensures !CompactOverride(cfg, sv) && a == Right ==>
      x + ToastSize(cfg, sv).width + RightGap(cfg, sv) == sv.Width()
  {
    var size := ToastSize(cfg, sv);
    var horizontalMargin := HorizontalMargin(cfg, sv);
    if cfg.adjustWidthForCompactSizeClass && sv.horizontalSizeClass == Compact then
      horizontalMargin
    else
      match a
      case Left =>
        if sv.safeAreaInsets.left > 0.0 then sv.safeAreaInsets.left else horizontalMargin
      case Center =>
        (sv.Width() / 2.0) - (size.width / 2.0)
      case Right =>
        if sv.safeAreaInsets.right > 0.0 then sv.Width() - sv.safeAreaInsets.right - size.width
        else sv.Width() - horizontalMargin - size.width
  }

  /** `ToastVerticalAlignment.originCoordinate`: the y of the toast's origin. */
  function VerticalOrigin(a: VerticalAlignment, cfg: Configuration, sv: Superview): (y: real)
    ensures a == Top && cfg.appearOverTopAndBottomBars && sv.VisibleBar(NavigationBar).Some? ==>
      y == VerticalMargin(cfg, sv) + sv.VisibleBar(NavigationBar).value.frame.MaxY()
    ensures a == Top && !(cfg.appearOverTopAndBottomBars && sv.VisibleBar(NavigationBar).Some?) ==>
      y == VerticalMargin(cfg, sv) + sv.safeAreaInsets.top
    ensures a == VerticalAlignment.Center ==>
      y + ToastSize(cfg, sv).height / 2.0 == sv.view.frame.size.height / 2.0
    ensures a == Bottom && BottomBar(cfg, sv).Some? ==>
      y + ToastSize(cfg, sv).height + VerticalMargin(cfg, sv)
        + (sv.view.frame.size.height - BottomBar(cfg, sv).value.frame.MinY()) == sv.Height()
    ensures a == Bottom && BottomBar(cfg, sv).None? ==>
      y + ToastSize(cfg, sv).height + VerticalMargin(cfg, sv) + sv.safeAreaInsets.bottom == sv.Height()
  {
    var size := ToastSize(cfg, sv);
    var verticalMargin := VerticalMargin(cfg, sv);
    match a
    case Top =>
      var navBar := sv.VisibleBar(NavigationBar);
      var topInset :=
        if cfg.appearOverTopAndBottomBars && navBar.Some? then verticalMargin + navBar.value.frame.MaxY()
        else verticalMargin + sv.safeAreaInsets.top;
      topInset
    case Center =>
      (sv.view.frame.size.height / 2.0) - (size.height / 2.0)
    case Bottom =>
      var bottomInset := verticalMargin + size.height;
      var tabBar := sv.VisibleBar(TabBar);
      var toolbar := sv.VisibleBar(Toolbar);
      var bottomInset' :=
        if cfg.appearOverTopAndBottomBars && tabBar.Some? then
          bottomInset + (sv.view.frame.size.height - tabBar.value.frame.MinY())
        else if cfg.appearOverTopAndBottomBars && toolbar.Some? then
          bottomInset + (sv.view.frame.size.height - toolbar.value.frame.MinY())
        else
          bottomInset + sv.safeAreaInsets.bottom;
      sv.Height() - bottomInset'
  }

  /**
   * Which bar the bottom alignment uses: a visible tab bar wins over a toolbar;
   * a hidden first bar of a class counts as absent, even when a later view of
   * that class is visible; without `appearOverTopAndBottomBars` no bar is used.
   */
  lemma BottomBarPrecedence(cfg: Configuration, sv: Superview)
    ensures !cfg.appearOverTopAndBottomBars ==> BottomBar(cfg, sv).None?
    ensures cfg.appearOverTopAndBottomBars ==>
      match TraverseSubviewsAndFindType(sv.view, TabBar)
      case Some(tab) =>
        if !tab.isHidden then BottomBar(cfg, sv) == Some(tab)
        else BottomBar(cfg, sv) == sv.VisibleBar(Toolbar)
      case None => BottomBar(cfg, sv) == sv.VisibleBar(Toolbar)
    ensures BottomBar(cfg, sv).Some? ==>
      !BottomBar(cfg, sv).value.isHidden &&
      (BottomBar(cfg, sv).value.kind == TabBar || BottomBar(cfg, sv).value.kind == Toolbar) &&
      IsDescendant(BottomBar(cfg, sv).value, sv.view)
  {
  }
}
