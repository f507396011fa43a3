/**
 * The older copy of the alignment code (ToastAlignment.swift at the repository
 * root). It is the same case analysis, except that it reads the toast's own
 * configuration and falls back to `ToastConfiguration.sharedDefault` when the
 * toast has none. It calls members that only the configuration of
 * FrenchToast/ToastConfiguration.swift has, so it is modelled against that one.
 */
module LegacyAlignment {
  import opened Wrappers
  import opened Geometry
  import opened Views
  import opened ToastConfiguration
  import ToastAlignment

  /** The legacy `ToastHorizontalAlignment.originCoordinate`. */
  function HorizontalOrigin(a: HorizontalAlignment, own: Option<Configuration>, sv: Superview): (x: real)
    ensures x == ToastAlignment.HorizontalOrigin(a, ResolvedConfiguration(own), sv)
  {
    var configuration := ResolvedConfiguration(own);
    var size := ToastSize(configuration, sv);
    var horizontalMargin :=
      if sv.isCompact then configuration.horizontalMarginForCompactSizeClass
      else configuration.horizontalMarginForRegularSizeClass;
    if configuration.adjustWidthForCompactSizeClass && sv.horizontalSizeClass == Compact then
      horizontalMargin
    else
      match a
      case Left =>
        if sv.safeAreaInsets.left > 0.0 then sv.safeAreaInsets.left else horizontalMargin
      case Center =>
        (sv.view.frame.Width() / 2.0) - (size.width / 2.0)
      case Right =>
        if sv.safeAreaInsets.right > 0.0 then sv.view.frame.Width() - sv.safeAreaInsets.right - size.width
        else sv.view.frame.Width() - horizontalMargin - size.width
  }

  /** The legacy `ToastVerticalAlignment.originCoordinate`. */
  function VerticalOrigin(a: VerticalAlignment, own: Option<Configuration>, sv: Superview): (y: real)
    ensures y == ToastAlignment.VerticalOrigin(a, ResolvedConfiguration(own), sv)
  {
    var configuration := ResolvedConfiguration(own);
    var size := ToastSize(configuration, sv);
    var verticalMargin :=
      if sv.isCompact then configuration.verticalMarginForCompactSizeClass
      else configuration.verticalMarginForRegularSizeClass;
    match a
    case Top =>
      var navBar := TraverseSubviewsAndFindType(sv.view, NavigationBar);
      if configuration.appearOverTopAndBottomBars && navBar.Some? && navBar.value.isHidden == false then
        verticalMargin + navBar.value.frame.MaxY()
      else
        verticalMargin + sv.safeAreaInsets.top
    case Center =>
      (sv.view.frame.size.height / 2.0) - (size.height / 2.0)
    case Bottom =>
      var bottomInset := verticalMargin + size.height;
      var tabBar := TraverseSubviewsAndFindType(sv.view, TabBar);
      var toolbar := TraverseSubviewsAndFindType(sv.view, Toolbar);
      var offset :=
        if configuration.appearOverTopAndBottomBars && tabBar.Some? && tabBar.value.isHidden == false then
          sv.view.frame.size.height - tabBar.value.frame.MinY()
        else if configuration.appearOverTopAndBottomBars && toolbar.Some? && toolbar.value.isHidden == false then
          sv.view.frame.size.height - toolbar.value.frame.MinY()
        else
          sv.safeAreaInsets.bottom;
      sv.view.frame.Height() - (bottomInset + offset)
  }

  /**
   * The legacy placement keeps every promise of the current one under the
   * resolved configuration; with no configuration of its own a toast is
   * placed as the shared default places it.
   */
  lemma LegacyPlacementProperties(ah: HorizontalAlignment, av: VerticalAlignment,
                                  own: Option<Configuration>, sv: Superview)
    ensures var cfg := ResolvedConfiguration(own);
      CompactOverride(cfg, sv) ==> HorizontalOrigin(ah, own, sv) == HorizontalMargin(cfg, sv)
    ensures var cfg := ResolvedConfiguration(own);
      !CompactOverride(cfg, sv) && ah == Right ==>
        HorizontalOrigin(ah, own, sv) + ToastSize(cfg, sv).width + ToastAlignment.RightGap(cfg, sv) == sv.Width()
    ensures var cfg := ResolvedConfiguration(own);
      !CompactOverride(cfg, sv) && ah == HorizontalAlignment.Center ==>
        HorizontalOrigin(ah, own, sv) == sv.Width() / 2.0 - ToastSize(cfg, sv).width / 2.0
    ensures var cfg := ResolvedConfiguration(own);
      av == Bottom && ToastAlignment.BottomBar(cfg, sv).None? ==>
        VerticalOrigin(av, own, sv) == sv.Height() - (VerticalMargin(cfg, sv) + ToastSize(cfg, sv).height
                                                      + sv.safeAreaInsets.bottom)
    ensures own.None? ==>
      HorizontalOrigin(ah, own, sv) == ToastAlignment.HorizontalOrigin(ah, SharedDefault, sv) &&
      VerticalOrigin(av, own, sv) == ToastAlignment.VerticalOrigin(av, SharedDefault, sv)
  {
  }
}
