/**
 * ToastConfiguration (FrenchToast/ToastConfiguration.swift): the value that
 * decides a toast's duration, fade, margins, size and alignment, and the size
 * it gives a toast in a superview.
 */
module ToastConfiguration {
  import opened Wrappers
  import opened Geometry
  import opened Views

  datatype ToastDuration = Indefinite | Definite(time: real)

  datatype HorizontalAlignment = Right | Center | Left

  datatype VerticalAlignment = Top | Center | Bottom

  datatype Configuration = Configuration(
    duration: ToastDuration,
    fadeDuration: real,
    isTapToDismissEnabled: bool,
    horizontalMarginForCompactSizeClass: real,
    horizontalMarginForRegularSizeClass: real,
    verticalMarginForCompactSizeClass: real,
    verticalMarginForRegularSizeClass: real,
    adjustWidthForCompactSizeClass: bool,
    suggestedSizeForCompactSizeClass: Size,
    suggestedSizeForRegularSizeClass: Size,
    appearOverTopAndBottomBars: bool,
    horizontalAlignment: HorizontalAlignment,
    verticalAlignment: VerticalAlignment)

  /** `ToastConfiguration.sharedDefault`, a configuration built with every default. */
  const SharedDefault := Configuration(
    duration := Definite(3.0),
    fadeDuration := 0.2,
    isTapToDismissEnabled := true,
    horizontalMarginForCompactSizeClass := 12.0,
    horizontalMarginForRegularSizeClass := 24.0,
    verticalMarginForCompactSizeClass := 12.0,
    verticalMarginForRegularSizeClass := 24.0,
    adjustWidthForCompactSizeClass := true,
    suggestedSizeForCompactSizeClass := Size(350.0, 48.0),
    suggestedSizeForRegularSizeClass := Size(400.0, 64.0),
    appearOverTopAndBottomBars := true,
    horizontalAlignment := HorizontalAlignment.Center,
    verticalAlignment := VerticalAlignment.Bottom)

  /** The documented default of every setting. */
  lemma DefaultValues()
    ensures SharedDefault.duration == Definite(3.0) && SharedDefault.fadeDuration == 0.2
    ensures SharedDefault.isTapToDismissEnabled
    ensures SharedDefault.horizontalMarginForCompactSizeClass == 12.0
    ensures SharedDefault.horizontalMarginForRegularSizeClass == 24.0
    ensures SharedDefault.verticalMarginForCompactSizeClass == 12.0
    ensures SharedDefault.verticalMarginForRegularSizeClass == 24.0
    ensures SharedDefault.adjustWidthForCompactSizeClass
    ensures SharedDefault.suggestedSizeForCompactSizeClass == Size(350.0, 48.0)
    ensures SharedDefault.suggestedSizeForRegularSizeClass == Size(400.0, 64.0)
    ensures SharedDefault.appearOverTopAndBottomBars
    ensures SharedDefault.horizontalAlignment == HorizontalAlignment.Center
    ensures SharedDefault.verticalAlignment == VerticalAlignment.Bottom
  {
  }

  /** `toast.toastConfiguration ?? ToastConfiguration.sharedDefault`: a toast's own configuration, else the shared default. */
  function ResolvedConfiguration(own: Option<Configuration>): (cfg: Configuration)
    ensures own.Some? ==> cfg == own.value
    ensures own.None? ==> cfg == SharedDefault
  {
    match own
    case Some(c) => c
    case None => SharedDefault
  }

  /** Either size class of the superview is compact. */
  predicate EitherCompact(sv: Superview)
  {
    sv.horizontalSizeClass == Compact || sv.verticalSizeClass == Compact
  }

  /** Width adjustment applies: requested, and the horizontal size class is compact. */
  predicate CompactOverride(cfg: Configuration, sv: Superview)
  {
    cfg.adjustWidthForCompactSizeClass && sv.horizontalSizeClass == Compact
  }

  function HorizontalMargin(cfg: Configuration, sv: Superview): real
  {
    if sv.isCompact then cfg.horizontalMarginForCompactSizeClass
    else cfg.horizontalMarginForRegularSizeClass
  }

  function VerticalMargin(cfg: Configuration, sv: Superview): real
  {
    if sv.isCompact then cfg.verticalMarginForCompactSizeClass
    else cfg.verticalMarginForRegularSizeClass
  }

  /** Both axes use the compact margins exactly when the superview `isCompact`. */
  lemma MarginsFollowIsCompact(cfg: Configuration, sv: Superview)
    ensures sv.isCompact ==>
      HorizontalMargin(cfg, sv) == cfg.horizontalMarginForCompactSizeClass &&
      VerticalMargin(cfg, sv) == cfg.verticalMarginForCompactSizeClass
    ensures !sv.isCompact ==>
      HorizontalMargin(cfg, sv) == cfg.horizontalMarginForRegularSizeClass &&
      VerticalMargin(cfg, sv) == cfg.verticalMarginForRegularSizeClass
  {
  }

  /** `size(forToast:inSuperView:)` */
  function ToastSize(cfg: Configuration, sv: Superview): (s: Size)
    ensures !EitherCompact(sv) ==> s == cfg.suggestedSizeForRegularSizeClass
    ensures EitherCompact(sv) && !CompactOverride(cfg, sv) ==> s == cfg.suggestedSizeForCompactSizeClass
    ensures CompactOverride(cfg, sv) ==>
      s.width + 2.0 * cfg.horizontalMarginForCompactSizeClass
        + sv.safeAreaInsets.left + sv.safeAreaInsets.right == sv.Width() &&
      s.height == cfg.suggestedSizeForCompactSizeClass.height
  {
    if sv.horizontalSizeClass == Compact || sv.verticalSizeClass == Compact then
      if cfg.adjustWidthForCompactSizeClass && sv.horizontalSizeClass == Compact then
        var adjustedWidth := sv.Width() - (cfg.horizontalMarginForCompactSizeClass * 2.0)
                             - sv.safeAreaInsets.left - sv.safeAreaInsets.right;
        Size(adjustedWidth, cfg.suggestedSizeForCompactSizeClass.height)
      else
        cfg.suggestedSizeForCompactSizeClass
    else
      cfg.suggestedSizeForRegularSizeClass
  }

  /**
   * The height never depends on the superview's geometry, insets or subviews:
   * only on which suggested size the size classes select.
   */
  lemma HeightIgnoresGeometry(cfg: Configuration, sv1: Superview, sv2: Superview)
    requires sv1.horizontalSizeClass == sv2.horizontalSizeClass
    requires sv1.verticalSizeClass == sv2.verticalSizeClass
    ensures ToastSize(cfg, sv1).height == ToastSize(cfg, sv2).height
    ensures ToastSize(cfg, sv1).height == cfg.suggestedSizeForCompactSizeClass.height ||
            ToastSize(cfg, sv1).height == cfg.suggestedSizeForRegularSizeClass.height
  {
  }
}
