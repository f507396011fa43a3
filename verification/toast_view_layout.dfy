/**
 * `toastViewForMessage(_:title:image:style:)` of
 * FrenchToast/Classes/UIView+Toast.swift: the validation and the rectangle
 * arithmetic that lays out an image, a title and a message inside a wrapper
 * view. Text measurement (`UILabel.sizeThatFits`) is done by UIKit, so the
 * measured sizes are inputs here.
 */
module ToastViewLayout {
  import opened Wrappers
  import opened Geometry

  /** The members of `ToastStyle` that the layout reads. */
  datatype ToastStyle = ToastStyle(
    horizontalPadding: real,
    verticalPadding: real,
    imageSize: Size,
    maxWidthPercentage: real,
    maxHeightPercentage: real)

  datatype ToastError = MissingParameters

  /** The wrapper's frame and the frames of the subviews it was given. */
  datatype ToastLayout = ToastLayout(wrapper: Rect, image: Option<Rect>, title: Option<Rect>, message: Option<Rect>)

  /**
   * The content of a toast: the size the title label reports as fitting (if
   * there is a title), the same for the message label, and whether there is
   * an image.
   */
  datatype Content = Content(title: Option<Size>, message: Option<Size>, hasImage: bool)

  /** Where the image goes: at the padding, at the style's image size; zero without an image. */
  function ImageRect(c: Content, style: ToastStyle): (r: Rect)
    ensures !c.hasImage ==> r == ZeroRect
    ensures c.hasImage ==> r.origin == Point(style.horizontalPadding, style.verticalPadding) && r.size == style.imageSize
  {
    if c.hasImage then Rect(Point(style.horizontalPadding, style.verticalPadding), style.imageSize) else ZeroRect
  }

  /** The x at which the text column starts: past the image and one more padding. */
  function TextX(c: Content, style: ToastStyle): real
  {
    var image := ImageRect(c, style);
    image.origin.x + image.size.width + style.horizontalPadding
  }

  /** The title's rectangle before widening; zero without a title. */
  function TitleRect(c: Content, style: ToastStyle): Rect
  {
    match c.title
    case None => ZeroRect
    case Some(fit) => Rect(Point(TextX(c, style), style.verticalPadding), fit)
  }

  /** The size the message label is offered: a share of the container, less the image's width. */
  function MaxMessageSize(c: Content, style: ToastStyle, bounds: Size): Size
  {
    Size(bounds.width * style.maxWidthPercentage - ImageRect(c, style).size.width,
         bounds.height * style.maxHeightPercentage)
  }

  /** The message's rectangle before widening: below the title, clamped to the offered size; zero without a message. */
  function MessageRect(c: Content, style: ToastStyle, bounds: Size): (r: Rect)
    ensures c.message.Some? ==>
      var offered := MaxMessageSize(c, style, bounds);
      r.size.width <= offered.width && r.size.height <= offered.height &&
      r.size.width <= c.message.value.width && r.size.height <= c.message.value.height &&
      (r.size.width == c.message.value.width || r.size.width == offered.width) &&
      (r.size.height == c.message.value.height || r.size.height == offered.height)
  {
    match c.message
    case None => ZeroRect
    case Some(fit) =>
      var offered := MaxMessageSize(c, style, bounds);
      var title := TitleRect(c, style);
      Rect(Point(TextX(c, style), title.origin.y + title.size.height + style.verticalPadding),
           Size(Min(fit.width, offered.width), Min(fit.height, offered.height)))
  }

  /** The width both labels are widened to: the wider of the two. */
  function LongerWidth(c: Content, style: ToastStyle, bounds: Size): real
  {
    Max(TitleRect(c, style).size.width, MessageRect(c, style, bounds).size.width)
  }

  function WrapperWidth(c: Content, style: ToastStyle, bounds: Size): real
  {
    var image := ImageRect(c, style);
    var longerX := Max(TitleRect(c, style).origin.x, MessageRect(c, style, bounds).origin.x);
    Max(image.size.width + style.horizontalPadding * 2.0,
        longerX + LongerWidth(c, style, bounds) + style.horizontalPadding)
  }

  /** The wrapper's height as written: it accounts for the message and the image, not the title. */
  function WrapperHeight(c: Content, style: ToastStyle, bounds: Size): real
  {
    var message := MessageRect(c, style, bounds);
    Max(message.origin.y + message.size.height + style.verticalPadding,
        ImageRect(c, style).size.height + style.verticalPadding * 2.0)
  }

  /** The wrapper's height with the title's bottom edge taken into account as well. */
  function WrapperHeightCorrected(c: Content, style: ToastStyle, bounds: Size): real
  {
    var title := TitleRect(c, style);
    var message := MessageRect(c, style, bounds);
    Max(Max(title.origin.y + title.size.height, message.origin.y + message.size.height) + style.verticalPadding,
        ImageRect(c, style).size.height + style.verticalPadding * 2.0)
  }

  /** The layout for a wrapper of the given height: each present label widened to the longer width. */
  function Arrange(c: Content, style: ToastStyle, bounds: Size, height: real): ToastLayout
  {
    var longer := LongerWidth(c, style, bounds);
    var title := TitleRect(c, style);
    var message := MessageRect(c, style, bounds);
    ToastLayout(
      Rect(Point(0.0, 0.0), Size(WrapperWidth(c, style, bounds), height)),
      if c.hasImage then Some(ImageRect(c, style)) else None,
      if c.title.Some? then Some(title.(size := title.size.(width := longer))) else None,
      if c.message.Some? then Some(message.(size := message.size.(width := longer))) else None)
  }

  /** The source's `toastViewForMessage`, with the wrapper height as written. */
  function ToastViewForMessage(c: Content, style: ToastStyle, bounds: Size): (r: Result<ToastLayout, ToastError>)
    ensures r.Failure? <==> c.title.None? && c.message.None? && !c.hasImage
    ensures r.Failure? ==> r.error == MissingParameters
    ensures r.Success? ==>
      (r.value.image.Some? <==> c.hasImage) && (r.value.title.Some? <==> c.title.Some?) &&
      (r.value.message.Some? <==> c.message.Some?)
  {
    if c.message.None? && c.title.None? && !c.hasImage then Failure(MissingParameters)
    else Success(Arrange(c, style, bounds, WrapperHeight(c, style, bounds)))
  }

  /** `toastViewForMessage` with a wrapper tall enough for the title, too. */
  function ToastViewForMessageCorrected(c: Content, style: ToastStyle, bounds: Size): (r: Result<ToastLayout, ToastError>)
    ensures r.Failure? <==> c.title.None? && c.message.None? && !c.hasImage
    ensures r.Failure? ==> r.error == MissingParameters
    ensures r.Success? ==>
      (r.value.image.Some? <==> c.hasImage) && (r.value.title.Some? <==> c.title.Some?) &&
      (r.value.message.Some? <==> c.message.Some?)
  {
    if c.message.None? && c.title.None? && !c.hasImage then Failure(MissingParameters)
    else Success(Arrange(c, style, bounds, WrapperHeightCorrected(c, style, bounds)))
  }

  /**
   * What UIKit and the style guarantee about the inputs: paddings, the image
   * size, the measured label sizes, the container's height and the height
   * share are never negative.
   */
  predicate NonNegativeInputs(c: Content, style: ToastStyle, bounds: Size)
  {
    style.horizontalPadding >= 0.0 && style.verticalPadding >= 0.0 &&
    style.imageSize.width >= 0.0 && style.imageSize.height >= 0.0 &&
    bounds.height >= 0.0 && style.maxHeightPercentage >= 0.0 &&
    (c.title.Some? ==> c.title.value.width >= 0.0 && c.title.value.height >= 0.0) &&
    (c.message.Some? ==> c.message.value.width >= 0.0 && c.message.value.height >= 0.0)
  }

  /** `r` lies within a wrapper at the origin of size `w`. */
  predicate Inside(r: Rect, w: Rect)
  {
    0.0 <= r.origin.x && 0.0 <= r.origin.y &&
    r.origin.x + r.size.width <= w.size.width && r.origin.y + r.size.height <= w.size.height
  }

  /** Every subview the layout holds lies within its wrapper. */
  predicate Contained(l: ToastLayout)
  {
    (l.image.Some? ==> Inside(l.image.value, l.wrapper)) &&
    (l.title.Some? ==> Inside(l.title.value, l.wrapper)) &&
    (l.message.Some? ==> Inside(l.message.value, l.wrapper))
  }

  /**
   * The arithmetic the layout promises: both labels start right of the image,
   * the message sits one padding below the title (at the padding without a
   * title), both labels end up as wide as the wider of them, the message's
   * height is its measured height clamped to the offered height, and the
   * wrapper is at least as large as each of the terms it is the maximum of.
   */
  lemma LayoutArithmetic(c: Content, style: ToastStyle, bounds: Size)
    requires !(c.title.None? && c.message.None? && !c.hasImage)
    ensures var l := ToastViewForMessage(c, style, bounds).value;
      var image := ImageRect(c, style);
      var x := image.origin.x + image.size.width + style.horizontalPadding;
      var longer := Max(if c.title.Some? then c.title.value.width else 0.0,
                        if c.message.Some? then MessageRect(c, style, bounds).size.width else 0.0);
      (l.title.Some? ==> l.title.value.origin == Point(x, style.verticalPadding) &&
                         l.title.value.size == Size(longer, c.title.value.height)) &&
      (l.message.Some? ==>
         l.message.value.origin.x == x &&
         l.message.value.origin.y ==
           (if c.title.Some? then style.verticalPadding + c.title.value.height else 0.0) + style.verticalPadding &&
         l.message.value.size.width == longer &&
         l.message.value.size.height == Min(c.message.value.height, MaxMessageSize(c, style, bounds).height)) &&
      l.wrapper.origin == Point(0.0, 0.0) &&
      l.wrapper.size.width >= image.size.width + 2.0 * style.horizontalPadding &&
      (c.title.Some? || c.message.Some? ==> l.wrapper.size.width >= x + longer + style.horizontalPadding) &&
      l.wrapper.size.height >= image.size.height + 2.0 * style.verticalPadding &&
      (l.message.Some? ==>
         l.wrapper.size.height >= l.message.value.origin.y + l.message.value.size.height + style.verticalPadding)
  {
  }

  /**
   * With a message, or without a title, the layout as written keeps every
   * subview inside the wrapper.
   */
  lemma ContainedWithMessageOrWithoutTitle(c: Content, style: ToastStyle, bounds: Size)
    requires NonNegativeInputs(c, style, bounds)
    requires c.message.Some? || (c.title.None? && c.hasImage)
    ensures ToastViewForMessage(c, style, bounds).Success?
    ensures Contained(ToastViewForMessage(c, style, bounds).value)
  {
  }

  /**
   * With a title but no message, the title fits in the wrapper as written
   * exactly when it is no taller than the image plus one padding; without an
   * image, only a title no taller than one padding fits.
   */
  lemma TitleOnlyFitsIff(c: Content, style: ToastStyle, bounds: Size)
    requires NonNegativeInputs(c, style, bounds)
    requires c.title.Some? && c.message.None?
    ensures var l := ToastViewForMessage(c, style, bounds).value;
      Contained(l) <==> c.title.value.height <= ImageRect(c, style).size.height + style.verticalPadding
  {
  }

  /**
   * A title-only toast with no image and padding 10 whose title measures
   * 50 by 20: the title spans y = 10 to 30 but the wrapper is 20 tall.
   */
  lemma TitleOnlyToastOverflows()
    ensures var c := Content(Some(Size(50.0, 20.0)), None, false);
      var style := ToastStyle(10.0, 10.0, Size(80.0, 80.0), 0.8, 0.8);
      var l := ToastViewForMessage(c, style, Size(320.0, 480.0)).value;
      l.title == Some(Rect(Point(10.0, 10.0), Size(50.0, 20.0))) &&
      l.wrapper.size.height == 20.0 &&
      !Contained(l)
  {
    var c := Content(Some(Size(50.0, 20.0)), None, false);
    var style := ToastStyle(10.0, 10.0, Size(80.0, 80.0), 0.8, 0.8);
    var bounds := Size(320.0, 480.0);
    assert ImageRect(c, style) == ZeroRect;
    assert TitleRect(c, style) == Rect(Point(10.0, 10.0), Size(50.0, 20.0));
    assert MessageRect(c, style, bounds) == ZeroRect;
    assert WrapperHeight(c, style, bounds) == 20.0;
  }

  /** The corrected layout keeps every subview inside the wrapper, whatever the content. */
  lemma CorrectedContained(c: Content, style: ToastStyle, bounds: Size)
    requires NonNegativeInputs(c, style, bounds)
    requires !(c.title.None? && c.message.None? && !c.hasImage)
    ensures Contained(ToastViewForMessageCorrected(c, style, bounds).value)
  {
  }

  /** Where the layout as written already contains the title, the correction changes nothing. */
  lemma CorrectedAgreesWithMessage(c: Content, style: ToastStyle, bounds: Size)
    requires NonNegativeInputs(c, style, bounds)
    requires c.message.Some?
    ensures ToastViewForMessageCorrected(c, style, bounds) == ToastViewForMessage(c, style, bounds)
  {
  }
}
