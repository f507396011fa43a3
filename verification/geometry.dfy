/**
 * The CoreGraphics value types the placement code works with, over the reals.
 * A `Size` holds the raw width and height, which may be negative; the
 * accessors of `Rect` follow CGRect and standardise the rectangle first.
 */
module Geometry {

  datatype Size = Size(width: real, height: real)

  datatype Point = Point(x: real, y: real)

  datatype Rect = Rect(origin: Point, size: Size) {

    /** CGRect.width: the width of the standardised rectangle. */
    function Width(): (w: real)
      ensures w >= 0.0
      ensures w == size.width || w == -size.width
    {
      if size.width < 0.0 then -size.width else size.width
    }

    /** CGRect.height: the height of the standardised rectangle. */
    function Height(): (h: real)
      ensures h >= 0.0
      ensures h == size.height || h == -size.height
    {
      if size.height < 0.0 then -size.height else size.height
    }

    /** CGRect.minY: the smaller of the two horizontal edges. */
    function MinY(): (y: real)
      ensures y == origin.y || y == origin.y + size.height
      ensures y <= origin.y && y <= origin.y + size.height
    {
      if size.height < 0.0 then origin.y + size.height else origin.y
    }

    /** CGRect.maxY: the larger of the two horizontal edges. */
    function MaxY(): (y: real)
      ensures y == origin.y || y == origin.y + size.height
      ensures y >= origin.y && y >= origin.y + size.height
      ensures y - MinY() == Height()
    {
      if size.height < 0.0 then origin.y else origin.y + size.height
    }
  }

  /** CGRect.zero */
  const ZeroRect := Rect(Point(0.0, 0.0), Size(0.0, 0.0))

  /** UIEdgeInsets, as reported by `safeAreaInsets`. */
  datatype Insets = Insets(top: real, left: real, bottom: real, right: real)

  function Max(a: real, b: real): (m: real)
    ensures m >= a && m >= b
    ensures m == a || m == b
  {
    if a >= b then a else b
  }

  function Min(a: real, b: real): (m: real)
    ensures m <= a && m <= b
    ensures m == a || m == b
  {
    if a <= b then a else b
  }
}
