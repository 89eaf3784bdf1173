/** Rectangles, aspect-ratio-preserving placement and preview sizing, in exact real arithmetic. */
module Geometry {

  /** An axis-aligned rectangle in pixel coordinates. */
  datatype Rect = Rect(x: real, y: real, width: real, height: real)

  /** A width and a height. */
  datatype Size = Size(width: real, height: real)

  /** `inner` lies within `outer`. */
  predicate Inside(inner: Rect, outer: Rect)
  {
    outer.x <= inner.x && inner.x + inner.width <= outer.x + outer.width &&
    outer.y <= inner.y && inner.y + inner.height <= outer.y + outer.height
  }

  /**
   * Where `createComposite` draws a product of the given size inside `area`: a product that is
   * relatively wider than the area fills its width and is centred vertically, any other fills
   * its height and is centred horizontally. The drawn rectangle has positive size and lies
   * inside the area.
   */
  function FitInside(area: Rect, productWidth: real, productHeight: real): (d: Rect)
    requires area.width > 0.0 && area.height > 0.0
    requires productWidth > 0.0 && productHeight > 0.0
    ensures d.width > 0.0 && d.height > 0.0 && Inside(d, area)
  {
    var frameAspectRatio := area.width / area.height;
    var productAspectRatio := productWidth / productHeight;
    if productAspectRatio > frameAspectRatio then
      var drawHeight := area.width / productAspectRatio;
      Rect(area.x, area.y + (area.height - drawHeight) / 2.0, area.width, drawHeight)
    else
      var drawWidth := area.height * productAspectRatio;
      Rect(area.x + (area.width - drawWidth) / 2.0, area.y, drawWidth, area.height)
  }

  /** The product is relatively wider than the area (the strict test `createComposite` makes). */
  predicate IsWider(area: Rect, productWidth: real, productHeight: real)
    requires area.height > 0.0 && productHeight > 0.0
  {
    productWidth / productHeight > area.width / area.height
  }

  /** The drawn rectangle keeps the product's aspect ratio and has positive size. */
  lemma FitPreservesAspectRatio(area: Rect, productWidth: real, productHeight: real)
    requires area.width > 0.0 && area.height > 0.0
    requires productWidth > 0.0 && productHeight > 0.0
    ensures var d := FitInside(area, productWidth, productHeight);
      d.width > 0.0 && d.height > 0.0 &&
      d.width / d.height == productWidth / productHeight
  {
  }

  /**
   * A wider product fills the area's width and leaves equal margins above and below; any
   * other fills the area's height and leaves equal margins left and right.
   */
  lemma FitFillsOneAxisAndCentres(area: Rect, productWidth: real, productHeight: real)
    requires area.width > 0.0 && area.height > 0.0
    requires productWidth > 0.0 && productHeight > 0.0
    ensures var d := FitInside(area, productWidth, productHeight);
      (IsWider(area, productWidth, productHeight) ==>
        d.x == area.x && d.width == area.width &&
        d.y - area.y == (area.y + area.height) - (d.y + d.height)) &&
      (!IsWider(area, productWidth, productHeight) ==>
        d.y == area.y && d.height == area.height &&
        d.x - area.x == (area.x + area.width) - (d.x + d.width))
  {
  }

  /** No rectangle inside the area with the product's aspect ratio is larger than the fitted one. */
  lemma FitIsLargest(area: Rect, productWidth: real, productHeight: real, other: Rect)
    requires area.width > 0.0 && area.height > 0.0
    requires productWidth > 0.0 && productHeight > 0.0
    requires other.width >= 0.0 && other.width * productHeight == other.height * productWidth
    requires Inside(other, area)
    ensures var d := FitInside(area, productWidth, productHeight);
      other.width <= d.width && other.height <= d.height
  {
  }

  /** The longest side `showFramePreview` allows. */
  const PreviewMaxSize: real := 300.0

  /**
   * The size `showFramePreview` gives the preview of an image: a landscape image wider than
   * 300 is scaled to width 300, any other image taller than 300 to height 300. Neither side
   * of the preview of an image exceeds 300.
   */
  function PreviewSize(width: real, height: real): (s: Size)
    ensures width >= 0.0 && height >= 0.0 ==> s.width <= PreviewMaxSize && s.height <= PreviewMaxSize
  {
    if width > height then
      if width > PreviewMaxSize then Size(PreviewMaxSize, (height * PreviewMaxSize) / width)
      else Size(width, height)
    else
      if height > PreviewMaxSize then
        assert width >= 0.0 ==> width * PreviewMaxSize <= height * PreviewMaxSize;
        Size((width * PreviewMaxSize) / height, PreviewMaxSize)
      else Size(width, height)
  }

  /**
   * The longer side is capped at 300, the other is scaled by the same factor, and the aspect
   * ratio is kept; an image
   * that already fits is left as it is; a square image is capped through its height.
   */
  lemma PreviewSizeCapsLongerSide(width: real, height: real)
    requires width >= 0.0 && height >= 0.0
    ensures var s := PreviewSize(width, height);
      s.width * height == s.height * width &&
      (width <= PreviewMaxSize && height <= PreviewMaxSize ==> s == Size(width, height)) &&
      (width > height && width > PreviewMaxSize ==>
        s.width == PreviewMaxSize && s.height == height * (PreviewMaxSize / width)) &&
      (width <= height && height > PreviewMaxSize ==>
        s.height == PreviewMaxSize && s.width == width * (PreviewMaxSize / height))
  {
  }
}
