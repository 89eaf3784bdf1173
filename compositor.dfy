/**
 * Composition of one product into a frame: the output canvas has the frame's size, and two
 * draw calls are issued, the product first and the whole frame on top of it.
 */
module Compositor {
  import opened Common
  import opened Pixels
  import opened Geometry

  /** Which of the two images a draw call paints. */
  datatype Layer = ProductLayer | FrameLayer

  /** One `drawImage` call: the image drawn and the rectangle it is drawn into. */
  datatype DrawOp = DrawOp(layer: Layer, target: Rect)

  /** A canvas of the given size with the draw calls issued on it, in order. */
  datatype Canvas = Canvas(width: nat, height: nat, draws: seq<DrawOp>)

  /** `createComposite`: draws the product fitted into `area`, then the frame at (0, 0). */
  function CreateComposite(frame: Bitmap, product: Bitmap, area: Rect): (c: Canvas)
    requires area.width > 0.0 && area.height > 0.0
    ensures c.width == frame.width && c.height == frame.height
    ensures |c.draws| == 2
    ensures c.draws[0] == DrawOp(ProductLayer, FitInside(area, product.width as real, product.height as real))
    ensures Inside(c.draws[0].target, area)
    ensures c.draws[1] == DrawOp(FrameLayer, Rect(0.0, 0.0, frame.width as real, frame.height as real))
  {
    var place := FitInside(area, product.width as real, product.height as real);
    Canvas(frame.width, frame.height,
      [DrawOp(ProductLayer, place),
       DrawOp(FrameLayer, Rect(0.0, 0.0, frame.width as real, frame.height as real))])
  }

  /** The point (px, py) lies in the rectangle a draw call paints. */
  predicate Covers(op: DrawOp, px: real, py: real)
  {
    op.target.x <= px < op.target.x + op.target.width &&
    op.target.y <= py < op.target.y + op.target.height
  }

  /** The layer painted last at (px, py), if any: what is visible there where it is opaque. */
  function TopLayer(draws: seq<DrawOp>, px: real, py: real): Option<Layer>
  {
    if |draws| == 0 then None
    else if Covers(draws[|draws| - 1], px, py) then Some(draws[|draws| - 1].layer)
    else TopLayer(draws[..|draws| - 1], px, py)
  }

  /**
   * The frame is the top layer at every point of the composite, so wherever the frame is
   * opaque the output shows the frame and never the product.
   */
  lemma FrameIsOnTop(frame: Bitmap, product: Bitmap, area: Rect, px: real, py: real)
    requires area.width > 0.0 && area.height > 0.0
    requires 0.0 <= px < frame.width as real && 0.0 <= py < frame.height as real
    ensures TopLayer(CreateComposite(frame, product, area).draws, px, py) == Some(FrameLayer)
  {
  }

  /**
   * Below the frame, the product is what shows through at every point of its fitted
   * rectangle, and nothing shows through outside it.
   */
  lemma ProductIsBelowFrame(frame: Bitmap, product: Bitmap, area: Rect, px: real, py: real)
    requires area.width > 0.0 && area.height > 0.0
    ensures var c := CreateComposite(frame, product, area);
      var place := FitInside(area, product.width as real, product.height as real);
      TopLayer(c.draws[..1], px, py) ==
        if place.x <= px < place.x + place.width && place.y <= py < place.y + place.height
        then Some(ProductLayer) else None
  {
  }
}
