/**
 * Frame-opening detection: the bounding box of the transparent or bright pixels of a frame
 * image, with a centred fallback when that box is empty or degenerate.
 */
module FrameDetection {
  import opened Common
  import opened Pixels
  import opened Geometry

  /**
   * A pixel belongs to the opening when it is nearly transparent or very bright; the test on
   * the mean brightness is exactly a test on the channel sum.
   */
  predicate IsOpeningPixel(r: byte, g: byte, b: byte, alpha: byte)
    ensures IsOpeningPixel(r, g, b, alpha) <==> alpha < 50 || r as int + g as int + b as int > 600
  {
    alpha < 50 || (r as int + g as int + b as int) as real / 3.0 > 200.0
  }

  /** Pixel (x, y) of the width × height buffer `data` belongs to the opening. */
  predicate IsOpeningAt(width: nat, height: nat, data: seq<byte>, x: nat, y: nat)
    requires |data| == width * height * 4 && x < width && y < height
  {
    PixelInBounds(width, height, x, y);
    var i := PixelIndex(width, x, y);
    IsOpeningPixel(data[i], data[i + 1], data[i + 2], data[i + 3])
  }

  /** Some pixel of the buffer belongs to the opening. */
  ghost predicate HasOpening(width: nat, height: nat, data: seq<byte>)
    requires |data| == width * height * 4
  {
    exists x: nat, y: nat | x < width && y < height :: IsOpeningAt(width, height, data, x, y)
  }

  /**
   * [minX, maxX] × [minY, maxY] is the bounding box of the opening pixels: it holds all of
   * them and each of its four edges passes through one of them.
   */
  ghost predicate IsBoundingBox(width: nat, height: nat, data: seq<byte>,
                                minX: int, minY: int, maxX: int, maxY: int)
    requires |data| == width * height * 4
  {
    (forall x: nat, y: nat | x < width && y < height && IsOpeningAt(width, height, data, x, y) ::
      minX <= x <= maxX && minY <= y <= maxY) &&
    (exists x: nat, y: nat | x < width && y < height && IsOpeningAt(width, height, data, x, y) ::
      x == minX) &&
    (exists x: nat, y: nat | x < width && y < height && IsOpeningAt(width, height, data, x, y) ::
      x == maxX) &&
    (exists x: nat, y: nat | x < width && y < height && IsOpeningAt(width, height, data, x, y) ::
      y == minY) &&
    (exists x: nat, y: nat | x < width && y < height && IsOpeningAt(width, height, data, x, y) ::
      y == maxY)
  }

  /** The running minima and maxima of the scan. */
  datatype Bounds = Bounds(minX: int, minY: int, maxX: int, maxY: int)

  /** The bounds before any pixel is scanned: minima at the image size, maxima at zero. */
  function InitialBounds(width: nat, height: nat): Bounds
  {
    Bounds(width, height, 0, 0)
  }

  /** Widens the bounds to take in pixel (x, y). */
  function Include(b: Bounds, x: int, y: int): Bounds
  {
    Bounds(Min(b.minX, x), Min(b.minY, y), Max(b.maxX, x), Max(b.maxY, y))
  }

  /** The bounds after scanning pixels 0 .. x-1 of row y, starting from `b`; they only widen. */
  ghost function ScanRow(width: nat, height: nat, data: seq<byte>, y: nat, x: nat, b: Bounds): (r: Bounds)
    requires |data| == width * height * 4 && y < height && x <= width
    ensures r.minX <= b.minX && r.minY <= b.minY && r.maxX >= b.maxX && r.maxY >= b.maxY
    decreases x
  {
    if x == 0 then b
    else
      var before := ScanRow(width, height, data, y, x - 1, b);
      if IsOpeningAt(width, height, data, x - 1, y) then Include(before, x - 1, y) else before
  }

  /**
   * The bounds after scanning rows 0 .. rows-1 from the initial bounds; the minima never
   * exceed the image size and the maxima never drop below zero.
   */
  ghost function ScanRows(width: nat, height: nat, data: seq<byte>, rows: nat): (r: Bounds)
    requires |data| == width * height * 4 && rows <= height
    ensures r.minX <= width && r.minY <= height && r.maxX >= 0 && r.maxY >= 0
  {
    if rows == 0 then InitialBounds(width, height)
    else ScanRow(width, height, data, rows - 1, width, ScanRows(width, height, data, rows - 1))
  }

  /**
   * The centred rectangle used when detection fails: inset by a fifth of the shorter side, with
   * equal margins on both sides of each axis, and of positive size inside a non-empty image.
   */
  function FallbackArea(width: nat, height: nat): (r: Rect)
    ensures r.x + r.width + r.x == width as real && r.y + r.height + r.y == height as real
    ensures width >= 1 && height >= 1 ==>
      r.width > 0.0 && r.height > 0.0 && Inside(r, Rect(0.0, 0.0, width as real, height as real))
  {
    var padding := Min(width, height) as real * 0.2;
    var minX, minY := padding, padding;
    var maxX, maxY := width as real - padding, height as real - padding;
    Rect(minX, minY, maxX - minX, maxY - minY)
  }

  /**
   * The rectangle `detectFrameArea` returns for a frame image: for any image of positive size
   * it has positive size and lies within the image, whichever branch is taken.
   */
  ghost function FrameArea(width: nat, height: nat, data: seq<byte>): (r: Rect)
    requires |data| == width * height * 4
    ensures width >= 1 && height >= 1 ==>
      r.width > 0.0 && r.height > 0.0 && Inside(r, Rect(0.0, 0.0, width as real, height as real))
  {
    ScanRowsBounds(width, height, data, height);
    var b := ScanRows(width, height, data, height);
    if b.minX >= b.maxX || b.minY >= b.maxY then FallbackArea(width, height)
    else Rect(b.minX as real, b.minY as real, (b.maxX - b.minX) as real, (b.maxY - b.minY) as real)
  }

  /**
   * Scanning part of a row only widens the bounds, takes in every opening pixel seen, and
   * moves an edge only onto an opening pixel of that row.
   */
  lemma {:induction false} ScanRowBounds(width: nat, height: nat, data: seq<byte>, y: nat, x: nat, b0: Bounds)
    requires |data| == width * height * 4 && y < height && x <= width
    ensures var b := ScanRow(width, height, data, y, x, b0);
      b.minX <= b0.minX && b.minY <= b0.minY && b.maxX >= b0.maxX && b.maxY >= b0.maxY &&
      (forall x': nat | x' < x && IsOpeningAt(width, height, data, x', y) ::
        b.minX <= x' <= b.maxX && b.minY <= y <= b.maxY) &&
      (b.minX == b0.minX ||
        exists x': nat | x' < x && IsOpeningAt(width, height, data, x', y) :: x' == b.minX) &&
      (b.maxX == b0.maxX ||
        exists x': nat | x' < x && IsOpeningAt(width, height, data, x', y) :: x' == b.maxX) &&
      (b.minY == b0.minY ||
        (b.minY == y && exists x': nat | x' < x :: IsOpeningAt(width, height, data, x', y))) &&
      (b.maxY == b0.maxY ||
        (b.maxY == y && exists x': nat | x' < x :: IsOpeningAt(width, height, data, x', y)))
    decreases x
  {
    if x > 0 {
      ScanRowBounds(width, height, data, y, x - 1, b0);
      var before := ScanRow(width, height, data, y, x - 1, b0);
      if IsOpeningAt(width, height, data, x - 1, y) {
        var b := Include(before, x - 1, y);
        assert b == ScanRow(width, height, data, y, x, b0);
        assert IsOpeningAt(width, height, data, x - 1, y) && x - 1 < x;
      }
    }
  }

  /**
   * After scanning the first `rows` rows, the bounds hold every opening pixel seen, and each
   * one is either still at its initial value or on an opening pixel.
   */
  lemma {:induction false} ScanRowsBounds(width: nat, height: nat, data: seq<byte>, rows: nat)
    requires |data| == width * height * 4 && rows <= height
    ensures var b := ScanRows(width, height, data, rows);
      b.minX <= width && b.minY <= height && b.maxX >= 0 && b.maxY >= 0 &&
      (forall x: nat, y: nat | x < width && y < rows && IsOpeningAt(width, height, data, x, y) ::
        b.minX <= x <= b.maxX && b.minY <= y <= b.maxY) &&
      (b.minX == width ||
        exists x: nat, y: nat | x < width && y < rows && IsOpeningAt(width, height, data, x, y) :: x == b.minX) &&
      (b.maxX == 0 ||
        exists x: nat, y: nat | x < width && y < rows && IsOpeningAt(width, height, data, x, y) :: x == b.maxX) &&
      (b.minY == height ||
        exists x: nat, y: nat | x < width && y < rows && IsOpeningAt(width, height, data, x, y) :: y == b.minY) &&
      (b.maxY == 0 ||
        exists x: nat, y: nat | x < width && y < rows && IsOpeningAt(width, height, data, x, y) :: y == b.maxY)
    decreases rows
  {
    if rows > 0 {
      var y := rows - 1;
      ScanRowsBounds(width, height, data, y);
      var b0 := ScanRows(width, height, data, y);
      ScanRowBounds(width, height, data, y, width, b0);
      var b := ScanRows(width, height, data, rows);
      assert b == ScanRow(width, height, data, y, width, b0);
      forall x: nat, y': nat | x < width && y' < rows && IsOpeningAt(width, height, data, x, y')
        ensures b.minX <= x <= b.maxX && b.minY <= y' <= b.maxY
      {
        if y' < y {
          assert b0.minX <= x <= b0.maxX && b0.minY <= y' <= b0.maxY;
        }
      }
    }
  }

  /** When some pixel belongs to the opening, the scan of the whole image is its bounding box. */
  lemma ScanFindsBoundingBox(width: nat, height: nat, data: seq<byte>)
    requires |data| == width * height * 4
    requires HasOpening(width, height, data)
    ensures var b := ScanRows(width, height, data, height);
      IsBoundingBox(width, height, data, b.minX, b.minY, b.maxX, b.maxY)
  {
    ScanRowsBounds(width, height, data, height);
    var b := ScanRows(width, height, data, height);
    var x0: nat, y0: nat :| x0 < width && y0 < height && IsOpeningAt(width, height, data, x0, y0);
    assert b.minX <= x0 <= b.maxX && b.minY <= y0 <= b.maxY;
  }

  /** A bounding box is unique. */
  lemma BoundingBoxUnique(width: nat, height: nat, data: seq<byte>,
                          minX: int, minY: int, maxX: int, maxY: int,
                          minX': int, minY': int, maxX': int, maxY': int)
    requires |data| == width * height * 4
    requires IsBoundingBox(width, height, data, minX, minY, maxX, maxY)
    requires IsBoundingBox(width, height, data, minX', minY', maxX', maxY')
    ensures minX == minX' && minY == minY' && maxX == maxX' && maxY == maxY'
  {
  }

  /**
   * When the opening pixels have bounding box [minX, maxX] × [minY, maxY], detection returns
   * (minX, minY, maxX - minX, maxY - minY) unless that box is degenerate, in which case it
   * returns the fallback; the box lies within the image, so x + width ≤ W - 1.
   */
  lemma DetectsBoundingBox(width: nat, height: nat, data: seq<byte>,
                           minX: int, minY: int, maxX: int, maxY: int)
    requires |data| == width * height * 4
    requires IsBoundingBox(width, height, data, minX, minY, maxX, maxY)
    ensures FrameArea(width, height, data) ==
      if minX >= maxX || minY >= maxY then FallbackArea(width, height)
      else Rect(minX as real, minY as real, (maxX - minX) as real, (maxY - minY) as real)
    ensures 0 <= minX && maxX <= width - 1 && 0 <= minY && maxY <= height - 1
  {
    var x: nat, y: nat :| x < width && y < height && IsOpeningAt(width, height, data, x, y) && x == minX;
    assert HasOpening(width, height, data);
    ScanFindsBoundingBox(width, height, data);
    var b := ScanRows(width, height, data, height);
    BoundingBoxUnique(width, height, data, minX, minY, maxX, maxY, b.minX, b.minY, b.maxX, b.maxY);
  }

  /** With no opening pixel at all, detection returns the centred fallback. */
  lemma FallbackWithoutOpening(width: nat, height: nat, data: seq<byte>)
    requires |data| == width * height * 4
    requires !HasOpening(width, height, data)
    ensures FrameArea(width, height, data) == FallbackArea(width, height)
  {
    ScanRowsBounds(width, height, data, height);
  }

  /** The fallback is (p, p, W - 2p, H - 2p) with p a fifth of the shorter side. */
  lemma FallbackIsCentred(width: nat, height: nat)
    requires width >= 1 && height >= 1
    ensures var p := 0.2 * Min(width, height) as real;
      FallbackArea(width, height) == Rect(p, p, width as real - 2.0 * p, height as real - 2.0 * p)
  {
  }

  /** A frame whose every alpha byte is below 50 has detected area (0, 0, W - 1, H - 1). */
  lemma TransparentFrameArea(width: nat, height: nat, data: seq<byte>)
    requires width >= 2 && height >= 2 && |data| == width * height * 4
    requires forall i :: 0 <= i < |data| && i % 4 == 3 ==> data[i] < 50
    ensures FrameArea(width, height, data) ==
      Rect(0.0, 0.0, (width - 1) as real, (height - 1) as real)
  {
    forall x: nat, y: nat | x < width && y < height
      ensures IsOpeningAt(width, height, data, x, y)
    {
      PixelInBounds(width, height, x, y);
      var i := PixelIndex(width, x, y);
      assert (i + 3) % 4 == 3;
    }
    assert IsOpeningAt(width, height, data, 0, 0);
    assert IsOpeningAt(width, height, data, width - 1, height - 1);
    DetectsBoundingBox(width, height, data, 0, 0, width - 1, height - 1);
  }

  /**
   * The nested loop of `detectFrameArea`: scans the pixels row by row and keeps the running
   * minima and maxima of the coordinates of opening pixels.
   */
  method ScanPixels(width: nat, height: nat, data: array<byte>) returns (b: Bounds)
    requires data.Length == width * height * 4
    ensures b == ScanRows(width, height, data[..], height)
  {
    var minX: int, minY: int, maxX: int, maxY: int := width, height, 0, 0;
    var y := 0;
    while y < height
      invariant 0 <= y <= height
      invariant Bounds(minX, minY, maxX, maxY) == ScanRows(width, height, data[..], y)
    {
      var x := 0;
      while x < width
        invariant 0 <= x <= width
        invariant Bounds(minX, minY, maxX, maxY) ==
          ScanRow(width, height, data[..], y, x, ScanRows(width, height, data[..], y))
      {
        PixelInBounds(width, height, x, y);
        var i := (y * width + x) * 4;
        var alpha := data[i + 3];
        var brightness := (data[i] as int + data[i + 1] as int + data[i + 2] as int) as real / 3.0;
        if alpha < 50 || brightness > 200.0 {
          minX := Min(minX, x);
          minY := Min(minY, y);
          maxX := Max(maxX, x);
          maxY := Max(maxY, y);
        }
        x := x + 1;
      }
      y := y + 1;
    }
    b := Bounds(minX, minY, maxX, maxY);
  }
}
