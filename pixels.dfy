/** Decoded raster images: a width, a height and row-major RGBA bytes. */
module Pixels {
  import opened Common

  /** The pixels a canvas's `getImageData` yields for an image. */
  datatype Image = Image(width: nat, height: nat, data: seq<byte>)

  /** A decoded image has positive dimensions and four bytes per pixel. */
  predicate WellFormed(img: Image)
  {
    img.width >= 1 && img.height >= 1 && |img.data| == img.width * img.height * 4
  }

  /** An image as the browser's decoder delivers it. */
  type Bitmap = img: Image | WellFormed(img) witness Image(1, 1, [0, 0, 0, 0])

  /** Index of the red byte of pixel (x, y); green, blue and alpha follow it. */
  function PixelIndex(width: nat, x: nat, y: nat): nat
  {
    (y * width + x) * 4
  }

  /** The four bytes of every pixel of a width × height grid lie inside its buffer. */
  lemma PixelInBounds(width: nat, height: nat, x: nat, y: nat)
    requires x < width && y < height
    ensures PixelIndex(width, x, y) + 3 < width * height * 4
  {
    assert y * width + x < (y + 1) * width;
    assert (y + 1) * width <= height * width by {
      assert y + 1 <= height;
    }
  }
}
