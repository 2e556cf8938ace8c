/** Raster images handed to the clustering engine. */
module Images {
  import opened Colors

  /** A colour image: a flat row-major pixel buffer with its dimensions. */
  datatype ColorImage = ColorImage(pixels: seq<Color>, width: nat, height: nat) {
    predicate WellFormed() {
      |pixels| == width * height
    }
  }

  /** Every colour image in the pipeline has exactly `width * height` pixels. */
  type Image = img: ColorImage | img.WellFormed() witness ColorImage([], 0, 0)

  /** A 1-bit mask; its contents are only ever read by the engine. */
  datatype BinaryImage = BinaryImage(bits: seq<bool>, width: nat, height: nat)

  /** Row `y` of a `width`-wide buffer ends no later than the buffer does. */
  lemma RowFits(y: nat, width: nat, height: nat)
    requires y < height
    ensures y * width + width <= width * height
  {
    MulMonotone(y + 1, height, width);
  }

  lemma MulMonotone(a: nat, b: nat, k: nat)
    requires a <= b
    ensures a * k <= b * k
  {
  }

  /** The colour at `(x, y)`, as `get_pixel` reads it. */
  function PixelAt(img: Image, x: nat, y: nat): Color
    requires x < img.width && y < img.height
  {
    RowFits(y, img.width, img.height);
    img.pixels[y * img.width + x]
  }
}
