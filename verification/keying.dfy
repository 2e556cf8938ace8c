/**
 * Transparency keying: before the first clustering pass, every fully
 * transparent pixel is repainted with a key colour that the engine can later
 * recognise, when the image needs one.
 */
module Keying {
  import opened Wrappers
  import opened Colors
  import opened Images

  /** The conversion fails only when no unused colour can be found (the `unwrap`). */
  datatype ConvertError = KeyingExhausted

  /** `should_key_image` and `find_unused_color_in_image`, supplied by the caller. */
  datatype KeyingOracle = KeyingOracle(
    shouldKey: Image -> bool,
    findUnused: Image -> Option<Color>)

  function KeyPixel(p: Color, key: Color): Color {
    if Transparent(p) then key else p
  }

  /** Reference definition of the rewrite: each pixel keyed independently. */
  function KeyImage(img: Image, key: Color): Image {
    ColorImage(
      seq(|img.pixels|, i requires 0 <= i < |img.pixels| => KeyPixel(img.pixels[i], key)),
      img.width, img.height)
  }

  /** The key colour, or the error raised by the `unwrap` when none is available. */
  function ChooseKey(o: KeyingOracle, img: Image): (r: Result<Color, ConvertError>)
    ensures !o.shouldKey(img) ==> r == Success(Default)
    ensures o.shouldKey(img) ==> (r.Failure? <==> o.findUnused(img).None?)
    ensures o.shouldKey(img) && r.Success? ==> o.findUnused(img) == Some(r.value)
  {
    if o.shouldKey(img) then
      match o.findUnused(img)
      case Some(c) => Success(c)
      case None => Failure(KeyingExhausted)
    else
      Success(Default)
  }

  /** The image handed to the first pass: keyed only when the image needs it. */
  function KeyedInput(o: KeyingOracle, img: Image, key: Color): (r: Image)
    ensures r.width == img.width && r.height == img.height
    ensures !o.shouldKey(img) ==> r == img
    ensures forall i :: 0 <= i < |img.pixels| && !Transparent(img.pixels[i]) ==> r.pixels[i] == img.pixels[i]
    ensures o.shouldKey(img) ==> forall i :: 0 <= i < |img.pixels| && Transparent(img.pixels[i]) ==> r.pixels[i] == key
  {
    if o.shouldKey(img) then KeyImage(img, key) else img
  }

  /** The first `n` pixels of `px` are the keyed pixels of `orig`; the rest are still the originals. */
  predicate KeyedUpTo(px: seq<Color>, orig: seq<Color>, key: Color, n: nat) {
    && |px| == |orig|
    && n <= |px|
    && (forall i :: 0 <= i < n ==> px[i] == KeyPixel(orig[i], key))
    && (forall i :: n <= i < |px| ==> px[i] == orig[i])
  }

  /** The inner (column) loop: keys the `width` pixels of the row that starts at `row`. */
  method KeyRow(px: seq<Color>, orig: seq<Color>, key: Color, row: nat, width: nat) returns (px': seq<Color>)
    requires row + width <= |px|
    requires KeyedUpTo(px, orig, key, row)
    ensures KeyedUpTo(px', orig, key, row + width)
  {
    px' := px;
    var x := 0;
    while x < width
      invariant 0 <= x <= width
      invariant KeyedUpTo(px', orig, key, row + x)
    {
      if px'[row + x].a == 0 {
        px' := px'[row + x := key];
      }
      x := x + 1;
    }
  }

  /**
   * The nested row/column loop: a pixel whose alpha is zero becomes `key`;
   * every other pixel, and the dimensions, are left as they were.
   */
  method KeyTransparentPixels(img: Image, key: Color) returns (keyed: Image)
    ensures keyed == KeyImage(img, key)
    ensures keyed.width == img.width && keyed.height == img.height
    ensures forall i :: 0 <= i < |img.pixels| && Transparent(img.pixels[i]) ==> keyed.pixels[i] == key
    ensures forall i :: 0 <= i < |img.pixels| && !Transparent(img.pixels[i]) ==> keyed.pixels[i] == img.pixels[i]
    ensures forall x: nat, y: nat :: x < img.width && y < img.height ==>
      PixelAt(keyed, x, y) == (if Transparent(PixelAt(img, x, y)) then key else PixelAt(img, x, y))
  {
    var width, height := img.width, img.height;
    var px := img.pixels;
    var y, row := 0, 0;
    while y < height
      invariant 0 <= y <= height
      invariant row == y * width
      invariant KeyedUpTo(px, img.pixels, key, row)
    {
      RowFits(y, width, height);
      px := KeyRow(px, img.pixels, key, row, width);
      y, row := y + 1, row + width;
    }
    keyed := ColorImage(px, width, height);
    assert keyed.pixels == KeyImage(img, key).pixels;
    KeyImageAtPixel(img, key);
  }

  /** Lines 49-62 on the image side: the loop runs only when the image needs keying. */
  method KeyInput(o: KeyingOracle, img: Image, key: Color) returns (r: Image)
    ensures r == KeyedInput(o, img, key)
  {
    r := img;
    if o.shouldKey(img) {
      r := KeyTransparentPixels(img, key);
    }
  }

  /** Read through `get_pixel`, each keyed pixel is the key exactly where the original was transparent. */
  lemma KeyImageAtPixel(img: Image, key: Color)
    ensures forall x: nat, y: nat :: x < img.width && y < img.height ==>
      PixelAt(KeyImage(img, key), x, y) == (if Transparent(PixelAt(img, x, y)) then key else PixelAt(img, x, y))
  {
    forall x: nat, y: nat | x < img.width && y < img.height
      ensures PixelAt(KeyImage(img, key), x, y) == KeyPixel(PixelAt(img, x, y), key)
    {
      RowFits(y, img.width, img.height);
    }
  }

  /**
   * With a key colour absent from the visible pixels, the keyed image marks
   * exactly the originally transparent pixels: keying loses no information
   * about where the transparency was.
   */
  lemma KeyMarksExactlyTransparent(img: Image, key: Color)
    requires forall i :: 0 <= i < |img.pixels| && !Transparent(img.pixels[i]) ==> img.pixels[i] != key
    ensures forall i :: 0 <= i < |img.pixels| ==>
      (KeyImage(img, key).pixels[i] == key <==> Transparent(img.pixels[i]))
  {
  }

  /** A visible key colour leaves no fully transparent pixel behind. */
  lemma KeyRemovesTransparency(img: Image, key: Color)
    requires !Transparent(key)
    ensures forall i :: 0 <= i < |img.pixels| ==> !Transparent(KeyImage(img, key).pixels[i])
  {
  }
}
