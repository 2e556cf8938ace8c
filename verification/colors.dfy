/** RGBA colours as the clustering engine sees them: four 8-bit channels. */
module Colors {

  newtype byte = x: int | 0 <= x < 256

  datatype Color = Color(r: byte, g: byte, b: byte, a: byte)

  /** `Color::default()`: all channels zero. The engine reads this key colour as "no keying". */
  const Default: Color := Color(0, 0, 0, 0)

  /** `Color::color(&ColorName::Black)`: opaque black. */
  const Black: Color := Color(0, 0, 0, 255)

  /** A pixel is fully transparent when its alpha channel is zero. */
  predicate Transparent(c: Color) {
    c.a == 0
  }
}
