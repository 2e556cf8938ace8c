/**
 * The output document: canvas size, coordinate precision and an append-only
 * list of (compound path, fill colour) entries in paint order. Rendering the
 * document as text is not part of this model.
 */
module Svg {
  import opened Wrappers
  import opened Colors

  datatype SvgFile<P> = SvgFile(
    width: nat,
    height: nat,
    precision: Option<nat>,
    paths: seq<(P, Color)>)

  /** `SvgFile::new`: an empty canvas of the given size. */
  function NewSvg<P>(width: nat, height: nat, precision: Option<nat>): (svg: SvgFile<P>)
    ensures svg.width == width && svg.height == height && svg.precision == precision
    ensures |svg.paths| == 0
  {
    SvgFile(width, height, precision, [])
  }

  /** `add_path`: appends one entry; earlier entries and the canvas are untouched. */
  function AddPath<P>(svg: SvgFile<P>, path: P, fill: Color): (svg': SvgFile<P>)
    ensures svg'.width == svg.width && svg'.height == svg.height && svg'.precision == svg.precision
    ensures |svg'.paths| == |svg.paths| + 1
    ensures svg'.paths[..|svg.paths|] == svg.paths
    ensures svg'.paths[|svg.paths|] == (path, fill)
  {
    svg.(paths := svg.paths + [(path, fill)])
  }
}
