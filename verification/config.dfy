/** The converter configuration after it has been translated for the converter. */
module Config {
  import opened Wrappers

  /** Output style for colour images. */
  datatype Hierarchical = Stacked | Cutout

  /** Curve-fitting mode, handed to the engine unchanged. */
  datatype PathSimplifyMode = Pixel | Polygon | Spline

  /**
   * Path-simplification parameters. The thresholds are floating-point in the
   * program; they are only ever passed through, so they are carried as reals.
   */
  datatype PathParams = PathParams(
    mode: PathSimplifyMode,
    cornerThreshold: real,
    lengthThreshold: real,
    maxIterations: nat,
    spliceThreshold: real)

  datatype ConverterConfig = ConverterConfig(
    hierarchical: Hierarchical,
    filterSpeckleArea: nat,
    colorPrecisionLoss: int,
    layerDifference: int,
    path: PathParams,
    pathPrecision: Option<nat>)
}
