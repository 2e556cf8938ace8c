/**
 * The clustering engine's parameter record and the two builders that derive
 * it from the converter configuration: one for the first pass over the keyed
 * input, one for the re-segmentation pass of `Cutout` mode.
 */
module RunnerConfigs {
  import opened Colors
  import opened Images
  import opened Config

  /** What the engine does with pixels of the key colour. */
  datatype KeyingAction = Keep | Discard

  datatype RunnerConfig = RunnerConfig(
    diagonal: bool,
    hierarchical: nat,
    batchSize: nat,
    goodMinArea: nat,
    goodMaxArea: nat,
    isSameColorA: int,
    isSameColorB: int,
    deepenDiff: int,
    hollowNeighbours: nat,
    keyColor: Color,
    keyingAction: KeyingAction)

  /** The engine's deepest hierarchy level, `u32::MAX`. */
  const HierarchicalMax: nat := 0xFFFF_FFFF

  /** Fixed work-unit size of both passes. */
  const BatchSize: nat := 25600

  /** Hierarchy depth of the re-segmentation pass. */
  const CutoutDepth: nat := 64

  /** Keyed pixels survive as a cluster only in `Cutout` mode. */
  function ActionFor(h: Hierarchical): (k: KeyingAction)
    ensures k == Keep <==> h == Cutout
    ensures k == Discard <==> h == Stacked
  {
    if h.Cutout? then Keep else Discard
  }

  /** The first-pass configuration for the keyed image `img` with key colour `key`. */
  function FirstPassConfig(cfg: ConverterConfig, img: Image, key: Color): (r: RunnerConfig)
    ensures r.diagonal <==> cfg.layerDifference == 0
    ensures r.hierarchical == HierarchicalMax && r.batchSize == BatchSize
    ensures r.goodMinArea == cfg.filterSpeckleArea
    ensures r.goodMaxArea == |img.pixels|
    ensures r.isSameColorA == cfg.colorPrecisionLoss && r.isSameColorB == 1
    ensures r.deepenDiff == cfg.layerDifference && r.hollowNeighbours == 1
    ensures r.keyColor == key
    ensures r.keyingAction == Keep <==> cfg.hierarchical == Cutout
  {
    RunnerConfig(
      diagonal := cfg.layerDifference == 0,
      hierarchical := HierarchicalMax,
      batchSize := BatchSize,
      goodMinArea := cfg.filterSpeckleArea,
      goodMaxArea := img.width * img.height,
      isSameColorA := cfg.colorPrecisionLoss,
      isSameColorB := 1,
      deepenDiff := cfg.layerDifference,
      hollowNeighbours := 1,
      keyColor := key,
      keyingAction := ActionFor(cfg.hierarchical))
  }

  /** The second-pass configuration for the flattened first-pass view `flat`. */
  function SecondPassConfig(cfg: ConverterConfig, flat: Image): (r: RunnerConfig)
    ensures !r.diagonal && r.hierarchical == CutoutDepth && r.batchSize == BatchSize
    ensures r.goodMinArea == 0 && r.goodMaxArea == |flat.pixels|
    ensures r.isSameColorA == 0 && r.isSameColorB == 1
    ensures r.deepenDiff == 0 && r.hollowNeighbours == 0
    ensures r.keyColor == Default
    ensures r.keyingAction == Keep <==> cfg.hierarchical == Cutout
  {
    RunnerConfig(
      diagonal := false,
      hierarchical := CutoutDepth,
      batchSize := BatchSize,
      goodMinArea := 0,
      goodMaxArea := flat.width * flat.height,
      isSameColorA := 0,
      isSameColorB := 1,
      deepenDiff := 0,
      hollowNeighbours := 0,
      keyColor := Default,
      keyingAction := ActionFor(cfg.hierarchical))
  }

  /** The two passes differ only in what the first one derives from the configuration. */
  lemma SecondPassIgnoresTuning(c1: ConverterConfig, c2: ConverterConfig, flat: Image)
    requires c1.hierarchical == c2.hierarchical
    ensures SecondPassConfig(c1, flat) == SecondPassConfig(c2, flat)
  {
  }
}
