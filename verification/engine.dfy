/**
 * The external clustering engine, seen only through the operations the
 * converter calls. Each operation is a total function supplied by the caller;
 * nothing is assumed about what it computes. `H` is a cluster hierarchy
 * (together with its view), `C` a cluster and `P` a compound path.
 */
module Engine {
  import opened Colors
  import opened Images
  import opened Config
  import opened RunnerConfigs

  datatype ColorEngine<!H, !C, P> = ColorEngine(
    /** `Runner::new(config, image).run()` */
    run: (RunnerConfig, Image) -> H,
    /** `view().clusters_output`: cluster indices in the engine's output order */
    outputOrder: H -> seq<nat>,
    /** `view().to_color_image()`: each pixel painted with its cluster's colour */
    flatten: H -> Image,
    /** `view.get_cluster(index)` */
    cluster: (H, nat) -> C,
    /** `cluster.residue_color()` */
    residue: C -> Color,
    /** `cluster.to_compound_path(&view, false, mode, ...)` */
    colorPath: (H, C, PathParams) -> P)

  datatype BinaryEngine<!C, P> = BinaryEngine(
    /** `BinaryImage::to_clusters(false)`, indexed `0 .. len()` */
    toClusters: BinaryImage -> seq<C>,
    /** `cluster.size()`: number of pixels in the cluster */
    size: C -> nat,
    /** `cluster.to_compound_path(mode, ...)` */
    binaryPath: (C, PathParams) -> P)
}
