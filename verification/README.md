# vtracer in-memory converter, modelled in Dafny

This project models the conversion orchestration of vtracer's in-memory
converter (`cmdapp/src/inmemory_converter.rs`). That code turns a raster image
into an SVG document by calling the visioncortex clustering engine. It has two
entry points:

- `binary_image_to_svg` clusters a 1-bit mask. It keeps the clusters that
  pass the speckle-area filter, in index order, and fills each one black.
- `color_image_to_svg` runs in four steps:
  1. It keys transparent pixels with an unused colour when the image needs it.
  2. It builds the engine configuration for the first pass and runs it.
  3. In `Cutout` mode it flattens the first result and runs a second pass.
  4. It emits the final clusters in reverse output order, each filled with its
     residue colour.

The engine, the keying helpers and the SVG sink are not part of this model.
They are passed in as total functions that the model never looks inside:

- `Engine.ColorEngine` and `Engine.BinaryEngine` stand for `Runner::run`,
  `view()`, `to_color_image`, `get_cluster`, `residue_color`,
  `to_compound_path`, `BinaryImage::to_clusters` and `size`.
- `Keying.KeyingOracle` stands for `should_key_image` and
  `find_unused_color_in_image`.

Everything the converter itself decides is stated and proved:

- the keying rewrite;
- both `RunnerConfig` builders, field by field;
- the `Stacked`/`Cutout` pass selection, as a state machine that records every
  engine invocation;
- both path-assembly loops.

Modules:

| file | module | content |
|---|---|---|
| wrappers.dfy | Wrappers | `Option`, `Result` |
| colors.dfy | Colors | RGBA `Color`, `Default` (all zero), `Black` |
| images.dfy | Images | row-major `Image` (subset type: `width * height` pixels), `BinaryImage` |
| config.dfy | Config | converter configuration, `Hierarchical`, path parameters |
| runner_config.dfy | RunnerConfigs | engine configuration and the two pass builders |
| engine.dfy | Engine | the engine operations the converter calls |
| svg.dfy | Svg | the output document: canvas plus append-only entries |
| keying.dfy | Keying | key choice, the keying loop, and its reference definition |
| passes.dfy | Passes | pass-selection state machine |
| assembly.dfy | Assembly | binary and colour path assembly |
| converter.dfy | InMemoryConverter | the two entry points |

## Model

| member | source | states |
|---|---|---|
| Keying.ChooseKey | cmdapp/src/inmemory_converter.rs:49-62 | without keying the key is the all-zero default; with keying the conversion fails exactly when no unused colour is found (the `unwrap`), and otherwise the key is the colour found |
| Keying.KeyTransparentPixels | cmdapp/src/inmemory_converter.rs:51-57 | the nested loop sets every pixel with alpha 0 to the key and leaves every other pixel and both dimensions unchanged, both by flat index and as read through `get_pixel(x, y)`; the result equals the per-pixel reference definition `KeyImage` |
| Keying.KeyRow | cmdapp/src/inmemory_converter.rs:52-56 | the column loop over one row keys exactly that row's pixels: pixels before the row's end are keyed, pixels after it are still the originals |
| Keying.KeyImageAtPixel | cmdapp/src/inmemory_converter.rs:53-54 | read through `get_pixel(x, y)` with row-major indexing, the keyed pixel is the key iff the original pixel's alpha is 0, and the original otherwise |
| Keying.KeyedInput | cmdapp/src/inmemory_converter.rs:49-62 | the image handed to the first pass has the input's dimensions; without keying it is the input itself; visible pixels are never changed; with keying every transparent pixel is the key |
| Keying.KeyInput | cmdapp/src/inmemory_converter.rs:49-62 | runs the keying loop only when the image needs keying, producing exactly `KeyedInput` |
| Keying.KeyMarksExactlyTransparent | cmdapp/src/inmemory_converter.rs:50-57 | if the key differs from every visible pixel, a keyed pixel equals the key iff the original pixel was fully transparent |
| Keying.KeyRemovesTransparency | cmdapp/src/inmemory_converter.rs:51-57 | if the key has nonzero alpha, no pixel with alpha 0 is left after keying |
| RunnerConfigs.ActionFor | cmdapp/src/inmemory_converter.rs:76-80 | the keying action is `Keep` iff the mode is `Cutout` and `Discard` iff it is `Stacked` |
| RunnerConfigs.FirstPassConfig | cmdapp/src/inmemory_converter.rs:64-83 | diagonal iff layer difference is 0; depth `HIERARCHICAL_MAX`; batch 25600; min area = speckle filter; max area = the image's pixel count; colour tolerances (precision loss, 1); deepen diff = layer difference; hollow neighbours 1; the given key; `Keep` iff `Cutout` |
| RunnerConfigs.SecondPassConfig | cmdapp/src/inmemory_converter.rs:92-111 | not diagonal; depth 64; batch 25600; min area 0; max area = the flattened image's pixel count; tolerances (0, 1); deepen diff 0; hollow neighbours 0; default key colour; `Keep` iff `Cutout` |
| RunnerConfigs.SecondPassIgnoresTuning | cmdapp/src/inmemory_converter.rs:92-111 | the second-pass configuration depends only on the mode and the flattened image, not on the user's thresholds |
| Passes.Step | cmdapp/src/inmemory_converter.rs:85-114 | each transition invokes the engine once, appends that invocation to the trace, and moves strictly forward; the hierarchy it keeps is the result of that invocation |
| Passes.RunPasses | cmdapp/src/inmemory_converter.rs:64-114 | from a fresh driver the passes finish after one or two engine invocations; the first is always the keyed image with the first-pass configuration, and the hierarchy kept is the result of the last invocation |
| Passes.Drive | cmdapp/src/inmemory_converter.rs:85-114 | the driver always finishes, the trace only grows, and the final hierarchy is the result of the last invocation |
| Passes.StackedRunsOnce | cmdapp/src/inmemory_converter.rs:85-88 | `Stacked` invokes the engine exactly once, on the keyed image with the first-pass configuration, and keeps that result |
| Passes.CutoutRunsTwice | cmdapp/src/inmemory_converter.rs:89-113 | `Cutout` invokes the engine exactly twice; the second run gets the flattened first result with the second-pass configuration, and its result replaces the first |
| Passes.PassCount | cmdapp/src/inmemory_converter.rs:85-114 | the engine runs once for `Stacked` and twice for `Cutout` |
| Passes.KeyOnlyInFirstPass | cmdapp/src/inmemory_converter.rs:64-111 | the key colour reaches only the first pass; any later pass gets the default key and `Keep` |
| Svg.NewSvg | cmdapp/src/inmemory_converter.rs:15-19 | a new document has the given canvas and precision and no entries |
| Svg.AddPath | cmdapp/src/inmemory_converter.rs:31 | `add_path` appends one entry at the end and leaves the earlier entries and the canvas as they were |
| Assembly.BinaryEntries | cmdapp/src/inmemory_converter.rs:21-33 | the loop's entries: never more entries than clusters, and every entry filled black |
| Assembly.KeptIndices | cmdapp/src/inmemory_converter.rs:21-23 | the kept indices are strictly ascending and in range, and contain an index iff its cluster's size is at least the speckle filter |
| Assembly.BinaryEntriesAreKeptClusters | cmdapp/src/inmemory_converter.rs:21-33 | binary assembly emits one entry per kept index, in ascending index order: that cluster's path, filled black |
| Assembly.BinaryEntriesBlack | cmdapp/src/inmemory_converter.rs:31 | every binary entry is filled black |
| Assembly.NoFilterKeepsAll | cmdapp/src/inmemory_converter.rs:21-33 | with a speckle filter of 0, every cluster produces an entry |
| Assembly.ColorEntries | cmdapp/src/inmemory_converter.rs:119-131 | the reversed loop's entries: exactly one per output index, and the first entry comes from the last index of `clusters_output` |
| Assembly.ColorEntriesReversed | cmdapp/src/inmemory_converter.rs:119-131 | colour assembly emits exactly one entry per output index; entry `i` comes from `clusters_output[len-1-i]` with that cluster's residue colour, and no area filter is applied |
| Assembly.LastClusterPaintedFirst | cmdapp/src/inmemory_converter.rs:119-131 | adding a cluster to the end of the output order puts its entry first and keeps all other entries in order |
| InMemoryConverter.BinaryImageToSvg | cmdapp/src/inmemory_converter.rs:10-36 | the canvas is the mask's size with the configured precision; the entries are exactly the kept clusters in ascending order, each with its path and black |
| InMemoryConverter.AssembleColor | cmdapp/src/inmemory_converter.rs:116-131 | the reversed loop builds a document on the given canvas whose entry `i` is the path and residue colour of cluster `clusters_output[len-1-i]` |
| InMemoryConverter.ColorImageToSvg | cmdapp/src/inmemory_converter.rs:39-134 | fails iff keying is needed and no unused colour exists; otherwise the canvas is the input's size and precision, and the entries are the final hierarchy's clusters in reverse output order with residue colours, where the final hierarchy comes from running the mode's passes on the keyed input |

## Left out

- SVG text rendering (`format!("{}", svg)` and the `svg` module) is not part of
  this model. Both entry points return the document record, not its text.
- `Config::into_converter_config` is not part of this model. Its result, the
  converter configuration, is taken as the input.
- The engine internals are opaque total functions supplied by the caller:
  clustering, `view()`, `to_color_image`, curve fitting in `to_compound_path`,
  and the hole flag passed to it. So nothing is proved about them. One
  consequence: the model cannot show that the flattened image has the first
  pass's canvas size.
- `should_key_image` and `find_unused_color_in_image` are opaque too. The
  properties that depend on what they return are lemmas with an explicit
  hypothesis:
  - the key is absent from the visible pixels (`KeyMarksExactlyTransparent`);
  - the key has nonzero alpha (`KeyRemovesTransparency`).
- `get_cluster` is a total function. An out-of-range index from
  `clusters_output` would make the engine panic; the model does not cover that.
- Copying the `RgbaImage` raw buffer into a `ColorImage` is modelled as "same
  pixels, same dimensions". The input is already an `Image`.
- Row-major indexing `y * width + x` is assumed, because `get_pixel` and
  `set_pixel` belong to the engine.
- Two engine constants are assumed, because their definitions belong to the
  engine:
  - `HIERARCHICAL_MAX` is taken to be `u32::MAX`;
  - `ColorName::Black` is taken to be opaque `rgba(0, 0, 0, 255)`.
- The path-simplification thresholds and the path precision are passed through
  unchanged and are never reasoned about numerically. The thresholds are
  carried as reals.
- Machine integers are unbounded here. `width * height` cannot overflow a
  64-bit `usize` when both factors come from `u32`.
- `main.rs` is CLI plumbing: argument parsing, `println!` and `panic!`.
- Configuration validation does not happen in this code. No out-of-range
  threshold is rejected before the engine runs, so the model has no such error
  case.
- Keyed pixels in `Cutout` mode get `KeyingAction::Keep`. The converter emits
  whatever clusters the engine returns, with no filtering of its own. Whether
  a keyed region is drawn depends on the engine.
- Partially transparent pixels (alpha between 1 and 254) are not touched by
  keying, and the model leaves them unchanged too.
- Colour mode applies no speckle filter during assembly. Every index in
  `clusters_output` produces an entry, whatever the cluster's size.
