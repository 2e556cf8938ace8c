/**
 * The two entry points of the in-memory converter. Both produce the output
 * document; turning it into SVG text is not part of this model.
 */
module InMemoryConverter {
  import opened Wrappers
  import opened Colors
  import opened Images
  import opened Config
  import opened Engine
  import opened Svg
  import opened Keying
  import opened Passes
  import opened Assembly

  /**
   * `binary_image_to_svg`: one entry per cluster that passes the speckle
   * filter, in ascending cluster index order, every one filled black, on a
   * canvas the size of the input.
   */
  method BinaryImageToSvg<C, P>(e: BinaryEngine<C, P>, input: BinaryImage, cfg: ConverterConfig) returns (svg: SvgFile<P>)
    ensures svg.width == input.width && svg.height == input.height && svg.precision == cfg.pathPrecision
    ensures var cs := e.toClusters(input);
      var ks := KeptIndices(e, cs, cfg.filterSpeckleArea);
      && |svg.paths| == |ks|
      && forall j :: 0 <= j < |ks| ==> svg.paths[j] == (e.binaryPath(cs[ks[j]], cfg.path), Black)
  {
    var clusters := e.toClusters(input);
    svg := NewSvg(input.width, input.height, cfg.pathPrecision);
    for i := 0 to |clusters|
      invariant svg.width == input.width && svg.height == input.height && svg.precision == cfg.pathPrecision
      invariant svg.paths == BinaryEntries(e, clusters[..i], cfg.filterSpeckleArea, cfg.path)
    {
      assert clusters[..i + 1][..i] == clusters[..i];
      var cluster := clusters[i];
      if e.size(cluster) >= cfg.filterSpeckleArea {
        var paths := e.binaryPath(cluster, cfg.path);
        svg := AddPath(svg, paths, Black);
      }
    }
    assert clusters[..|clusters|] == clusters;
    BinaryEntriesAreKeptClusters(e, clusters, cfg.filterSpeckleArea, cfg.path);
  }

  /**
   * The reversed emission loop of `color_image_to_svg`: the entries are the
   * colour entries of the hierarchy's output order, on the given canvas.
   */
  method AssembleColor<H, C, P>(e: ColorEngine<H, C, P>, final: H, width: nat, height: nat, precision: Option<nat>, params: PathParams)
    returns (svg: SvgFile<P>)
    ensures svg.width == width && svg.height == height && svg.precision == precision
    ensures svg.paths == ColorEntries(e, final, e.outputOrder(final), params)
    ensures var order := e.outputOrder(final);
      forall i :: 0 <= i < |order| ==> svg.paths[i] == ColorEntry(e, final, order[|order| - 1 - i], params)
  {
    var order := e.outputOrder(final);
    var n := |order|;
    svg := NewSvg(width, height, precision);
    for j := 0 to n
      invariant svg.width == width && svg.height == height && svg.precision == precision
      invariant svg.paths == ColorEntries(e, final, order[n - j..], params)
    {
      assert order[n - j - 1..][1..] == order[n - j..];
      var index := order[n - 1 - j];
      var cluster := e.cluster(final, index);
      var paths := e.colorPath(final, cluster, params);
      svg := AddPath(svg, paths, e.residue(cluster));
    }
    assert order[n - n..] == order;
    ColorEntriesReversed(e, final, order, params);
  }

  /**
   * `color_image_to_svg`: fails only when the image needs keying and no
   * unused colour exists. Otherwise the input is keyed, the passes of the
   * configured mode are run, and the final hierarchy's clusters are emitted
   * in reverse output order with their residue colours, on a canvas the size
   * of the input.
   */
  method ColorImageToSvg<H, C, P>(o: KeyingOracle, e: ColorEngine<H, C, P>, input: Image, cfg: ConverterConfig)
    returns (r: Result<SvgFile<P>, ConvertError>)
    ensures r.Failure? <==> o.shouldKey(input) && o.findUnused(input).None?
    ensures r.Success? ==>
      r.value.width == input.width && r.value.height == input.height && r.value.precision == cfg.pathPrecision
    ensures r.Success? ==>
      var key := ChooseKey(o, input).value;
      var final := RunPasses(e, cfg, KeyedInput(o, input, key), key).phase.result;
      var order := e.outputOrder(final);
      && |r.value.paths| == |order|
      && forall i :: 0 <= i < |order| ==> r.value.paths[i] == ColorEntry(e, final, order[|order| - 1 - i], cfg.path)
  {
    var key :- ChooseKey(o, input);
    var img := KeyInput(o, input, key);

    var final := RunPasses(e, cfg, img, key).phase.result;
    var svg := AssembleColor(e, final, input.width, input.height, cfg.pathPrecision, cfg.path);
    r := Success(svg);
  }
}
