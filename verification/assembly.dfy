/**
 * Path assembly: turning the engine's clusters into document entries.
 * Binary mode keeps the clusters that pass the speckle filter, in index
 * order, all filled black. Colour mode walks the output order backwards and
 * fills each path with its cluster's residue colour, with no area filter.
 */
module Assembly {
  import opened Colors
  import opened Config
  import opened Engine

  /** Binary-mode entries of the clusters `cs`, by the definition of the loop over `0 .. len()`. */
  function BinaryEntries<C, P>(e: BinaryEngine<C, P>, cs: seq<C>, minArea: nat, params: PathParams): (es: seq<(P, Color)>)
    ensures |es| <= |cs|
    ensures forall j :: 0 <= j < |es| ==> es[j].1 == Black
  {
    if |cs| == 0 then []
    else
      var last := cs[|cs| - 1];
      BinaryEntries(e, cs[..|cs| - 1], minArea, params)
        + (if e.size(last) >= minArea then [(e.binaryPath(last, params), Black)] else [])
  }

  /**
   * Independent description of the kept clusters: the ascending list of the
   * indices whose cluster passes the speckle filter.
   */
  function KeptIndices<C, P>(e: BinaryEngine<C, P>, cs: seq<C>, minArea: nat): (ks: seq<nat>)
    ensures forall j :: 0 <= j < |ks| ==> ks[j] < |cs|
    ensures forall j, k :: 0 <= j < k < |ks| ==> ks[j] < ks[k]
    ensures forall i :: 0 <= i < |cs| ==> (i in ks <==> e.size(cs[i]) >= minArea)
  {
    if |cs| == 0 then []
    else
      var n := |cs| - 1;
      var prefix := KeptIndices(e, cs[..n], minArea);
      assert forall i :: 0 <= i < n ==> cs[..n][i] == cs[i];
      prefix + (if e.size(cs[n]) >= minArea then [n] else [])
  }

  /**
   * The binary entries are exactly the kept clusters, in ascending index
   * order, each turned into its path and filled black.
   */
  lemma {:induction false} BinaryEntriesAreKeptClusters<C, P>(e: BinaryEngine<C, P>, cs: seq<C>, minArea: nat, params: PathParams)
    ensures var es := BinaryEntries(e, cs, minArea, params);
      var ks := KeptIndices(e, cs, minArea);
      && |es| == |ks|
      && forall j :: 0 <= j < |es| ==> es[j] == (e.binaryPath(cs[ks[j]], params), Black)
  {
    if |cs| > 0 {
      var n := |cs| - 1;
      var prefix := cs[..n];
      BinaryEntriesAreKeptClusters(e, prefix, minArea, params);
      var es0, ks0 := BinaryEntries(e, prefix, minArea, params), KeptIndices(e, prefix, minArea);
      var es, ks := BinaryEntries(e, cs, minArea, params), KeptIndices(e, cs, minArea);
      if e.size(cs[n]) >= minArea {
        assert es == es0 + [(e.binaryPath(cs[n], params), Black)];
        assert ks == ks0 + [n];
        forall j | 0 <= j < |es0|
          ensures es[j] == (e.binaryPath(cs[ks[j]], params), Black)
        {
          assert prefix[ks0[j]] == cs[ks0[j]];
        }
      } else {
        assert es == es0 && ks == ks0;
        forall j | 0 <= j < |es0|
          ensures es[j] == (e.binaryPath(cs[ks[j]], params), Black)
        {
          assert prefix[ks0[j]] == cs[ks0[j]];
        }
      }
    }
  }

  /** Every binary entry is filled black. */
  lemma BinaryEntriesBlack<C, P>(e: BinaryEngine<C, P>, cs: seq<C>, minArea: nat, params: PathParams)
    ensures forall j :: 0 <= j < |BinaryEntries(e, cs, minArea, params)| ==> BinaryEntries(e, cs, minArea, params)[j].1 == Black
  {
    BinaryEntriesAreKeptClusters(e, cs, minArea, params);
  }

  /** With no speckle filter every cluster yields one entry. */
  lemma {:induction false} NoFilterKeepsAll<C, P>(e: BinaryEngine<C, P>, cs: seq<C>, params: PathParams)
    ensures |BinaryEntries(e, cs, 0, params)| == |cs|
  {
    if |cs| > 0 {
      NoFilterKeepsAll(e, cs[..|cs| - 1], params);
    }
  }

  /** The colour-mode entry for the cluster at `index` of hierarchy `h`. */
  function ColorEntry<H, C, P>(e: ColorEngine<H, C, P>, h: H, index: nat, params: PathParams): (P, Color) {
    var c := e.cluster(h, index);
    (e.colorPath(h, c, params), e.residue(c))
  }

  /** Colour-mode entries for the output order `order`, by the definition of the reversed loop. */
  function ColorEntries<H, C, P>(e: ColorEngine<H, C, P>, h: H, order: seq<nat>, params: PathParams): (es: seq<(P, Color)>)
    ensures |es| == |order|
    ensures |order| > 0 ==> es[0] == ColorEntry(e, h, order[|order| - 1], params)
  {
    if |order| == 0 then []
    else ColorEntries(e, h, order[1..], params) + [ColorEntry(e, h, order[0], params)]
  }

  /**
   * The `i`-th colour entry comes from `order[|order| - 1 - i]`: one entry per
   * cluster index, painted in exactly the reverse of the engine's order.
   */
  lemma {:induction false} ColorEntriesReversed<H, C, P>(e: ColorEngine<H, C, P>, h: H, order: seq<nat>, params: PathParams)
    ensures |ColorEntries(e, h, order, params)| == |order|
    ensures forall i :: 0 <= i < |order| ==>
      ColorEntries(e, h, order, params)[i] == ColorEntry(e, h, order[|order| - 1 - i], params)
  {
    if |order| > 0 {
      ColorEntriesReversed(e, h, order[1..], params);
    }
  }

  /** The last cluster of the engine's order is painted first, ahead of all the others. */
  lemma {:induction false} LastClusterPaintedFirst<H, C, P>(e: ColorEngine<H, C, P>, h: H, order: seq<nat>, index: nat, params: PathParams)
    ensures ColorEntries(e, h, order + [index], params) == [ColorEntry(e, h, index, params)] + ColorEntries(e, h, order, params)
    decreases |order|
  {
    if |order| > 0 {
      assert (order + [index])[1..] == order[1..] + [index];
      LastClusterPaintedFirst(e, h, order[1..], index, params);
    } else {
      assert order + [index] == [index];
    }
  }
}
