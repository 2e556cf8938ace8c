/**
 * Pass selection for colour images, as a three-phase state machine. Every
 * engine invocation is recorded, so the number of passes and what each one
 * was given can be stated. `Stacked` finishes after the first pass; `Cutout`
 * flattens the first result and re-segments it in a second pass whose result
 * replaces the first.
 */
module Passes {
  import opened Colors
  import opened Images
  import opened Config
  import opened RunnerConfigs
  import opened Engine

  /** One call of `Runner::new(config, image).run()`. */
  datatype Invocation = Invocation(config: RunnerConfig, image: Image)

  datatype Phase<H> = PendingFirstPass | PendingSecondPass(first: H) | Finished(result: H)

  datatype Driver<H> = Driver(phase: Phase<H>, runs: seq<Invocation>)

  function Rank<H>(p: Phase<H>): nat {
    match p
    case PendingFirstPass => 2
    case PendingSecondPass(_) => 1
    case Finished(_) => 0
  }

  /** One transition: invoke the engine once and move to the next phase. */
  function Step<H, C, P>(e: ColorEngine<H, C, P>, cfg: ConverterConfig, img: Image, key: Color, d: Driver<H>): (d': Driver<H>)
    requires !d.phase.Finished?
    ensures Rank(d'.phase) < Rank(d.phase)
    ensures |d'.runs| == |d.runs| + 1 && d'.runs[..|d.runs|] == d.runs
    ensures d'.phase.Finished? || d'.phase.PendingSecondPass?
    ensures d'.phase.Finished? ==> d'.phase.result == e.run(d'.runs[|d.runs|].config, d'.runs[|d.runs|].image)
    ensures d'.phase.PendingSecondPass? ==> d'.phase.first == e.run(d'.runs[|d.runs|].config, d'.runs[|d.runs|].image)
  {
    match d.phase
    case PendingFirstPass =>
      var inv := Invocation(FirstPassConfig(cfg, img, key), img);
      var h := e.run(inv.config, inv.image);
      Driver(if cfg.hierarchical.Stacked? then Finished(h) else PendingSecondPass(h), d.runs + [inv])
    case PendingSecondPass(first) =>
      var flat := e.flatten(first);
      var inv := Invocation(SecondPassConfig(cfg, flat), flat);
      Driver(Finished(e.run(inv.config, inv.image)), d.runs + [inv])
  }

  /** Runs transitions until the driver has finished. */
  function Drive<H, C, P>(e: ColorEngine<H, C, P>, cfg: ConverterConfig, img: Image, key: Color, d: Driver<H>): (d': Driver<H>)
    ensures d'.phase.Finished?
    ensures |d.runs| + Rank(d.phase) >= |d'.runs| >= |d.runs| && d'.runs[..|d.runs|] == d.runs
    ensures !d.phase.Finished? ==> |d'.runs| > |d.runs|
    ensures !d.phase.Finished? ==>
      d'.phase.result == e.run(d'.runs[|d'.runs| - 1].config, d'.runs[|d'.runs| - 1].image)
    decreases Rank(d.phase)
  {
    if d.phase.Finished? then d
    else Drive(e, cfg, img, key, Step(e, cfg, img, key, d))
  }

  /** All the passes of one colour conversion, from a fresh driver. */
  function RunPasses<H, C, P>(e: ColorEngine<H, C, P>, cfg: ConverterConfig, img: Image, key: Color): (d: Driver<H>)
    ensures d.phase.Finished?
    ensures 1 <= |d.runs| <= 2
    ensures d.runs[0] == Invocation(FirstPassConfig(cfg, img, key), img)
    ensures d.phase.result == e.run(d.runs[|d.runs| - 1].config, d.runs[|d.runs| - 1].image)
  {
    Drive(e, cfg, img, key, Driver(PendingFirstPass, []))
  }

  /**
   * `Stacked` invokes the engine exactly once, on the keyed image with the
   * first-pass configuration, and its result is final.
   */
  lemma {:induction false} StackedRunsOnce<H, C, P>(e: ColorEngine<H, C, P>, cfg: ConverterConfig, img: Image, key: Color)
    requires cfg.hierarchical == Stacked
    ensures var d := RunPasses(e, cfg, img, key);
      && d.runs == [Invocation(FirstPassConfig(cfg, img, key), img)]
      && d.phase.result == e.run(FirstPassConfig(cfg, img, key), img)
  {
    var d1 := Step(e, cfg, img, key, Driver(PendingFirstPass, []));
    assert d1.phase.Finished?;
    assert RunPasses(e, cfg, img, key) == d1;
  }

  /**
   * `Cutout` invokes the engine exactly twice: first on the keyed image, then
   * on the flattened first result with the second-pass configuration; the
   * second result is the one kept.
   */
  lemma {:induction false} CutoutRunsTwice<H, C, P>(e: ColorEngine<H, C, P>, cfg: ConverterConfig, img: Image, key: Color)
    requires cfg.hierarchical == Cutout
    ensures var d := RunPasses(e, cfg, img, key);
      var first := e.run(FirstPassConfig(cfg, img, key), img);
      var flat := e.flatten(first);
      && d.runs == [Invocation(FirstPassConfig(cfg, img, key), img), Invocation(SecondPassConfig(cfg, flat), flat)]
      && d.phase.result == e.run(SecondPassConfig(cfg, flat), flat)
  {
    var d1 := Step(e, cfg, img, key, Driver(PendingFirstPass, []));
    assert d1.phase.PendingSecondPass?;
    var d2 := Step(e, cfg, img, key, d1);
    assert d2.phase.Finished?;
    assert Drive(e, cfg, img, key, d1) == d2;
  }

  /** The number of engine invocations is one for `Stacked` and two for `Cutout`. */
  lemma PassCount<H, C, P>(e: ColorEngine<H, C, P>, cfg: ConverterConfig, img: Image, key: Color)
    ensures |RunPasses(e, cfg, img, key).runs| == (if cfg.hierarchical == Stacked then 1 else 2)
  {
    if cfg.hierarchical == Stacked {
      StackedRunsOnce(e, cfg, img, key);
    } else {
      CutoutRunsTwice(e, cfg, img, key);
    }
  }

  /**
   * The key colour reaches the first pass only, and every pass after the first
   * keeps keyed pixels, since a second pass happens only in `Cutout` mode.
   */
  lemma KeyOnlyInFirstPass<H, C, P>(e: ColorEngine<H, C, P>, cfg: ConverterConfig, img: Image, key: Color)
    ensures var d := RunPasses(e, cfg, img, key);
      && d.runs[0].config.keyColor == key
      && forall k :: 1 <= k < |d.runs| ==> d.runs[k].config.keyColor == Default && d.runs[k].config.keyingAction == Keep
  {
    if cfg.hierarchical == Stacked {
      StackedRunsOnce(e, cfg, img, key);
    } else {
      CutoutRunsTwice(e, cfg, img, key);
    }
  }
}
