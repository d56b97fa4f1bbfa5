/** What the step sizer of the gradient-history manipulator promises: how the gain factor is
    chosen from a recommendation or from the alignment of the two latest step versors, and what
    it does to the step size. */
module StepSizing {
  import opened Wrappers
  import opened Vectors
  import opened StepManipulators

  /** A `recommend` of `'shrink'` or `'grow'` decides the gain whatever the versors are. */
  lemma RecommendOverridesHistory(g: GradientHistory, lib: MathLib, grad0: Vector, grad1: Option<Vector>)
    ensures g.GainFactor(lib, Some(grad0), grad1, Some("grow")) == Success(g.growth)
    ensures g.shrink != 0.0 ==> g.GainFactor(lib, Some(grad0), grad1, Some("shrink")) == Success(1.0 / g.shrink)
    ensures g.shrink == 0.0 ==> g.GainFactor(lib, Some(grad0), grad1, Some("shrink")) == Failure(ZeroDivision)
  {
  }

  /** A missing latest direction and an unknown recommendation are refused, in that order. */
  lemma GainFactorRefusals(g: GradientHistory, lib: MathLib, grad0: Option<Vector>, grad1: Option<Vector>,
                           recommend: Option<string>)
    ensures grad0.None? ==> g.GainFactor(lib, grad0, grad1, recommend) == Failure(MissingDirection)
    ensures grad0.Some? && recommend !in {None, Some("shrink"), Some("grow")} ==>
              g.GainFactor(lib, grad0, grad1, recommend) == Failure(UnknownRecommend)
  {
  }

  /** A recommendation of `'grow'` scales the latest step magnitude by `growth`, whatever the
      histories' versors are. */
  lemma GrowScalesStepSize(g: GradientHistory, lib: MathLib, gradientHist: seq<GradientEntry>,
                           prevStepSize: seq<StepRecord>)
    requires |prevStepSize| > 0
    requires prevStepSize[|prevStepSize| - 1].versor.Some? || |gradientHist| > 0
    ensures var r := g.NextStepSize(lib, gradientHist, prevStepSize, Some("grow"));
            r.Success? && r.value == g.growth * prevStepSize[|prevStepSize| - 1].magnitude
  {
  }

  /** A recommendation of `'shrink'` scales the latest step magnitude by `1 / shrink`, whatever
      the histories' versors are. */
  lemma ShrinkScalesStepSize(g: GradientHistory, lib: MathLib, gradientHist: seq<GradientEntry>,
                             prevStepSize: seq<StepRecord>)
    requires |prevStepSize| > 0
    requires prevStepSize[|prevStepSize| - 1].versor.Some? || |gradientHist| > 0
    requires g.shrink != 0.0
    ensures var r := g.NextStepSize(lib, gradientHist, prevStepSize, Some("shrink"));
            r.Success? && r.value == (1.0 / g.shrink) * prevStepSize[|prevStepSize| - 1].magnitude
  {
  }

  /** With no recommendation and a single step on record, the step size stays the same. */
  lemma SingleStepKeepsSize(g: GradientHistory, lib: MathLib, gradientHist: seq<GradientEntry>, first: StepRecord)
    requires first.versor.Some? || |gradientHist| > 0
    ensures g.NextStepSize(lib, gradientHist, [first], None) == Success(first.magnitude)
  {
  }

  /** An empty step-size history, or a latest step without versor and no gradient, is an index
      error; an unknown recommendation is refused once the histories are there. */
  lemma NextStepSizeRefusals(g: GradientHistory, lib: MathLib, gradientHist: seq<GradientEntry>,
                             prevStepSize: seq<StepRecord>, recommend: Option<string>)
    ensures |prevStepSize| == 0 ==> g.NextStepSize(lib, gradientHist, prevStepSize, recommend) == Failure(EmptyHistory)
    ensures |prevStepSize| > 0 && prevStepSize[|prevStepSize| - 1].versor.None? && |gradientHist| == 0 ==>
              g.NextStepSize(lib, gradientHist, prevStepSize, recommend) == Failure(EmptyHistory)
    ensures |prevStepSize| > 0 && (prevStepSize[|prevStepSize| - 1].versor.Some? || |gradientHist| > 0) &&
            recommend !in {None, Some("shrink"), Some("grow")} ==>
              g.NextStepSize(lib, gradientHist, prevStepSize, recommend) == Failure(UnknownRecommend)
  {
  }

  /** A latest step without a versor is sized as if its versor were the newest gradient's. */
  lemma MissingVersorFallsBackToGradient(g: GradientHistory, lib: MathLib, gradientHist: seq<GradientEntry>,
                                         prevStepSize: seq<StepRecord>, recommend: Option<string>)
    requires |prevStepSize| > 0 && |gradientHist| > 0
    requires prevStepSize[|prevStepSize| - 1].versor.None?
    ensures var n := |prevStepSize| - 1;
            var filled := prevStepSize[n].(versor := Some(gradientHist[|gradientHist| - 1].direction));
            g.NextStepSize(lib, gradientHist, prevStepSize, recommend) ==
            g.NextStepSize(lib, gradientHist, prevStepSize[..n] + [filled], recommend)
  {
    var n := |prevStepSize| - 1;
    var filled := prevStepSize[n].(versor := Some(gradientHist[|gradientHist| - 1].direction));
    var other := prevStepSize[..n] + [filled];
    assert |other| == |prevStepSize| && other[n] == filled;
    assert n > 0 ==> other[n - 1] == prevStepSize[n - 1];
    var step1 := if n > 0 then prevStepSize[n - 1].versor else None;
    var step0 := gradientHist[|gradientHist| - 1].direction;
    var gain := g.GainFactor(lib, Some(step0), step1, recommend);
    var m := prevStepSize[n].magnitude;
    var before, after := g.NextStepSize(lib, gradientHist, prevStepSize, recommend),
                         g.NextStepSize(lib, gradientHist, other, recommend);
    if gain.Success? {
      assert before.Success? && before.value == gain.value * m;
      assert after.Success? && after.value == gain.value * m;
    } else {
      assert before == Failure(gain.error) == after;
    }
  }

  /** Directions that agree grow the step, directions that disagree or are orthogonal do not. */
  lemma AlignmentGainBounds(g: GradientHistory, lib: MathLib, p: real)
    requires PowerLaws(lib) && g.growth > 1.0 && g.shrink > 1.0
    ensures p > 0.0 ==> g.AlignmentGain(lib, p) > 1.0
    ensures p <= 0.0 ==> 0.0 < g.AlignmentGain(lib, p) <= 1.0
    ensures p < 0.0 ==> g.AlignmentGain(lib, p) < 1.0
  {
  }

  /** The better the two latest directions agree, the larger the gain. */
  lemma AlignmentGainMonotone(g: GradientHistory, lib: MathLib, p: real, q: real)
    requires PowerLaws(lib) && g.growth > 1.0 && g.shrink > 1.0
    requires p < q
    ensures g.AlignmentGain(lib, p) < g.AlignmentGain(lib, q)
  {
  }

  /** Identical unit versors give the gain `growth ** 1 == growth`. */
  lemma IdenticalVersorsGrow(g: GradientHistory, lib: MathLib, v: Vector)
    requires PowerLaws(lib) && g.growth > 0.0
    requires SumSquares(v) == 1.0
    ensures g.GainFactor(lib, Some(v), Some(v), None) == Success(g.growth)
  {
    DotSelf(v);
  }

  /** Opposite unit versors give the gain `shrink ** -1`, the reciprocal of `shrink`. */
  lemma OppositeVersorsShrink(g: GradientHistory, lib: MathLib, v: Vector)
    requires PowerLaws(lib) && g.shrink > 0.0
    requires SumSquares(v) == 1.0
    ensures var r := g.GainFactor(lib, Some(v), Some(Scaled(-1.0, v)), None);
            r.Success? && r.value * g.shrink == 1.0
  {
    DotScaled(-1.0, v);
    assert g.AlignmentGain(lib, -1.0) * g.shrink == 1.0;
  }

  /** With factors above one and a positive latest magnitude, the new step size is positive. */
  lemma NextStepSizePositive(g: GradientHistory, lib: MathLib, gradientHist: seq<GradientEntry>,
                             prevStepSize: seq<StepRecord>, recommend: Option<string>)
    requires PowerLaws(lib) && g.growth > 1.0 && g.shrink > 1.0
    requires |prevStepSize| > 0 && prevStepSize[|prevStepSize| - 1].magnitude > 0.0
    ensures g.NextStepSize(lib, gradientHist, prevStepSize, recommend).Success? ==>
              g.NextStepSize(lib, gradientHist, prevStepSize, recommend).value > 0.0
  {
  }

  /** The first step is the hyperdiagonal of the cube of side `scaling`: its square is
      `numOptVars * scaling * scaling`, and it is positive for a positive scaling. */
  lemma InitialStepSizeIsDiagonal(g: GradientHistory, lib: MathLib, numOptVars: nat, scaling: real)
    requires forall v :: IsHyperdiagonal(v, lib.hyperdiagonal(v))
    ensures g.InitialStepSize(lib, numOptVars, scaling) >= 0.0
    ensures var d := g.InitialStepSize(lib, numOptVars, scaling);
            d * d == numOptVars as real * scaling * scaling
    ensures numOptVars > 0 && scaling != 0.0 ==> g.InitialStepSize(lib, numOptVars, scaling) > 0.0
  {
    var side := seq(numOptVars, _ => scaling);
    assert IsHyperdiagonal(side, lib.hyperdiagonal(side));
    SumSquaresConstant(numOptVars, scaling);
    var d := g.InitialStepSize(lib, numOptVars, scaling);
    if numOptVars > 0 && scaling != 0.0 {
      var n, s2 := numOptVars as real, scaling * scaling;
      if scaling > 0.0 {
        SquareMonotone(0.0, scaling);
      } else {
        SquareMonotone(0.0, -scaling);
        assert (-scaling) * (-scaling) == s2;
      }
      assert s2 > 0.0;
      assert n * s2 > 0.0;
      assert d != 0.0;
    }
  }
}
