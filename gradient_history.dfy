/** Step manipulation based on the history of gradient and step directions: the step sizer
    (`GainFactor`, `NextStepSize`, `Step`, `InitialStepSize`) and the constraint repairer
    (`FixConstraintViolations`, specified by `Repair`).

    Vectors are sequences of reals with one entry per optimisation variable, in the order in
    which the variables were registered; optimisation points are maps from variable name to value.
    The vector-algebra helpers and real-exponent power come from a library that is not part of
    this model; they are passed in as a `MathLib` value and only the properties in `Lawful`
    are assumed of them. */
module StepManipulators {
  import opened Wrappers
  import opened Vectors

  /** An optimisation point (a dictionary from variable name to value). */
  type Coords = map<string, real>

  predicate Distinct(names: seq<string>) {
    forall i, j :: 0 <= i < j < |names| ==> names[i] != names[j]
  }

  // ---------------------------------------------------------------------------------------------
  // The external vector-algebra and power library

  /** `calculateMagnitudeAndVersor`, `angleBetweenVectors`, `randomPerpendicularVector`,
      `hyperdiagonal` and real-exponent `**`. The random perpendicular is a fixed function value
      for one call, standing for one draw of the random source. */
  datatype MathLib = MathLib(
    magnitudeAndVersor: Vector -> (real, Vector),
    angleBetween: (Vector, Vector) -> real,
    randomPerpendicular: Vector -> Vector,
    hyperdiagonal: Vector -> real,
    power: (real, real) -> real)

  /** The magnitude is the Euclidean norm; a non-zero vector is its magnitude times its versor. */
  ghost predicate IsMagnitudeAndVersor(v: Vector, mv: (real, Vector)) {
    && mv.0 >= 0.0
    && mv.0 * mv.0 == SumSquares(v)
    && |mv.1| == |v|
    && (mv.0 > 0.0 ==> forall i :: 0 <= i < |v| ==> v[i] == mv.0 * mv.1[i])
  }

  /** The hyperdiagonal of a box is the norm of its side vector. */
  ghost predicate IsHyperdiagonal(v: Vector, h: real) {
    h >= 0.0 && h * h == SumSquares(v)
  }

  ghost predicate IsPerpendicularTo(p: Vector, v: Vector) {
    |p| == |v| && Dot(p, v) == 0.0
  }

  /** What the step sizer relies on about `base ** exponent`. */
  ghost predicate PowerLaw(base: real, exponent: real, x: real) {
    && (base > 0.0 ==> x > 0.0)
    && (base > 1.0 && exponent > 0.0 ==> x > 1.0)
    && (base > 1.0 && exponent < 0.0 ==> x < 1.0)
  }

  /** Versors and perpendiculars have as many entries as the vector they come from. */
  ghost predicate ShapeLaws(lib: MathLib) {
    && (forall v :: |lib.magnitudeAndVersor(v).1| == |v|)
    && (forall v :: |lib.randomPerpendicular(v)| == |v|)
  }

  /** The geometric laws the repairer relies on. */
  ghost predicate GeometryLaws(lib: MathLib) {
    && ShapeLaws(lib)
    && (forall v :: IsMagnitudeAndVersor(v, lib.magnitudeAndVersor(v)))
    && (forall v :: IsPerpendicularTo(lib.randomPerpendicular(v), v))
  }

  /** The laws the step sizer relies on. */
  ghost predicate PowerLaws(lib: MathLib) {
    && (forall b, p :: PowerLaw(b, p, lib.power(b, p)))
    && (forall b :: b > 0.0 ==> lib.power(b, 0.0) == 1.0)
    && (forall b :: b > 0.0 ==> lib.power(b, 1.0) == b)
    && (forall b :: b > 0.0 ==> lib.power(b, -1.0) * b == 1.0)
    && (forall b, p, q :: b > 1.0 && p < q ==> lib.power(b, p) < lib.power(b, q))
  }

  ghost predicate Lawful(lib: MathLib) {
    && GeometryLaws(lib)
    && PowerLaws(lib)
    && (forall v :: IsHyperdiagonal(v, lib.hyperdiagonal(v)))
  }

  // ---------------------------------------------------------------------------------------------
  // Histories and errors

  /** One entry of the gradient history: an iteration marker and the gradient versor. */
  datatype GradientEntry = GradientEntry(marker: int, direction: Vector)

  /** One entry of the step-size history: the magnitude and, once known, the versor of a step. */
  datatype StepRecord = StepRecord(magnitude: real, versor: Option<Vector>)

  /** The exceptions the step sizer can raise. */
  datatype StepError =
    | MissingDirection   // `assert grad0 is not None`
    | UnknownRecommend   // `assert recommend in [None, 'shrink', 'grow']`
    | ZeroDivision       // `1. / self._shrink` with a zero shrink factor
    | EmptyHistory       // `[-1]` on an empty history
    | MissingVariable    // `prevOpt[var]` for a variable the point does not hold
    | ShapeMismatch      // vectors of different lengths, or a gradient shorter than the variables

  /** The state `fixInfo` carries between repair calls: each optional field is a dictionary key
      that may be absent. */
  datatype RepairState = RepairState(
    minStepSize: real,
    originalStepSize: Option<real>,
    originalDirection: Option<Vector>,
    perpDir: Option<Vector>,
    numRotations: Option<int>)

  /** What one repair call does: it returns a new proposal and step size, raises
      `NoConstraintResolutionFound` after having updated the state, or fails on a missing variable
      before touching anything. */
  datatype RepairOutcome =
    | Moved(point: Coords, stepSize: real, state: RepairState)
    | Unresolved(state: RepairState)
    | MissingCoordinate

  /** What the imperative repairer returns to its caller. */
  datatype FixResult = Repaired(stepSize: real) | NoConstraintResolutionFound | KeyError

  /** What the caller sees after a repair call with outcome `out`, starting from `point` and `s`:
      the result, its point dictionary and its `fixInfo`. */
  function Observed(out: RepairOutcome, point: Coords, s: RepairState): (FixResult, Coords, RepairState) {
    match out
    case Moved(p, size, next) => (Repaired(size), p, next)
    case Unresolved(next) => (NoConstraintResolutionFound, point, next)
    case MissingCoordinate => (KeyError, point, s)
  }

  // ---------------------------------------------------------------------------------------------
  // Point helpers

  /** The dictionary after writing `vals[i]` to `keys[i]` in order, as the write loops of
      `fixConstraintViolations` do. */
  function Overwrite(m: Coords, keys: seq<string>, vals: seq<real>): Coords
    requires |keys| == |vals|
  {
    if |keys| == 0 then m
    else Overwrite(m, keys[..|keys| - 1], vals[..|vals| - 1])[keys[|keys| - 1] := vals[|vals| - 1]]
  }

  /** Writing distinct keys in order: each written key holds its value, every other key keeps its
      old value, and no key is lost. */
  lemma {:induction false} OverwriteAt(m: Coords, keys: seq<string>, vals: seq<real>)
    requires |keys| == |vals| && Distinct(keys)
    ensures forall k :: k in Overwrite(m, keys, vals) <==> k in m || k in keys
    ensures forall i :: 0 <= i < |keys| ==> Overwrite(m, keys, vals)[keys[i]] == vals[i]
    ensures forall k :: k in m && k !in keys ==> Overwrite(m, keys, vals)[k] == m[k]
  {
    if |keys| > 0 {
      var n := |keys| - 1;
      assert Distinct(keys[..n]);
      OverwriteAt(m, keys[..n], vals[..n]);
      assert forall k :: k in keys <==> k in keys[..n] || k == keys[n];
    }
  }

  predicate HasAll(m: Coords, names: seq<string>) {
    forall i :: 0 <= i < |names| ==> names[i] in m
  }

  /** `proposed[var] - previous[var]` for every variable, in variable order. */
  function Difference(names: seq<string>, proposed: Coords, previous: Coords): (r: Vector)
    requires HasAll(proposed, names) && HasAll(previous, names)
    ensures |r| == |names|
    ensures forall i :: 0 <= i < |names| ==> r[i] == proposed[names[i]] - previous[names[i]]
  {
    seq(|names|, i requires 0 <= i < |names| => proposed[names[i]] - previous[names[i]])
  }

  /** `previous[var] + size * direction[v]` for every variable, in variable order. */
  function Along(names: seq<string>, previous: Coords, size: real, direction: Vector): (r: Vector)
    requires HasAll(previous, names) && |direction| == |names|
    ensures |r| == |names|
    ensures forall i :: 0 <= i < |names| ==> r[i] == previous[names[i]] + size * direction[i]
  {
    seq(|names|, i requires 0 <= i < |names| => previous[names[i]] + size * direction[i])
  }

  /** Records the step distance of the first call of an episode. */
  function RecordStepSize(s: RepairState, distance: real): (r: RepairState)
    ensures r.originalStepSize == Some(s.originalStepSize.GetOr(distance))
    ensures r.(originalStepSize := s.originalStepSize) == s
  {
    if s.originalStepSize.None? then s.(originalStepSize := Some(distance)) else s
  }

  /** Records the step direction the first time cutting bottoms out. */
  function RecordDirection(s: RepairState, direction: Vector): (r: RepairState)
    ensures r.originalDirection == Some(s.originalDirection.GetOr(direction))
    ensures r.(originalDirection := s.originalDirection) == s
  {
    if s.originalDirection.None? then s.(originalDirection := Some(direction)) else s
  }

  /** The vector that evenly divides the step direction and the perpendicular (before normalising). */
  method SplitVector(direction: Vector, perpDir: Vector) returns (v: Vector)
    requires |direction| == |perpDir|
    ensures v == Plus(direction, perpDir)
  {
    v := [];
    var i := 0;
    while i < |direction|
      invariant 0 <= i <= |direction|
      invariant v == Plus(direction, perpDir)[..i]
    {
      v := v + [direction[i] + perpDir[i]];
      i := i + 1;
    }
  }

  lemma PerpLength(lib: MathLib, v: Vector)
    requires ShapeLaws(lib)
    ensures |lib.magnitudeAndVersor(lib.randomPerpendicular(v)).1| == |v|
  {
  }

  /** A versor of a non-zero vector has unit length. */
  lemma VersorIsUnit(lib: MathLib, v: Vector)
    requires GeometryLaws(lib)
    requires lib.magnitudeAndVersor(v).0 > 0.0
    ensures SumSquares(lib.magnitudeAndVersor(v).1) == 1.0
  {
    var mv := lib.magnitudeAndVersor(v);
    assert IsMagnitudeAndVersor(v, mv);
    var m, u := mv.0, mv.1;
    assert |u| == |v|;
    forall i | 0 <= i < |v| ensures v[i] == Scaled(m, u)[i] {
    }
    assert v == Scaled(m, u);
    SumSquaresScaled(m, u);
    var mm, su := m * m, SumSquares(u);
    assert mm > 0.0 by { SquareMonotone(0.0, m); }
    assert SumSquares(Scaled(m, u)) == mm * su;
    assert SumSquares(v) == mm;
    assert mm * su == mm;
  }

  /** The magnitude of `c` times a unit vector is `c`, for `c >= 0`. */
  lemma ScaledUnitMagnitude(lib: MathLib, c: real, u: Vector)
    requires GeometryLaws(lib)
    requires c >= 0.0 && SumSquares(u) == 1.0
    ensures lib.magnitudeAndVersor(Scaled(c, u)).0 == c
  {
    var w := Scaled(c, u);
    assert IsMagnitudeAndVersor(w, lib.magnitudeAndVersor(w));
    SumSquaresScaled(c, u);
    NonNegativeRootUnique(lib.magnitudeAndVersor(w).0, c);
  }

  // ---------------------------------------------------------------------------------------------
  // The step manipulator

  class GradientHistory {
    var optVars: seq<string>
    var growth: real
    var shrink: real
    var minRotationAngle: real
    var numRandomPerp: int

    /** The registered variables are distinct names. */
    predicate Valid()
      reads this
    {
      Distinct(optVars)
    }

    /** The defaults of `__init__`; the variables are registered later by `Initialize`. */
    constructor ()
      ensures Valid()
      ensures optVars == [] && growth == 1.25 && shrink == 1.15
      ensures minRotationAngle == 2.0 && numRandomPerp == 10
    {
      optVars := [];
      growth := 1.25;
      shrink := 1.15;
      minRotationAngle := 2.0;
      numRandomPerp := 10;
    }

    method Initialize(vars: seq<string>)
      requires Distinct(vars)
      modifies this
      ensures Valid() && optVars == vars
      ensures growth == old(growth) && shrink == old(shrink)
      ensures minRotationAngle == old(minRotationAngle) && numRandomPerp == old(numRandomPerp)
    {
      optVars := vars;
    }

    /** The hyperdiagonal of the hypercube with `numOptVars` sides of length `scaling`. */
    function InitialStepSize(lib: MathLib, numOptVars: nat, scaling: real): (r: real)
    {
      lib.hyperdiagonal(seq(numOptVars, _ => scaling))
    }

    /** The gain for a scalar product `p` of the two latest step versors. */
    function AlignmentGain(lib: MathLib, p: real): real
      reads this
    {
      if p > 0.0 then lib.power(growth, p) else lib.power(shrink, p)
    }

    /** `_fractionalStepChange`: the factor to multiply the step size by. */
    function GainFactor(lib: MathLib, grad0: Option<Vector>, grad1: Option<Vector>, recommend: Option<string>)
      : (r: Result<real, StepError>)
      reads this
      ensures r.Success? && recommend.None? && grad1.Some? && Lawful(lib) && growth > 1.0 && shrink > 1.0
              ==> r.value > 0.0
    {
      if grad0.None? then Failure(MissingDirection)
      else if recommend != None && recommend != Some("shrink") && recommend != Some("grow") then
        Failure(UnknownRecommend)
      else if recommend == Some("shrink") then
        if shrink == 0.0 then Failure(ZeroDivision) else Success(1.0 / shrink)
      else if recommend == Some("grow") then Success(growth)
      else if grad1.None? then Success(1.0)
      else if |grad0.value| != |grad1.value| then Failure(ShapeMismatch)
      else Success(AlignmentGain(lib, Dot(grad0.value, grad1.value)))
    }

    /** `_stepSize`: the gain applied to the latest step magnitude. */
    function NextStepSize(lib: MathLib, gradientHist: seq<GradientEntry>, prevStepSize: seq<StepRecord>,
                          recommend: Option<string>): (r: Result<real, StepError>)
      reads this
      ensures |prevStepSize| == 0 ==> r == Failure(EmptyHistory)
    {
      if |prevStepSize| == 0 then Failure(EmptyHistory)
      else
        var last := prevStepSize[|prevStepSize| - 1];
        if last.versor.None? && |gradientHist| == 0 then Failure(EmptyHistory)
        else
          var step0 := if last.versor.Some? then last.versor.value
                       else gradientHist[|gradientHist| - 1].direction;
          var step1 := if |prevStepSize| > 1 then prevStepSize[|prevStepSize| - 2].versor else None;
          match GainFactor(lib, Some(step0), step1, recommend)
          case Failure(e) => Failure(e)
          case Success(gain) => Success(gain * last.magnitude)
    }

    /** `step`: the new point, moved against the newest gradient by the new step size. */
    method Step(lib: MathLib, prevOpt: Coords, gradientHist: seq<GradientEntry>,
                prevStepSize: seq<StepRecord>, recommend: Option<string>)
      returns (r: Result<(Coords, real), StepError>)
      requires Valid()
      ensures NextStepSize(lib, gradientHist, prevStepSize, recommend).Failure? ==>
                r == Failure(NextStepSize(lib, gradientHist, prevStepSize, recommend).error)
      ensures r.Success? <==>
                && NextStepSize(lib, gradientHist, prevStepSize, recommend).Success?
                && |gradientHist| > 0
                && HasAll(prevOpt, optVars)
                && |optVars| <= |gradientHist[|gradientHist| - 1].direction|
      ensures NextStepSize(lib, gradientHist, prevStepSize, recommend).Success? && |gradientHist| == 0 ==>
                r == Failure(EmptyHistory)
      ensures r == Failure(MissingVariable) ==> !HasAll(prevOpt, optVars)
      ensures r == Failure(ShapeMismatch) ==>
                NextStepSize(lib, gradientHist, prevStepSize, recommend).Failure? ||
                (|gradientHist| > 0 && |gradientHist[|gradientHist| - 1].direction| < |optVars|)
      ensures r.Success? ==>
                && r.value.1 == NextStepSize(lib, gradientHist, prevStepSize, recommend).value
                && (forall v :: v in r.value.0 <==> v in optVars)
                && forall i :: 0 <= i < |optVars| ==>
                     optVars[i] in r.value.0 &&
                     r.value.0[optVars[i]] ==
                     prevOpt[optVars[i]] - r.value.1 * gradientHist[|gradientHist| - 1].direction[i]
    {
      var sized := NextStepSize(lib, gradientHist, prevStepSize, recommend);
      if sized.Failure? {
        return Failure(sized.error);
      }
      if |gradientHist| == 0 {
        return Failure(EmptyHistory);
      }
      var moved := Descend(prevOpt, gradientHist[|gradientHist| - 1].direction, sized.value);
      match moved
      case Failure(e) => return Failure(e);
      case Success(newOpt) => return Success((newOpt, sized.value));
    }

    /** The loop of `step`: `prevOpt[var] - stepSize * gradient[var]` for every variable. */
    method Descend(prevOpt: Coords, gradient: Vector, stepSize: real) returns (r: Result<Coords, StepError>)
      requires Valid()
      ensures r.Success? <==> HasAll(prevOpt, optVars) && |optVars| <= |gradient|
      ensures r.Failure? ==> r.error == MissingVariable || r.error == ShapeMismatch
      ensures r == Failure(MissingVariable) ==> !HasAll(prevOpt, optVars)
      ensures r == Failure(ShapeMismatch) ==> |gradient| < |optVars|
      ensures r.Success? ==>
                && (forall v :: v in r.value <==> v in optVars)
                && forall i :: 0 <= i < |optVars| ==>
                     optVars[i] in r.value && r.value[optVars[i]] == prevOpt[optVars[i]] - stepSize * gradient[i]
    {
      var newOpt: Coords := map[];
      var i := 0;
      while i < |optVars|
        invariant 0 <= i <= |optVars|
        invariant i <= |gradient|
        invariant forall j :: 0 <= j < i ==> optVars[j] in prevOpt
        invariant forall v :: v in newOpt ==> v in optVars[..i]
        invariant forall j :: 0 <= j < i ==>
                    optVars[j] in newOpt && newOpt[optVars[j]] == prevOpt[optVars[j]] - stepSize * gradient[j]
      {
        var name := optVars[i];
        if name !in prevOpt {
          return Failure(MissingVariable);
        }
        if i >= |gradient| {
          return Failure(ShapeMismatch);
        }
        assert optVars[..i + 1] == optVars[..i] + [name];
        newOpt := newOpt[name := prevOpt[name] - stepSize * gradient[i]];
        i := i + 1;
      }
      assert optVars[..i] == optVars;
      return Success(newOpt);
    }

    /** The stored vectors of a repair state have one entry per variable. */
    predicate StateFits(s: RepairState)
      reads this
    {
      && (s.originalDirection.Some? ==> |s.originalDirection.value| == |optVars|)
      && (s.perpDir.Some? ==> |s.perpDir.value| == |optVars|)
    }

    /** Forgets a held perpendicular that is now closer than `minRotationAngle` to the step direction. */
    function DropAlignedPerp(lib: MathLib, s: RepairState, direction: Vector): (r: RepairState)
      reads this
      ensures r.perpDir.Some? <==> s.perpDir.Some? && lib.angleBetween(direction, s.perpDir.value) >= minRotationAngle
      ensures r.perpDir.Some? ==> r == s
      ensures r.(perpDir := s.perpDir) == s
    {
      if s.perpDir.Some? && lib.angleBetween(direction, s.perpDir.value) < minRotationAngle
      then s.(perpDir := None) else s
    }

    /** Keeps a held perpendicular; otherwise draws a new one unless the rotation budget is spent
        (`None`: `NoConstraintResolutionFound` is raised). */
    function ChoosePerp(lib: MathLib, s: RepairState): (r: Option<RepairState>)
      reads this
      requires s.originalDirection.Some?
      ensures r.None? <==> s.perpDir.None? && s.numRotations.GetOr(0) > numRandomPerp
      ensures r.Some? && s.perpDir.Some? ==> r.value == s
      ensures r.Some? && s.perpDir.None? ==>
                && r.value.perpDir.Some?
                && r.value.numRotations == Some(s.numRotations.GetOr(0) + 1)
                && r.value.(perpDir := s.perpDir, numRotations := s.numRotations) == s
    {
      if s.perpDir.Some? then Some(s)
      else
        var rotations := s.numRotations.GetOr(0);
        if rotations > numRandomPerp then None
        else
          var perp := lib.randomPerpendicular(s.originalDirection.value);
          Some(s.(perpDir := Some(lib.magnitudeAndVersor(perp).1), numRotations := Some(rotations + 1)))
    }

    /** `fixConstraintViolations` as a function of the proposal, the previous point and the state:
        cut the step in half while it is longer than `minStepSize`, otherwise restore the original
        length and turn half-way towards a perpendicular of the original direction. */
    function Repair(lib: MathLib, proposed: Coords, previous: Coords, s: RepairState): (r: RepairOutcome)
      reads this
      requires ShapeLaws(lib) && StateFits(s)
      ensures r.MissingCoordinate? <==> !HasAll(proposed, optVars) || !HasAll(previous, optVars)
    {
      if !HasAll(proposed, optVars) || !HasAll(previous, optVars) then MissingCoordinate
      else
        var mv := lib.magnitudeAndVersor(Difference(optVars, proposed, previous));
        var s1 := RecordStepSize(s, mv.0);
        if mv.0 > s.minStepSize then Cut(proposed, previous, s1, mv.0, mv.1)
        else Rotate(lib, proposed, previous, s1, mv.1)
    }

    /** The cutting branch: move half the step distance from the previous point along the step
        direction. */
    function Cut(proposed: Coords, previous: Coords, s1: RepairState, distance: real, direction: Vector)
      : RepairOutcome
      reads this
      requires HasAll(previous, optVars) && |direction| == |optVars|
    {
      Moved(Overwrite(proposed, optVars, Along(optVars, previous, 0.5 * distance, direction)), 0.5 * distance, s1)
    }

    /** The rotating branch: keep the original step length and turn half-way from the step
        direction towards the held or a newly drawn perpendicular of the original direction. */
    function Rotate(lib: MathLib, proposed: Coords, previous: Coords, s1: RepairState, direction: Vector)
      : RepairOutcome
      reads this
      requires ShapeLaws(lib) && StateFits(s1) && s1.originalStepSize.Some?
      requires HasAll(previous, optVars) && |direction| == |optVars|
    {
      var s3 := DropAlignedPerp(lib, RecordDirection(s1, direction), direction);
      match ChoosePerp(lib, s3)
      case None => Unresolved(s3)
      case Some(s4) =>
        assert StateFits(s4) by { PerpLength(lib, s3.originalDirection.value); }
        var split := lib.magnitudeAndVersor(Plus(direction, s4.perpDir.value)).1;
        var size := s1.originalStepSize.value;
        Moved(Overwrite(proposed, optVars, Along(optVars, previous, size, split)), size, s4)
    }

    /** Writes `Along(...)` into the caller's point, variable by variable. */
    method MoveAlong(proposed: OptPoint, previous: Coords, size: real, direction: Vector)
      requires HasAll(previous, optVars) && |direction| == |optVars|
      modifies proposed
      ensures proposed.coords == Overwrite(old(proposed.coords), optVars, Along(optVars, previous, size, direction))
    {
      ghost var start := proposed.coords;
      ghost var vals := Along(optVars, previous, size, direction);
      var i := 0;
      while i < |optVars|
        invariant 0 <= i <= |optVars|
        invariant proposed.coords == Overwrite(start, optVars[..i], vals[..i])
      {
        assert optVars[..i + 1][..i] == optVars[..i];
        assert vals[..i + 1][..i] == vals[..i];
        proposed.coords := proposed.coords[optVars[i] := previous[optVars[i]] + size * direction[i]];
        i := i + 1;
      }
      assert optVars[..i] == optVars;
      assert vals[..i] == vals;
    }

    /** The rotating branch's bookkeeping: record the original direction, drop an aligned
        perpendicular and draw a new one, or report that the rotation budget is spent. */
    method Reorient(lib: MathLib, fixInfo: FixInfo, direction: Vector) returns (exhausted: bool)
      modifies fixInfo
      ensures var s3 := DropAlignedPerp(lib, RecordDirection(old(fixInfo.State()), direction), direction);
              && exhausted == ChoosePerp(lib, s3).None?
              && fixInfo.State() == if exhausted then s3 else ChoosePerp(lib, s3).value
    {
      if fixInfo.originalDirection.None? {
        fixInfo.originalDirection := Some(direction);
      }
      if fixInfo.perpDir.Some? {
        var angle := lib.angleBetween(direction, fixInfo.perpDir.value);
        if angle < minRotationAngle {
          fixInfo.perpDir := None;
        }
      }
      exhausted := false;
      if fixInfo.perpDir.None? {
        var perp := lib.randomPerpendicular(fixInfo.originalDirection.value);
        var rotations := fixInfo.numRotations.GetOr(0);
        if rotations > numRandomPerp {
          exhausted := true;
          return;
        }
        fixInfo.perpDir := Some(lib.magnitudeAndVersor(perp).1);
        fixInfo.numRotations := Some(rotations + 1);
      }
    }

    /** Lines 160-195 of `GradientHistory.py`: the rotating branch, in place. */
    method RotateInPlace(lib: MathLib, proposed: OptPoint, previous: Coords, fixInfo: FixInfo, direction: Vector)
      returns (r: FixResult)
      requires ShapeLaws(lib) && StateFits(fixInfo.State()) && fixInfo.originalStepSize.Some?
      requires HasAll(previous, optVars) && |direction| == |optVars|
      modifies proposed, fixInfo
      ensures (r, proposed.coords, fixInfo.State()) ==
              Observed(Rotate(lib, old(proposed.coords), previous, old(fixInfo.State()), direction),
                       old(proposed.coords), old(fixInfo.State()))
    {
      var stepSize := fixInfo.originalStepSize.value;
      ghost var s3 := DropAlignedPerp(lib, RecordDirection(fixInfo.State(), direction), direction);
      var exhausted := Reorient(lib, fixInfo, direction);
      if exhausted {
        return NoConstraintResolutionFound;
      }
      assert StateFits(fixInfo.State()) by {
        PerpLength(lib, s3.originalDirection.value);
      }
      var splitVector := SplitVector(direction, fixInfo.perpDir.value);
      var splitDir := lib.magnitudeAndVersor(splitVector).1;
      MoveAlong(proposed, previous, stepSize, splitDir);
      return Repaired(stepSize);
    }

    /** `fixConstraintViolations`: updates the caller's proposal and repair state in place. */
    method FixConstraintViolations(lib: MathLib, proposed: OptPoint, previous: Coords, fixInfo: FixInfo)
      returns (r: FixResult)
      requires ShapeLaws(lib) && StateFits(fixInfo.State())
      modifies proposed, fixInfo
      ensures (r, proposed.coords, fixInfo.State()) ==
              Observed(Repair(lib, old(proposed.coords), previous, old(fixInfo.State())),
                       old(proposed.coords), old(fixInfo.State()))
    {
      if !HasAll(proposed.coords, optVars) || !HasAll(previous, optVars) {
        return KeyError;
      }
      r := Resize(lib, proposed, previous, fixInfo);
    }

    /** Lines 145-196 of `GradientHistory.py`, once every variable is known to both points: cut the step
        or rotate it. */
    method Resize(lib: MathLib, proposed: OptPoint, previous: Coords, fixInfo: FixInfo)
      returns (r: FixResult)
      requires ShapeLaws(lib) && StateFits(fixInfo.State())
      requires HasAll(proposed.coords, optVars) && HasAll(previous, optVars)
      modifies proposed, fixInfo
      ensures (r, proposed.coords, fixInfo.State()) ==
              Observed(Repair(lib, old(proposed.coords), previous, old(fixInfo.State())),
                       old(proposed.coords), old(fixInfo.State()))
    {
      var mv := lib.magnitudeAndVersor(Difference(optVars, proposed.coords, previous));
      var distance, direction := mv.0, mv.1;
      if fixInfo.originalStepSize.None? {
        fixInfo.originalStepSize := Some(distance);
      }
      if distance > fixInfo.minStepSize {
        r := CutInPlace(proposed, previous, fixInfo, distance, direction);
      } else {
        r := RotateInPlace(lib, proposed, previous, fixInfo, direction);
      }
    }

    /** Lines 147-158 of `GradientHistory.py`: the cutting branch, in place. */
    method CutInPlace(proposed: OptPoint, previous: Coords, fixInfo: FixInfo, distance: real, direction: Vector)
      returns (r: FixResult)
      requires HasAll(previous, optVars) && |direction| == |optVars|
      modifies proposed
      ensures (r, proposed.coords, fixInfo.State()) ==
              Observed(Cut(old(proposed.coords), previous, fixInfo.State(), distance, direction),
                       old(proposed.coords), fixInfo.State())
    {
      var stepSize := 0.5 * distance;
      MoveAlong(proposed, previous, stepSize, direction);
      return Repaired(stepSize);
    }
  }

  /** The repair-progress dictionary `fixInfo`, owned by the caller and updated in place. */
  class FixInfo {
    var minStepSize: real
    var originalStepSize: Option<real>
    var originalDirection: Option<Vector>
    var perpDir: Option<Vector>
    var numRotations: Option<int>

    /** A fresh violation episode: only `minStepSize` is set. */
    constructor (minStepSize: real)
      ensures State() == RepairState(minStepSize, None, None, None, None)
    {
      this.minStepSize := minStepSize;
      originalStepSize := None;
      originalDirection := None;
      perpDir := None;
      numRotations := None;
    }

    function State(): RepairState
      reads this
    {
      RepairState(minStepSize, originalStepSize, originalDirection, perpDir, numRotations)
    }
  }

  /** A point dictionary that the repairer updates in place. */
  class OptPoint {
    var coords: Coords

    constructor (coords: Coords)
      ensures this.coords == coords
    {
      this.coords := coords;
    }
  }
}
