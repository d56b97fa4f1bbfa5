/** What the constraint repairer of the gradient-history manipulator promises over a violation
    episode: cutting halves the step towards the previous point, rotating restores the original
    length, the episode's originals are recorded once and kept, and the perpendicular budget is
    spent one draw at a time. */
module ConstraintRepair {
  import opened Wrappers
  import opened Vectors
  import opened StepManipulators

  /** The straight-line distance from `previous` to `proposed` over the registered variables. */
  ghost function Distance(lib: MathLib, g: GradientHistory, proposed: Coords, previous: Coords): real
    reads g
    requires HasAll(proposed, g.optVars) && HasAll(previous, g.optVars)
  {
    lib.magnitudeAndVersor(Difference(g.optVars, proposed, previous)).0
  }

  /** The step direction from `previous` to `proposed`. */
  ghost function Direction(lib: MathLib, g: GradientHistory, proposed: Coords, previous: Coords): Vector
    reads g
    requires HasAll(proposed, g.optVars) && HasAll(previous, g.optVars)
  {
    lib.magnitudeAndVersor(Difference(g.optVars, proposed, previous)).1
  }

  /** `t` continues the episode recorded in `s`: the floor is the same, the original step size
      is recorded, and recorded originals are never overwritten. */
  ghost predicate Continues(s: RepairState, t: RepairState) {
    && t.minStepSize == s.minStepSize
    && t.originalStepSize.Some?
    && (s.originalStepSize.Some? ==> t.originalStepSize == s.originalStepSize)
    && (s.originalDirection.Some? ==> t.originalDirection == s.originalDirection)
  }

  /** The repaired point keeps every key of the proposal, and every key that is not a registered
      variable keeps its value. */
  ghost predicate KeepsOtherKeys(names: seq<string>, proposed: Coords, point: Coords) {
    && (forall k :: k in point <==> k in proposed)
    && (forall k :: k in proposed && k !in names ==> point[k] == proposed[k])
  }

  // ---------------------------------------------------------------------------------------------
  // Cutting

  /** A step longer than `minStepSize` is cut in half: every variable moves to the midpoint of
      `previous` and `proposed`, the returned size is half the distance, and only
      `originalStepSize` may be added to the state. */
  lemma CutMovesToMidpoint(lib: MathLib, g: GradientHistory, proposed: Coords, previous: Coords,
                           s: RepairState)
    requires GeometryLaws(lib) && g.Valid() && g.StateFits(s) && s.minStepSize >= 0.0
    requires HasAll(proposed, g.optVars) && HasAll(previous, g.optVars)
    requires Distance(lib, g, proposed, previous) > s.minStepSize
    ensures var out := g.Repair(lib, proposed, previous, s);
            && out.Moved?
            && out.stepSize == 0.5 * Distance(lib, g, proposed, previous)
            && KeepsOtherKeys(g.optVars, proposed, out.point)
            && (forall i :: 0 <= i < |g.optVars| ==>
                  out.point[g.optVars[i]] == (proposed[g.optVars[i]] + previous[g.optVars[i]]) / 2.0)
            && out.state == s.(originalStepSize := Some(s.originalStepSize.GetOr(Distance(lib, g, proposed, previous))))
  {
    var diff := Difference(g.optVars, proposed, previous);
    assert IsMagnitudeAndVersor(diff, lib.magnitudeAndVersor(diff));
    CutOutcome(lib, g, proposed, previous, s);
    MoveHalfway(g.optVars, proposed, previous, lib.magnitudeAndVersor(diff));
  }

  /** Writing the halfway point into the proposal puts every variable on the midpoint and keeps the
      other keys. */
  lemma MoveHalfway(names: seq<string>, proposed: Coords, previous: Coords, mv: (real, Vector))
    requires Distinct(names) && HasAll(proposed, names) && HasAll(previous, names)
    requires IsMagnitudeAndVersor(Difference(names, proposed, previous), mv) && mv.0 > 0.0
    ensures var point := Overwrite(proposed, names, Along(names, previous, 0.5 * mv.0, mv.1));
            && KeepsOtherKeys(names, proposed, point)
            && forall i :: 0 <= i < |names| ==>
                 point[names[i]] == (proposed[names[i]] + previous[names[i]]) / 2.0
  {
    HalfwayAlong(names, proposed, previous, mv.0, mv.1);
    OverwriteAt(proposed, names, Along(names, previous, 0.5 * mv.0, mv.1));
  }

  /** The cutting branch, spelled out. */
  lemma CutOutcome(lib: MathLib, g: GradientHistory, proposed: Coords, previous: Coords, s: RepairState)
    requires ShapeLaws(lib) && g.StateFits(s)
    requires HasAll(proposed, g.optVars) && HasAll(previous, g.optVars)
    requires Distance(lib, g, proposed, previous) > s.minStepSize
    ensures var d, u := Distance(lib, g, proposed, previous), Direction(lib, g, proposed, previous);
            g.Repair(lib, proposed, previous, s) ==
            Moved(Overwrite(proposed, g.optVars, Along(g.optVars, previous, 0.5 * d, u)), 0.5 * d, RecordStepSize(s, d))
  {
  }

  /** Moving half the distance along the step direction lands on the midpoint. */
  lemma HalfwayAlong(names: seq<string>, proposed: Coords, previous: Coords, d: real, u: Vector)
    requires HasAll(proposed, names) && HasAll(previous, names) && |u| == |names|
    requires forall i :: 0 <= i < |names| ==> proposed[names[i]] - previous[names[i]] == d * u[i]
    ensures forall i :: 0 <= i < |names| ==>
              Along(names, previous, 0.5 * d, u)[i] == (proposed[names[i]] + previous[names[i]]) / 2.0
  {
  }

  /** A cut halves the distance between the proposal and the previous point. */
  lemma CutHalvesDistance(lib: MathLib, g: GradientHistory, proposed: Coords, previous: Coords,
                          s: RepairState)
    requires GeometryLaws(lib) && g.Valid() && g.StateFits(s) && s.minStepSize >= 0.0
    requires HasAll(proposed, g.optVars) && HasAll(previous, g.optVars)
    requires Distance(lib, g, proposed, previous) > s.minStepSize
    ensures var out := g.Repair(lib, proposed, previous, s);
            && out.Moved?
            && HasAll(out.point, g.optVars)
            && Distance(lib, g, out.point, previous) == 0.5 * Distance(lib, g, proposed, previous)
  {
    CutMovesToMidpoint(lib, g, proposed, previous, s);
    MidpointHalvesDistance(lib, g.optVars, proposed, previous, g.Repair(lib, proposed, previous, s).point);
  }

  /** The midpoint of two points is half as far from either. */
  lemma MidpointHalvesDistance(lib: MathLib, names: seq<string>, proposed: Coords, previous: Coords,
                               point: Coords)
    requires GeometryLaws(lib)
    requires HasAll(proposed, names) && HasAll(previous, names) && HasAll(point, names)
    requires forall i :: 0 <= i < |names| ==>
               point[names[i]] == (proposed[names[i]] + previous[names[i]]) / 2.0
    ensures lib.magnitudeAndVersor(Difference(names, point, previous)).0 ==
            0.5 * lib.magnitudeAndVersor(Difference(names, proposed, previous)).0
  {
    var diff := Difference(names, proposed, previous);
    var cut := Difference(names, point, previous);
    forall i | 0 <= i < |names| ensures cut[i] == Scaled(0.5, diff)[i] {
    }
    assert cut == Scaled(0.5, diff);
    assert IsMagnitudeAndVersor(diff, lib.magnitudeAndVersor(diff));
    assert IsMagnitudeAndVersor(cut, lib.magnitudeAndVersor(cut));
    HalfMagnitude(diff, lib.magnitudeAndVersor(diff), lib.magnitudeAndVersor(cut));
  }

  /** Half a vector has half its magnitude. */
  lemma HalfMagnitude(v: Vector, whole: (real, Vector), half: (real, Vector))
    requires IsMagnitudeAndVersor(v, whole) && IsMagnitudeAndVersor(Scaled(0.5, v), half)
    ensures half.0 == 0.5 * whole.0
  {
    var c, d := half.0, 0.5 * whole.0;
    SumSquaresScaled(0.5, v);
    assert c * c == 0.25 * SumSquares(v);
    assert d * d == 0.25 * (whole.0 * whole.0);
    NonNegativeRootUnique(c, d);
  }

  // ---------------------------------------------------------------------------------------------
  // Rotating

  /** Once the distance is at or below `minStepSize`, a returned step has the episode's original
      size (the current distance when none was recorded), the proposal keeps its other keys, a
      perpendicular is held, and the new point lies that original size away from `previous`
      whenever the split direction is well defined. */
  lemma RotationRestoresStepSize(lib: MathLib, g: GradientHistory, proposed: Coords, previous: Coords,
                                 s: RepairState)
    requires GeometryLaws(lib) && g.Valid() && g.StateFits(s)
    requires s.originalStepSize.Some? ==> s.originalStepSize.value >= 0.0
    requires HasAll(proposed, g.optVars) && HasAll(previous, g.optVars)
    requires Distance(lib, g, proposed, previous) <= s.minStepSize
    ensures var out := g.Repair(lib, proposed, previous, s);
            out.Moved? ==>
              && out.stepSize == s.originalStepSize.GetOr(Distance(lib, g, proposed, previous))
              && KeepsOtherKeys(g.optVars, proposed, out.point)
              && out.state.perpDir.Some?
              && |out.state.perpDir.value| == |g.optVars|
              && HasAll(out.point, g.optVars)
              && (lib.magnitudeAndVersor(Plus(Direction(lib, g, proposed, previous), out.state.perpDir.value)).0 > 0.0
                  ==> Distance(lib, g, out.point, previous) == out.stepSize)
  {
    var d, u := Distance(lib, g, proposed, previous), Direction(lib, g, proposed, previous);
    var s1 := RecordStepSize(s, d);
    RotateOutcome(lib, g, proposed, previous, s);
    var out := g.Rotate(lib, proposed, previous, s1, u);
    if out.Moved? {
      assert IsMagnitudeAndVersor(Difference(g.optVars, proposed, previous),
                                  lib.magnitudeAndVersor(Difference(g.optVars, proposed, previous)));
      RotatedPoint(lib, g, proposed, previous, s1, u);
      MoveAlongSplit(lib, g.optVars, proposed, previous, out.stepSize, u, out.state.perpDir.value);
    }
  }

  /** Once the distance is at or below `minStepSize`, a returned step turns half-way: the move from
      `previous` makes the same angle with the step direction as with the held perpendicular,
      whenever the two have equal norm and do not cancel out. */
  lemma {:induction false} RotationTurnsHalfway(lib: MathLib, g: GradientHistory, proposed: Coords, previous: Coords,
                             s: RepairState)
    requires GeometryLaws(lib) && g.Valid() && g.StateFits(s)
    requires HasAll(proposed, g.optVars) && HasAll(previous, g.optVars)
    requires Distance(lib, g, proposed, previous) <= s.minStepSize
    ensures var out := g.Repair(lib, proposed, previous, s);
            var u := Direction(lib, g, proposed, previous);
            out.Moved? ==>
              && out.state.perpDir.Some?
              && |out.state.perpDir.value| == |u| == |g.optVars|
              && HasAll(out.point, g.optVars)
              && (SumSquares(u) == SumSquares(out.state.perpDir.value) &&
                  lib.magnitudeAndVersor(Plus(u, out.state.perpDir.value)).0 > 0.0
                  ==> Dot(Difference(g.optVars, out.point, previous), u) ==
                      Dot(Difference(g.optVars, out.point, previous), out.state.perpDir.value))
  {
    var d, u := Distance(lib, g, proposed, previous), Direction(lib, g, proposed, previous);
    var s1 := RecordStepSize(s, d);
    RotateOutcome(lib, g, proposed, previous, s);
    var out := g.Rotate(lib, proposed, previous, s1, u);
    if out.Moved? {
      RotatedPoint(lib, g, proposed, previous, s1, u);
      var perp := out.state.perpDir.value;
      var split := lib.magnitudeAndVersor(Plus(u, perp)).1;
      OverwriteAt(proposed, g.optVars, Along(g.optVars, previous, out.stepSize, split));
      if SumSquares(u) == SumSquares(perp) && lib.magnitudeAndVersor(Plus(u, perp)).0 > 0.0 {
        var mv := lib.magnitudeAndVersor(Plus(u, perp));
        assert IsMagnitudeAndVersor(Plus(u, perp), mv);
        SplitStepBisects(g.optVars, proposed, previous, out.stepSize, u, perp, mv);
      }
    }
  }

  /** Moving from `previous` along the versor of `direction + perp`, for two vectors of equal norm
      that do not cancel out, makes the same angle with both. */
  lemma SplitStepBisects(names: seq<string>, proposed: Coords, previous: Coords, size: real,
                         direction: Vector, perp: Vector, mv: (real, Vector))
    requires Distinct(names) && HasAll(previous, names) && |direction| == |names| && |perp| == |names|
    requires SumSquares(direction) == SumSquares(perp)
    requires IsMagnitudeAndVersor(Plus(direction, perp), mv) && mv.0 > 0.0
    ensures var point := Overwrite(proposed, names, Along(names, previous, size, mv.1));
            && HasAll(point, names)
            && Dot(Difference(names, point, previous), direction) == Dot(Difference(names, point, previous), perp)
  {
    AlongStep(names, proposed, previous, size, mv.1);
    VersorRescaled(Plus(direction, perp), mv, size);
    Bisects(direction, perp, size / mv.0);
  }

  /** A multiple of the versor of a non-zero vector is a multiple of the vector. */
  lemma VersorRescaled(v: Vector, mv: (real, Vector), c: real)
    requires IsMagnitudeAndVersor(v, mv) && mv.0 > 0.0
    ensures Scaled(c, mv.1) == Scaled(c / mv.0, v)
  {
    forall i | 0 <= i < |v| ensures Scaled(c, mv.1)[i] == Scaled(c / mv.0, v)[i] {
      Rescale(c, mv.0, mv.1[i]);
    }
  }

  /** Moving `size` along `u` from `previous` makes the step from `previous` exactly `size * u`. */
  lemma AlongStep(names: seq<string>, proposed: Coords, previous: Coords, size: real, u: Vector)
    requires Distinct(names) && HasAll(previous, names) && |u| == |names|
    ensures var point := Overwrite(proposed, names, Along(names, previous, size, u));
            HasAll(point, names) && Difference(names, point, previous) == Scaled(size, u)
  {
    var vals := Along(names, previous, size, u);
    OverwriteAt(proposed, names, vals);
    var moved := Difference(names, Overwrite(proposed, names, vals), previous);
    forall i | 0 <= i < |names| ensures moved[i] == Scaled(size, u)[i] {
    }
  }

  /** Moving a non-negative `size` along the versor of `direction + perp` keeps the other keys, and
      lands `size` away from `previous` when that sum is not zero. */
  lemma MoveAlongSplit(lib: MathLib, names: seq<string>, proposed: Coords, previous: Coords, size: real,
                       direction: Vector, perp: Vector)
    requires GeometryLaws(lib) && Distinct(names)
    requires HasAll(proposed, names) && HasAll(previous, names)
    requires |direction| == |names| && |perp| == |names| && size >= 0.0
    ensures var splitVector := Plus(direction, perp);
            var point := Overwrite(proposed, names, Along(names, previous, size, lib.magnitudeAndVersor(splitVector).1));
            && KeepsOtherKeys(names, proposed, point)
            && HasAll(point, names)
            && (lib.magnitudeAndVersor(splitVector).0 > 0.0 ==>
                  lib.magnitudeAndVersor(Difference(names, point, previous)).0 == size)
  {
    var splitVector := Plus(direction, perp);
    assert IsMagnitudeAndVersor(splitVector, lib.magnitudeAndVersor(splitVector));
    var split := lib.magnitudeAndVersor(splitVector).1;
    OverwriteAt(proposed, names, Along(names, previous, size, split));
    if lib.magnitudeAndVersor(splitVector).0 > 0.0 {
      VersorIsUnit(lib, splitVector);
      AlongUnitDistance(lib, names, proposed, previous, size, split);
    }
  }

  /** The rotating branch, spelled out. */
  lemma RotateOutcome(lib: MathLib, g: GradientHistory, proposed: Coords, previous: Coords, s: RepairState)
    requires ShapeLaws(lib) && g.StateFits(s)
    requires HasAll(proposed, g.optVars) && HasAll(previous, g.optVars)
    requires Distance(lib, g, proposed, previous) <= s.minStepSize
    ensures g.Repair(lib, proposed, previous, s) ==
            g.Rotate(lib, proposed, previous, RecordStepSize(s, Distance(lib, g, proposed, previous)),
                     Direction(lib, g, proposed, previous))
  {
  }

  /** A rotated proposal moves the original step size along the versor of the split vector. */
  lemma RotatedPoint(lib: MathLib, g: GradientHistory, proposed: Coords, previous: Coords, s1: RepairState,
                     direction: Vector)
    requires ShapeLaws(lib) && g.StateFits(s1) && s1.originalStepSize.Some?
    requires HasAll(previous, g.optVars) && |direction| == |g.optVars|
    ensures var out := g.Rotate(lib, proposed, previous, s1, direction);
            out.Moved? ==>
              && out.stepSize == s1.originalStepSize.value
              && out.state.perpDir.Some?
              && |out.state.perpDir.value| == |g.optVars|
              && out.point == Overwrite(proposed, g.optVars, Along(g.optVars, previous, out.stepSize,
                                lib.magnitudeAndVersor(Plus(direction, out.state.perpDir.value)).1))
  {
  }

  /** Moving a non-negative `size` along a unit vector puts the point `size` away. */
  lemma AlongUnitDistance(lib: MathLib, names: seq<string>, proposed: Coords, previous: Coords, size: real,
                          u: Vector)
    requires GeometryLaws(lib) && Distinct(names)
    requires HasAll(previous, names) && |u| == |names| && size >= 0.0 && SumSquares(u) == 1.0
    ensures var point := Overwrite(proposed, names, Along(names, previous, size, u));
            HasAll(point, names) && lib.magnitudeAndVersor(Difference(names, point, previous)).0 == size
  {
    AlongStep(names, proposed, previous, size, u);
    ScaledUnitMagnitude(lib, size, u);
  }

  // ---------------------------------------------------------------------------------------------
  // The episode's record and the perpendicular budget

  /** Every call that does not fail on a missing coordinate continues the episode: the original
      step size is recorded once, a recorded original direction is never overwritten, rotating
      records one, and the stored vectors keep one entry per variable. */
  lemma OriginalsAreKept(lib: MathLib, g: GradientHistory, proposed: Coords, previous: Coords,
                         s: RepairState)
    requires ShapeLaws(lib) && g.StateFits(s)
    ensures match g.Repair(lib, proposed, previous, s)
            case Moved(_, _, t) => Continues(s, t) && g.StateFits(t)
            case Unresolved(t) => Continues(s, t) && g.StateFits(t) && t.originalDirection.Some?
            case MissingCoordinate => !HasAll(proposed, g.optVars) || !HasAll(previous, g.optVars)
    ensures !HasAll(proposed, g.optVars) || !HasAll(previous, g.optVars) ==>
              g.Repair(lib, proposed, previous, s) == MissingCoordinate
  {
    if HasAll(proposed, g.optVars) && HasAll(previous, g.optVars) {
      var d := Distance(lib, g, proposed, previous);
      if d > s.minStepSize {
        CutOutcome(lib, g, proposed, previous, s);
      } else {
        RotateOutcome(lib, g, proposed, previous, s);
        RotationContinues(lib, g, proposed, previous, RecordStepSize(s, d), Direction(lib, g, proposed, previous));
      }
    }
  }

  /** The rotating branch keeps the floor and the original step size, records the original
      direction once, and keeps the stored vectors one entry per variable. */
  lemma RotationContinues(lib: MathLib, g: GradientHistory, proposed: Coords, previous: Coords, s1: RepairState,
                          direction: Vector)
    requires ShapeLaws(lib) && g.StateFits(s1) && s1.originalStepSize.Some?
    requires HasAll(previous, g.optVars) && |direction| == |g.optVars|
    ensures match g.Rotate(lib, proposed, previous, s1, direction)
            case Moved(_, _, t) => Continues(s1, t) && g.StateFits(t) && t.originalDirection.Some?
            case Unresolved(t) => Continues(s1, t) && g.StateFits(t) && t.originalDirection.Some?
            case MissingCoordinate => false
  {
  }

  /** A repair call raises `NoConstraintResolutionFound` exactly when it rotates, holds no usable
      perpendicular (none, or one closer than `minRotationAngle` to the step direction), and the
      stored rotation count already exceeds `numRandomPerp`. */
  lemma ExhaustedExactly(lib: MathLib, g: GradientHistory, proposed: Coords, previous: Coords,
                         s: RepairState)
    requires ShapeLaws(lib) && g.StateFits(s)
    requires HasAll(proposed, g.optVars) && HasAll(previous, g.optVars)
    ensures g.Repair(lib, proposed, previous, s).Unresolved? <==>
              && Distance(lib, g, proposed, previous) <= s.minStepSize
              && (|| s.perpDir.None?
                  || lib.angleBetween(Direction(lib, g, proposed, previous), s.perpDir.value) < g.minRotationAngle)
              && s.numRotations.GetOr(0) > g.numRandomPerp
  {
  }

  /** Each call draws at most one new perpendicular, only while the stored count is at most
      `numRandomPerp`, and then raises the count by exactly one; otherwise the count and the held
      perpendicular are untouched. */
  lemma OneDrawPerCall(lib: MathLib, g: GradientHistory, proposed: Coords, previous: Coords,
                       s: RepairState)
    requires ShapeLaws(lib) && g.StateFits(s)
    ensures match g.Repair(lib, proposed, previous, s)
            case Moved(_, _, t) =>
              || (t.numRotations == s.numRotations && t.perpDir == s.perpDir)
              || (s.numRotations.GetOr(0) <= g.numRandomPerp && t.numRotations == Some(s.numRotations.GetOr(0) + 1))
            case Unresolved(t) =>
              s.numRotations.GetOr(0) > g.numRandomPerp && t.numRotations == s.numRotations && t.perpDir.None?
            case MissingCoordinate => true
  {
  }

  /** The rotation count of an episode that starts within `numRandomPerp + 1` stays there: at most
      `numRandomPerp + 1` perpendiculars are ever drawn. */
  lemma RotationCountBounded(lib: MathLib, g: GradientHistory, proposed: Coords,
                              previous: Coords, s: RepairState)
    requires ShapeLaws(lib) && g.StateFits(s)
    requires 0 <= s.numRotations.GetOr(0) <= g.numRandomPerp + 1
    ensures match g.Repair(lib, proposed, previous, s)
            case Moved(_, _, t) => 0 <= t.numRotations.GetOr(0) <= g.numRandomPerp + 1
            case Unresolved(t) => 0 <= t.numRotations.GetOr(0) <= g.numRandomPerp + 1
            case MissingCoordinate => true
  {
  }

  /** A held perpendicular at least `minRotationAngle` away from the step direction is kept; one
      that has come closer is replaced by a fresh draw, perpendicular to the original direction. */
  lemma AlignedPerpendicularIsReplaced(lib: MathLib, g: GradientHistory, proposed: Coords, previous: Coords,
                                       s: RepairState)
    requires ShapeLaws(lib) && g.StateFits(s)
    requires HasAll(proposed, g.optVars) && HasAll(previous, g.optVars)
    requires Distance(lib, g, proposed, previous) <= s.minStepSize
    requires s.perpDir.Some?
    ensures var out := g.Repair(lib, proposed, previous, s);
            var angle := lib.angleBetween(Direction(lib, g, proposed, previous), s.perpDir.value);
            && (angle >= g.minRotationAngle ==>
                  out.Moved? && out.state.perpDir == s.perpDir && out.state.numRotations == s.numRotations)
            && (angle < g.minRotationAngle && out.Moved? ==>
                  && out.state.originalDirection.Some?
                  && out.state.perpDir ==
                     Some(lib.magnitudeAndVersor(lib.randomPerpendicular(out.state.originalDirection.value)).1)
                  && out.state.numRotations == Some(s.numRotations.GetOr(0) + 1))
  {
  }

  /** Unlike a budget of "`numRandomPerp` attempts", the first perpendicular of an episode is
      always drawn when `numRandomPerp >= 0`, even when it is 0. */
  lemma FirstDrawNeverRaises(lib: MathLib, g: GradientHistory, proposed: Coords, previous: Coords,
                             s: RepairState)
    requires ShapeLaws(lib) && g.StateFits(s) && g.numRandomPerp >= 0
    requires HasAll(proposed, g.optVars) && HasAll(previous, g.optVars)
    requires s.numRotations.None?
    ensures !g.Repair(lib, proposed, previous, s).Unresolved?
  {
  }
}
