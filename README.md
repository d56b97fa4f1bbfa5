# Gradient-history step manipulation and the generic tree node

This project models two parts of the framework and proves properties of them.

- **The gradient-history step manipulator** (`GradientHistory`) has two parts.
  - The *step sizer* picks a gain factor for the step size. A `recommend` override decides it. Otherwise it comes from the dot product of the two latest step versors. The sizer multiplies the latest step magnitude by that gain and moves every optimisation variable against the newest gradient.
  - The *constraint repairer* runs once per rejected proposal within one violation episode.
    - While the step is longer than `minStepSize`, it halves the step.
    - Once the step is at or below `minStepSize`, it restores the episode's original step length. It then turns the step half-way towards a random perpendicular of the original direction.
    - It replaces a perpendicular that has come closer than `minRotationAngle` to the step direction.
    - It raises `NoConstraintResolutionFound` once the perpendicular budget is spent.
    - It updates the caller's `proposed` point and its `fixInfo` dictionary in place.
- **The tree node** (`Node`) keeps a name, a key-to-value dictionary and an ordered list of branch nodes.
  - It has list and dictionary operations that change the node in place.
  - `iter` is a pre-order traversal with a name filter.

The files:

- `wrappers.dfy`: `Option` and `Result`.
- `vectors.dfy`: vectors of reals (`SumSquares`, `Dot`, `Plus`, `Scaled`) and the arithmetic facts the proofs use.
- `gradient_history.dfy`: the model of `GradientHistory.py`.
  - The class `GradientHistory` holds the configuration fields, the pure step-sizer functions and the imperative `Step`.
  - `FixConstraintViolations` is a method over the caller's `OptPoint` and `FixInfo` objects. It is proved equal to the pure specification `Repair` on a `RepairState` value.
- `step_sizing.dfy`: what the step sizer promises.
- `constraint_repair.dfy`: what the repairer promises over an episode.
- `tree_structure.dfy`: the model of `TreeStructure.py`. `Node<V>` is a class with a ghost footprint `Repr` and a tree invariant `Valid`.

The vector-algebra helpers and real-exponent `**` are passed in as a `MathLib` value of function values:

- `calculateMagnitudeAndVersor`
- `angleBetweenVectors`
- `randomPerpendicularVector`
- `hyperdiagonal`

The proofs assume only the laws in `ShapeLaws`, `GeometryLaws` and `PowerLaws`:

- a versor has as many entries as its vector;
- the magnitude is the non-negative Euclidean norm, and a non-zero vector is its magnitude times its versor;
- a perpendicular has the vector's length and a zero dot product with it;
- `**` has the monotonicity facts the sizer relies on.

The random perpendicular is the function value `randomPerpendicular`. It stands for one draw of the random source.

The comment at the head of `fixConstraintViolations` (`GradientHistory.py`, lines 137-141) describes a budget of `numRandomPerp` attempts with new perpendiculars. The model follows the code instead.

- A perpendicular is drawn while the stored `numRotations` (default 0) is at most `numRandomPerp`. So an episode can draw `numRandomPerp + 1` perpendiculars.
- With `numRandomPerp = 0` the first draw does not raise, where a budget of zero attempts would raise at once. `ConstraintRepair.FirstDrawNeverRaises` states this.

## Model

| member | source | states |
|---|---|---|
| StepManipulators.GradientHistory.constructor | framework/Optimizers/stepManipulators/GradientHistory.py:57-72 | no variables yet; growth 1.25, shrink 1.15, minimum rotation angle 2.0, 10 random perpendiculars |
| StepManipulators.GradientHistory.Initialize | framework/Optimizers/stepManipulators/GradientHistory.py:90-93 | registers the variables and changes no factor |
| StepSizing.InitialStepSizeIsDiagonal | framework/Optimizers/stepManipulators/GradientHistory.py:99-105 | `InitialStepSize`: the initial step is the hyperdiagonal of the cube of side `scaling`: non-negative, its square is `numOptVars * scaling²`, positive for a non-zero cube |
| StepManipulators.GradientHistory.GainFactor | framework/Optimizers/stepManipulators/GradientHistory.py:222-251 | with two directions, no override and factors above one, a computed gain is positive |
| StepSizing.RecommendOverridesHistory | framework/Optimizers/stepManipulators/GradientHistory.py:233-238 | `'grow'` gives `growth`; `'shrink'` gives `1/shrink`, or a division error for a zero shrink; whatever the versors |
| StepSizing.GainFactorRefusals | framework/Optimizers/stepManipulators/GradientHistory.py:230-232 | a missing latest direction fails first; an unknown recommendation fails next |
| StepSizing.AlignmentGainBounds | framework/Optimizers/stepManipulators/GradientHistory.py:244-251 | `AlignmentGain`, with factors above one: a positive product grows the step; a product ≤ 0 gives a gain in (0, 1]; a negative one gives a gain below 1 |
| StepSizing.AlignmentGainMonotone | framework/Optimizers/stepManipulators/GradientHistory.py:244-251 | `AlignmentGain`: the gain strictly increases with the dot product of the two directions |
| StepSizing.IdenticalVersorsGrow | framework/Optimizers/stepManipulators/GradientHistory.py:244-247 | two equal unit versors give exactly `growth` |
| StepSizing.OppositeVersorsShrink | framework/Optimizers/stepManipulators/GradientHistory.py:248-250 | opposite unit versors give the reciprocal of `shrink` |
| StepManipulators.GradientHistory.NextStepSize | framework/Optimizers/stepManipulators/GradientHistory.py:201-220 | an empty step history is an index error |
| StepSizing.NextStepSizeRefusals | framework/Optimizers/stepManipulators/GradientHistory.py:213-217 | an empty history, or a missing versor with no gradient, is an index error; an unknown recommendation is refused |
| StepSizing.MissingVersorFallsBackToGradient | framework/Optimizers/stepManipulators/GradientHistory.py:213-215 | a latest step without versor is sized exactly as if its versor were the newest gradient |
| StepSizing.GrowScalesStepSize | framework/Optimizers/stepManipulators/GradientHistory.py:217-219 | `'grow'` makes the new step size `growth` times the latest magnitude |
| StepSizing.ShrinkScalesStepSize | framework/Optimizers/stepManipulators/GradientHistory.py:217-219 | `'shrink'` makes the new step size the latest magnitude divided by `shrink` |
| StepSizing.SingleStepKeepsSize | framework/Optimizers/stepManipulators/GradientHistory.py:216-241 | no override and a single step on record keep the step size unchanged |
| StepSizing.NextStepSizePositive | framework/Optimizers/stepManipulators/GradientHistory.py:217-219 | with factors above one and a positive latest magnitude, a new step size is positive |
| StepManipulators.GradientHistory.Step | framework/Optimizers/stepManipulators/GradientHistory.py:107-125 | propagates the sizer's error; otherwise succeeds exactly when the gradient history, the variables and the gradient entries are there; the new point has exactly the registered keys, each `prev - size * gradient`, and the sizer's step size; an empty gradient history after a successful sizing is an index error |
| StepManipulators.GradientHistory.Descend | framework/Optimizers/stepManipulators/GradientHistory.py:122-125 | the loop of `step`: fails on a missing variable or a gradient shorter than the variables, and only then; otherwise builds the point with exactly the registered keys, each moved against the gradient |
| StepManipulators.Difference | framework/Optimizers/stepManipulators/GradientHistory.py:145 | one entry per variable: `proposed[var] - previous[var]` |
| StepManipulators.Along | framework/Optimizers/stepManipulators/GradientHistory.py:155-156 | one entry per variable: `previous[var] + size * direction[v]` |
| StepManipulators.OverwriteAt | framework/Optimizers/stepManipulators/GradientHistory.py:155-156 | `Overwrite`, the dictionary after the write loops (also those of lines 193-194): writing distinct keys in order: each written key holds its value, every other key keeps its value, no key is lost |
| StepManipulators.SplitVector | framework/Optimizers/stepManipulators/GradientHistory.py:188-190 | the loop builds the sum of the step direction and the perpendicular |
| StepManipulators.GradientHistory.MoveAlong | framework/Optimizers/stepManipulators/GradientHistory.py:193-194 | the loop writes `previous[var] + size * direction[v]` into the caller's point and touches no other key |
| StepManipulators.GradientHistory.CutInPlace | framework/Optimizers/stepManipulators/GradientHistory.py:152-158 | the caller's point and result after a cut are those of the cutting branch of `Repair` |
| StepManipulators.GradientHistory.Reorient | framework/Optimizers/stepManipulators/GradientHistory.py:163-182 | the `fixInfo` updates of the rotating branch: original direction once, aligned perpendicular dropped, new one drawn and counted, or the budget reported spent |
| StepManipulators.GradientHistory.RotateInPlace | framework/Optimizers/stepManipulators/GradientHistory.py:160-196 | the caller's point, `fixInfo` and result after rotating are those of the rotating branch of `Repair` |
| StepManipulators.GradientHistory.Resize | framework/Optimizers/stepManipulators/GradientHistory.py:144-196 | with every variable present: the caller's point, `fixInfo` and result are those `Repair` gives |
| StepManipulators.GradientHistory.FixConstraintViolations | framework/Optimizers/stepManipulators/GradientHistory.py:127-196 | the caller's point, `fixInfo` and result are those `Repair` gives; a missing variable changes nothing |
| StepManipulators.FixInfo.constructor | framework/Optimizers/stepManipulators/GradientHistory.py:144 | a fresh episode holds only `minStepSize` |
| StepManipulators.RecordStepSize | framework/Optimizers/stepManipulators/GradientHistory.py:147-148 | the first distance of an episode is recorded and never overwritten later; nothing else in the state changes |
| StepManipulators.RecordDirection | framework/Optimizers/stepManipulators/GradientHistory.py:163-164 | the first direction that bottoms out is recorded and never overwritten later; nothing else in the state changes |
| StepManipulators.GradientHistory.DropAlignedPerp | framework/Optimizers/stepManipulators/GradientHistory.py:166-170 | a held perpendicular survives exactly when it is at least `minRotationAngle` from the step direction; nothing else in the state changes |
| StepManipulators.GradientHistory.ChoosePerp | framework/Optimizers/stepManipulators/GradientHistory.py:172-182 | raises exactly when no perpendicular is held and the stored count exceeds `numRandomPerp`; a held one is kept as is; a draw sets a perpendicular and adds exactly one to the count, and changes nothing else |
| StepManipulators.GradientHistory.Repair | framework/Optimizers/stepManipulators/GradientHistory.py:144-146 | the repair fails on a missing variable exactly when one of the two points lacks a registered variable |
| ConstraintRepair.CutMovesToMidpoint | framework/Optimizers/stepManipulators/GradientHistory.py:147-158 | the `Cut` branch of `Repair`: the cut returns half the distance, puts every variable at the midpoint of `previous` and `proposed`, keeps the other keys and adds only `originalStepSize` |
| ConstraintRepair.HalfwayAlong | framework/Optimizers/stepManipulators/GradientHistory.py:154-156 | half the distance along the versor lands on the midpoint |
| ConstraintRepair.MoveHalfway | framework/Optimizers/stepManipulators/GradientHistory.py:154-156 | writing the halfway point puts every variable on the midpoint and keeps other keys |
| ConstraintRepair.CutHalvesDistance | framework/Optimizers/stepManipulators/GradientHistory.py:152-156 | after a cut the proposal is half as far from `previous` |
| ConstraintRepair.MidpointHalvesDistance | framework/Optimizers/stepManipulators/GradientHistory.py:145-156 | the midpoint is half as far from `previous` as the proposal |
| ConstraintRepair.RotationRestoresStepSize | framework/Optimizers/stepManipulators/GradientHistory.py:160-196 | the `Rotate` branch of `Repair`: a rotated step has the episode's original size, keeps other keys, holds a perpendicular, and lies that size away from `previous` when the split direction is defined |
| ConstraintRepair.RotationTurnsHalfway | framework/Optimizers/stepManipulators/GradientHistory.py:184-194 | the `Rotate` branch turns half-way: the move from `previous` has the same dot product with the step direction as with the held perpendicular, when the two have equal norm and do not cancel out |
| ConstraintRepair.SplitStepBisects | framework/Optimizers/stepManipulators/GradientHistory.py:188-194 | moving along the versor of direction plus perpendicular makes equal dot products with both, for two vectors of equal norm that do not cancel out |
| ConstraintRepair.AlongStep | framework/Optimizers/stepManipulators/GradientHistory.py:193-194 | after the write loop the step from `previous` is exactly `size` times the direction |
| ConstraintRepair.MoveAlongSplit | framework/Optimizers/stepManipulators/GradientHistory.py:188-194 | moving along the split versor keeps the other keys and lands `size` away when the split vector is non-zero |
| ConstraintRepair.AlongUnitDistance | framework/Optimizers/stepManipulators/GradientHistory.py:193-194 | moving `size` along a unit vector lands `size` away from `previous` |
| ConstraintRepair.OriginalsAreKept | framework/Optimizers/stepManipulators/GradientHistory.py:144-182 | every call that finds all variables continues the episode: floor kept, original size recorded once, original direction never overwritten; a call fails on a missing variable exactly when a point lacks one |
| ConstraintRepair.RotationContinues | framework/Optimizers/stepManipulators/GradientHistory.py:160-182 | rotating keeps the floor and the original size, records the original direction, and keeps the stored vectors one entry per variable |
| ConstraintRepair.ExhaustedExactly | framework/Optimizers/stepManipulators/GradientHistory.py:152-179 | raises exactly when rotating with no usable perpendicular and a stored count above `numRandomPerp` |
| ConstraintRepair.OneDrawPerCall | framework/Optimizers/stepManipulators/GradientHistory.py:172-182 | a call either leaves the count and perpendicular alone or draws once and adds exactly one to the count; raising leaves the count alone |
| ConstraintRepair.RotationCountBounded | framework/Optimizers/stepManipulators/GradientHistory.py:177-182 | the stored count never leaves `0..numRandomPerp + 1` |
| ConstraintRepair.AlignedPerpendicularIsReplaced | framework/Optimizers/stepManipulators/GradientHistory.py:166-182 | a perpendicular at least `minRotationAngle` away is kept; a closer one is replaced by a fresh versor of a perpendicular and counted |
| ConstraintRepair.FirstDrawNeverRaises | framework/Optimizers/stepManipulators/GradientHistory.py:177-179 | with no stored count and a non-negative budget, the call never raises |
| TreeStructure.Node.constructor | framework/TreeStructure.py:14-23 | a new node has its name, its own copy of the values and no branches, and is a tree on its own |
| TreeStructure.Node.NumberBranches | framework/TreeStructure.py:41-47 | the number of branches |
| TreeStructure.Node.AppendBranch | framework/TreeStructure.py:49-54 | the node goes last, earlier branches and values unchanged; a disjoint tree keeps the tree shape |
| TreeStructure.Node.ExtendBranch | framework/TreeStructure.py:56-61 | the nodes follow the existing branches in order; a disjoint forest keeps the tree shape |
| TreeStructure.Node.ExtendKeepsTree | framework/TreeStructure.py:56-61 | the extended branch list fits the grown footprint with disjoint siblings |
| TreeStructure.InsertIndex | framework/TreeStructure.py:63-69 | `list.insert` positions lie in `0..n` |
| TreeStructure.InsertIndexMeaning | framework/TreeStructure.py:63-69 | positions in range are kept, negative ones count from the end, and out-of-range ones are clamped to the ends |
| TreeStructure.Node.InsertBranch | framework/TreeStructure.py:63-69 | the node lands at the clamped position and later branches shift right; a disjoint tree keeps the tree shape |
| TreeStructure.Node.InsertKeepsTree | framework/TreeStructure.py:63-69 | the branch list after insertion fits the grown footprint with disjoint siblings |
| TreeStructure.FirstIndex | framework/TreeStructure.py:71-76 | the position of the first occurrence |
| TreeStructure.RemoveFirst | framework/TreeStructure.py:71-76 | `list.remove` drops exactly one element |
| TreeStructure.RemoveFirstSplits | framework/TreeStructure.py:71-76 | `list.remove` cuts out the first occurrence and keeps the order of the rest |
| TreeStructure.RemoveFirstCounts | framework/TreeStructure.py:71-76 | removal shortens the list by one and removes exactly one copy of the node |
| TreeStructure.Node.RemoveBranch | framework/TreeStructure.py:71-76 | fails exactly when the node is absent and then changes nothing; otherwise removes the first occurrence only; keeps the tree shape |
| TreeStructure.Node.RemoveKeepsSiblingsApart | framework/TreeStructure.py:71-76 | the remaining branches stay inside the footprint with disjoint siblings |
| TreeStructure.Node.ClearBranch | framework/TreeStructure.py:102-109 | no values and no branches remain |
| TreeStructure.Node.Get | framework/TreeStructure.py:111-119 | the stored value, or `default` for a missing key |
| TreeStructure.Node.Add | framework/TreeStructure.py:121-128 | inserts or overwrites `key`; other keys and branches unchanged |
| TreeStructure.Node.Keys | framework/TreeStructure.py:130-135 | exactly the keys of the values |
| TreeStructure.Node.GetValues | framework/TreeStructure.py:137-142 | the values dictionary |
| TreeStructure.Node.Iter | framework/TreeStructure.py:144-156 | yields only nodes of the subtree; a selected node comes first; an unselected node is not yielded |
| TreeStructure.Node.IterBranches | framework/TreeStructure.py:154-156 | every yielded node lies in the footprint of one of the remaining branches |
| TreeStructure.Node.IterYieldsSubtree | framework/TreeStructure.py:144-156 | `iter()` yields exactly the nodes of the subtree |
| TreeStructure.Node.IterBranchesYieldSubtrees | framework/TreeStructure.py:154-156 | the branch traversals yield exactly the nodes below the remaining branches |
| TreeStructure.Node.IterNoDuplicates | framework/TreeStructure.py:144-156 | no node is yielded twice |
| TreeStructure.Node.IterBranchesNoDuplicates | framework/TreeStructure.py:154-156 | the branch traversals yield no node twice |
| TreeStructure.Node.IterFilters | framework/TreeStructure.py:150-156 | `"*"` is the unfiltered traversal; any other name is the full traversal filtered by name, in order |
| TreeStructure.Node.IterBranchesFilter | framework/TreeStructure.py:154-156 | the same filtering for the branch traversals |
| TreeStructure.Named | framework/TreeStructure.py:152-153 | the filter keeps only nodes of the sequence with that name |

## Left out

- `getInputSpecification` and `handleInput` are not modelled. They only read the input specification.
- The `print` calls of `fixConstraintViolations` are not modelled.
- `StepManipulator`, `mathUtils` and `randomUtils` are not part of this model. Their helpers and `**` are the parameter `lib`, constrained only by the laws above. Floating point is modelled as exact reals.
- Randomness is the function value `lib.randomPerpendicular`. The source draws a perpendicular before it checks the budget. Because the model is pure, it does not show the random state consumed by a draw whose result is discarded.
- Before `initialize`, `_optVars` is `None`. The model starts with the empty variable list, and `Initialize` requires distinct names.
- Points are maps, and vectors are sequences in variable order. The source indexes the gradient of `step` by variable name; the model indexes it by position.
- `FixInfo` always holds `minStepSize`. The `KeyError` of a `fixInfo` without it is not modelled.
- The source also returns `fixInfo` and `proposed`. These are the caller's own objects, so the model returns only the step size and updates the objects in place.
- `ConstraintRepair.CutMovesToMidpoint`: requires `minStepSize >= 0`. This makes the cut step's distance positive, so its versor is defined.
- `ConstraintRepair.CutHalvesDistance`: requires `minStepSize >= 0`, for the same reason.
- `ConstraintRepair.RotationTurnsHalfway`: claims the equal angles only when the step direction and the perpendicular have equal norm and their sum is non-zero. Both are versors whenever they are defined, but a zero vector's versor is not constrained, and opposite versors leave no direction to turn to.
- `ConstraintRepair.RotationRestoresStepSize`: claims the restored distance only when the sum of the step direction and the perpendicular is non-zero. The versor of a zero vector is not constrained. It also requires a recorded original size to be non-negative, as every recorded one is.
- `StepManipulators.GradientHistory.InitialStepSize`: takes `numOptVars` and `scaling` explicitly. The defaults `numOptVars=None` (on which numpy raises) and `scaling=0.05` are not modelled.
- `StepManipulators.GradientHistory.NextStepSize`: a gradient entry always holds a direction vector. A `None` direction in the gradient history, which reaches the `grad0 is not None` assertion when the latest step has no versor, is not expressible. So `MissingDirection` cannot come out of `NextStepSize`; only `GainFactor` produces it.
- `TreeStructure.Node.Get`: takes the default explicitly. The source's `default=None` is not modelled, because the value type has no `None`.
- `TreeStructure.Node.constructor`: takes `valuesin` explicitly. The source's default is the empty dictionary.
- `name` is a constant, because no modelled operation changes it.
- `TreeStructure.Node.Keys`: returns a set. The insertion order of the keys view is not modelled.
- Aliasing of the values dictionary is not modelled: a map is a value in the model.
  - `getValues` hands out the node's own dictionary.
  - `clearBranch` empties the dictionary in place, which any holder of it would see.
- `TreeStructure.Node.Iter`: requires the tree invariant `Valid`, and so does `IterBranches` and every traversal lemma. The source accepts any node in `appendBranch` and `insertBranch`. A node attached twice is then yielded twice by `iter`. A node that is its own ancestor makes `iter` recurse until Python's recursion limit. Neither case is modelled.
- `TreeStructure.Node.IterBranches`: requires `Valid` as well, for the same reason.
- The tree invariant `Valid` is kept by the mutators only for arguments that are trees disjoint from the node.
  - Changing a branch after attaching it is not tracked in the parent.
  - After `removeBranch` the footprint `Repr` still holds the removed subtree. It is an upper bound, not exact.
- Broken code that cannot run as written has no behaviour to state:
  - `copyNode` assigns to a slice of an object without `__setitem__`.
  - `findBranch`, `findallBranch` and `iterfind` call the `NodePath` methods on the class itself, with one argument too few, so they raise a `TypeError` (`TreeStructure.py`, lines 84, 92 and 100).
  - `isnode` refers to an undefined class.
- `framework/UI/DendrogramView.py` and `framework/Driver.py` are not part of this model. They are a Qt view and command-line plumbing.
