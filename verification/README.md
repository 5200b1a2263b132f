# A verified model of the GeoModelBuilder instruction compiler

The optimizer in `src/oo_approach/optimizer.py` turns a geometry problem into an optimisation
problem. The problem is a list of instructions:

- **Sample** places named points at random.
- **Compute** constructs a point from others: midpoint, reflection through a midpoint,
  circumcenter, orthocenter, centroid, or the intersection of two constructed lines.
- **Parameterize** gives a point free coordinates.
- **Assert** states a relation: perpendicular, parallel, congruent, or midpoint.

The compiler keeps two tables. `name2pt` maps point names to points. `losses` maps loss names
to a residual and a weight. Each assertion becomes residual terms that vanish exactly when the
relation holds.

This project models that compiler over exact real arithmetic and proves:

- what each instruction does to the two tables;
- that each geometric construction builds what it is named after;
- that each residual vanishes exactly on its intended configuration.

Modules, in dependency order:

| file | module | contents |
|---|---|---|
| results.dfy | Results | the error kinds, `Option` and `Result` |
| points.dfy | Points | points, midpoints, squared distance, inner product, rotations |
| residuals.dfy | Residuals | `perp_phi`, `para_phi`, `cong_diff`, `coll_phi` |
| lines.dfy | Lines | slope-intercept lines (`pp2sif`), `inter_ll` |
| triangles.dfy | Triangles | Conway values, trilinear and barycentric coordinates, the triangle centres |
| backends.dfy | Backends | the numeric backend (square root, trigonometry, trainable variables); `dist`, `angle`, rotation by an angle |
| keys.dfy | Keys | loss-term names |
| tables.dfy | Tables | the compiler state, `lookup_pts`, loss registration by `add` |
| sampling.dfy | Sampling | `sample`, `sample_uniform`, `sample_polygon`, `sample_triangle` |
| constructions.dfy | Constructions | `line2sif` with all seven line constructions |
| compiler.dfy | Compiler | instructions, `compute`, `parameterize`, `add`, `assertion_vals`, `process_instruction`, `preprocess` |

Conventions:

- **Backend.** The backend's operations are opaque functions inside a `Backend` value: `sqrtV`,
  `sinV`, `cosV`, `acosV`, `tanhV`, `sigmoidV`, `math.pi`, and the current value of the k-th
  variable made by `mkvar`. Variables are numbered in creation order (`State.nvars`). Properties
  that need a true square root or true trigonometry assume it only where it is used
  (`SqrtExactAt`, `TrigExactAt`). The source's `dist` takes `sqdist ** (1/2)` (lines 315-316)
  rather than calling `sqrtV`. The model uses the backend's one square root for both, so
  `SqrtExactAt` covers both.
- **Errors.** Every way an instruction fails in the source is an `Err` in the model: an exception,
  a failed unpacking, a division by zero, or an undefined name. An `Err` carries no tables, so a
  failing instruction changes neither table. A run stops at the first failing instruction
  (`Compiler.RunStopsAtFirstError`).
- **Registration.** `register_pt` and `register_loss` are abstract in the source (lines 55-61). They
  are modelled as insertion into the dictionaries created at lines 14-15; a later insertion
  overwrites an earlier one.
- **Uniform sampling.** `sample_uniform` unpacks exactly one name (`[p] = ps`), so a uniform sample
  over several names is an arity error. The model follows the code here.

## Model

| member | source | states |
|---|---|---|
| Points.Midp | src/oo_approach/optimizer.py:306-307 | the midpoint is equally far from both ends, and four times its squared distance to an end is the squared length of the segment |
| Points.MidpFrom | src/oo_approach/optimizer.py:309-310 | the reflected point P makes M the midpoint of A and P |
| Points.MidpRoundTrip | src/oo_approach/optimizer.py:306-310 | reflecting A through the midpoint of A and B gives B back |
| Points.RotateCounterclockwise90 | src/oo_approach/optimizer.py:341-345 | the quarter turn of v is orthogonal to v and has the same squared length |
| Points.RotationsInverse | src/oo_approach/optimizer.py:335-345 | the clockwise and counterclockwise quarter turns undo each other |
| Points.QuarterTurnIsRotation | src/oo_approach/optimizer.py:323-345 | the two quarter-turn matrices are the rotation matrix at cos 0, sin ±1 |
| Points.RotationIsometry | src/oo_approach/optimizer.py:323-333 | for cos²+sin² = 1, the rotation keeps lengths, and rotating back by -theta restores the point |
| Points.SqDistIsSquaredNorm | src/oo_approach/optimizer.py:312-321 | sqdist is the inner product of the difference with itself, and is symmetric |
| Points.Polarization | src/oo_approach/optimizer.py:312-321 | 2 (Q-P)·(R-P) = \|PQ\|² + \|PR\|² - \|QR\|² |
| Residuals.PerpPhiFromDistances | src/oo_approach/optimizer.py:385-386 | perp_phi depends only on the four points' distances: 2·perp_phi(A,B,C,D) = \|AD\|² + \|BC\|² - \|AC\|² - \|BD\|² |
| Residuals.CongDiff | src/oo_approach/optimizer.py:391-392 | cong_diff is zero exactly when \|AB\|² = \|CD\|² |
| Residuals.ParaPhiIsRotatedInner | src/oo_approach/optimizer.py:388-389 | para_phi is the inner product of the quarter-turned A-B with C-D |
| Residuals.ResidualsOnSameSegment | src/oo_approach/optimizer.py:385-389 | para_phi(A,B,A,B) = 0 and perp_phi(A,B,A,B) = sqdist(A,B) |
| Residuals.PerpAxisAligned | src/oo_approach/optimizer.py:385-386 | a horizontal AB and a vertical CD give a zero perp_phi |
| Residuals.ResidualSigns | src/oo_approach/optimizer.py:385-392 | swapping A and B negates perp_phi and para_phi; swapping the segments negates cong_diff |
| Residuals.ParaPhiZeroIffParallel | src/oo_approach/optimizer.py:388-389 | for A ≠ B, para_phi is zero exactly when C-D is a multiple of A-B |
| Residuals.PerpPhiZeroIffPerpendicular | src/oo_approach/optimizer.py:385-386 | for A ≠ B, perp_phi is zero exactly when C-D is a multiple of the quarter-turned A-B |
| Residuals.CollPhiIsParaPhi | src/oo_approach/optimizer.py:388-395 | coll_phi(A,B,C) = para_phi(A,B,A,C) |
| Residuals.CollPhiCoincident | src/oo_approach/optimizer.py:394-395 | coll_phi is zero when two of its points coincide |
| Residuals.CollPhiMidpoint | src/oo_approach/optimizer.py:394-395 | coll_phi(A, B, midp(A,B)) = 0 |
| Residuals.CollPhiSymmetry | src/oo_approach/optimizer.py:394-395 | coll_phi is invariant under cyclic permutation and changes sign under a swap |
| Lines.PointsToSlopeIntercept | src/oo_approach/optimizer.py:474-480 | for x1 ≠ x2, both defining points satisfy y = m x + b, and the line keeps them as p1, p2 |
| Lines.PointsToSlopeInterceptUnique | src/oo_approach/optimizer.py:474-480 | any line through both points has pp2sif's slope and intercept |
| Lines.InterLL | src/oo_approach/optimizer.py:408-414 | for m1 ≠ m2, the intersection lies on both lines |
| Lines.InterLLUnique | src/oo_approach/optimizer.py:408-414 | a point on both lines is the computed intersection |
| Lines.InterLLChecked | src/oo_approach/optimizer.py:408-414 | the intersection exists exactly when the slopes differ, and then lies on both lines |
| Lines.InterLLAsWritten | src/oo_approach/optimizer.py:408-409 | as written, unpacking a four-field slope-intercept record into two names always fails |
| Lines.InterLLUnpackingFinding | src/oo_approach/optimizer.py:408-409 | on the lines y = x and y = 1 - x, the code as written fails while the corrected intersection is (1/2, 1/2) |
| Lines.OnLineCollinear | src/oo_approach/optimizer.py:474-480 | three points of one slope-intercept line are collinear |
| Lines.EquidistantAlongLine | src/oo_approach/optimizer.py:474-480 | if two points of a line are each equally far from U and V, every point of the line is |
| Triangles.ConwayVals | src/oo_approach/optimizer.py:354-356 | Sa + Sb = c², Sb + Sc = a², Sc + Sa = b² |
| Triangles.ConwayAsInnerProducts | src/oo_approach/optimizer.py:354-356 | with true side lengths, Sa, Sb, Sc are the inner products of the sides at A, B, C |
| Triangles.Trilinear | src/oo_approach/optimizer.py:358-362 | trilinear coordinates x : y : z give the vertex average weighted by ax, by, cz |
| Triangles.TrilinearHomogeneous | src/oo_approach/optimizer.py:358-362 | scaling x, y, z by the same nonzero factor gives the same point |
| Triangles.Barycentric | src/oo_approach/optimizer.py:358-366 | the point is the weighted average (xA + yB + zC)/(x+y+z) |
| Triangles.Incenter | src/oo_approach/optimizer.py:382-383 | the incenter is the vertex average weighted by the opposite side lengths |
| Triangles.CentroidIsVertexAverage | src/oo_approach/optimizer.py:379-380 | the centroid is the average of the three vertices |
| Triangles.CircumcenterEquidistant | src/oo_approach/optimizer.py:368-372 | with true side lengths, the circumcenter is equally far from the three vertices |
| Triangles.OrthocenterOnAltitudes | src/oo_approach/optimizer.py:374-377 | with true side lengths, the orthocenter lies on the three altitudes |
| Triangles.RelabelKeepsCentres | src/oo_approach/optimizer.py:374-377 | relabelling the vertices cyclically keeps true side lengths and the orthocenter |
| Triangles.EquilateralCentresCoincide | src/oo_approach/optimizer.py:368-380 | when a = b = c > 0, circumcenter, orthocenter and centroid coincide |
| Backends.DistExact | src/oo_approach/optimizer.py:315-316 | with an exact square root, dist is non-negative, squares to sqdist, and is zero exactly for equal points |
| Backends.MeasuredWhenExact | src/oo_approach/optimizer.py:347-348 | with exact square roots, three distinct points give positive side lengths whose squares are the squared distances |
| Backends.AngleFailsIffCoincident | src/oo_approach/optimizer.py:350-352 | with exact square roots, angle ABC fails exactly when B coincides with A or with C |
| Backends.AngleCosine | src/oo_approach/optimizer.py:350-352 | with exact square roots, the acos argument is BA·BC / (\|BC\|\|BA\|) |
| Backends.LawOfCosines | src/oo_approach/optimizer.py:350-352 | \|BC\|² + \|AB\|² - \|CA\|² = 2 BA·BC |
| Backends.RotateBy | src/oo_approach/optimizer.py:327-333 | with cos² + sin² = 1 at theta, rotating by theta keeps lengths |
| Keys.SplitJoin | src/oo_approach/optimizer.py:286 | splitting `sep.join(ps)` at a one-character separator that no name contains gives back ps, in order |
| Keys.AssertionKeyParts | src/oo_approach/optimizer.py:286 | when no part contains "_", splitting the key at "_" gives the predicate followed by the names, in order |
| Keys.AssertionKeyInjective | src/oo_approach/optimizer.py:286 | when no part contains "_", two assertions share a key exactly when they have the same predicate and names |
| Keys.NatToString | src/oo_approach/optimizer.py:289 | the numeral is non-empty, all digits, and has no leading zero |
| Keys.ParseNatToString | src/oo_approach/optimizer.py:289 | reading back the numeral of n gives n |
| Keys.NatToStringInjective | src/oo_approach/optimizer.py:289 | distinct numbers have distinct numerals |
| Keys.LossKeysDistinct | src/oo_approach/optimizer.py:288-290 | the residuals of one assertion get pairwise distinct loss keys |
| Keys.LossKeyIgnoresAssertion | src/oo_approach/optimizer.py:289 | with more than one residual, the key does not depend on the assertion |
| Tables.LookupPts | src/oo_approach/optimizer.py:48-49 | the lookup succeeds exactly when every name is defined, returns the table's points in order, and otherwise reports the first undefined name |
| Tables.LookupExactly | src/oo_approach/optimizer.py:48-49 | unpacking a lookup into n names succeeds exactly when all names are defined and there are n of them; an undefined name is reported before a wrong count |
| Tables.RegisterFrom | src/oo_approach/optimizer.py:288-290 | each residual is stored under its key with the common weight, the key set grows by exactly those keys, and other entries are kept |
| Tables.AddLosses | src/oo_approach/optimizer.py:286-290 | k > 0 residuals are stored with weight 1/k each, the key set grows by exactly their keys, other entries are kept, and k = 0 is a division by zero |
| Tables.AddLossesWeightsSumToOne | src/oo_approach/optimizer.py:287-290 | the weights of one assertion's loss terms sum to 1 |
| Tables.AddLossesKeepsKeys | src/oo_approach/optimizer.py:288-290 | registering losses never removes a key |
| Sampling.RegisterPoints | src/oo_approach/optimizer.py:172-173 | the names get the points in order, the last occurrence of a repeated name wins, and other names are kept |
| Sampling.SampleUniform | src/oo_approach/optimizer.py:130-133 | exactly one name is required; it gets the next two variables as coordinates, nothing else changes, and two variables are used |
| Sampling.PolygonAnglesBounded | src/oo_approach/optimizer.py:140-142 | where tanh stays inside (-1, 1), every sampled angle is at most ((n-2)/n·π + π/3) in absolute value |
| Sampling.PolygonScalesBounded | src/oo_approach/optimizer.py:144-155 | where tanh stays inside (-1, 1), every scale lies in (-1/2, 1/2), so every side s·(1 + scale) lies strictly between s/2 and 3s/2 and is positive when s is |
| Sampling.PolygonStepFailsIffRepeated | src/oo_approach/optimizer.py:153-155 | with exact trigonometry and an exact square root, a step fails exactly when its last two vertices coincide |
| Sampling.PolygonStepLength | src/oo_approach/optimizer.py:153-155 | with an exact square root, the new vertex P lies on the line through B and the turned point X, its squared distance from B is len², and (P − B)·(X − B) = len·dist(X, B), so for a positive len it lies on the ray from B through X |
| Sampling.Walk | src/oo_approach/optimizer.py:151-157 | the walk keeps the vertices it started from, reaches n+1 vertices, and each new vertex is the step from the two before it with its angle and scaled length |
| Sampling.SamplePolygon | src/oo_approach/optimizer.py:136-173 | names get points, three polygon losses are added, other entries are kept, and 2n variables are used; an empty polygon fails |
| Sampling.PolygonFirstSide | src/oo_approach/optimizer.py:147-148 | the first two names get the fixed side (-2,0), (2,0) |
| Sampling.ArrangeApex | src/oo_approach/optimizer.py:200-206 | the named vertex gets the apex and the other two names get the two ends of the fixed side |
| Sampling.SampleTriangle | src/oo_approach/optimizer.py:176-206 | with no option it is the polygon sampler; otherwise it needs three names, adds no loss, uses the apex's variables, and places the points as arranged |
| Sampling.EquilateralSample | src/oo_approach/optimizer.py:184-192 | with an exact square root of 3, the equilateral sample's three points are pairwise at distance 4 |
| Sampling.EquilateralApex | src/oo_approach/optimizer.py:191-192 | the apex (0, 2√3) is at distance 4 from both ends of the fixed side |
| Sampling.IsoscelesSample | src/oo_approach/optimizer.py:184-206 | an isosceles sample with its apex named succeeds, and the apex is equally far from the other two points |
| Sampling.RightAngleSample | src/oo_approach/optimizer.py:189-206 | a right-triangle sample with an exact square root has perpendicular sides at the named vertex |
| Sampling.RightApex | src/oo_approach/optimizer.py:189-190 | a point (x, y) with y² = 4 - x² sees the fixed side at a right angle |
| Sampling.Sample | src/oo_approach/optimizer.py:117-128 | an unknown sampler is exactly the UnknownSampler error; a sampler that needs an argument and gets none fails; a successful sample only adds names |
| Sampling.SampleAsWritten | src/oo_approach/optimizer.py:123-126 | as written, the three samplers that need the special vertex fail on an undefined name; the others behave as intended |
| Sampling.SampleArgsFinding | src/oo_approach/optimizer.py:123 | an isoTri sample of A, B, C with apex A fails as written and succeeds as intended |
| Sampling.PlainTriangleIsPolygon | src/oo_approach/optimizer.py:122 | the plain triangle sampler is the polygon sampler |
| Constructions.BisectorFootOnRay | src/oo_approach/optimizer.py:453 | with exact square roots and A ≠ B, the foot lies on the ray from B through A, as far from B as C |
| Constructions.Line2TwoPts | src/oo_approach/optimizer.py:437-468 | an unknown predicate raises an undefined name; undefined points and wrong counts are reported as lookup and unpacking errors; with the right points only a division by zero can fail |
| Constructions.Line2Sif | src/oo_approach/optimizer.py:470-480 | the line exists exactly when the construction succeeds with distinct abscissae; it passes through both constructed points |
| Constructions.ConnectingLine | src/oo_approach/optimizer.py:438-439 | the connecting line exists unless the points are vertically aligned, and passes through both |
| Constructions.ParaAtLine | src/oo_approach/optimizer.py:440-442 | the line through X parallel to AB exists unless AB is vertical, and every point P of it has P-X parallel to B-A |
| Constructions.PerpAtLine | src/oo_approach/optimizer.py:443-445 | the line through X perpendicular to AB exists unless AB is horizontal, and every point P of it has P-X orthogonal to A-B |
| Constructions.MediatorLine | src/oo_approach/optimizer.py:446-449 | the mediator of AB exists unless AB is horizontal, passes through the midpoint, and every point of it is equally far from A and B |
| Constructions.IbisectorLine | src/oo_approach/optimizer.py:450-455 | with exact square roots, the internal bisector passes through B, and every point of it is equally far from the foot on BA and from C |
| Constructions.EbisectorLine | src/oo_approach/optimizer.py:456-462 | the external bisector passes through B and is perpendicular to the internal bisector |
| Constructions.EqoangleLine | src/oo_approach/optimizer.py:463-467 | the line leaves B in a direction whose inner product with BC is cos(angle DEF)·\|BC\|², and with exact trigonometry that direction is as long as BC |
| Constructions.QuarterTurnLine | src/oo_approach/optimizer.py:443-445 | every point of a line through X and X + rot90(u) differs from X by a vector orthogonal to u |
| Constructions.QuarterTurnEquidistant | src/oo_approach/optimizer.py:446-449 | moving from a point equally far from A and B along the quarter-turned A-B keeps it equally far |
| Constructions.RotationInner | src/oo_approach/optimizer.py:463-467 | rotating v by (cos, sin) gives a vector whose inner product with v is cos·\|v\|² |
| Compiler.ComputePoint | src/oo_approach/optimizer.py:214-257 | a tag outside the six computations gives the UnknownComputation error, and a known tag never does; a success has the right operands, all defined, or two lines that both exist |
| Compiler.ProcessCompute | src/oo_approach/optimizer.py:214-257 | compute succeeds exactly when its computation does; it adds exactly the target name, keeps every other point, and leaves losses and variables unchanged |
| Compiler.ComputeMidp | src/oo_approach/optimizer.py:223-226 | the computed midpoint is equally far from both points, four times its squared distance to either is the squared length of the segment, and it is collinear with them |
| Compiler.ComputeMidpFrom | src/oo_approach/optimizer.py:228-231 | the computed point makes M the midpoint of A and it |
| Compiler.ComputeCircumcenter | src/oo_approach/optimizer.py:233-236 | with exact square roots and distinct vertices, the computed circumcenter is equally far from all three |
| Compiler.ComputeOrthocenter | src/oo_approach/optimizer.py:238-241 | with exact square roots and distinct vertices, the computed orthocenter lies on all three altitudes |
| Compiler.ComputeCentroid | src/oo_approach/optimizer.py:243-246 | the computed centroid is the vertex average |
| Compiler.ComputeInterLL | src/oo_approach/optimizer.py:253-257 | the computed intersection lies on both lines and is the only point that does |
| Compiler.ProcessParameterize | src/oo_approach/optimizer.py:263-271 | "coords" samples the point uniformly (new coordinates from the next two variables, nothing else changed); any other parameterization is an error |
| Compiler.AssertionVals | src/oo_approach/optimizer.py:292-299 | an unknown predicate is exactly the UnknownPredicate error, checked before lookup; otherwise it succeeds exactly with the predicate's number of defined points, giving one residual |
| Compiler.AssertPerpZero | src/oo_approach/optimizer.py:293 | for A ≠ B, perp gives a zero residual exactly when CD is along the quarter-turned AB |
| Compiler.AssertParaZero | src/oo_approach/optimizer.py:294 | for A ≠ B, para gives a zero residual exactly when CD is a multiple of AB |
| Compiler.AssertCongZero | src/oo_approach/optimizer.py:295 | cong gives a zero residual exactly when \|AB\| = \|CD\| |
| Compiler.AssertMidpZero | src/oo_approach/optimizer.py:296-298 | with an exact square root, midp M A B gives a zero residual exactly when M is the midpoint of A and B |
| Compiler.ProcessAssert | src/oo_approach/optimizer.py:277-290 | a negated assertion is refused; otherwise it succeeds exactly when its residuals do, keeps points and variables, and stores the single residual with weight 1 under the assertion's key |
| Compiler.ProcessInstruction | src/oo_approach/optimizer.py:28-38 | a non-instruction, an unknown sampler, computation, parameterization or predicate, and a negated assertion each give their own error; a success only adds names |
| Compiler.RunGrows | src/oo_approach/optimizer.py:24-26 | a successful run never removes a point, a loss or a variable |
| Compiler.RunAppend | src/oo_approach/optimizer.py:24-26 | running xs + ys is running xs, then ys from where xs ended, unless xs failed |
| Compiler.RunStopsAtFirstError | src/oo_approach/optimizer.py:24-26 | the first failing instruction's error is the run's result, whatever follows it |
| Compiler.MidpointProgram | src/oo_approach/optimizer.py:223-298 | computing M as the midpoint of A and B and then asserting midp M A B stores M and one loss "midp_M_A_B" of weight 1, whose residual is zero when the square root of zero is exact |

## Left out

- Floating point: the model computes over exact reals. Rounding, NaN and infinity are not modelled. A division by zero is an error (`Degenerate`) wherever the source divides.
- The backend's numerics: square root, sine, cosine, arccosine, tanh, sigmoid, pi and the values of trainable variables are uninterpreted. Properties that need them to be exact say so in their preconditions. The bounds `lo`/`hi` passed to `mkvar` are not modelled.
- `simplify` (line 157) is taken as the identity on points.
- `get_point`, `constV`, `sumVs` and `maxV` are modelled as plain point construction, real constants and summation.
- `regularize_points`, `make_points_distinct` and the other abstract backend methods are left out. They belong to the numeric layer.
- `circ2nf` and `inter_pp_c` are left out: the first reads an undefined `dist`, and the second is unfinished and always raises. `shift` and `unshift` are left out for the same reason; `unshift` lacks `self`. No instruction reaches any of them.
- `between_gap` is left out, because it needs the backend's `maxV` and no instruction reaches it.
- `compute_incenter` is left out, because `compute` never dispatches to it. The incenter formula itself is `Triangles.Incenter`.
- `src/diagram_builder.py` (argument parsing and printing) is not part of this model.
- The warning printed by `sample_polygon` for fewer than four points is not modelled.
- Sampling.SamplePolygon: the contract states the key sets, the unchanged entries and the variable count. It does not state the three loss values; the vertex positions are stated through `Sampling.Walk` and `Sampling.PolygonFirstSide`.
- Sampling.SamplePolygon: when the final angle cannot be computed, the model registers nothing. The source has already registered the first two polygon losses at that point, if its backend raises rather than producing NaN.
- Compiler.ComputePoint: the interpreter uses the corrected `inter_ll` and the corrected `sample` (see "## Findings"). So `interLL` computations and `isoTri`, `acuteIsoTri` and `rightTri` samples succeed in the model where the program as written raises. This also holds for `Compiler.ProcessCompute`, `Compiler.ComputeInterLL`, `Compiler.ProcessInstruction` and the `Run` lemmas.
- Compiler.ComputePoint: operands of the wrong shape for a tag are modelled as a `MalformedOperands` error. This covers a point list given where two lines are expected, and the reverse. In the source such a computation fails somewhere inside the called method.
- Keys.AssertionKeyParts: the key is split back into its parts only when no part contains "_". With an "_" inside a name, two different assertions can share a key, as they do in the source.
- Sampling.PolygonAnglesBounded: tanh is uninterpreted, so the bounds on the sampled angles and scales hold only where the backend keeps tanh inside (-1, 1), which `TanhBoundedAt` states.
- Keys.NatToString: the numeral models Python's `str(i)` only for the non-negative indices that `enumerate` produces.
- The `a_str_{i}` key is modelled as written, and `Keys.LossKeyIgnoresAssertion` shows it ignores the assertion. No predicate in `assertion_vals` returns more than one residual, so this case never arises.

## Findings

| source | as written | input that shows it | evidently intended | confidence | as-written member | corrected member |
|---|---|---|---|---|---|---|
| src/oo_approach/optimizer.py:123,125,126 | the `isoTri`, `acuteIsoTri` and `rightTri` branches read `args`, a name the method never defines (it binds `s_args`), so they raise before sampling | `Sample(["A","B","C"], "isoTri", ["A"])` | use the instruction's first argument (`s_args[0]`) as the special vertex | high; not executed | Sampling.SampleAsWritten, Sampling.SampleArgsFinding | Sampling.Sample, Sampling.IsoscelesSample, Sampling.RightAngleSample, Compiler.ProcessInstruction |
| src/oo_approach/optimizer.py:408-409 | `(m1, b1) = sif1` unpacks the four-field `SlopeInterceptForm(m, b, p1, p2)` into two names, which always fails, so every `interLL` computation fails | the lines y = x and y = 1 - x | take the slope and intercept fields (`sif1.m`, `sif1.b`) | high; not executed | Lines.InterLLAsWritten, Lines.InterLLUnpackingFinding | Lines.InterLLChecked, Lines.InterLL, Lines.InterLLUnique, Compiler.ComputePoint, Compiler.ComputeInterLL, Compiler.ProcessInstruction |
