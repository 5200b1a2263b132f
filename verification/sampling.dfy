/** The sampling instructions: sample_uniform, sample_polygon, sample_triangle and the
    `sample` dispatcher, over the uninterpreted backend. */
module Sampling {
  import opened Points
  import opened Results
  import opened Tables
  import opened Backends
  import opened Residuals
  import Triangles

  /** Every name occurs once. */
  predicate Distinct(ps: seq<string>) {
    forall i, j :: 0 <= i < j < |ps| ==> ps[i] != ps[j]
  }

  /** Registers names[i] at Ps[i], in order, so that a repeated name keeps its last point. */
  function RegisterPoints(pts: map<string, Point>, names: seq<string>, Ps: seq<Point>): (r: map<string, Point>)
    requires |names| <= |Ps|
    ensures r.Keys == pts.Keys + set n | n in names
    ensures forall i :: 0 <= i < |names| && (forall j :: i < j < |names| ==> names[j] != names[i])
                        ==> r[names[i]] == Ps[i]
    ensures forall n :: n in pts && n !in names ==> r[n] == pts[n]
    decreases |names|
  {
    if |names| == 0 then pts
    else
      var r := RegisterPoints(pts[names[0] := Ps[0]], names[1..], Ps[1..]);
      RegisterFirst(pts, names, Ps, r);
      r
  }

  /** Registering names[1..] after names[0] registers all of names. */
  lemma RegisterFirst(pts: map<string, Point>, names: seq<string>, Ps: seq<Point>, r: map<string, Point>)
    requires 1 <= |names| <= |Ps|
    requires r.Keys == pts[names[0] := Ps[0]].Keys + set n | n in names[1..]
    requires forall i :: 0 <= i < |names| - 1 && (forall j :: i < j < |names| - 1 ==> names[1..][j] != names[1..][i])
                         ==> r[names[1..][i]] == Ps[1..][i]
    requires forall n :: n in pts[names[0] := Ps[0]] && n !in names[1..] ==> r[n] == pts[names[0] := Ps[0]][n]
    ensures r.Keys == pts.Keys + set n | n in names
    ensures forall i :: 0 <= i < |names| && (forall j :: i < j < |names| ==> names[j] != names[i])
                        ==> r[names[i]] == Ps[i]
    ensures forall n :: n in pts && n !in names ==> r[n] == pts[n]
  {
    assert forall i :: 1 <= i < |names| ==> names[1..][i - 1] == names[i];
  }

  // ---------------------------------------------------------------------------
  // sample_uniform
  // ---------------------------------------------------------------------------

  /** A single named point whose coordinates are the next two trainable variables. */
  function SampleUniform(b: Backend, st: State, ps: seq<string>): (r: Result<State>)
    ensures r.Ok? <==> |ps| == 1
    ensures r.Err? ==> r.error == ArityMismatch
    ensures r.Ok? ==> r.value.points.Keys == st.points.Keys + {ps[0]}
    ensures r.Ok? ==> r.value.points[ps[0]] == Point(b.param(st.nvars), b.param(st.nvars + 1))
    ensures r.Ok? ==> forall n :: n in st.points && n != ps[0] ==> r.value.points[n] == st.points[n]
    ensures r.Ok? ==> r.value.losses == st.losses && r.value.nvars == st.nvars + 2
  {
    if |ps| != 1 then Err(ArityMismatch)
    else
      var P := Point(b.param(st.nvars), b.param(st.nvars + 1));
      Ok(State(st.points[ps[0] := P], st.losses, st.nvars + 2))
  }

  // ---------------------------------------------------------------------------
  // sample_polygon
  // ---------------------------------------------------------------------------

  const AngleSumLoss := "polygon-angle-sum"
  const ClosingLoss := "polygon-first-eq-last"
  const FirstAngleLoss := "polygon-first-angle-eq-sampled"

  /** The scale of the sampled turning angles of an n-gon: (n - 2)/n * pi + pi/3. */
  function Multiplicand(b: Backend, n: nat): real
    requires n > 0
  {
    ((n as real - 2.0) / (n as real)) * b.pi + b.pi / 3.0
  }

  /** The n sampled angles, from the variables base .. base + n - 1: the i-th angle is the
      multiplicand scaled by tanh(0.2 z), z the i-th angle variable. */
  function PolygonAngles(b: Backend, base: nat, n: nat): (angles: seq<real>)
    requires n > 0
    ensures |angles| == n
    ensures forall i :: 0 <= i < n ==> angles[i] == Multiplicand(b, n) * b.tanh(0.2 * b.param(base + i))
  {
    seq(n, i requires 0 <= i < n => Multiplicand(b, n) * b.tanh(0.2 * b.param(base + i)))
  }

  /** The n sampled side scales, from the variables base + n .. base + 2n - 1, which follow
      the n angle variables: the i-th scale is 0.5 tanh(0.2 z), z the i-th scale variable. */
  function PolygonScales(b: Backend, base: nat, n: nat): (scales: seq<real>)
    ensures |scales| == n
    ensures forall i :: 0 <= i < n ==> scales[i] == 0.5 * b.tanh(0.2 * b.param(base + n + i))
  {
    seq(n, i requires 0 <= i < n => 0.5 * b.tanh(0.2 * b.param(base + n + i)))
  }

  function Sum(xs: seq<real>): real {
    if |xs| == 0 then 0.0 else Sum(xs[..|xs| - 1]) + xs[|xs| - 1]
  }

  /** The fixed first side of every sampled polygon and triangle. */
  const Left := Point(-2.0, 0.0)
  const Right := Point(2.0, 0.0)

  /** The next vertex after A, B: turn BA by -theta about B and walk len from B in that
      direction. Walking needs the turned direction to have a nonzero length. */
  function PolygonStep(b: Backend, A: Point, B: Point, theta: real, len: real): (r: Result<Point>)
    ensures r.Err? <==> Dist(b, B.Plus(RotateBy(b, -theta, A.Minus(B))), B) == 0.0
    ensures r.Err? ==> r.error == Degenerate
  {
    var X := B.Plus(RotateBy(b, -theta, A.Minus(B)));
    var d := Dist(b, X, B);
    if d == 0.0 then Err(Degenerate) else Ok(B.Plus(X.Minus(B).Smul(len / d)))
  }

  /** The length of a side: the base length s stretched by a sampled scale. */
  function SideLength(s: real, scale: real): real {
    s * (1.0 + scale)
  }

  /** Extends the vertex list Ps one PolygonStep at a time until it has n + 1 vertices; the
      step that produces vertex i uses angles[i - 1] and scales[i - 1]. */
  function Walk(b: Backend, Ps: seq<Point>, angles: seq<real>, scales: seq<real>, s: real, n: nat)
    : (r: Result<seq<Point>>)
    requires 2 <= |Ps| && |angles| == n && |scales| == n
    requires |Ps| <= n + 1 || |Ps| == 2
    ensures r.Err? ==> r.error == Degenerate
    ensures r.Ok? ==> |r.value| == (if n + 1 < |Ps| then |Ps| else n + 1)
    ensures r.Ok? ==> r.value[..|Ps|] == Ps
    ensures r.Ok? ==> forall i :: |Ps| <= i < |r.value| ==>
              PolygonStep(b, r.value[i - 2], r.value[i - 1], angles[i - 1], SideLength(s, scales[i - 1])) == Ok(r.value[i])
    decreases n + 1 - |Ps|
  {
    if |Ps| >= n + 1 then Ok(Ps)
    else
      var i := |Ps|;
      var step := PolygonStep(b, Ps[i - 2], Ps[i - 1], angles[i - 1], SideLength(s, scales[i - 1]));
      if step.Err? then Err(step.error)
      else
      var P := step.value;
      var r := Walk(b, Ps + [P], angles, scales, s, n);
      if r.Err? then r
      else
        WalkExtends(b, Ps, P, r.value, angles, scales, s, n);
        r
  }

  /** A walk that continues Ps + [P], where P is the step after Ps, continues Ps. */
  lemma WalkExtends(b: Backend, Ps: seq<Point>, P: Point, R: seq<Point>, angles: seq<real>, scales: seq<real>,
                    s: real, n: nat)
    requires 2 <= |Ps| < n + 1 && |angles| == n && |scales| == n
    requires |Ps| + 1 <= |R| <= n + 1 && R[..|Ps| + 1] == Ps + [P]
    requires PolygonStep(b, Ps[|Ps| - 2], Ps[|Ps| - 1], angles[|Ps| - 1], SideLength(s, scales[|Ps| - 1])) == Ok(P)
    requires forall j :: |Ps| + 1 <= j < |R| ==>
               PolygonStep(b, R[j - 2], R[j - 1], angles[j - 1], SideLength(s, scales[j - 1])) == Ok(R[j])
    ensures R[..|Ps|] == Ps
    ensures forall j :: |Ps| <= j < |R| ==>
              PolygonStep(b, R[j - 2], R[j - 1], angles[j - 1], SideLength(s, scales[j - 1])) == Ok(R[j])
  {
    var i := |Ps|;
    assert R[..i] == (R[..i + 1])[..i];
    assert R[i - 2] == Ps[i - 2] && R[i - 1] == Ps[i - 1] && R[i] == P;
  }

  /** sample_polygon: an n-gon whose first side is Left-Right and whose later vertices are
      walked with the sampled angles and scales; three loss terms ask the angles to sum to
      (n - 2) pi, the walk to close, and the first angle to match its sample. */
  function SamplePolygon(b: Backend, st: State, ps: seq<string>): (r: Result<State>)
    ensures |ps| == 0 ==> r == Err(Degenerate)
    ensures r.Err? ==> r.error == Degenerate
    ensures r.Ok? ==> r.value.points.Keys == st.points.Keys + set p | p in ps
    ensures r.Ok? ==> forall n :: n in st.points && n !in ps ==> r.value.points[n] == st.points[n]
    ensures r.Ok? ==> r.value.losses.Keys == st.losses.Keys + {AngleSumLoss, ClosingLoss, FirstAngleLoss}
    ensures r.Ok? ==> forall k :: k in st.losses && k !in {AngleSumLoss, ClosingLoss, FirstAngleLoss}
                                  ==> r.value.losses[k] == st.losses[k]
    ensures r.Ok? ==> r.value.nvars == st.nvars + 2 * |ps|
  {
    var n := |ps|;
    if n == 0 then Err(Degenerate)
    else
      var angles := PolygonAngles(b, st.nvars, n);
      var scales := PolygonScales(b, st.nvars, n);
      var s := Dist(b, Left, Right);
      var Ps :- Walk(b, [Left, Right], angles, scales, s, n);
      var theta :- Angle(b, Ps[|Ps| - 1], Ps[0], Ps[1]);
      var losses := st.losses[AngleSumLoss := Loss(Sum(angles) - b.pi * (n as real - 2.0), 0.1)]
                              [ClosingLoss := Loss(Dist(b, Ps[0], Ps[n]), 0.01)]
                              [FirstAngleLoss := Loss(angles[0] - theta, 0.01)];
      Ok(State(RegisterPoints(st.points, ps, Ps), losses, st.nvars + 2 * n))
  }

  // ---------------------------------------------------------------------------
  // sample_triangle
  // ---------------------------------------------------------------------------

  /** Python truthiness of an optional name: present and non-empty. */
  predicate Truthy(o: Option<string>) {
    o.Some? && o.value != ""
  }

  /** The free vertex's ordinate when it is neither a right-angle nor an equilateral apex. */
  function AyLowerBound(acute: bool): real {
    if acute then 1.1 else 0.4
  }

  /** Whether sample_triangle takes its own path rather than falling back to sample_polygon. */
  predicate HasOption(iso: Option<string>, right: Option<string>, acute: bool, equi: bool) {
    Truthy(iso) || Truthy(right) || acute || equi
  }

  /** The apex: its abscissa is 0 for iso and equi and otherwise the next variable; its
      ordinate puts a right angle at the apex (right), makes the triangle equilateral
      (equi), or is sampled above a lower bound. */
  function Apex(b: Backend, st: State, iso: Option<string>, right: Option<string>, acute: bool, equi: bool): Point {
    if iso.Some? || equi then Point(0.0, ApexHeight(b, 0.0, right, acute, equi, st.nvars))
    else Point(b.param(st.nvars), ApexHeight(b, b.param(st.nvars), right, acute, equi, st.nvars + 1))
  }

  /** The apex ordinate over the abscissa x; v is the next unused variable. */
  function ApexHeight(b: Backend, x: real, right: Option<string>, acute: bool, equi: bool, v: nat): real {
    if right.Some? then b.sqrt(4.0 - x * x)
    else if equi then 2.0 * b.sqrt(3.0)
    else AyLowerBound(acute) + 3.0 * b.sigmoid(b.param(v))
  }

  /** The number of variables the apex uses. */
  function ApexVars(iso: Option<string>, right: Option<string>, equi: bool): nat {
    (if iso.Some? || equi then 0 else 1) + (if right.Some? || equi then 0 else 1)
  }

  /** The points given to the three names: the apex goes to the isosceles or right-angle
      vertex when that is the second or third name, and to the first name otherwise. */
  function Arrange(ps: seq<string>, iso: Option<string>, right: Option<string>, A: Point): (vs: seq<Point>)
    requires |ps| == 3
    ensures |vs| == 3
  {
    if iso == Some(ps[1]) || right == Some(ps[1]) then [Left, A, Right]
    else if iso == Some(ps[2]) || right == Some(ps[2]) then [Right, Left, A]
    else [A, Left, Right]
  }

  /** sample_triangle: without any option it is sample_polygon; otherwise exactly three names
      get the apex and the fixed side Left-Right, arranged as Arrange says. */
  function SampleTriangle(b: Backend, st: State, ps: seq<string>, iso: Option<string>, right: Option<string>,
                          acute: bool, equi: bool): (r: Result<State>)
    ensures !HasOption(iso, right, acute, equi) ==> r == SamplePolygon(b, st, ps)
    ensures HasOption(iso, right, acute, equi) ==> (r.Ok? <==> |ps| == 3)
    ensures r.Err? ==> r.error == Degenerate || r.error == ArityMismatch
    ensures HasOption(iso, right, acute, equi) && r.Ok? ==>
              && r.value.points.Keys == st.points.Keys + {ps[0], ps[1], ps[2]}
              && (forall n :: n in st.points && n !in ps ==> r.value.points[n] == st.points[n])
              && r.value.losses == st.losses
              && r.value.nvars == st.nvars + ApexVars(iso, right, equi)
    ensures HasOption(iso, right, acute, equi) && r.Ok? && Distinct(ps) ==>
              forall j :: 0 <= j < 3 ==> r.value.points[ps[j]] == Arrange(ps, iso, right, Apex(b, st, iso, right, acute, equi))[j]
  {
    if !HasOption(iso, right, acute, equi) then SamplePolygon(b, st, ps)
    else if |ps| != 3 then Err(ArityMismatch)
    else
      var vs := Arrange(ps, iso, right, Apex(b, st, iso, right, acute, equi));
      Ok(State(st.points[ps[0] := vs[0]][ps[1] := vs[1]][ps[2] := vs[2]], st.losses, st.nvars + ApexVars(iso, right, equi)))
  }

  // ---------------------------------------------------------------------------
  // sample
  // ---------------------------------------------------------------------------

  const SamplerNames: set<string> :=
    {"uniform", "polygon", "triangle", "isoTri", "acuteTri", "acuteIsoTri", "rightTri", "equiTri"}

  /** The samplers whose option is the instruction's first argument. */
  const ArgumentSamplers: set<string> := {"isoTri", "acuteIsoTri", "rightTri"}

  /** The first argument of the instruction, which names the special vertex. */
  function FirstArg(args: seq<string>): (r: Result<string>)
    ensures r.Ok? <==> |args| > 0
    ensures r.Ok? ==> r.value == args[0]
    ensures r.Err? ==> r.error == ArityMismatch
  {
    if |args| == 0 then Err(ArityMismatch) else Ok(args[0])
  }

  /** sample, as intended: dispatch on the sampler name, taking the special vertex of isoTri,
      acuteIsoTri and rightTri from the instruction's arguments. */
  function Sample(b: Backend, st: State, points: seq<string>, sampler: string, args: seq<string>): (r: Result<State>)
    ensures sampler !in SamplerNames <==> r == Err(UnknownSampler(sampler))
    ensures sampler in ArgumentSamplers && |args| == 0 ==> r == Err(ArityMismatch)
    ensures r.Ok? ==> Grows(st, r.value)
  {
    if sampler == "uniform" then SampleUniform(b, st, points)
    else if sampler == "polygon" then SamplePolygon(b, st, points)
    else if sampler == "triangle" then SampleTriangle(b, st, points, None, None, false, false)
    else if sampler == "isoTri" then
      var iso :- FirstArg(args);
      SampleTriangle(b, st, points, Some(iso), None, false, false)
    else if sampler == "acuteTri" then SampleTriangle(b, st, points, None, None, true, false)
    else if sampler == "acuteIsoTri" then
      var iso :- FirstArg(args);
      SampleTriangle(b, st, points, Some(iso), None, true, false)
    else if sampler == "rightTri" then
      var right :- FirstArg(args);
      SampleTriangle(b, st, points, None, Some(right), false, false)
    else if sampler == "equiTri" then SampleTriangle(b, st, points, None, None, false, true)
    else Err(UnknownSampler(sampler))
  }

  /** sample as written: the three branches that need the special vertex read a name `args`
      that is not defined in the method, which fails before anything is sampled. */
  function SampleAsWritten(b: Backend, st: State, points: seq<string>, sampler: string, args: seq<string>): (r: Result<State>)
    ensures sampler in ArgumentSamplers ==> r == Err(UndefinedName("args"))
    ensures sampler !in ArgumentSamplers ==> r == Sample(b, st, points, sampler, args)
  {
    if sampler in ArgumentSamplers then Err(UndefinedName("args"))
    else Sample(b, st, points, sampler, args)
  }

  // ---------------------------------------------------------------------------
  // Laws
  // ---------------------------------------------------------------------------

  /** The finding, on a concrete instruction: an isosceles triangle sample with its apex named
      fails as written, while the intended reading succeeds. */
  lemma SampleArgsFinding(b: Backend)
    ensures SampleAsWritten(b, Initial, ["A", "B", "C"], "isoTri", ["A"]) == Err(UndefinedName("args"))
    ensures Sample(b, Initial, ["A", "B", "C"], "isoTri", ["A"]).Ok?
  {
  }

  /** "triangle" without options is the polygon sampler. */
  lemma PlainTriangleIsPolygon(b: Backend, st: State, ps: seq<string>, args: seq<string>)
    ensures Sample(b, st, ps, "triangle", args) == Sample(b, st, ps, "polygon", args)
  {
  }

  /** The step walks the given length from B along the line through the turned point X: the
      new vertex P is at distance |len| from B, and (P - B).(X - B) = len |XB|, so for a
      positive len P lies on the ray from B through X. */
  lemma PolygonStepLength(b: Backend, A: Point, B: Point, theta: real, len: real)
    requires SqrtExactAt(b, SqDist(B.Plus(RotateBy(b, -theta, A.Minus(B))), B))
    requires PolygonStep(b, A, B, theta, len).Ok?
    ensures SqDist(PolygonStep(b, A, B, theta, len).value, B) == len * len
    ensures ParaPhi(PolygonStep(b, A, B, theta, len).value, B, B.Plus(RotateBy(b, -theta, A.Minus(B))), B) == 0.0
    ensures InnerProduct(PolygonStep(b, A, B, theta, len).value.Minus(B), B.Plus(RotateBy(b, -theta, A.Minus(B))).Minus(B))
            == len * Dist(b, B.Plus(RotateBy(b, -theta, A.Minus(B))), B)
  {
    var X := B.Plus(RotateBy(b, -theta, A.Minus(B)));
    WalkAlong(B, X, Dist(b, X, B), len);
  }

  /** Where the backend's tanh is bounded, every sampled scale lies in (-1/2, 1/2), so every
      side length s (1 + scale) of a polygon with a positive first side is positive, between
      s/2 and 3s/2. */
  lemma PolygonScalesBounded(b: Backend, base: nat, n: nat, s: real)
    requires s > 0.0
    requires forall k :: base + n <= k < base + 2 * n ==> TanhBoundedAt(b, 0.2 * b.param(k))
    ensures forall i :: 0 <= i < n ==> -0.5 < PolygonScales(b, base, n)[i] < 0.5
    ensures forall i :: 0 <= i < n ==>
              0.5 * s < SideLength(s, PolygonScales(b, base, n)[i]) < 1.5 * s
  {
    var scales := PolygonScales(b, base, n);
    forall i | 0 <= i < n
      ensures 0.5 * s < SideLength(s, scales[i]) < 1.5 * s
    {
      assert TanhBoundedAt(b, 0.2 * b.param(base + n + i));
      BoundedSide(s, scales[i]);
    }
  }

  lemma BoundedSide(s: real, scale: real)
    requires s > 0.0 && -0.5 < scale < 0.5
    ensures 0.5 * s < SideLength(s, scale) < 1.5 * s
  {
    assert s * (1.0 + scale) - 0.5 * s == s * (0.5 + scale);
    assert 1.5 * s - s * (1.0 + scale) == s * (0.5 - scale);
    Triangles.PositiveProduct(s, 0.5 + scale);
    Triangles.PositiveProduct(s, 0.5 - scale);
  }

  function Abs(x: real): real {
    if x < 0.0 then -x else x
  }

  /** Where the backend's tanh is bounded, no sampled angle exceeds the multiplicand
      ((n - 2)/n) pi + pi/3 in absolute value. */
  lemma PolygonAnglesBounded(b: Backend, base: nat, n: nat)
    requires n > 0
    requires forall k :: base <= k < base + n ==> TanhBoundedAt(b, 0.2 * b.param(k))
    ensures forall i :: 0 <= i < n ==> Abs(PolygonAngles(b, base, n)[i]) <= Abs(Multiplicand(b, n))
  {
    var angles := PolygonAngles(b, base, n);
    var m := Multiplicand(b, n);
    forall i | 0 <= i < n
      ensures Abs(angles[i]) <= Abs(m)
    {
      assert TanhBoundedAt(b, 0.2 * b.param(base + i));
      ScaledBelow(m, b.tanh(0.2 * b.param(base + i)), angles[i]);
    }
  }

  lemma ScaledBelow(m: real, t: real, a: real)
    requires -1.0 < t < 1.0 && a == m * t
    ensures Abs(a) <= Abs(m)
  {
    assert Abs(a) == Abs(m) * Abs(t);
    assert Abs(m) * Abs(t) <= Abs(m) * 1.0;
  }

  /** With exact trigonometry at -theta and an exact square root of |AB|^2, a step fails
      exactly when its last two vertices coincide. */
  lemma PolygonStepFailsIffRepeated(b: Backend, A: Point, B: Point, theta: real, len: real)
    requires TrigExactAt(b, -theta) && SqrtExactAt(b, SqDist(A, B))
    ensures PolygonStep(b, A, B, theta, len).Err? <==> A == B
  {
    var v := A.Minus(B);
    var X := B.Plus(RotateBy(b, -theta, v));
    assert X.Minus(B) == RotateBy(b, -theta, v);
    SqDistIsSquaredNorm(X, B);
    SqDistIsSquaredNorm(A, B);
    assert SqDist(X, B) == SqDist(A, B);
    DistExact(b, X, B);
    if A != B {
      SqDistPositive(A, B);
    }
    if X != B {
      SqDistPositive(X, B);
    }
  }

  /** Walking from B towards X by len / d, where d is the length of BX, covers len along
      the line BX, towards X when len and d are positive. */
  lemma WalkAlong(B: Point, X: Point, d: real, len: real)
    requires d != 0.0 && d * d == SqDist(X, B)
    ensures SqDist(B.Plus(X.Minus(B).Smul(len / d)), B) == len * len
    ensures ParaPhi(B.Plus(X.Minus(B).Smul(len / d)), B, X, B) == 0.0
    ensures InnerProduct(B.Plus(X.Minus(B).Smul(len / d)).Minus(B), X.Minus(B)) == len * d
  {
    var v := X.Minus(B);
    var P := B.Plus(v.Smul(len / d));
    ScaledLength(len, d, v.x, v.y);
    assert P.Minus(B) == v.Smul(len / d);
    ScaledProjection(len, d, v.x, v.y);
  }

  lemma ScaledProjection(len: real, d: real, x: real, y: real)
    requires d != 0.0 && d * d == x * x + y * y
    ensures (len / d * x) * x + (len / d * y) * y == len * d
  {
    var k := len / d;
    assert k * d == len;
    assert (k * x) * x + (k * y) * y == k * (d * d);
  }

  lemma ScaledLength(len: real, d: real, x: real, y: real)
    requires d != 0.0 && d * d == x * x + y * y
    ensures (len / d * x) * (len / d * x) + (len / d * y) * (len / d * y) == len * len
  {
    var k := len / d;
    assert k * d == len;
    calc {
      (k * x) * (k * x) + (k * y) * (k * y);
      (k * k) * (x * x + y * y);
      (k * k) * (d * d);
      (k * d) * (k * d);
      len * len;
    }
  }

  /** The first two names of a polygon get the fixed first side. */
  lemma PolygonFirstSide(b: Backend, st: State, ps: seq<string>)
    requires |ps| >= 2 && Distinct(ps)
    requires SamplePolygon(b, st, ps).Ok?
    ensures SamplePolygon(b, st, ps).value.points[ps[0]] == Left
    ensures SamplePolygon(b, st, ps).value.points[ps[1]] == Right
  {
    var n := |ps|;
    var angles := PolygonAngles(b, st.nvars, n);
    var scales := PolygonScales(b, st.nvars, n);
    var Ps := Walk(b, [Left, Right], angles, scales, Dist(b, Left, Right), n).value;
    assert Ps[..2] == [Left, Right];
    assert Ps[0] == Left && Ps[1] == Right;
  }

  /** The named vertex gets the apex and the two other names get the ends of the fixed side. */
  lemma ArrangeApex(ps: seq<string>, iso: Option<string>, right: Option<string>, A: Point, o: string)
    requires |ps| == 3 && Distinct(ps) && o in ps
    requires (iso == Some(o) && right == None) || (iso == None && right == Some(o))
    ensures forall j :: 0 <= j < 3 && ps[j] == o ==> Arrange(ps, iso, right, A)[j] == A
    ensures forall j, k :: 0 <= j < 3 && 0 <= k < 3 && ps[j] != o && ps[k] != o && j != k ==>
              (Arrange(ps, iso, right, A)[j] == Left && Arrange(ps, iso, right, A)[k] == Right)
              || (Arrange(ps, iso, right, A)[j] == Right && Arrange(ps, iso, right, A)[k] == Left)
  {
  }

  /** An equilateral sample: with an exact square root of 3 the three named points are
      pairwise 4 apart. */
  lemma EquilateralSample(b: Backend, st: State, ps: seq<string>, args: seq<string>)
    requires |ps| == 3 && Distinct(ps)
    requires SqrtExactAt(b, 3.0)
    ensures Sample(b, st, ps, "equiTri", args).Ok?
    ensures var pts := Sample(b, st, ps, "equiTri", args).value.points;
            && SqDist(pts[ps[0]], pts[ps[1]]) == 16.0
            && SqDist(pts[ps[1]], pts[ps[2]]) == 16.0
            && SqDist(pts[ps[2]], pts[ps[0]]) == 16.0
  {
    EquilateralApex(b.sqrt(3.0));
    assert Apex(b, st, None, None, false, true) == Point(0.0, 2.0 * b.sqrt(3.0));
  }

  lemma EquilateralApex(r: real)
    requires r * r == 3.0
    ensures SqDist(Point(0.0, 2.0 * r), Left) == 16.0 && SqDist(Left, Point(0.0, 2.0 * r)) == 16.0
    ensures SqDist(Point(0.0, 2.0 * r), Right) == 16.0 && SqDist(Right, Point(0.0, 2.0 * r)) == 16.0
    ensures SqDist(Left, Right) == 16.0 && SqDist(Right, Left) == 16.0
  {
    assert (0.0 - 2.0 * r) * (0.0 - 2.0 * r) == 4.0 * (r * r);
  }

  /** An isosceles sample with its apex named among the three points: the apex is equally far
      from the two other points. */
  lemma IsoscelesSample(b: Backend, st: State, ps: seq<string>, args: seq<string>, acute: bool)
    requires |ps| == 3 && Distinct(ps) && |args| > 0 && args[0] in ps && args[0] != ""
    ensures Sample(b, st, ps, if acute then "acuteIsoTri" else "isoTri", args).Ok?
    ensures var pts := Sample(b, st, ps, if acute then "acuteIsoTri" else "isoTri", args).value.points;
            forall j, k :: 0 <= j < 3 && 0 <= k < 3 && ps[j] != args[0] && ps[k] != args[0]
                           ==> SqDist(pts[args[0]], pts[ps[j]]) == SqDist(pts[args[0]], pts[ps[k]])
  {
    var A := Apex(b, st, Some(args[0]), None, acute, false);
    ArrangeApex(ps, Some(args[0]), None, A, args[0]);
    assert SqDist(A, Left) == SqDist(A, Right);
  }

  /** A right-triangle sample with its right-angle vertex named among the three points: when
      the sampled abscissa x has x^2 <= 4 and the square root is exact there, the two sides
      at that vertex are perpendicular. */
  lemma RightAngleSample(b: Backend, st: State, ps: seq<string>, args: seq<string>)
    requires |ps| == 3 && Distinct(ps) && |args| > 0 && args[0] in ps && args[0] != ""
    requires 4.0 - b.param(st.nvars) * b.param(st.nvars) >= 0.0
    requires SqrtExactAt(b, 4.0 - b.param(st.nvars) * b.param(st.nvars))
    ensures Sample(b, st, ps, "rightTri", args).Ok?
    ensures var pts := Sample(b, st, ps, "rightTri", args).value.points;
            forall j, k :: 0 <= j < 3 && 0 <= k < 3 && ps[j] != args[0] && ps[k] != args[0] && j != k
                           ==> PerpPhi(pts[ps[j]], pts[args[0]], pts[ps[k]], pts[args[0]]) == 0.0
  {
    SampleRightTri(b, st, ps, args);
    RightTrianglePoints(b, st, ps, args[0]);
    RightApexAt(b, st, args[0]);
  }

  lemma SampleRightTri(b: Backend, st: State, ps: seq<string>, args: seq<string>)
    requires |args| > 0
    ensures Sample(b, st, ps, "rightTri", args) == SampleTriangle(b, st, ps, None, Some(args[0]), false, false)
  {
  }

  /** A right triangle's named vertex gets the apex and the two other names get Left and
      Right, in some order. */
  lemma RightTrianglePoints(b: Backend, st: State, ps: seq<string>, o: string)
    requires |ps| == 3 && Distinct(ps) && o in ps && o != ""
    ensures SampleTriangle(b, st, ps, None, Some(o), false, false).Ok?
    ensures var pts := SampleTriangle(b, st, ps, None, Some(o), false, false).value.points;
            && pts[o] == Apex(b, st, None, Some(o), false, false)
            && forall j, k :: 0 <= j < 3 && 0 <= k < 3 && ps[j] != o && ps[k] != o && j != k ==>
                 (pts[ps[j]] == Left && pts[ps[k]] == Right) || (pts[ps[j]] == Right && pts[ps[k]] == Left)
  {
    ArrangeApex(ps, None, Some(o), Apex(b, st, None, Some(o), false, false), o);
  }

  /** The right-angle apex, with an exact square root, sees Left-Right at a right angle. */
  lemma RightApexAt(b: Backend, st: State, o: string)
    requires 4.0 - b.param(st.nvars) * b.param(st.nvars) >= 0.0
    requires SqrtExactAt(b, 4.0 - b.param(st.nvars) * b.param(st.nvars))
    ensures PerpPhi(Left, Apex(b, st, None, Some(o), false, false), Right, Apex(b, st, None, Some(o), false, false)) == 0.0
    ensures PerpPhi(Right, Apex(b, st, None, Some(o), false, false), Left, Apex(b, st, None, Some(o), false, false)) == 0.0
  {
    assert Apex(b, st, None, Some(o), false, false) == Point(b.param(st.nvars), ApexHeight(b, b.param(st.nvars), Some(o), false, false, st.nvars + 1));
    assert ApexHeight(b, b.param(st.nvars), Some(o), false, false, st.nvars + 1) == b.sqrt(4.0 - b.param(st.nvars) * b.param(st.nvars));
    assert b.sqrt(4.0 - b.param(st.nvars) * b.param(st.nvars)) * b.sqrt(4.0 - b.param(st.nvars) * b.param(st.nvars)) == 4.0 - b.param(st.nvars) * b.param(st.nvars);
    RightApex(Apex(b, st, None, Some(o), false, false), b.param(st.nvars), b.sqrt(4.0 - b.param(st.nvars) * b.param(st.nvars)));
  }

  /** The apex (x, y) with y^2 = 4 - x^2 sees the fixed side Left-Right at a right angle. */
  lemma RightApex(A: Point, x: real, y: real)
    requires A == Point(x, y) && y * y == 4.0 - x * x
    ensures PerpPhi(Left, A, Right, A) == 0.0
    ensures PerpPhi(Right, A, Left, A) == 0.0
  {
  }
}
