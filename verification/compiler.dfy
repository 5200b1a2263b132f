/** The instruction interpreter (process_instruction): sample, compute, parameterize and
    assert instructions run one after another against the point and loss tables. */
module Compiler {
  import opened Points
  import opened Results
  import opened Residuals
  import opened Lines
  import opened Triangles
  import opened Backends
  import opened Keys
  import opened Tables
  import opened Constructions
  import Sampling

  /** What a compute instruction computes: a named point construction over named points, or
      the intersection of two lines. */
  datatype Computation =
    | PointComputation(tag: string, operands: seq<string>)
    | LineComputation(tag: string, l1: Line, l2: Line)

  datatype Instruction =
    | Sample(points: seq<string>, sampler: string, args: seq<string>)
    | Compute(point: string, computation: Computation)
    | Parameterize(point: string, parameterization: string)
    | Assert(pred: string, operands: seq<string>, negate: bool)
    | Other

  const ComputationNames: set<string> :=
    {"midp", "midpFrom", "circumcenter", "orthocenter", "centroid", "interLL"}

  const PredicateNames: set<string> := {"perp", "para", "cong", "midp"}

  /** How many named points each asserted predicate unpacks. */
  function PredicateArity(pred: string): nat {
    if pred == "midp" then 3 else 4
  }

  // ---------------------------------------------------------------------------
  // compute
  // ---------------------------------------------------------------------------

  /** The point a computation yields. An unknown tag is rejected before any name is looked
      up; a tag given operands of the wrong shape is malformed. */
  function ComputePoint(b: Backend, pts: map<string, Point>, c: Computation): (r: Result<Point>)
    ensures c.tag !in ComputationNames ==> r == Err(UnknownComputation(c.tag))
    ensures c.tag in ComputationNames ==> !(r.Err? && r.error.UnknownComputation?)
    ensures r.Ok? && c.tag != "interLL" ==>
              c.PointComputation? && AllDefined(pts, c.operands)
              && |c.operands| == (if c.tag in {"midp", "midpFrom"} then 2 else 3)
    ensures r.Ok? && c.tag == "interLL" ==>
              c.LineComputation? && Line2Sif(b, pts, c.l1).Ok? && Line2Sif(b, pts, c.l2).Ok?
  {
    if c.tag == "midp" then
      if c.LineComputation? then Err(MalformedOperands)
      else
        var v :- LookupExactly(pts, c.operands, 2);
        Ok(Midp(v[0], v[1]))
    else if c.tag == "midpFrom" then
      if c.LineComputation? then Err(MalformedOperands)
      else
        var v :- LookupExactly(pts, c.operands, 2);
        Ok(MidpFrom(v[0], v[1]))
    else if c.tag == "circumcenter" then
      if c.LineComputation? then Err(MalformedOperands)
      else
        var v :- LookupExactly(pts, c.operands, 3);
        var t := MeasureTriangle(b, v[0], v[1], v[2]);
        if CircumcenterDefined(t) then Ok(Circumcenter(t)) else Err(Degenerate)
    else if c.tag == "orthocenter" then
      if c.LineComputation? then Err(MalformedOperands)
      else
        var v :- LookupExactly(pts, c.operands, 3);
        var t := MeasureTriangle(b, v[0], v[1], v[2]);
        if OrthocenterDefined(t) then Ok(Orthocenter(t)) else Err(Degenerate)
    else if c.tag == "centroid" then
      if c.LineComputation? then Err(MalformedOperands)
      else
        var v :- LookupExactly(pts, c.operands, 3);
        var t := MeasureTriangle(b, v[0], v[1], v[2]);
        if BarycentricDefined(t, 1.0, 1.0, 1.0) then Ok(Centroid(t)) else Err(Degenerate)
    else if c.tag == "interLL" then
      if c.PointComputation? then Err(MalformedOperands)
      else
        var sif1 :- Line2Sif(b, pts, c.l1);
        var sif2 :- Line2Sif(b, pts, c.l2);
        InterLLChecked(sif1, sif2)
    else
      Err(UnknownComputation(c.tag))
  }

  /** compute: register the computed point under the target name. */
  function ProcessCompute(b: Backend, st: State, name: string, c: Computation): (r: Result<State>)
    ensures r.Ok? <==> ComputePoint(b, st.points, c).Ok?
    ensures r.Err? ==> r.error == ComputePoint(b, st.points, c).error
    ensures r.Ok? ==> r.value.points.Keys == st.points.Keys + {name}
    ensures r.Ok? ==> r.value.points[name] == ComputePoint(b, st.points, c).value
    ensures r.Ok? ==> forall n :: n in st.points && n != name ==> r.value.points[n] == st.points[n]
    ensures r.Ok? ==> r.value.losses == st.losses && r.value.nvars == st.nvars
  {
    var P :- ComputePoint(b, st.points, c);
    Ok(st.(points := st.points[name := P]))
  }

  // ---------------------------------------------------------------------------
  // parameterize
  // ---------------------------------------------------------------------------

  /** parameterize: only "coords" is supported, and it samples the point uniformly. */
  function ProcessParameterize(b: Backend, st: State, p: string, param: string): (r: Result<State>)
    ensures param != "coords" ==> r == Err(UnknownParameterization(param))
    ensures param == "coords" ==> r.Ok?
    ensures r.Ok? ==> r.value.points.Keys == st.points.Keys + {p}
    ensures r.Ok? ==> r.value.points[p] == Point(b.param(st.nvars), b.param(st.nvars + 1))
    ensures r.Ok? ==> forall n :: n in st.points && n != p ==> r.value.points[n] == st.points[n]
    ensures r.Ok? ==> r.value.losses == st.losses && r.value.nvars == st.nvars + 2
  {
    if param == "coords" then Sampling.SampleUniform(b, st, [p])
    else Err(UnknownParameterization(param))
  }

  // ---------------------------------------------------------------------------
  // assert
  // ---------------------------------------------------------------------------

  /** assertion_vals: the residuals of an asserted predicate. An unknown predicate is rejected
      before any name is looked up. */
  function AssertionVals(b: Backend, pts: map<string, Point>, pred: string, ps: seq<string>): (r: Result<seq<real>>)
    ensures pred !in PredicateNames ==> r == Err(UnknownPredicate(pred))
    ensures pred in PredicateNames && !AllDefined(pts, ps) ==> r == Err(LookupPts(pts, ps).error)
    ensures pred in PredicateNames && AllDefined(pts, ps) ==> (r.Ok? <==> |ps| == PredicateArity(pred))
    ensures pred in PredicateNames && AllDefined(pts, ps) && |ps| != PredicateArity(pred) ==> r == Err(ArityMismatch)
    ensures r.Ok? ==> |r.value| == 1
  {
    if pred == "perp" then
      var v :- LookupExactly(pts, ps, 4);
      Ok([PerpPhi(v[0], v[1], v[2], v[3])])
    else if pred == "para" then
      var v :- LookupExactly(pts, ps, 4);
      Ok([ParaPhi(v[0], v[1], v[2], v[3])])
    else if pred == "cong" then
      var v :- LookupExactly(pts, ps, 4);
      Ok([CongDiff(v[0], v[1], v[2], v[3])])
    else if pred == "midp" then
      var v :- LookupExactly(pts, ps, 3);
      Ok([Dist(b, v[0], Midp(v[1], v[2]))])
    else
      Err(UnknownPredicate(pred))
  }

  /** add: a negated assertion is refused; otherwise the residuals are registered as losses
      under the assertion's key. */
  function ProcessAssert(b: Backend, st: State, pred: string, ps: seq<string>, negate: bool): (r: Result<State>)
    ensures negate ==> r == Err(NegatedAssertion)
    ensures !negate ==> (r.Ok? <==> AssertionVals(b, st.points, pred, ps).Ok?)
    ensures !negate && r.Err? ==> r.error == AssertionVals(b, st.points, pred, ps).error
    ensures r.Ok? ==> r.value.points == st.points && r.value.nvars == st.nvars
    ensures r.Ok? ==> r.value.losses
                      == st.losses[AssertionKey(pred, ps) := Loss(AssertionVals(b, st.points, pred, ps).value[0], 1.0)]
  {
    if negate then Err(NegatedAssertion)
    else
      var vals :- AssertionVals(b, st.points, pred, ps);
      var L := AddLosses(st.losses, AssertionKey(pred, ps), vals).value;
      assert L == st.losses[AssertionKey(pred, ps) := Loss(vals[0], 1.0)] by {
        assert LossKey(AssertionKey(pred, ps), 1, 0) == AssertionKey(pred, ps);
      }
      Ok(st.(losses := L))
  }

  // ---------------------------------------------------------------------------
  // process_instruction and preprocess
  // ---------------------------------------------------------------------------

  /** process_instruction: dispatch on the kind of instruction. */
  function ProcessInstruction(b: Backend, st: State, i: Instruction): (r: Result<State>)
    ensures i.Other? ==> r == Err(NotAnInstruction)
    ensures i.Sample? && i.sampler !in Sampling.SamplerNames ==> r == Err(UnknownSampler(i.sampler))
    ensures i.Compute? && i.computation.tag !in ComputationNames ==> r == Err(UnknownComputation(i.computation.tag))
    ensures i.Parameterize? && i.parameterization != "coords" ==> r == Err(UnknownParameterization(i.parameterization))
    ensures i.Assert? && i.negate ==> r == Err(NegatedAssertion)
    ensures i.Assert? && !i.negate && i.pred !in PredicateNames ==> r == Err(UnknownPredicate(i.pred))
    ensures r.Ok? ==> Grows(st, r.value)
  {
    match i
    case Sample(ps, sampler, args) => Sampling.Sample(b, st, ps, sampler, args)
    case Compute(p, c) => ProcessCompute(b, st, p, c)
    case Parameterize(p, param) => ProcessParameterize(b, st, p, param)
    case Assert(pred, ps, negate) => ProcessAssert(b, st, pred, ps, negate)
    case Other => Err(NotAnInstruction)
  }

  /** The instructions run in order; the first failing one ends the run with its error. */
  function Run(b: Backend, st: State, prog: seq<Instruction>): (r: Result<State>)
    decreases |prog|
  {
    if |prog| == 0 then Ok(st)
    else
      var next :- ProcessInstruction(b, st, prog[0]);
      Run(b, next, prog[1..])
  }

  /** preprocess: run the whole program from empty tables. */
  function Preprocess(b: Backend, prog: seq<Instruction>): Result<State> {
    Run(b, Initial, prog)
  }

  // ---------------------------------------------------------------------------
  // Laws of the interpreter
  // ---------------------------------------------------------------------------

  /** A run only ever adds names: no point, loss or variable is dropped. */
  lemma {:induction false} RunGrows(b: Backend, st: State, prog: seq<Instruction>)
    requires Run(b, st, prog).Ok?
    ensures Grows(st, Run(b, st, prog).value)
    decreases |prog|
  {
    if |prog| > 0 {
      var next := ProcessInstruction(b, st, prog[0]).value;
      RunGrows(b, next, prog[1..]);
    }
  }

  /** Running xs then ys is running xs + ys: a program is the sequence of its steps. */
  lemma {:induction false} RunAppend(b: Backend, st: State, xs: seq<Instruction>, ys: seq<Instruction>)
    ensures Run(b, st, xs + ys) == (if Run(b, st, xs).Err? then Run(b, st, xs) else Run(b, Run(b, st, xs).value, ys))
    decreases |xs|
  {
    if |xs| == 0 {
      assert xs + ys == ys;
    } else {
      assert (xs + ys)[0] == xs[0];
      assert (xs + ys)[1..] == xs[1..] + ys;
      var step := ProcessInstruction(b, st, xs[0]);
      if step.Ok? {
        RunAppend(b, step.value, xs[1..], ys);
      }
    }
  }

  /** The first failing instruction decides the outcome: whatever follows it is never run. */
  lemma RunStopsAtFirstError(b: Backend, st: State, xs: seq<Instruction>, i: Instruction, ys: seq<Instruction>)
    requires Run(b, st, xs).Ok?
    requires ProcessInstruction(b, Run(b, st, xs).value, i).Err?
    ensures Run(b, st, xs + [i] + ys) == Err(ProcessInstruction(b, Run(b, st, xs).value, i).error)
  {
    RunAppend(b, st, xs, [i] + ys);
    assert xs + [i] + ys == xs + ([i] + ys);
  }

  // ---------------------------------------------------------------------------
  // Laws of compute
  // ---------------------------------------------------------------------------

  /** A computed midpoint is equally far from both endpoints and collinear with them. */
  lemma ComputeMidp(b: Backend, pts: map<string, Point>, A: string, B: string)
    requires A in pts && B in pts
    ensures ComputePoint(b, pts, PointComputation("midp", [A, B])).Ok?
    ensures var M := ComputePoint(b, pts, PointComputation("midp", [A, B])).value;
            SqDist(M, pts[A]) == SqDist(M, pts[B]) && 4.0 * SqDist(M, pts[A]) == SqDist(pts[A], pts[B])
            && CollPhi(pts[A], pts[B], M) == 0.0
  {
    assert AllDefined(pts, [A, B]);
    CollPhiMidpoint(pts[A], pts[B]);
  }

  /** midpFrom M A computes the point P that makes M the midpoint of A and P. */
  lemma ComputeMidpFrom(b: Backend, pts: map<string, Point>, M: string, A: string)
    requires M in pts && A in pts
    ensures ComputePoint(b, pts, PointComputation("midpFrom", [M, A])).Ok?
    ensures Midp(pts[A], ComputePoint(b, pts, PointComputation("midpFrom", [M, A])).value) == pts[M]
  {
    assert AllDefined(pts, [M, A]);
  }

  /** With exact square roots, a computed circumcenter is equally far from the three vertices. */
  lemma ComputeCircumcenter(b: Backend, pts: map<string, Point>, A: string, B: string, C: string)
    requires A in pts && B in pts && C in pts
    requires pts[A] != pts[B] && pts[B] != pts[C] && pts[C] != pts[A]
    requires SqrtExactAt(b, SqDist(pts[B], pts[C])) && SqrtExactAt(b, SqDist(pts[C], pts[A]))
    requires SqrtExactAt(b, SqDist(pts[A], pts[B]))
    requires ComputePoint(b, pts, PointComputation("circumcenter", [A, B, C])).Ok?
    ensures var O := ComputePoint(b, pts, PointComputation("circumcenter", [A, B, C])).value;
            SqDist(O, pts[A]) == SqDist(O, pts[B]) && SqDist(O, pts[B]) == SqDist(O, pts[C])
  {
    assert AllDefined(pts, [A, B, C]);
    var t := MeasureTriangle(b, pts[A], pts[B], pts[C]);
    MeasuredWhenExact(b, pts[A], pts[B], pts[C]);
    CircumcenterEquidistant(t);
  }

  /** With exact square roots, a computed orthocenter lies on the three altitudes. */
  lemma ComputeOrthocenter(b: Backend, pts: map<string, Point>, A: string, B: string, C: string)
    requires A in pts && B in pts && C in pts
    requires pts[A] != pts[B] && pts[B] != pts[C] && pts[C] != pts[A]
    requires SqrtExactAt(b, SqDist(pts[B], pts[C])) && SqrtExactAt(b, SqDist(pts[C], pts[A]))
    requires SqrtExactAt(b, SqDist(pts[A], pts[B]))
    requires ComputePoint(b, pts, PointComputation("orthocenter", [A, B, C])).Ok?
    ensures var H := ComputePoint(b, pts, PointComputation("orthocenter", [A, B, C])).value;
            PerpPhi(H, pts[A], pts[B], pts[C]) == 0.0 && PerpPhi(H, pts[B], pts[C], pts[A]) == 0.0
            && PerpPhi(H, pts[C], pts[A], pts[B]) == 0.0
  {
    assert AllDefined(pts, [A, B, C]);
    var t := MeasureTriangle(b, pts[A], pts[B], pts[C]);
    MeasuredWhenExact(b, pts[A], pts[B], pts[C]);
    OrthocenterOnAltitudes(t);
  }

  /** A computed centroid is the average of the vertices, whatever the side lengths. */
  lemma ComputeCentroid(b: Backend, pts: map<string, Point>, A: string, B: string, C: string)
    requires A in pts && B in pts && C in pts
    requires ComputePoint(b, pts, PointComputation("centroid", [A, B, C])).Ok?
    ensures ComputePoint(b, pts, PointComputation("centroid", [A, B, C])).value
         == Point((pts[A].x + pts[B].x + pts[C].x) / 3.0, (pts[A].y + pts[B].y + pts[C].y) / 3.0)
  {
    assert AllDefined(pts, [A, B, C]);
    CentroidIsVertexAverage(MeasureTriangle(b, pts[A], pts[B], pts[C]));
  }

  /** A computed intersection lies on both lines, and is the only point that does. */
  lemma ComputeInterLL(b: Backend, pts: map<string, Point>, l1: Line, l2: Line, Q: Point)
    requires ComputePoint(b, pts, LineComputation("interLL", l1, l2)).Ok?
    ensures var P := ComputePoint(b, pts, LineComputation("interLL", l1, l2)).value;
            OnLine(Line2Sif(b, pts, l1).value, P) && OnLine(Line2Sif(b, pts, l2).value, P)
            && (OnLine(Line2Sif(b, pts, l1).value, Q) && OnLine(Line2Sif(b, pts, l2).value, Q) ==> Q == P)
  {
    var s1, s2 := Line2Sif(b, pts, l1).value, Line2Sif(b, pts, l2).value;
    if OnLine(s1, Q) && OnLine(s2, Q) {
      InterLLUnique(s1, s2, Q);
    }
  }

  // ---------------------------------------------------------------------------
  // Laws of assert: each residual vanishes exactly on its configuration
  // ---------------------------------------------------------------------------

  /** perp A B C D registers a zero loss exactly when CD is along the quarter turn of AB. */
  lemma AssertPerpZero(b: Backend, pts: map<string, Point>, A: string, B: string, C: string, D: string)
    requires A in pts && B in pts && C in pts && D in pts && pts[A] != pts[B]
    ensures AssertionVals(b, pts, "perp", [A, B, C, D]) == Ok([0.0])
        <==> exists k: real :: pts[C].Minus(pts[D]) == RotateCounterclockwise90(pts[A].Minus(pts[B])).Smul(k)
  {
    assert AllDefined(pts, [A, B, C, D]);
    PerpPhiZeroIffPerpendicular(pts[A], pts[B], pts[C], pts[D]);
  }

  /** para A B C D registers a zero loss exactly when CD is a multiple of AB. */
  lemma AssertParaZero(b: Backend, pts: map<string, Point>, A: string, B: string, C: string, D: string)
    requires A in pts && B in pts && C in pts && D in pts && pts[A] != pts[B]
    ensures AssertionVals(b, pts, "para", [A, B, C, D]) == Ok([0.0])
        <==> exists k: real :: pts[C].Minus(pts[D]) == pts[A].Minus(pts[B]).Smul(k)
  {
    assert AllDefined(pts, [A, B, C, D]);
    ParaPhiZeroIffParallel(pts[A], pts[B], pts[C], pts[D]);
  }

  /** cong A B C D registers a zero loss exactly when |AB| = |CD|. */
  lemma AssertCongZero(b: Backend, pts: map<string, Point>, A: string, B: string, C: string, D: string)
    requires A in pts && B in pts && C in pts && D in pts
    ensures AssertionVals(b, pts, "cong", [A, B, C, D]) == Ok([0.0])
        <==> SqDist(pts[A], pts[B]) == SqDist(pts[C], pts[D])
  {
    assert AllDefined(pts, [A, B, C, D]);
  }

  /** With an exact square root, midp M A B registers a zero loss exactly when M is the
      midpoint of A and B. */
  lemma AssertMidpZero(b: Backend, pts: map<string, Point>, M: string, A: string, B: string)
    requires M in pts && A in pts && B in pts
    requires SqrtExactAt(b, SqDist(pts[M], Midp(pts[A], pts[B])))
    ensures AssertionVals(b, pts, "midp", [M, A, B]) == Ok([0.0]) <==> pts[M] == Midp(pts[A], pts[B])
  {
    assert AllDefined(pts, [M, A, B]);
    DistExact(b, pts[M], Midp(pts[A], pts[B]));
  }

  /** A two-line program: computing M as the midpoint of A and B and then asserting it
      registers a single loss, under "midp_M_A_B", of weight 1, whose residual is zero when
      the square root of zero is exact. */
  lemma MidpointProgram(b: Backend, st: State, m: string, a: string, c: string)
    requires a in st.points && c in st.points && m != a && m != c
    ensures Run(b, st, [Compute(m, PointComputation("midp", [a, c])), Assert("midp", [m, a, c], false)]).Ok?
    ensures var s := Run(b, st, [Compute(m, PointComputation("midp", [a, c])), Assert("midp", [m, a, c], false)]).value;
            s.points == st.points[m := Midp(st.points[a], st.points[c])]
            && s.losses == st.losses[AssertionKey("midp", [m, a, c]) := Loss(b.sqrt(0.0), 1.0)]
            && (SqrtExactAt(b, 0.0) ==> s.losses[AssertionKey("midp", [m, a, c])].value == 0.0)
  {
    var prog := [Compute(m, PointComputation("midp", [a, c])), Assert("midp", [m, a, c], false)];
    MidpointComputeStep(b, st, m, a, c);
    var s1 := ProcessInstruction(b, st, prog[0]).value;
    MidpointAssertStep(b, s1, m, a, c);
    var s2 := ProcessInstruction(b, s1, prog[1]).value;
    RunTwo(b, st, prog);
    if SqrtExactAt(b, 0.0) {
      SqrtOfZero(b);
    }
  }

  /** Computing the midpoint of two known points stores it and registers no loss. */
  lemma MidpointComputeStep(b: Backend, st: State, m: string, a: string, c: string)
    requires a in st.points && c in st.points
    ensures ProcessInstruction(b, st, Compute(m, PointComputation("midp", [a, c]))).Ok?
    ensures ProcessInstruction(b, st, Compute(m, PointComputation("midp", [a, c]))).value.points
            == st.points[m := Midp(st.points[a], st.points[c])]
    ensures ProcessInstruction(b, st, Compute(m, PointComputation("midp", [a, c]))).value.losses == st.losses
  {
    assert AllDefined(st.points, [a, c]);
  }

  /** Asserting that a stored midpoint is the midpoint registers one loss of weight 1. */
  lemma MidpointAssertStep(b: Backend, st: State, m: string, a: string, c: string)
    requires m in st.points && a in st.points && c in st.points
    requires st.points[m] == Midp(st.points[a], st.points[c])
    ensures ProcessInstruction(b, st, Assert("midp", [m, a, c], false)).Ok?
    ensures ProcessInstruction(b, st, Assert("midp", [m, a, c], false)).value.points == st.points
    ensures ProcessInstruction(b, st, Assert("midp", [m, a, c], false)).value.losses
            == st.losses[AssertionKey("midp", [m, a, c]) := Loss(b.sqrt(0.0), 1.0)]
  {
    assert AllDefined(st.points, [m, a, c]);
    var M := st.points[m];
    assert SqDist(M, M) == 0.0;
  }

  /** A two-instruction program runs its instructions one after the other. */
  lemma RunTwo(b: Backend, st: State, prog: seq<Instruction>)
    requires |prog| == 2 && ProcessInstruction(b, st, prog[0]).Ok?
    ensures Run(b, st, prog) == Run(b, ProcessInstruction(b, st, prog[0]).value, [prog[1]])
    ensures Run(b, ProcessInstruction(b, st, prog[0]).value, [prog[1]])
            == ProcessInstruction(b, ProcessInstruction(b, st, prog[0]).value, prog[1])
  {
    assert prog[1..] == [prog[1]];
    assert [prog[1]][1..] == [];
  }
}
