/** The lines an `interLL` computation intersects (line2sif): each line predicate names a
    construction that yields two points of the line, which pp2sif turns into slope-intercept
    form. */
module Constructions {
  import opened Points
  import opened Results
  import opened Residuals
  import opened Lines
  import opened Backends
  import opened Tables
  import Sampling

  /** A line given by a construction predicate over named points. */
  datatype Line = Line(pred: string, points: seq<string>)

  const LinePredicates: set<string> :=
    {"connecting", "paraAt", "perpAt", "mediator", "ibisector", "ebisector", "eqoangle"}

  /** How many named points each construction unpacks. */
  function LineArity(pred: string): nat {
    if pred in {"connecting", "mediator"} then 2
    else if pred in {"paraAt", "perpAt", "ibisector", "ebisector"} then 3
    else if pred == "eqoangle" then 5
    else 0
  }

  /** The point X on the ray from B through A with |BX| = |BC| as the backend measures it;
      the source divides by |BA|. */
  function BisectorFoot(b: Backend, A: Point, B: Point, C: Point): (r: Result<Point>)
    ensures r.Err? <==> Dist(b, B, A) == 0.0
    ensures r.Err? ==> r.error == Degenerate
  {
    var d := Dist(b, B, A);
    if d == 0.0 then Err(Degenerate) else Ok(B.Plus(A.Minus(B).Smul(Dist(b, B, C) / d)))
  }

  /** line2twoPts: two points of the line the construction describes. An unknown predicate
      raises a name the source never defines. */
  function Line2TwoPts(b: Backend, pts: map<string, Point>, l: Line): (r: Result<(Point, Point)>)
    ensures l.pred !in LinePredicates ==> r == Err(UndefinedName("RuntimeException"))
    ensures l.pred in LinePredicates && !AllDefined(pts, l.points) ==> r == Err(LookupPts(pts, l.points).error)
    ensures l.pred in LinePredicates && AllDefined(pts, l.points) && |l.points| != LineArity(l.pred)
            ==> r == Err(ArityMismatch)
    ensures r.Ok? ==> AllDefined(pts, l.points) && |l.points| == LineArity(l.pred)
    ensures r.Err? && l.pred in LinePredicates && AllDefined(pts, l.points) && |l.points| == LineArity(l.pred)
            ==> r.error == Degenerate
  {
    if l.pred == "connecting" then
      var v :- LookupExactly(pts, l.points, 2);
      Ok((v[0], v[1]))
    else if l.pred == "paraAt" then
      var v :- LookupExactly(pts, l.points, 3);
      Ok((v[0], v[0].Plus(v[2]).Minus(v[1])))
    else if l.pred == "perpAt" then
      var v :- LookupExactly(pts, l.points, 3);
      Ok((v[0], v[0].Plus(RotateCounterclockwise90(v[1].Minus(v[2])))))
    else if l.pred == "mediator" then
      var v :- LookupExactly(pts, l.points, 2);
      var M := Midp(v[0], v[1]);
      Ok((M, M.Plus(RotateCounterclockwise90(v[0].Minus(v[1])))))
    else if l.pred == "ibisector" then
      var v :- LookupExactly(pts, l.points, 3);
      var X :- BisectorFoot(b, v[0], v[1], v[2]);
      Ok((v[1], Midp(X, v[2])))
    else if l.pred == "ebisector" then
      var v :- LookupExactly(pts, l.points, 3);
      var X :- BisectorFoot(b, v[0], v[1], v[2]);
      var M := Midp(X, v[2]);
      Ok((v[1], v[1].Plus(RotateCounterclockwise90(M.Minus(v[1])))))
    else if l.pred == "eqoangle" then
      var v :- LookupExactly(pts, l.points, 5);
      var theta :- Angle(b, v[2], v[3], v[4]);
      Ok((v[0], v[0].Plus(RotateBy(b, theta, v[1].Minus(v[0])))))
    else
      Err(UndefinedName("RuntimeException"))
  }

  /** line2sif: the construction's two points in slope-intercept form; a vertical line is a
      division by zero in pp2sif. */
  function Line2Sif(b: Backend, pts: map<string, Point>, l: Line): (r: Result<SlopeIntercept>)
    ensures r.Ok? <==> Line2TwoPts(b, pts, l).Ok? && Line2TwoPts(b, pts, l).value.0.x != Line2TwoPts(b, pts, l).value.1.x
    ensures r.Err? && Line2TwoPts(b, pts, l).Ok? ==> r.error == Degenerate
    ensures r.Err? && Line2TwoPts(b, pts, l).Err? ==> r.error == Line2TwoPts(b, pts, l).error
    ensures r.Ok? ==> r.value.p1 == Line2TwoPts(b, pts, l).value.0 && r.value.p2 == Line2TwoPts(b, pts, l).value.1
    ensures r.Ok? ==> OnLine(r.value, r.value.p1) && OnLine(r.value, r.value.p2)
  {
    var two :- Line2TwoPts(b, pts, l);
    if two.0.x == two.1.x then Err(Degenerate) else Ok(PointsToSlopeIntercept(two.0, two.1))
  }

  // ---------------------------------------------------------------------------
  // Laws: each construction yields the line it is named after
  // ---------------------------------------------------------------------------

  /** The connecting line passes through both points; it exists unless they are vertically
      aligned. */
  lemma ConnectingLine(b: Backend, pts: map<string, Point>, P: string, Q: string)
    requires P in pts && Q in pts
    ensures Line2Sif(b, pts, Line("connecting", [P, Q])).Ok? <==> pts[P].x != pts[Q].x
    ensures Line2Sif(b, pts, Line("connecting", [P, Q])).Ok? ==>
              var l := Line2Sif(b, pts, Line("connecting", [P, Q])).value;
              OnLine(l, pts[P]) && OnLine(l, pts[Q])
  {
    assert AllDefined(pts, [P, Q]);
  }

  /** The parallel through X to AB: it passes through X and every point of it lies on a line
      through X parallel to AB. */
  lemma ParaAtLine(b: Backend, pts: map<string, Point>, X: string, A: string, B: string)
    requires X in pts && A in pts && B in pts
    ensures Line2Sif(b, pts, Line("paraAt", [X, A, B])).Ok? <==> pts[A].x != pts[B].x
    ensures Line2Sif(b, pts, Line("paraAt", [X, A, B])).Ok? ==>
              var l := Line2Sif(b, pts, Line("paraAt", [X, A, B])).value;
              OnLine(l, pts[X]) && forall P :: OnLine(l, P) ==> ParaPhi(P, pts[X], pts[B], pts[A]) == 0.0
  {
    assert AllDefined(pts, [X, A, B]);
    var r := Line2Sif(b, pts, Line("paraAt", [X, A, B]));
    if r.Ok? {
      var l := r.value;
      forall P | OnLine(l, P)
        ensures ParaPhi(P, pts[X], pts[B], pts[A]) == 0.0
      {
        OnLineCollinear(l, P, l.p1, l.p2);
      }
    }
  }

  /** Every point P of a line through X and X + rot90(u) has P - X orthogonal to u. */
  lemma QuarterTurnLine(l: SlopeIntercept, X: Point, u: Point, P: Point)
    requires OnLine(l, X) && OnLine(l, X.Plus(RotateCounterclockwise90(u))) && OnLine(l, P)
    ensures InnerProduct(P.Minus(X), u) == 0.0
  {
    OnLineCollinear(l, P, X, X.Plus(RotateCounterclockwise90(u)));
  }

  /** The perpendicular through X to AB: every point of it lies on a line through X
      perpendicular to AB; it is vertical, hence missing, exactly when AB is horizontal. */
  lemma PerpAtLine(b: Backend, pts: map<string, Point>, X: string, A: string, B: string)
    requires X in pts && A in pts && B in pts
    ensures Line2Sif(b, pts, Line("perpAt", [X, A, B])).Ok? <==> pts[A].y != pts[B].y
    ensures Line2Sif(b, pts, Line("perpAt", [X, A, B])).Ok? ==>
              var l := Line2Sif(b, pts, Line("perpAt", [X, A, B])).value;
              OnLine(l, pts[X]) && forall P :: OnLine(l, P) ==> PerpPhi(P, pts[X], pts[A], pts[B]) == 0.0
  {
    assert AllDefined(pts, [X, A, B]);
    var r := Line2Sif(b, pts, Line("perpAt", [X, A, B]));
    if r.Ok? {
      var l := r.value;
      forall P | OnLine(l, P)
        ensures PerpPhi(P, pts[X], pts[A], pts[B]) == 0.0
      {
        QuarterTurnLine(l, pts[X], pts[A].Minus(pts[B]), P);
      }
    }
  }

  /** The mediator of AB is its perpendicular bisector: every point of it is equally far
      from A and from B. */
  lemma MediatorLine(b: Backend, pts: map<string, Point>, A: string, B: string)
    requires A in pts && B in pts
    ensures Line2Sif(b, pts, Line("mediator", [A, B])).Ok? <==> pts[A].y != pts[B].y
    ensures Line2Sif(b, pts, Line("mediator", [A, B])).Ok? ==>
              var l := Line2Sif(b, pts, Line("mediator", [A, B])).value;
              OnLine(l, Midp(pts[A], pts[B])) && forall P :: OnLine(l, P) ==> SqDist(P, pts[A]) == SqDist(P, pts[B])
  {
    assert AllDefined(pts, [A, B]);
    var r := Line2Sif(b, pts, Line("mediator", [A, B]));
    if r.Ok? {
      var l := r.value;
      var M := Midp(pts[A], pts[B]);
      var u := pts[A].Minus(pts[B]);
      QuarterTurnEquidistant(M, u, pts[A], pts[B]);
      forall P | OnLine(l, P)
        ensures SqDist(P, pts[A]) == SqDist(P, pts[B])
      {
        EquidistantAlongLine(l, l.p1, l.p2, pts[A], pts[B], P);
      }
    }
  }

  /** Moving from a point equally far from A and B orthogonally to AB keeps it so. */
  lemma QuarterTurnEquidistant(M: Point, u: Point, A: Point, B: Point)
    requires u == A.Minus(B) && SqDist(M, A) == SqDist(M, B)
    ensures SqDist(M.Plus(RotateCounterclockwise90(u)), A) == SqDist(M.Plus(RotateCounterclockwise90(u)), B)
  {
    var w := RotateCounterclockwise90(u);
    assert InnerProduct(w, u) == 0.0;
    var gx, gy := B.x - A.x, B.y - A.y;
    var c := A.x * A.x + A.y * A.y - B.x * B.x - B.y * B.y;
    SqDistDifferenceIsAffine(M, A, B, gx, gy, c);
    SqDistDifferenceIsAffine(M.Plus(w), A, B, gx, gy, c);
  }

  /** With exact square roots the foot X lies on the ray from B through A, as far from B as
      C is. */
  lemma BisectorFootOnRay(b: Backend, A: Point, B: Point, C: Point)
    requires SqrtExactAt(b, SqDist(B, A)) && SqrtExactAt(b, SqDist(B, C)) && A != B
    ensures BisectorFoot(b, A, B, C).Ok?
    ensures var X := BisectorFoot(b, A, B, C).value;
            SqDist(X, B) == SqDist(C, B) && ParaPhi(X, B, A, B) == 0.0 && PerpPhi(X, B, A, B) >= 0.0
  {
    DistExact(b, B, A);
    DistExact(b, B, C);
    var d, len := Dist(b, B, A), Dist(b, B, C);
    SqDistIsSquaredNorm(B, A);
    SqDistIsSquaredNorm(B, C);
    Sampling.WalkAlong(B, A, d, len);
    var X := BisectorFoot(b, A, B, C).value;
    assert X == B.Plus(A.Minus(B).Smul(len / d));
    var k := len / d;
    assert k >= 0.0;
    ScaledInner(A.Minus(B), k);
    SqDistIsSquaredNorm(A, B);
  }

  /** (k v).v = k |v|^2, which is non-negative for k >= 0. */
  lemma ScaledInner(v: Point, k: real)
    requires k >= 0.0
    ensures InnerProduct(v.Smul(k), v) == k * InnerProduct(v, v)
    ensures InnerProduct(v.Smul(k), v) >= 0.0
  {
    assert InnerProduct(v, v) >= 0.0;
  }

  /** The internal bisector at B is the mirror line taking the foot X on BA to C: every point
      of it is equally far from X and from C. */
  lemma IbisectorLine(b: Backend, pts: map<string, Point>, A: string, B: string, C: string)
    requires A in pts && B in pts && C in pts && pts[A] != pts[B]
    requires SqrtExactAt(b, SqDist(pts[B], pts[A])) && SqrtExactAt(b, SqDist(pts[B], pts[C]))
    requires Line2Sif(b, pts, Line("ibisector", [A, B, C])).Ok?
    ensures BisectorFoot(b, pts[A], pts[B], pts[C]).Ok?
    ensures var l := Line2Sif(b, pts, Line("ibisector", [A, B, C])).value;
            var X := BisectorFoot(b, pts[A], pts[B], pts[C]).value;
            OnLine(l, pts[B]) && forall P :: OnLine(l, P) ==> SqDist(P, X) == SqDist(P, pts[C])
  {
    assert AllDefined(pts, [A, B, C]);
    BisectorFootOnRay(b, pts[A], pts[B], pts[C]);
    var l := Line2Sif(b, pts, Line("ibisector", [A, B, C])).value;
    var X := BisectorFoot(b, pts[A], pts[B], pts[C]).value;
    SqDistIsSquaredNorm(X, pts[B]);
    SqDistIsSquaredNorm(pts[C], pts[B]);
    assert SqDist(pts[B], X) == SqDist(pts[B], pts[C]);
    assert l.p2 == Midp(X, pts[C]);
    forall P | OnLine(l, P)
      ensures SqDist(P, X) == SqDist(P, pts[C])
    {
      EquidistantAlongLine(l, l.p1, l.p2, X, pts[C], P);
    }
  }

  /** The external bisector at B is perpendicular to the internal one: every point P of it
      has P - B orthogonal to the internal bisector's direction. */
  lemma EbisectorLine(b: Backend, pts: map<string, Point>, A: string, B: string, C: string)
    requires A in pts && B in pts && C in pts
    requires Line2Sif(b, pts, Line("ibisector", [A, B, C])).Ok?
    requires Line2Sif(b, pts, Line("ebisector", [A, B, C])).Ok?
    ensures var li := Line2Sif(b, pts, Line("ibisector", [A, B, C])).value;
            var le := Line2Sif(b, pts, Line("ebisector", [A, B, C])).value;
            li.p1 == pts[B] && le.p1 == pts[B]
            && forall P :: OnLine(le, P) ==> PerpPhi(P, pts[B], li.p2, pts[B]) == 0.0
  {
    assert AllDefined(pts, [A, B, C]);
    var li := Line2Sif(b, pts, Line("ibisector", [A, B, C])).value;
    var le := Line2Sif(b, pts, Line("ebisector", [A, B, C])).value;
    forall P | OnLine(le, P)
      ensures PerpPhi(P, pts[B], li.p2, pts[B]) == 0.0
    {
      QuarterTurnLine(le, pts[B], li.p2.Minus(pts[B]), P);
    }
  }

  /** The line of eqoangle leaves B in the direction of BC turned by the angle DEF: the
      direction's inner product with BC is the backend cosine of that angle times |BC|^2,
      and with an exact sine and cosine the direction is as long as BC. */
  lemma EqoangleLine(b: Backend, pts: map<string, Point>, B: string, C: string, D: string, E: string, F: string)
    requires B in pts && C in pts && D in pts && E in pts && F in pts
    requires Line2Sif(b, pts, Line("eqoangle", [B, C, D, E, F])).Ok?
    ensures Angle(b, pts[D], pts[E], pts[F]).Ok?
    ensures var l := Line2Sif(b, pts, Line("eqoangle", [B, C, D, E, F])).value;
            var theta := Angle(b, pts[D], pts[E], pts[F]).value;
            l.p1 == pts[B]
            && InnerProduct(l.p2.Minus(l.p1), pts[C].Minus(pts[B])) == b.cos(theta) * SqDist(pts[C], pts[B])
            && (TrigExactAt(b, theta) ==> SqDist(l.p2, l.p1) == SqDist(pts[C], pts[B]))
  {
    assert AllDefined(pts, [B, C, D, E, F]);
    var l := Line2Sif(b, pts, Line("eqoangle", [B, C, D, E, F])).value;
    var theta := Angle(b, pts[D], pts[E], pts[F]).value;
    var v := pts[C].Minus(pts[B]);
    assert l.p2 == pts[B].Plus(RotateBy(b, theta, v));
    assert l.p2.Minus(l.p1) == RotateBy(b, theta, v);
    RotatedDirection(b, theta, l.p1, l.p2, pts[B], pts[C]);
  }

  /** A direction P1P2 that is BC rotated by theta has inner product cos(theta) |BC|^2 with BC,
      and is as long as BC when the backend's sine and cosine are exact at theta. */
  lemma RotatedDirection(b: Backend, theta: real, P1: Point, P2: Point, B: Point, C: Point)
    requires P2.Minus(P1) == RotateBy(b, theta, C.Minus(B))
    ensures InnerProduct(P2.Minus(P1), C.Minus(B)) == b.cos(theta) * SqDist(C, B)
    ensures TrigExactAt(b, theta) ==> SqDist(P2, P1) == SqDist(C, B)
  {
    var v := C.Minus(B);
    RotationInner(b.cos(theta), b.sin(theta), v);
    SqDistIsSquaredNorm(C, B);
    SqDistIsSquaredNorm(P2, P1);
  }

  /** A rotation by (cos, sin) moves v so that its inner product with v is cos |v|^2,
      whatever the backend's sine and cosine are. */
  lemma RotationInner(cos: real, sin: real, v: Point)
    ensures InnerProduct(RotateCounterclockwise(cos, sin, v), v) == cos * InnerProduct(v, v)
  {
  }
}
