/** Lines in slope-intercept normal form (pp2sif) and their intersection (inter_ll). */
module Lines {
  import opened Points
  import opened Results

  /** The line y = m*x + b, remembering the two points it was built from. */
  datatype SlopeIntercept = SlopeIntercept(m: real, b: real, p1: Point, p2: Point)

  /** The number of fields of the source's SlopeInterceptForm record. */
  const SlopeInterceptFields: nat := 4

  predicate OnLine(l: SlopeIntercept, P: Point) {
    P.y == l.m * P.x + l.b
  }

  /** The non-vertical line through two points with distinct abscissae: both points lie on it. */
  function PointsToSlopeIntercept(p1: Point, p2: Point): (l: SlopeIntercept)
    requires p1.x != p2.x
    ensures OnLine(l, p1) && OnLine(l, p2)
    ensures l.p1 == p1 && l.p2 == p2
  {
    var m := (p2.y - p1.y) / (p2.x - p1.x);
    var b := p1.y - m * p1.x;
    assert m * (p2.x - p1.x) == p2.y - p1.y;
    SlopeIntercept(m, b, p1, p2)
  }

  /** Slope and intercept are determined by two points of the line with distinct abscissae. */
  lemma PointsToSlopeInterceptUnique(p1: Point, p2: Point, l: SlopeIntercept)
    requires p1.x != p2.x
    requires OnLine(l, p1) && OnLine(l, p2)
    ensures l.m == PointsToSlopeIntercept(p1, p2).m
    ensures l.b == PointsToSlopeIntercept(p1, p2).b
  {
    var k := PointsToSlopeIntercept(p1, p2);
    assert (l.m - k.m) * (p2.x - p1.x) == 0.0;
    assert l.m == k.m;
  }

  /** The crossing point of two lines of different slopes lies on both lines. */
  function InterLL(l1: SlopeIntercept, l2: SlopeIntercept): (P: Point)
    requires l1.m != l2.m
    ensures OnLine(l1, P) && OnLine(l2, P)
  {
    var px := (l2.b - l1.b) / (l1.m - l2.m);
    var py := l1.m * px + l1.b;
    assert (l1.m - l2.m) * px == l2.b - l1.b;
    Point(px, py)
  }

  /** Two lines of different slopes meet in exactly one point. */
  lemma InterLLUnique(l1: SlopeIntercept, l2: SlopeIntercept, Q: Point)
    requires l1.m != l2.m
    requires OnLine(l1, Q) && OnLine(l2, Q)
    ensures Q == InterLL(l1, l2)
  {
    var P := InterLL(l1, l2);
    assert (l1.m - l2.m) * (Q.x - P.x) == 0.0;
    assert Q.x == P.x;
  }

  /** inter_ll as intended: the crossing point, or a degeneracy error for parallel lines
      (where the source divides by m1 - m2 = 0). */
  function InterLLChecked(l1: SlopeIntercept, l2: SlopeIntercept): (r: Result<Point>)
    ensures r.Ok? <==> l1.m != l2.m
    ensures r.Ok? ==> OnLine(l1, r.value) && OnLine(l2, r.value)
  {
    if l1.m == l2.m then Err(Degenerate) else Ok(InterLL(l1, l2))
  }

  /** inter_ll as written: it unpacks each four-field normal form into two names, which
      fails for every argument. The unpacking succeeds only for a two-field record, so the
      else branch, which continues as intended, is never reached. */
  function InterLLAsWritten(l1: SlopeIntercept, l2: SlopeIntercept): (r: Result<Point>)
    ensures r == Err(ArityMismatch)
  {
    if SlopeInterceptFields != 2 then Err(ArityMismatch) else InterLLChecked(l1, l2)
  }

  /** The diagonals y = x and y = 1 - x of the unit square. */
  const Diagonal := SlopeIntercept(1.0, 0.0, Point(0.0, 0.0), Point(1.0, 1.0))
  const AntiDiagonal := SlopeIntercept(-1.0, 1.0, Point(0.0, 1.0), Point(1.0, 0.0))

  /** The finding, on a concrete pair of lines: the diagonals of the unit square cross at
      (1/2, 1/2), which the intended computation finds and the written one never reaches. */
  lemma InterLLUnpackingFinding()
    ensures InterLLAsWritten(Diagonal, AntiDiagonal).Err?
    ensures InterLLChecked(Diagonal, AntiDiagonal) == Ok(Point(0.5, 0.5))
  {
    InterLLUnique(Diagonal, AntiDiagonal, Point(0.5, 0.5));
  }

  /** Three points of one line are collinear: the direction from Q to P is parallel to the
      direction from Q to R. */
  lemma OnLineCollinear(l: SlopeIntercept, P: Point, Q: Point, R: Point)
    requires OnLine(l, P) && OnLine(l, Q) && OnLine(l, R)
    ensures (P.x - Q.x) * (R.y - Q.y) - (P.y - Q.y) * (R.x - Q.x) == 0.0
  {
    assert P.y - Q.y == l.m * (P.x - Q.x);
    assert R.y - Q.y == l.m * (R.x - Q.x);
  }

  /** A point of the line through Q1 and Q2 (distinct abscissae) is Q1 + t (Q2 - Q1). */
  lemma OnLineParameter(l: SlopeIntercept, Q1: Point, Q2: Point, P: Point) returns (t: real)
    requires Q1.x != Q2.x && OnLine(l, Q1) && OnLine(l, Q2) && OnLine(l, P)
    ensures P.x == Q1.x + t * (Q2.x - Q1.x)
    ensures P.y == Q1.y + t * (Q2.y - Q1.y)
  {
    t := (P.x - Q1.x) / (Q2.x - Q1.x);
    assert t * (Q2.x - Q1.x) == P.x - Q1.x;
    calc {
      P.y - Q1.y;
      l.m * (P.x - Q1.x);
      l.m * (t * (Q2.x - Q1.x));
      t * (l.m * (Q2.x - Q1.x));
      t * (Q2.y - Q1.y);
    }
  }

  /** If two points of a non-vertical line are each equally far from U and from V, so is
      every point of the line: the line is the perpendicular bisector of UV (or U = V). */
  lemma EquidistantAlongLine(l: SlopeIntercept, Q1: Point, Q2: Point, U: Point, V: Point, P: Point)
    requires Q1.x != Q2.x && OnLine(l, Q1) && OnLine(l, Q2) && OnLine(l, P)
    requires SqDist(Q1, U) == SqDist(Q1, V) && SqDist(Q2, U) == SqDist(Q2, V)
    ensures SqDist(P, U) == SqDist(P, V)
  {
    var t := OnLineParameter(l, Q1, Q2, P);
    EquidistantOnSegment(Q1, Q2, U, V, P, t);
  }

  lemma EquidistantOnSegment(Q1: Point, Q2: Point, U: Point, V: Point, P: Point, t: real)
    requires P.x == Q1.x + t * (Q2.x - Q1.x) && P.y == Q1.y + t * (Q2.y - Q1.y)
    requires SqDist(Q1, U) == SqDist(Q1, V) && SqDist(Q2, U) == SqDist(Q2, V)
    ensures SqDist(P, U) == SqDist(P, V)
  {
    var gx, gy := V.x - U.x, V.y - U.y;
    var c := U.x * U.x + U.y * U.y - V.x * V.x - V.y * V.y;
    SqDistDifferenceIsAffine(Q1, U, V, gx, gy, c);
    SqDistDifferenceIsAffine(Q2, U, V, gx, gy, c);
    AffineVanishesOnSegment(P.x, P.y, Q1.x, Q1.y, Q2.x, Q2.y, gx, gy, c, t);
    SqDistDifferenceIsAffine(P, U, V, gx, gy, c);
  }

  /** The difference |PU|^2 - |PV|^2 written as the affine function 2 P.g + c. */
  function Gap(P: Point, gx: real, gy: real, c: real): real {
    2.0 * (P.x * gx + P.y * gy) + c
  }

  /** |PU|^2 - |PV|^2 is an affine function of P. */
  lemma SqDistDifferenceIsAffine(P: Point, U: Point, V: Point, gx: real, gy: real, c: real)
    requires gx == V.x - U.x && gy == V.y - U.y
    requires c == U.x * U.x + U.y * U.y - V.x * V.x - V.y * V.y
    ensures SqDist(P, U) - SqDist(P, V) == Gap(P, gx, gy, c)
  {
  }

  lemma AffineVanishesOnSegment(px: real, py: real, q1x: real, q1y: real, q2x: real, q2y: real,
                                gx: real, gy: real, c: real, t: real)
    requires px == q1x + t * (q2x - q1x) && py == q1y + t * (q2y - q1y)
    requires Gap(Point(q1x, q1y), gx, gy, c) == 0.0
    requires Gap(Point(q2x, q2y), gx, gy, c) == 0.0
    ensures Gap(Point(px, py), gx, gy, c) == 0.0
  {
    assert (q2x - q1x) * gx + (q2y - q1y) * gy == 0.0;
    calc {
      px * gx + py * gy;
      q1x * gx + q1y * gy + t * ((q2x - q1x) * gx + (q2y - q1y) * gy);
      q1x * gx + q1y * gy;
    }
  }
}
