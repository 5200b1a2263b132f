/** Triangle centres through trilinear and barycentric coordinates (conway_vals, trilinear,
    barycentric, circumcenter, orthocenter, centroid, incenter). */
module Triangles {
  import opened Points
  import opened Residuals

  /** A triangle together with its side lengths a = |BC|, b = |CA|, c = |AB|, which the
      source obtains from the backend's square root. */
  datatype Triangle = Triangle(A: Point, B: Point, C: Point, a: real, b: real, c: real)

  /** The side lengths are the positive Euclidean lengths of the sides. */
  predicate Measured(t: Triangle) {
    && t.a > 0.0 && t.b > 0.0 && t.c > 0.0
    && t.a * t.a == SqDist(t.B, t.C)
    && t.b * t.b == SqDist(t.C, t.A)
    && t.c * t.c == SqDist(t.A, t.B)
  }

  /** The same triangle with its vertices relabelled B, C, A. */
  function Relabel(t: Triangle): Triangle {
    Triangle(t.B, t.C, t.A, t.b, t.c, t.a)
  }

  /** The Conway values (Sa, Sb, Sc); each pair sums to the square of the side between. */
  function ConwayVals(t: Triangle): (S: (real, real, real))
    ensures S.0 + S.1 == t.c * t.c
    ensures S.1 + S.2 == t.a * t.a
    ensures S.2 + S.0 == t.b * t.b
  {
    ((t.b * t.b + t.c * t.c - t.a * t.a) / 2.0,
     (t.c * t.c + t.a * t.a - t.b * t.b) / 2.0,
     (t.a * t.a + t.b * t.b - t.c * t.c) / 2.0)
  }

  /** The weighted average of the three vertices: the reference against which the
      coordinate conversions are stated. */
  function Combine(A: Point, B: Point, C: Point, u: real, v: real, w: real): Point
    requires u + v + w != 0.0
  {
    Point((u * A.x + v * B.x + w * C.x) / (u + v + w), (u * A.y + v * B.y + w * C.y) / (u + v + w))
  }

  /** Trilinear coordinates x : y : z are the barycentric weights ax : by : cz. */
  function Trilinear(t: Triangle, x: real, y: real, z: real): (P: Point)
    requires t.a * x + t.b * y + t.c * z != 0.0
    ensures P == Combine(t.A, t.B, t.C, t.a * x, t.b * y, t.c * z)
  {
    var denom := t.a * x + t.b * y + t.c * z;
    Point((t.a * x * t.A.x + t.b * y * t.B.x + t.c * z * t.C.x) / denom,
          (t.a * x * t.A.y + t.b * y * t.B.y + t.c * z * t.C.y) / denom)
  }

  /** Trilinear coordinates are homogeneous: scaling all three by a nonzero k names the
      same point. */
  lemma TrilinearHomogeneous(t: Triangle, x: real, y: real, z: real, k: real)
    requires t.a * x + t.b * y + t.c * z != 0.0 && k != 0.0
    ensures t.a * (k * x) + t.b * (k * y) + t.c * (k * z) != 0.0
    ensures Trilinear(t, k * x, k * y, k * z) == Trilinear(t, x, y, z)
  {
    ScaledWeight(t.a, k, x);
    ScaledWeight(t.b, k, y);
    ScaledWeight(t.c, k, z);
    CombineHomogeneous(t.A, t.B, t.C, t.a * x, t.b * y, t.c * z, t.a * (k * x), t.b * (k * y), t.c * (k * z), k);
  }

  lemma ScaledWeight(a: real, k: real, x: real)
    ensures a * (k * x) == k * (a * x)
  {
  }

  /** Weights u', v', w' that are k times u, v, w give the same weighted average. */
  lemma CombineHomogeneous(A: Point, B: Point, C: Point, u: real, v: real, w: real,
                           u': real, v': real, w': real, k: real)
    requires u + v + w != 0.0 && k != 0.0
    requires u' == k * u && v' == k * v && w' == k * w
    ensures u' + v' + w' != 0.0
    ensures Combine(A, B, C, u', v', w') == Combine(A, B, C, u, v, w)
  {
    ScaledAverage(u, v, w, u', v', w', k, A.x, B.x, C.x);
    ScaledAverage(u, v, w, u', v', w', k, A.y, B.y, C.y);
  }

  lemma ScaledAverage(u: real, v: real, w: real, u': real, v': real, w': real, k: real,
                      p: real, q: real, r: real)
    requires u + v + w != 0.0 && k != 0.0
    requires u' == k * u && v' == k * v && w' == k * w
    ensures u' + v' + w' != 0.0
    ensures (u' * p + v' * q + w' * r) / (u' + v' + w') == (u * p + v * q + w * r) / (u + v + w)
  {
    assert u' + v' + w' == k * (u + v + w);
    assert u' * p + v' * q + w' * r == k * (u * p + v * q + w * r);
    DivScaled(u * p + v * q + w * r, u + v + w, k);
  }

  lemma DivScaled(p: real, W: real, k: real)
    requires W != 0.0 && k != 0.0
    ensures (k * p) / (k * W) == p / W
  {
  }

  /** When the source's divisions by the side lengths and by the weight sum are defined. */
  predicate BarycentricDefined(t: Triangle, x: real, y: real, z: real) {
    t.a != 0.0 && t.b != 0.0 && t.c != 0.0 && x + y + z != 0.0
  }

  /** Barycentric weights collapse to the weighted average of the vertices. */
  function Barycentric(t: Triangle, x: real, y: real, z: real): (P: Point)
    requires BarycentricDefined(t, x, y, z)
    ensures P == Combine(t.A, t.B, t.C, x, y, z)
  {
    DivCancels(t.a, x);
    DivCancels(t.b, y);
    DivCancels(t.c, z);
    Trilinear(t, x / t.a, y / t.b, z / t.c)
  }

  function CircumcenterWeights(t: Triangle): (real, real, real) {
    var S := ConwayVals(t);
    (t.a * t.a * S.0, t.b * t.b * S.1, t.c * t.c * S.2)
  }

  function OrthocenterWeights(t: Triangle): (real, real, real) {
    var S := ConwayVals(t);
    (S.1 * S.2, S.2 * S.0, S.0 * S.1)
  }

  predicate CircumcenterDefined(t: Triangle) {
    var w := CircumcenterWeights(t);
    BarycentricDefined(t, w.0, w.1, w.2)
  }

  predicate OrthocenterDefined(t: Triangle) {
    var w := OrthocenterWeights(t);
    BarycentricDefined(t, w.0, w.1, w.2)
  }

  function Circumcenter(t: Triangle): Point
    requires CircumcenterDefined(t)
  {
    var w := CircumcenterWeights(t);
    Barycentric(t, w.0, w.1, w.2)
  }

  function Orthocenter(t: Triangle): Point
    requires OrthocenterDefined(t)
  {
    var w := OrthocenterWeights(t);
    Barycentric(t, w.0, w.1, w.2)
  }

  function Centroid(t: Triangle): Point
    requires BarycentricDefined(t, 1.0, 1.0, 1.0)
  {
    Barycentric(t, 1.0, 1.0, 1.0)
  }

  /** The incenter weighs each vertex by the length of the opposite side. */
  function Incenter(t: Triangle): (P: Point)
    requires t.a + t.b + t.c != 0.0
    ensures P == Combine(t.A, t.B, t.C, t.a, t.b, t.c)
  {
    Trilinear(t, 1.0, 1.0, 1.0)
  }

  // ---------------------------------------------------------------------------
  // Laws
  // ---------------------------------------------------------------------------

  /** The centroid is the average of the three vertices. */
  lemma CentroidIsVertexAverage(t: Triangle)
    requires BarycentricDefined(t, 1.0, 1.0, 1.0)
    ensures Centroid(t) == Point((t.A.x + t.B.x + t.C.x) / 3.0, (t.A.y + t.B.y + t.C.y) / 3.0)
  {
  }

  /** For a measured triangle the Conway values are the inner products of the two edge
      vectors at each vertex: Sa = AB.AC, Sb = BC.BA, Sc = CA.CB. */
  lemma ConwayAsInnerProducts(t: Triangle)
    requires Measured(t)
    ensures ConwayVals(t).0 == InnerProduct(t.B.Minus(t.A), t.C.Minus(t.A))
    ensures ConwayVals(t).1 == InnerProduct(t.C.Minus(t.B), t.A.Minus(t.B))
    ensures ConwayVals(t).2 == InnerProduct(t.A.Minus(t.C), t.B.Minus(t.C))
  {
    Polarization(t.A, t.B, t.C);
    Polarization(t.B, t.C, t.A);
    Polarization(t.C, t.A, t.B);
    SqDistIsSquaredNorm(t.A, t.B);
    SqDistIsSquaredNorm(t.B, t.C);
    SqDistIsSquaredNorm(t.C, t.A);
  }

  /** The circumcenter is equally far from the three vertices. */
  lemma CircumcenterEquidistant(t: Triangle)
    requires Measured(t) && CircumcenterDefined(t)
    ensures SqDist(Circumcenter(t), t.A) == SqDist(Circumcenter(t), t.B)
    ensures SqDist(Circumcenter(t), t.B) == SqDist(Circumcenter(t), t.C)
  {
    CircumcenterEquidistantAB(t);
    RelabelKeepsMeasured(t);
    RelabelKeepsCircumcenter(t);
    CircumcenterEquidistantAB(Relabel(t));
  }

  /** The orthocenter lies on the three altitudes: HA is perpendicular to BC, HB to CA and
      HC to AB. */
  lemma OrthocenterOnAltitudes(t: Triangle)
    requires Measured(t) && OrthocenterDefined(t)
    ensures PerpPhi(Orthocenter(t), t.A, t.B, t.C) == 0.0
    ensures PerpPhi(Orthocenter(t), t.B, t.C, t.A) == 0.0
    ensures PerpPhi(Orthocenter(t), t.C, t.A, t.B) == 0.0
  {
    var t1 := Relabel(t);
    var t2 := Relabel(t1);
    RelabelKeepsCentres(t);
    RelabelKeepsCentres(t1);
    OrthocenterAltitudeAtA(t);
    OrthocenterAltitudeAtA(t1);
    OrthocenterAltitudeAtA(t2);
  }

  /** In an equilateral triangle the circumcenter, the orthocenter and the centroid coincide. */
  lemma EquilateralCentresCoincide(t: Triangle)
    requires t.a > 0.0 && t.a == t.b == t.c
    ensures CircumcenterDefined(t) && OrthocenterDefined(t) && BarycentricDefined(t, 1.0, 1.0, 1.0)
    ensures Circumcenter(t) == Centroid(t)
    ensures Orthocenter(t) == Centroid(t)
  {
    var s := t.a;
    var q := s * s;
    PositiveProduct(s, s);
    calc {
      q;
    ==
      s * s;
    >
      0.0;
    }
    var h := q / 2.0;
    HalfPositive(q);
    var S := ConwayVals(t);
    assert S.0 == h && S.1 == h && S.2 == h;
    PositiveProduct(q, h);
    PositiveProduct(h, h);
    var wc := CircumcenterWeights(t);
    assert wc.0 == q * h && wc.1 == q * h && wc.2 == q * h;
    var wo := OrthocenterWeights(t);
    assert wo.0 == h * h && wo.1 == h * h && wo.2 == h * h;
    CombineEqualWeights(t.A, t.B, t.C, q * h);
    CombineEqualWeights(t.A, t.B, t.C, h * h);
    CombineEqualWeights(t.A, t.B, t.C, 1.0);
  }

  // ---------------------------------------------------------------------------
  // Helpers
  // ---------------------------------------------------------------------------

  lemma DivCancels(a: real, x: real)
    requires a != 0.0
    ensures a * (x / a) == x
  {
  }

  lemma ZeroProduct(w: real, d: real)
    requires w != 0.0 && w * d == 0.0
    ensures d == 0.0
  {
  }

  lemma PositiveProduct(p: real, q: real)
    requires p > 0.0 && q > 0.0
    ensures p * q > 0.0
  {
  }

  lemma HalfPositive(p: real)
    requires p > 0.0
    ensures p / 2.0 > 0.0
  {
  }

  /** Equal nonzero weights give the vertex average whatever their common value. */
  lemma CombineEqualWeights(A: Point, B: Point, C: Point, w: real)
    requires w > 0.0
    ensures Combine(A, B, C, w, w, w) == Combine(A, B, C, 1.0, 1.0, 1.0)
  {
    var P := Combine(A, B, C, w, w, w);
    assert P.x == w * (A.x + B.x + C.x) / (w * 3.0);
    assert P.y == w * (A.y + B.y + C.y) / (w * 3.0);
  }

  /** Relabelling the vertices (with their weights) does not move the weighted average. */
  lemma CombineRelabel(A: Point, B: Point, C: Point, u: real, v: real, w: real)
    requires u + v + w != 0.0
    ensures Combine(B, C, A, v, w, u) == Combine(A, B, C, u, v, w)
  {
  }

  /** Scaled by W, the x- (or y-) contribution to |PA|^2 - |PB|^2 where W * p == n. */
  lemma ScaledSquareDifference(p: real, a: real, b: real, W: real, n: real)
    requires W * p == n
    ensures W * ((p - a) * (p - a) - (p - b) * (p - b)) == (b - a) * (2.0 * n - W * (a + b))
  {
    calc {
      W * ((p - a) * (p - a) - (p - b) * (p - b));
      W * ((b - a) * (2.0 * p - a - b));
      (b - a) * (2.0 * (W * p) - W * (a + b));
    }
  }

  lemma CoordinateIdentity(a: real, b: real, c: real, x: real, y: real, z: real)
    ensures (b - a) * (2.0 * (x * a + y * b + z * c) - (x + y + z) * (a + b))
         == (y - x) * ((a - b) * (a - b)) + z * ((c - a) * (c - a) - (b - c) * (b - c))
  {
  }

  /** One coordinate's share of the identity below, where W * p == x * a + y * b + z * c. */
  lemma CoordinateShare(p: real, a: real, b: real, c: real, x: real, y: real, z: real)
    requires (x + y + z) * p == x * a + y * b + z * c
    ensures (x + y + z) * ((p - a) * (p - a) - (p - b) * (p - b))
         == (y - x) * ((a - b) * (a - b)) + z * ((c - a) * (c - a) - (b - c) * (b - c))
  {
    ScaledSquareDifference(p, a, b, x + y + z, x * a + y * b + z * c);
    CoordinateIdentity(a, b, c, x, y, z);
  }

  /** Both coordinates' shares together: for P the (x, y, z)-weighted average of A, B, C,
      (x + y + z) (|PA|^2 - |PB|^2) = |AB|^2 (y - x) + z (|CA|^2 - |BC|^2), in coordinates. */
  lemma PlaneShare(xp: real, yp: real, xa: real, ya: real, xb: real, yb: real, xc: real, yc: real,
                   x: real, y: real, z: real)
    requires (x + y + z) * xp == x * xa + y * xb + z * xc
    requires (x + y + z) * yp == x * ya + y * yb + z * yc
    ensures (x + y + z) * (((xp - xa) * (xp - xa) + (yp - ya) * (yp - ya)) - ((xp - xb) * (xp - xb) + (yp - yb) * (yp - yb)))
         == ((xa - xb) * (xa - xb) + (ya - yb) * (ya - yb)) * (y - x)
            + z * (((xc - xa) * (xc - xa) + (yc - ya) * (yc - ya)) - ((xb - xc) * (xb - xc) + (yb - yc) * (yb - yc)))
  {
    CoordinateShare(xp, xa, xb, xc, x, y, z);
    CoordinateShare(yp, ya, yb, yc, x, y, z);
  }

  /** In coordinates: a weighted average whose weights balance the sides is as far from A as from B. */
  lemma BalancedCoordinates(xp: real, yp: real, xa: real, ya: real, xb: real, yb: real, xc: real, yc: real,
                            x: real, y: real, z: real)
    requires ((xa - xb) * (xa - xb) + (ya - yb) * (ya - yb)) * (y - x)
             + z * (((xc - xa) * (xc - xa) + (yc - ya) * (yc - ya)) - ((xb - xc) * (xb - xc) + (yb - yc) * (yb - yc))) == 0.0
    requires x + y + z != 0.0
    requires (x + y + z) * xp == x * xa + y * xb + z * xc
    requires (x + y + z) * yp == x * ya + y * yb + z * yc
    ensures (xp - xa) * (xp - xa) + (yp - ya) * (yp - ya) == (xp - xb) * (xp - xb) + (yp - yb) * (yp - yb)
  {
    PlaneShare(xp, yp, xa, ya, xb, yb, xc, yc, x, y, z);
    ZeroProduct(x + y + z, ((xp - xa) * (xp - xa) + (yp - ya) * (yp - ya)) - ((xp - xb) * (xp - xb) + (yp - yb) * (yp - yb)));
  }

  /** The balance condition below written out in coordinates. */
  lemma BalanceInCoordinates(t: Triangle, x: real, y: real, z: real)
    requires t.a * t.a == SqDist(t.B, t.C) && t.b * t.b == SqDist(t.C, t.A) && t.c * t.c == SqDist(t.A, t.B)
    requires t.c * t.c * (y - x) + z * (t.b * t.b - t.a * t.a) == 0.0
    ensures ((t.A.x - t.B.x) * (t.A.x - t.B.x) + (t.A.y - t.B.y) * (t.A.y - t.B.y)) * (y - x)
            + z * (((t.C.x - t.A.x) * (t.C.x - t.A.x) + (t.C.y - t.A.y) * (t.C.y - t.A.y))
                   - ((t.B.x - t.C.x) * (t.B.x - t.C.x) + (t.B.y - t.C.y) * (t.B.y - t.C.y))) == 0.0
  {
  }

  /** BalancedCoordinates for the vertices of a triangle. */
  lemma BalancedPointCoordinates(t: Triangle, P: Point, x: real, y: real, z: real)
    requires x + y + z != 0.0
    requires (x + y + z) * P.x == x * t.A.x + y * t.B.x + z * t.C.x
    requires (x + y + z) * P.y == x * t.A.y + y * t.B.y + z * t.C.y
    requires ((t.A.x - t.B.x) * (t.A.x - t.B.x) + (t.A.y - t.B.y) * (t.A.y - t.B.y)) * (y - x)
             + z * (((t.C.x - t.A.x) * (t.C.x - t.A.x) + (t.C.y - t.A.y) * (t.C.y - t.A.y))
                    - ((t.B.x - t.C.x) * (t.B.x - t.C.x) + (t.B.y - t.C.y) * (t.B.y - t.C.y))) == 0.0
    ensures (P.x - t.A.x) * (P.x - t.A.x) + (P.y - t.A.y) * (P.y - t.A.y)
         == (P.x - t.B.x) * (P.x - t.B.x) + (P.y - t.B.y) * (P.y - t.B.y)
  {
    BalancedCoordinates(P.x, P.y, t.A.x, t.A.y, t.B.x, t.B.y, t.C.x, t.C.y, x, y, z);
  }

  lemma SqDistsFrom(P: Point, t: Triangle)
    ensures SqDist(P, t.A) == (P.x - t.A.x) * (P.x - t.A.x) + (P.y - t.A.y) * (P.y - t.A.y)
    ensures SqDist(P, t.B) == (P.x - t.B.x) * (P.x - t.B.x) + (P.y - t.B.y) * (P.y - t.B.y)
  {
  }

  /** In a measured triangle, a point P with (x + y + z) P = x A + y B + z C is as far from A
      as from B when c^2 (y - x) + z (b^2 - a^2) = 0. */
  lemma WeightedAverageEquidistantAB(t: Triangle, P: Point, x: real, y: real, z: real)
    requires Measured(t)
    requires x + y + z != 0.0
    requires (x + y + z) * P.x == x * t.A.x + y * t.B.x + z * t.C.x
    requires (x + y + z) * P.y == x * t.A.y + y * t.B.y + z * t.C.y
    requires t.c * t.c * (y - x) + z * (t.b * t.b - t.a * t.a) == 0.0
    ensures SqDist(P, t.A) == SqDist(P, t.B)
  {
    BalanceInCoordinates(t, x, y, z);
    BalancedPointCoordinates(t, P, x, y, z);
    SqDistsFrom(P, t);
  }

  /** A weighted average of the vertices, scaled by the weight sum, is the weighted sum. */
  lemma CombineScaled(t: Triangle, P: Point, x: real, y: real, z: real)
    requires x + y + z != 0.0
    requires P == Combine(t.A, t.B, t.C, x, y, z)
    ensures (x + y + z) * P.x == x * t.A.x + y * t.B.x + z * t.C.x
    ensures (x + y + z) * P.y == x * t.A.y + y * t.B.y + z * t.C.y
  {
    DivCancels(x + y + z, x * t.A.x + y * t.B.x + z * t.C.x);
    DivCancels(x + y + z, x * t.A.y + y * t.B.y + z * t.C.y);
  }

  /** The circumcenter weights (x, y, z) = (a^2 Sa, b^2 Sb, c^2 Sc) balance the squared sides:
      c^2 (y - x) + z (b^2 - a^2) = 0. */
  lemma CircumWeightsBalance(t: Triangle, x: real, y: real, z: real)
    requires x == CircumcenterWeights(t).0 && y == CircumcenterWeights(t).1 && z == CircumcenterWeights(t).2
    ensures t.c * t.c * (y - x) + z * (t.b * t.b - t.a * t.a) == 0.0
  {
    SidesBalance(t.a, t.b, t.c, ConwayVals(t).0, ConwayVals(t).1, ConwayVals(t).2, x, y, z);
  }

  /** With sides a, b, c, their Conway values sa, sb, sc and the weights
      wa = a^2 sa, wb = b^2 sb, wc = c^2 sc: c^2 (wb - wa) + wc (b^2 - a^2) = 0. */
  lemma SidesBalance(a: real, b: real, c: real, sa: real, sb: real, sc: real, wa: real, wb: real, wc: real)
    requires sa == (b * b + c * c - a * a) / 2.0 && sb == (c * c + a * a - b * b) / 2.0 && sc == (a * a + b * b - c * c) / 2.0
    requires wa == a * a * sa && wb == b * b * sb && wc == c * c * sc
    ensures c * c * (wb - wa) + wc * (b * b - a * a) == 0.0
  {
  }

  /** The circumcenter scaled by the weight sum is the weighted sum of the vertices. */
  lemma CircumcenterScaled(t: Triangle, P: Point, x: real, y: real, z: real)
    requires CircumcenterDefined(t) && P == Circumcenter(t)
    requires x == CircumcenterWeights(t).0 && y == CircumcenterWeights(t).1 && z == CircumcenterWeights(t).2
    ensures x + y + z != 0.0
    ensures (x + y + z) * P.x == x * t.A.x + y * t.B.x + z * t.C.x
    ensures (x + y + z) * P.y == x * t.A.y + y * t.B.y + z * t.C.y
  {
    CombineScaled(t, P, x, y, z);
  }

  /** The circumcenter of the A-side pair: |OA| = |OB|. */
  lemma CircumcenterEquidistantAB(t: Triangle)
    requires Measured(t) && CircumcenterDefined(t)
    ensures SqDist(Circumcenter(t), t.A) == SqDist(Circumcenter(t), t.B)
  {
    var x, y, z := CircumcenterWeights(t).0, CircumcenterWeights(t).1, CircumcenterWeights(t).2;
    var P := Circumcenter(t);
    CircumWeightsBalance(t, x, y, z);
    CircumcenterScaled(t, P, x, y, z);
    WeightedAverageEquidistantAB(t, P, x, y, z);
  }

  lemma RelabelKeepsCircumcenter(t: Triangle)
    requires CircumcenterDefined(t)
    ensures CircumcenterDefined(Relabel(t)) && Circumcenter(Relabel(t)) == Circumcenter(t)
  {
    RelabelCircumcenterWeights(t);
    assert CircumcenterDefined(Relabel(t));
    assert Circumcenter(Relabel(t)) == Combine(t.B, t.C, t.A, CircumcenterWeights(t).1, CircumcenterWeights(t).2, CircumcenterWeights(t).0);
    CombineRelabel(t.A, t.B, t.C, CircumcenterWeights(t).0, CircumcenterWeights(t).1, CircumcenterWeights(t).2);
  }

  lemma RelabelCircumcenterWeights(t: Triangle)
    ensures CircumcenterWeights(Relabel(t)).0 == CircumcenterWeights(t).1
    ensures CircumcenterWeights(Relabel(t)).1 == CircumcenterWeights(t).2
    ensures CircumcenterWeights(Relabel(t)).2 == CircumcenterWeights(t).0
  {
    RotatedSquares(t.b, t.c, t.a, Relabel(t).a, Relabel(t).b, Relabel(t).c);
    assert ConwayVals(Relabel(t)).0 == ConwayVals(t).1;
    assert ConwayVals(Relabel(t)).1 == ConwayVals(t).2;
    assert ConwayVals(Relabel(t)).2 == ConwayVals(t).0;
  }

  /** One coordinate's share of the altitude identity, where W * p == x * a + y * b + z * c. */
  lemma AltitudeTerm(p: real, a: real, b: real, c: real, x: real, y: real, z: real)
    requires (x + y + z) * p == x * a + y * b + z * c
    ensures (x + y + z) * ((p - a) * (b - c)) == y * ((b - a) * (b - c)) + z * ((c - a) * (b - c))
  {
    assert (x + y + z) * (p - a) == y * (b - a) + z * (c - a);
  }

  /** In coordinates, for H the (x, y, z)-weighted average of A, B, C:
      (x + y + z) (H - A).(B - C) = y (B - A).(B - C) + z (C - A).(B - C). */
  lemma AltitudeCoordinates(hx: real, hy: real, ax: real, ay: real, bx: real, by_: real, cx: real, cy: real,
                            x: real, y: real, z: real)
    requires (x + y + z) * hx == x * ax + y * bx + z * cx
    requires (x + y + z) * hy == x * ay + y * by_ + z * cy
    ensures (x + y + z) * ((hx - ax) * (bx - cx) + (hy - ay) * (by_ - cy))
         == y * ((bx - ax) * (bx - cx) + (by_ - ay) * (by_ - cy)) + z * ((cx - ax) * (bx - cx) + (cy - ay) * (by_ - cy))
  {
    AltitudeTerm(hx, ax, bx, cx, x, y, z);
    AltitudeTerm(hy, ay, by_, cy, x, y, z);
  }

  /** AltitudeCoordinates for the vertices of a triangle. */
  lemma AltitudePoints(t: Triangle, H: Point, x: real, y: real, z: real)
    requires (x + y + z) * H.x == x * t.A.x + y * t.B.x + z * t.C.x
    requires (x + y + z) * H.y == x * t.A.y + y * t.B.y + z * t.C.y
    ensures (x + y + z) * ((H.x - t.A.x) * (t.B.x - t.C.x) + (H.y - t.A.y) * (t.B.y - t.C.y))
         == y * ((t.B.x - t.A.x) * (t.B.x - t.C.x) + (t.B.y - t.A.y) * (t.B.y - t.C.y))
            + z * ((t.C.x - t.A.x) * (t.B.x - t.C.x) + (t.C.y - t.A.y) * (t.B.y - t.C.y))
  {
    AltitudeCoordinates(H.x, H.y, t.A.x, t.A.y, t.B.x, t.B.y, t.C.x, t.C.y, x, y, z);
  }

  /** A point H with (x + y + z) H = x A + y B + z C lies on the altitude from A when
      y (B - A).(B - C) + z (C - A).(B - C) = 0, the two inner products being u and v. */
  lemma WeightedAverageOnAltitudeA(t: Triangle, H: Point, x: real, y: real, z: real, u: real, v: real)
    requires x + y + z != 0.0
    requires (x + y + z) * H.x == x * t.A.x + y * t.B.x + z * t.C.x
    requires (x + y + z) * H.y == x * t.A.y + y * t.B.y + z * t.C.y
    requires u == (t.B.x - t.A.x) * (t.B.x - t.C.x) + (t.B.y - t.A.y) * (t.B.y - t.C.y)
    requires v == (t.C.x - t.A.x) * (t.B.x - t.C.x) + (t.C.y - t.A.y) * (t.B.y - t.C.y)
    requires y * u + z * v == 0.0
    ensures PerpPhi(H, t.A, t.B, t.C) == 0.0
  {
    AltitudePoints(t, H, x, y, z);
  }

  /** With true side lengths, Sb = (B - A).(B - C) and Sc = -(C - A).(B - C). */
  lemma ConwayAtAltitudeA(t: Triangle)
    requires Measured(t)
    ensures ConwayVals(t).1 == (t.B.x - t.A.x) * (t.B.x - t.C.x) + (t.B.y - t.A.y) * (t.B.y - t.C.y)
    ensures ConwayVals(t).2 == -((t.C.x - t.A.x) * (t.B.x - t.C.x) + (t.C.y - t.A.y) * (t.B.y - t.C.y))
  {
  }

  /** The orthocenter weights (Sb Sc, Sc Sa, Sa Sb) satisfy y Sb - z Sc = 0. */
  lemma OrthoWeightsProduct(t: Triangle, x: real, y: real, z: real, u: real, v: real)
    requires x == OrthocenterWeights(t).0 && y == OrthocenterWeights(t).1 && z == OrthocenterWeights(t).2
    requires u == ConwayVals(t).1 && v == -ConwayVals(t).2
    ensures y * u + z * v == 0.0
  {
  }

  /** The orthocenter weights balance the inner products at the altitude from A. */
  lemma OrthoWeightsBalance(t: Triangle, x: real, y: real, z: real, u: real, v: real)
    requires Measured(t)
    requires x == OrthocenterWeights(t).0 && y == OrthocenterWeights(t).1 && z == OrthocenterWeights(t).2
    requires u == (t.B.x - t.A.x) * (t.B.x - t.C.x) + (t.B.y - t.A.y) * (t.B.y - t.C.y)
    requires v == (t.C.x - t.A.x) * (t.B.x - t.C.x) + (t.C.y - t.A.y) * (t.B.y - t.C.y)
    ensures y * u + z * v == 0.0
  {
    ConwayAtAltitudeA(t);
    OrthoWeightsProduct(t, x, y, z, u, v);
  }

  /** The orthocenter scaled by the weight sum is the weighted sum of the vertices. */
  lemma OrthocenterScaled(t: Triangle, H: Point, x: real, y: real, z: real)
    requires OrthocenterDefined(t) && H == Orthocenter(t)
    requires x == OrthocenterWeights(t).0 && y == OrthocenterWeights(t).1 && z == OrthocenterWeights(t).2
    ensures x + y + z != 0.0
    ensures (x + y + z) * H.x == x * t.A.x + y * t.B.x + z * t.C.x
    ensures (x + y + z) * H.y == x * t.A.y + y * t.B.y + z * t.C.y
  {
    CombineScaled(t, H, x, y, z);
  }

  /** The orthocenter lies on the altitude from A. */
  lemma OrthocenterAltitudeAtA(t: Triangle)
    requires Measured(t) && OrthocenterDefined(t)
    ensures PerpPhi(Orthocenter(t), t.A, t.B, t.C) == 0.0
  {
    var x, y, z := OrthocenterWeights(t).0, OrthocenterWeights(t).1, OrthocenterWeights(t).2;
    var H := Orthocenter(t);
    var u := (t.B.x - t.A.x) * (t.B.x - t.C.x) + (t.B.y - t.A.y) * (t.B.y - t.C.y);
    var v := (t.C.x - t.A.x) * (t.B.x - t.C.x) + (t.C.y - t.A.y) * (t.B.y - t.C.y);
    OrthocenterScaled(t, H, x, y, z);
    OrthoWeightsBalance(t, x, y, z, u, v);
    WeightedAverageOnAltitudeA(t, H, x, y, z, u, v);
  }

  /** Relabelling keeps the triangle measured and moves neither centre. */
  lemma RelabelKeepsCentres(t: Triangle)
    ensures Measured(t) ==> Measured(Relabel(t))
    ensures OrthocenterDefined(t) ==> OrthocenterDefined(Relabel(t)) && Orthocenter(Relabel(t)) == Orthocenter(t)
  {
    if Measured(t) {
      RelabelKeepsMeasured(t);
    }
    if OrthocenterDefined(t) {
      RelabelKeepsOrthocenter(t);
    }
  }

  lemma RelabelKeepsMeasured(t: Triangle)
    requires Measured(t)
    ensures Measured(Relabel(t))
  {
    RotatedSquares(t.b, t.c, t.a, Relabel(t).a, Relabel(t).b, Relabel(t).c);
  }

  lemma RelabelKeepsOrthocenter(t: Triangle)
    requires OrthocenterDefined(t)
    ensures OrthocenterDefined(Relabel(t)) && Orthocenter(Relabel(t)) == Orthocenter(t)
  {
    RelabelOrthocenterWeights(t);
    assert OrthocenterDefined(Relabel(t));
    assert Orthocenter(Relabel(t)) == Combine(t.B, t.C, t.A, OrthocenterWeights(t).1, OrthocenterWeights(t).2, OrthocenterWeights(t).0);
    CombineRelabel(t.A, t.B, t.C, OrthocenterWeights(t).0, OrthocenterWeights(t).1, OrthocenterWeights(t).2);
  }

  /** Relabelling rotates the orthocenter weights along with the vertices. */
  lemma RelabelOrthocenterWeights(t: Triangle)
    ensures OrthocenterWeights(Relabel(t)) == (OrthocenterWeights(t).1, OrthocenterWeights(t).2, OrthocenterWeights(t).0)
  {
    RotatedSquares(t.b, t.c, t.a, Relabel(t).a, Relabel(t).b, Relabel(t).c);
    assert ConwayVals(Relabel(t)).0 == ConwayVals(t).1;
    assert ConwayVals(Relabel(t)).1 == ConwayVals(t).2;
    assert ConwayVals(Relabel(t)).2 == ConwayVals(t).0;
    RotatedProducts(ConwayVals(t).0, ConwayVals(t).1, ConwayVals(t).2,
                    ConwayVals(Relabel(t)).0, ConwayVals(Relabel(t)).1, ConwayVals(Relabel(t)).2);
    assert OrthocenterWeights(Relabel(t)).0 == OrthocenterWeights(t).1;
    assert OrthocenterWeights(Relabel(t)).1 == OrthocenterWeights(t).2;
    assert OrthocenterWeights(Relabel(t)).2 == OrthocenterWeights(t).0;
  }

  lemma RotatedSquares(a: real, b: real, c: real, a': real, b': real, c': real)
    requires a' == a && b' == b && c' == c
    ensures a' * a' == a * a && b' * b' == b * b && c' * c' == c * c
  {
  }

  lemma RotatedProducts(s0: real, s1: real, s2: real, r0: real, r1: real, r2: real)
    requires r0 == s1 && r1 == s2 && r2 == s0
    ensures r1 * r2 == s2 * s0 && r2 * r0 == s0 * s1 && r0 * r1 == s1 * s2
  {
  }
}
