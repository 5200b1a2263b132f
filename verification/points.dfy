/** The point algebra and the closed-form vector geometry the compiler is built on
    (optimizer.py, "Comp. Geo" section). Coordinates are exact reals. */
module Points {

  /** A point (or vector) of the plane. */
  datatype Point = Point(x: real, y: real)
  {
    function Plus(q: Point): Point {
      Point(x + q.x, y + q.y)
    }

    function Minus(q: Point): Point {
      Point(x - q.x, y - q.y)
    }

    function Smul(k: real): Point {
      Point(k * x, k * y)
    }
  }

  /** A 2x2 matrix given by its two rows. */
  datatype Matrix = Matrix(row1: Point, row2: Point)

  function SqDist(A: Point, B: Point): real {
    (A.x - B.x) * (A.x - B.x) + (A.y - B.y) * (A.y - B.y)
  }

  function InnerProduct(A: Point, B: Point): real {
    A.x * B.x + A.y * B.y
  }

  /** The midpoint of A and B: it is equally far from both ends, at half their distance. */
  function Midp(A: Point, B: Point): (M: Point)
    ensures SqDist(M, A) == SqDist(M, B)
    ensures 4.0 * SqDist(M, A) == SqDist(A, B)
  {
    A.Plus(B).Smul(0.5)
  }

  /** The endpoint P whose midpoint with A is M. */
  function MidpFrom(M: Point, A: Point): (P: Point)
    ensures Midp(A, P) == M
  {
    A.Plus(M.Minus(A).Smul(2.0))
  }

  function MatrixMul(mat: Matrix, pt: Point): Point {
    Point(InnerProduct(mat.row1, pt), InnerProduct(mat.row2, pt))
  }

  /** The rotation matrix for an angle, given the backend's cosine and sine of it. */
  function RotationMatrix(cos: real, sin: real): Matrix {
    Matrix(Point(cos, -sin), Point(sin, cos))
  }

  function RotateCounterclockwise(cos: real, sin: real, pt: Point): Point {
    MatrixMul(RotationMatrix(cos, sin), pt)
  }

  function RotateClockwise90(pt: Point): Point {
    MatrixMul(Matrix(Point(0.0, 1.0), Point(-1.0, 0.0)), pt)
  }

  /** The quarter turn: orthogonal to its argument and just as long. */
  function RotateCounterclockwise90(pt: Point): (r: Point)
    ensures InnerProduct(r, pt) == 0.0
    ensures InnerProduct(r, r) == InnerProduct(pt, pt)
  {
    MatrixMul(Matrix(Point(0.0, -1.0), Point(1.0, 0.0)), pt)
  }

  // ---------------------------------------------------------------------------
  // Laws
  // ---------------------------------------------------------------------------

  /** Reconstructing B from the midpoint of A and B and the endpoint A gives B back. */
  lemma MidpRoundTrip(A: Point, B: Point)
    ensures MidpFrom(Midp(A, B), A) == B
  {
  }

  /** The two quarter turns undo each other. */
  lemma RotationsInverse(v: Point)
    ensures RotateClockwise90(RotateCounterclockwise90(v)) == v
    ensures RotateCounterclockwise90(RotateClockwise90(v)) == v
  {
  }

  /** The general rotation by the angle whose cosine is 0 and sine is 1 (resp. -1)
      is the counterclockwise (resp. clockwise) quarter turn. */
  lemma QuarterTurnIsRotation(v: Point)
    ensures RotateCounterclockwise(0.0, 1.0, v) == RotateCounterclockwise90(v)
    ensures RotateCounterclockwise(0.0, -1.0, v) == RotateClockwise90(v)
  {
  }

  /** A rotation (cos^2 + sin^2 = 1) keeps lengths, and rotating back by the opposite
      angle (same cosine, negated sine) undoes it. */
  lemma RotationIsometry(cos: real, sin: real, v: Point)
    requires cos * cos + sin * sin == 1.0
    ensures InnerProduct(RotateCounterclockwise(cos, sin, v), RotateCounterclockwise(cos, sin, v))
         == InnerProduct(v, v)
    ensures RotateCounterclockwise(cos, -sin, RotateCounterclockwise(cos, sin, v)) == v
  {
    var r := RotateCounterclockwise(cos, sin, v);
    calc {
      InnerProduct(r, r);
      (cos * v.x - sin * v.y) * (cos * v.x - sin * v.y) + (sin * v.x + cos * v.y) * (sin * v.x + cos * v.y);
      (cos * cos + sin * sin) * (v.x * v.x + v.y * v.y);
      InnerProduct(v, v);
    }
    var back := RotateCounterclockwise(cos, -sin, r);
    assert back.x == (cos * cos + sin * sin) * v.x;
    assert back.y == (cos * cos + sin * sin) * v.y;
  }

  /** Squared distance is the squared length of the difference vector. */
  lemma SqDistIsSquaredNorm(A: Point, B: Point)
    ensures SqDist(A, B) == InnerProduct(A.Minus(B), A.Minus(B))
    ensures SqDist(A, B) == SqDist(B, A)
  {
  }

  /** A sum of two squares, not both of zero, is positive. */
  lemma SumOfSquaresPositive(a: real, b: real)
    requires a != 0.0 || b != 0.0
    ensures a * a + b * b > 0.0
  {
    if a != 0.0 {
      assert a * a > 0.0;
      assert b * b >= 0.0;
    } else {
      assert b * b > 0.0;
    }
  }

  /** A nonzero vector has a positive squared length. */
  lemma SquaredNormPositive(v: Point)
    requires v != Point(0.0, 0.0)
    ensures InnerProduct(v, v) > 0.0
  {
    var a, b := v.x, v.y;
    SumOfSquaresPositive(a, b);
    calc {
      InnerProduct(v, v);
    ==
      a * a + b * b;
    >
      0.0;
    }
  }

  /** The law of cosines in vector form: the inner product of the two edge vectors at P
      is determined by the three squared side lengths. */
  lemma Polarization(P: Point, Q: Point, R: Point)
    ensures 2.0 * InnerProduct(Q.Minus(P), R.Minus(P)) == SqDist(P, Q) + SqDist(P, R) - SqDist(Q, R)
  {
  }
}
