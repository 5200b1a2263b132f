/** The numeric backend the compiler delegates to (sqrtV, sinV, cosV, acosV, tanhV, sigmoidV,
    math.pi and the trainable variables made by mkvar), kept uninterpreted, and the
    geometry built on it: dist, side_lengths, angle and rotation by an angle. */
module Backends {
  import opened Points
  import opened Results
  import opened Triangles

  /** The backend as a bundle of opaque operations. `param(k)` is the current value of the
      k-th trainable variable, numbered in creation order. */
  datatype Backend = Backend(
    param: nat -> real,
    sqrt: real -> real,
    sin: real -> real,
    cos: real -> real,
    acos: real -> real,
    tanh: real -> real,
    sigmoid: real -> real,
    pi: real)

  /** The backend's square root is the exact non-negative root at v. */
  predicate SqrtExactAt(b: Backend, v: real) {
    b.sqrt(v) >= 0.0 && b.sqrt(v) * b.sqrt(v) == v
  }

  /** The backend's tanh at v lies strictly between -1 and 1, as the true tanh does. */
  predicate TanhBoundedAt(b: Backend, v: real) {
    -1.0 < b.tanh(v) < 1.0
  }

  /** The backend's sine and cosine at theta lie on the unit circle. */
  predicate TrigExactAt(b: Backend, theta: real) {
    b.cos(theta) * b.cos(theta) + b.sin(theta) * b.sin(theta) == 1.0
  }

  function Dist(b: Backend, A: Point, B: Point): real {
    b.sqrt(SqDist(A, B))
  }

  /** The triangle ABC with its side lengths |BC|, |CA|, |AB| measured by the backend. */
  function MeasureTriangle(b: Backend, A: Point, B: Point, C: Point): (t: Triangle)
    ensures t.A == A && t.B == B && t.C == C
    ensures t.a == Dist(b, B, C) && t.b == Dist(b, C, A) && t.c == Dist(b, A, B)
  {
    Triangle(A, B, C, Dist(b, B, C), Dist(b, C, A), Dist(b, A, B))
  }

  /** The angle at B between BA and BC, through the law of cosines; the source divides by
      2|BC||AB|, which fails when a side is degenerate. */
  function Angle(b: Backend, A: Point, B: Point, C: Point): (r: Result<real>)
    ensures r.Err? <==> 2.0 * Dist(b, B, C) * Dist(b, A, B) == 0.0
    ensures r.Err? ==> r.error == Degenerate
  {
    var a, bb, c := Dist(b, B, C), Dist(b, C, A), Dist(b, A, B);
    if 2.0 * a * c == 0.0 then Err(Degenerate)
    else Ok(b.acos(CosineRule(a, bb, c)))
  }

  /** The cosine of the angle between the sides of lengths a and c, opposite the side bb. */
  function CosineRule(a: real, bb: real, c: real): real
    requires 2.0 * a * c != 0.0
  {
    (a * a + c * c - bb * bb) / (2.0 * a * c)
  }

  /** Rotation of v counterclockwise by theta, with the backend's cosine and sine. */
  function RotateBy(b: Backend, theta: real, v: Point): (r: Point)
    ensures TrigExactAt(b, theta) ==> InnerProduct(r, r) == InnerProduct(v, v)
  {
    assert TrigExactAt(b, theta) ==> InnerProduct(RotateCounterclockwise(b.cos(theta), b.sin(theta), v), RotateCounterclockwise(b.cos(theta), b.sin(theta), v)) == InnerProduct(v, v) by {
      if TrigExactAt(b, theta) {
        RotationIsometry(b.cos(theta), b.sin(theta), v);
      }
    }
    RotateCounterclockwise(b.cos(theta), b.sin(theta), v)
  }

  // ---------------------------------------------------------------------------
  // Laws
  // ---------------------------------------------------------------------------

  /** Where the square root is exact, dist is the Euclidean distance: non-negative, squaring
      to the squared distance, and zero exactly for coincident points. */
  lemma DistExact(b: Backend, A: Point, B: Point)
    requires SqrtExactAt(b, SqDist(A, B))
    ensures Dist(b, A, B) >= 0.0
    ensures Dist(b, A, B) * Dist(b, A, B) == SqDist(A, B)
    ensures Dist(b, A, B) == 0.0 <==> A == B
  {
    var d := Dist(b, A, B);
    if A != B {
      SqDistPositive(A, B);
    } else {
      assert d * d == 0.0;
      SquareZero(d);
    }
  }

  /** With exact square roots, the measured triangle of three distinct points carries its
      true, positive side lengths. */
  lemma MeasuredWhenExact(b: Backend, A: Point, B: Point, C: Point)
    requires SqrtExactAt(b, SqDist(B, C)) && SqrtExactAt(b, SqDist(C, A)) && SqrtExactAt(b, SqDist(A, B))
    requires A != B && B != C && C != A
    ensures Measured(MeasureTriangle(b, A, B, C))
  {
    DistExact(b, B, C);
    DistExact(b, C, A);
    DistExact(b, A, B);
  }

  /** With exact square roots, the angle at B is undefined exactly when B coincides with A
      or with C. */
  lemma AngleFailsIffCoincident(b: Backend, A: Point, B: Point, C: Point)
    requires SqrtExactAt(b, SqDist(B, C)) && SqrtExactAt(b, SqDist(A, B))
    ensures Angle(b, A, B, C).Err? <==> A == B || C == B
  {
    var a, c := Dist(b, B, C), Dist(b, A, B);
    DistSquared(b, B, C, a);
    DistSquared(b, A, B, c);
    ZeroSides(a, c);
  }

  /** 2 a c is zero exactly when a or c is. */
  lemma ZeroSides(a: real, c: real)
    ensures 2.0 * a * c == 0.0 <==> a == 0.0 || c == 0.0
  {
    if a != 0.0 && c != 0.0 {
      assert (2.0 * a * c) / a == 2.0 * c;
    }
  }

  /** With exact square roots, the acos argument is the cosine of the angle at B: the inner
      product of BA and BC over the product of their lengths. */
  lemma AngleCosine(b: Backend, A: Point, B: Point, C: Point)
    requires SqrtExactAt(b, SqDist(B, C)) && SqrtExactAt(b, SqDist(C, A)) && SqrtExactAt(b, SqDist(A, B))
    requires A != B && C != B
    ensures Dist(b, B, C) * Dist(b, A, B) > 0.0
    ensures Angle(b, A, B, C)
         == Ok(b.acos(InnerProduct(A.Minus(B), C.Minus(B)) / (Dist(b, B, C) * Dist(b, A, B))))
  {
    var a, bb, c := Dist(b, B, C), Dist(b, C, A), Dist(b, A, B);
    var I := InnerProduct(A.Minus(B), C.Minus(B));
    SidesAtAngle(b, A, B, C, a, bb, c, I);
    CosineQuotient(a, c, bb, I);
    AngleFromCosine(b, A, B, C, a, bb, c, I);
  }

  /** Angle is acos of the cosine rule on the measured sides, whenever that is defined. */
  lemma AngleFromCosine(b: Backend, A: Point, B: Point, C: Point, a: real, bb: real, c: real, I: real)
    requires a == Dist(b, B, C) && bb == Dist(b, C, A) && c == Dist(b, A, B)
    requires I == InnerProduct(A.Minus(B), C.Minus(B))
    requires a * c > 0.0 && 2.0 * a * c != 0.0 && CosineRule(a, bb, c) == I / (a * c)
    ensures Dist(b, B, C) * Dist(b, A, B) > 0.0
    ensures Angle(b, A, B, C)
         == Ok(b.acos(InnerProduct(A.Minus(B), C.Minus(B)) / (Dist(b, B, C) * Dist(b, A, B))))
  {
    assert Dist(b, B, C) * Dist(b, A, B) == a * c;
  }

  /** The measured sides at B are positive and satisfy the law of cosines with I = BA.BC. */
  lemma SidesAtAngle(b: Backend, A: Point, B: Point, C: Point, a: real, bb: real, c: real, I: real)
    requires SqrtExactAt(b, SqDist(B, C)) && SqrtExactAt(b, SqDist(C, A)) && SqrtExactAt(b, SqDist(A, B))
    requires A != B && C != B
    requires a == Dist(b, B, C) && bb == Dist(b, C, A) && c == Dist(b, A, B)
    requires I == InnerProduct(A.Minus(B), C.Minus(B))
    ensures a > 0.0 && c > 0.0
    ensures a * a + c * c - bb * bb == 2.0 * I
  {
    DistSquared(b, B, C, a);
    DistSquared(b, C, A, bb);
    DistSquared(b, A, B, c);
    LawOfCosines(A, B, C);
  }

  /** DistExact for a distance held in a variable. */
  lemma DistSquared(b: Backend, A: Point, B: Point, d: real)
    requires SqrtExactAt(b, SqDist(A, B)) && d == Dist(b, A, B)
    ensures d >= 0.0 && d * d == SqDist(A, B)
    ensures d == 0.0 <==> A == B
  {
    DistExact(b, A, B);
  }

  /** The law of cosines at B: |BC|^2 + |AB|^2 - |CA|^2 = 2 BA.BC. */
  lemma LawOfCosines(A: Point, B: Point, C: Point)
    ensures SqDist(B, C) + SqDist(A, B) - SqDist(C, A) == 2.0 * InnerProduct(A.Minus(B), C.Minus(B))
  {
    Polarization(B, A, C);
    SqDistIsSquaredNorm(A, B);
    SqDistIsSquaredNorm(C, A);
  }

  lemma CosineQuotient(a: real, c: real, bb: real, I: real)
    requires a > 0.0 && c > 0.0
    requires a * a + c * c - bb * bb == 2.0 * I
    ensures a * c > 0.0
    ensures 2.0 * a * c != 0.0
    ensures CosineRule(a, bb, c) == I / (a * c)
  {
    PositiveProduct(a, c);
    var ac := a * c;
    assert 2.0 * a * c == 2.0 * ac;
    HalveQuotient(I, ac);
  }

  lemma SqDistPositive(A: Point, B: Point)
    requires A != B
    ensures SqDist(A, B) > 0.0
  {
    var dx, dy := A.x - B.x, A.y - B.y;
    assert dx != 0.0 || dy != 0.0;
    SumOfSquaresPositive(dx, dy);
    calc {
      SqDist(A, B);
    ==
      dx * dx + dy * dy;
    >
      0.0;
    }
  }

  /** A backend whose square root is exact at zero returns zero there. */
  lemma SqrtOfZero(b: Backend)
    requires SqrtExactAt(b, 0.0)
    ensures b.sqrt(0.0) == 0.0
  {
    var d := b.sqrt(0.0);
    SquareZero(d);
  }

  lemma SquareZero(d: real)
    requires d * d == 0.0
    ensures d == 0.0
  {
    if d > 0.0 {
      PositiveProduct(d, d);
      calc {
        0.0;
      ==
        d * d;
      >
        0.0;
      }
    } else if d < 0.0 {
      PositiveProduct(-d, -d);
      calc {
        0.0;
      ==
        d * d;
      ==
        (-d) * (-d);
      >
        0.0;
      }
    }
  }

  lemma HalveQuotient(p: real, q: real)
    requires q != 0.0
    ensures (2.0 * p) / (2.0 * q) == p / q
  {
  }
}
