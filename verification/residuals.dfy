/** Residuals of the asserted predicates (perp_phi, para_phi, cong_diff, coll_phi):
    scalars that vanish exactly on the configurations the predicates describe. */
module Residuals {
  import opened Points

  /** Dot product of the direction vectors A-B and C-D. */
  function PerpPhi(A: Point, B: Point, C: Point, D: Point): (r: real)
    ensures r == InnerProduct(A.Minus(B), C.Minus(D))
  {
    (A.x - B.x) * (C.x - D.x) + (A.y - B.y) * (C.y - D.y)
  }

  /** Cross product of the direction vectors A-B and C-D. */
  function ParaPhi(A: Point, B: Point, C: Point, D: Point): real
  {
    (A.x - B.x) * (C.y - D.y) - (A.y - B.y) * (C.x - D.x)
  }

  /** Difference of the squared lengths of AB and CD. */
  function CongDiff(A: Point, B: Point, C: Point, D: Point): (r: real)
    ensures r == 0.0 <==> SqDist(A, B) == SqDist(C, D)
  {
    SqDist(A, B) - SqDist(C, D)
  }

  /** Twice the signed area of the triangle ABC. */
  function CollPhi(A: Point, B: Point, C: Point): real
  {
    A.x * (B.y - C.y) + B.x * (C.y - A.y) + C.x * (A.y - B.y)
  }

  // ---------------------------------------------------------------------------
  // Laws
  // ---------------------------------------------------------------------------

  /** The parallelism residual is the dot product of the quarter-turned A-B with C-D. */
  lemma ParaPhiIsRotatedInner(A: Point, B: Point, C: Point, D: Point)
    ensures ParaPhi(A, B, C, D) == InnerProduct(RotateCounterclockwise90(A.Minus(B)), C.Minus(D))
  {
  }

  /** The collinearity residual of A, B, C is the parallelism residual of AB and AC. */
  lemma CollPhiIsParaPhi(A: Point, B: Point, C: Point)
    ensures CollPhi(A, B, C) == ParaPhi(A, B, A, C)
  {
  }

  /** A segment is parallel to itself; its self-perpendicularity residual is its squared length. */
  lemma ResidualsOnSameSegment(A: Point, B: Point)
    ensures ParaPhi(A, B, A, B) == 0.0
    ensures PerpPhi(A, B, A, B) == SqDist(A, B)
  {
  }

  /** A horizontal AB and a vertical CD are perpendicular. */
  lemma PerpAxisAligned(A: Point, B: Point, C: Point, D: Point)
    requires A.y == B.y && C.x == D.x
    ensures PerpPhi(A, B, C, D) == 0.0
  {
  }

  /** The perpendicularity residual in terms of distances alone (the four-point form of the
      polarization identity): 2 (A-B).(C-D) = |AD|^2 + |BC|^2 - |AC|^2 - |BD|^2. */
  lemma PerpPhiFromDistances(A: Point, B: Point, C: Point, D: Point)
    ensures 2.0 * PerpPhi(A, B, C, D) == SqDist(A, D) + SqDist(B, C) - SqDist(A, C) - SqDist(B, D)
  {
  }

  /** Reversing the first segment flips the sign of both direction residuals;
      congruence is antisymmetric in its two segments. */
  lemma ResidualSigns(A: Point, B: Point, C: Point, D: Point)
    ensures PerpPhi(B, A, C, D) == -PerpPhi(A, B, C, D)
    ensures ParaPhi(B, A, C, D) == -ParaPhi(A, B, C, D)
    ensures CongDiff(A, B, C, D) == -CongDiff(C, D, A, B)
  {
  }

  /** For a proper segment AB, the parallelism residual vanishes exactly when C-D is a
      multiple of A-B. */
  lemma ParaPhiZeroIffParallel(A: Point, B: Point, C: Point, D: Point)
    requires A != B
    ensures ParaPhi(A, B, C, D) == 0.0 <==> exists k: real :: C.Minus(D) == A.Minus(B).Smul(k)
  {
    var u := A.Minus(B);
    var v := C.Minus(D);
    if ParaPhi(A, B, C, D) == 0.0 {
      assert u.x * v.y == u.y * v.x;
      var n := u.x * u.x + u.y * u.y;
      assert n > 0.0 by {
        assert u != Point(0.0, 0.0);
        SquaredNormPositive(u);
      }
      var k := (u.x * v.x + u.y * v.y) / n;
      assert k * n == u.x * v.x + u.y * v.y;
      assert k * u.x * n == v.x * n by {
        calc {
          k * u.x * n;
          (u.x * v.x + u.y * v.y) * u.x;
          u.x * u.x * v.x + u.y * (u.x * v.y);
          u.x * u.x * v.x + u.y * (u.y * v.x);
          v.x * n;
        }
      }
      assert k * u.y * n == v.y * n by {
        calc {
          k * u.y * n;
          (u.x * v.x + u.y * v.y) * u.y;
          u.x * (u.y * v.x) + u.y * u.y * v.y;
          u.x * (u.x * v.y) + u.y * u.y * v.y;
          v.y * n;
        }
      }
      assert v == u.Smul(k);
    }
  }

  /** For a proper segment AB, the perpendicularity residual vanishes exactly when C-D is a
      multiple of the quarter-turned A-B. */
  lemma PerpPhiZeroIffPerpendicular(A: Point, B: Point, C: Point, D: Point)
    requires A != B
    ensures PerpPhi(A, B, C, D) == 0.0
        <==> exists k: real :: C.Minus(D) == RotateCounterclockwise90(A.Minus(B)).Smul(k)
  {
    var u := A.Minus(B);
    var w := RotateCounterclockwise90(u);
    // Rewriting AB's direction as the quarter turn of w reduces this to parallelism with w.
    var E := w.Plus(B);
    assert E.Minus(B) == w;
    assert E != B by { assert InnerProduct(w, w) == InnerProduct(u, u); }
    assert PerpPhi(A, B, C, D) == -ParaPhi(E, B, C, D);
    ParaPhiZeroIffParallel(E, B, C, D);
  }

  /** The collinearity residual vanishes when two of its points coincide. */
  lemma CollPhiCoincident(A: Point, B: Point, C: Point)
    ensures CollPhi(A, A, C) == 0.0 && CollPhi(A, B, B) == 0.0 && CollPhi(A, B, A) == 0.0
  {
  }

  /** The midpoint of AB is collinear with A and B. */
  lemma CollPhiMidpoint(A: Point, B: Point)
    ensures CollPhi(A, B, Midp(A, B)) == 0.0
  {
    var M := Midp(A, B);
    assert M.x == 0.5 * (A.x + B.x) && M.y == 0.5 * (A.y + B.y);
  }

  /** The collinearity residual is invariant under cyclic relabelling and changes sign
      when two points are swapped. */
  lemma CollPhiSymmetry(A: Point, B: Point, C: Point)
    ensures CollPhi(A, B, C) == CollPhi(B, C, A)
    ensures CollPhi(B, A, C) == -CollPhi(A, B, C)
  {
  }
}
