/** Signed distance estimators of the primitive shapes. Each returns the
    distance from `p` to the surface, negative inside the solid. */
module SdEstimators {
  import opened Cvec

  /** Box of half-extents `s` centred at the origin: `max(abs(p) - s)`, the
      largest per-axis excess of `|p[i]|` over `s[i]`. */
  function SdBox(p: Vec3, s: Vec3): (d: real)
    ensures forall i :: 0 <= i < 3 ==> d >= Fabs(p[i]) - s[i]
    ensures d == Fabs(p[0]) - s[0] || d == Fabs(p[1]) - s[1] || d == Fabs(p[2]) - s[2]
  {
    MaxOf3(Sub(AbsEach(p), s))
  }

  /** Sphere of radius `r` centred at the origin: `norm(p) - r`. */
  ghost function SdSphere(p: Vec3, r: real): (d: real)
    ensures d >= -r
    ensures (forall i :: 0 <= i < 3 ==> p[i] == 0.0) ==> d == -r
  {
    if forall i :: 0 <= i < 3 ==> p[i] == 0.0 then
      SqrtOfSquare(0.0);
      Norm(p) - r
    else
      Norm(p) - r
  }

  /** Horizontal plane at height `y`: the norm of the vector from `p` to its
      projection `(p[0], y, p[2])`. It is never negative, so the region below
      the plane is not "inside". */
  ghost function SdPlane(p: Vec3, y: real): (d: real)
    ensures d == Fabs(p[1] - y)
  {
    var v := Sub(Of3(3, p[0], y, p[2]), p);
    var h := Fabs(p[1] - y);
    assert v == [0.0, y - p[1], 0.0];
    DotOfThree(v, v);
    assert Norm2(v) == h * h by {
      if p[1] - y < 0.0 {
        assert h == y - p[1];
      } else {
        assert h * h == (p[1] - y) * (p[1] - y) == (y - p[1]) * (y - p[1]);
      }
    }
    NormOfKnownLength(v, h);
    Norm(v)
  }

  /* ----- lemmas ----- */

  /** The box is symmetric through the origin. */
  lemma SdBoxSymmetric(p: Vec3, s: Vec3)
    ensures SdBox(Neg(p), s) == SdBox(p, s)
  {
  }

  /** A point is inside or on the box exactly when it is within the
      half-extent on every axis. */
  lemma SdBoxInside(p: Vec3, s: Vec3)
    ensures SdBox(p, s) <= 0.0 <==> forall i :: 0 <= i < 3 ==> Fabs(p[i]) <= s[i]
  {
  }

  /** Where the length of `p` is known, the sphere estimator is exact: the
      distance from a point at length `len` to a sphere of radius `r` is `len - r`. */
  lemma SdSphereExact(p: Vec3, r: real, len: real)
    requires len >= 0.0 && Norm2(p) == len * len
    ensures SdSphere(p, r) == len - r
  {
    NormOfKnownLength(p, len);
  }

  /** The plane estimator reads only the height of the point. */
  lemma SdPlaneHeightOnly(p: Vec3, q: Vec3, y: real)
    requires p[1] == q[1]
    ensures SdPlane(p, y) == SdPlane(q, y)
  {
  }
}
