/** The renderer's scene: its centred sphere estimator, the union of two
    spheres and a floor plane, and the finite-difference normal estimator. */
module Scene {
  import opened Cvec
  import opened SdEstimators

  /** A scene distance field: a point to the signed distance to the nearest surface. */
  type Field = Vec3 -> real

  /** Half-width of the central differences taken by the normal estimator. */
  const NORMAL_EPS: real := 0.0001

  /** Sphere of radius `r` centred at `c`: `norm(p - c) - r`. It is the
      origin-centred estimator applied to `p - c`. */
  ghost function SdSphereAt(p: Vec3, c: Vec3, r: real): (d: real)
    ensures d == SdSphere(Sub(p, c), r)
    ensures d >= -r
    ensures p == c ==> d == -r
  {
    Norm(Sub(p, c)) - r
  }

  /** The scene: two unit spheres, at the origin and at (1.8, 0, -1.8), and
      the floor plane y = -1, joined by `min` (union). The box estimator is
      evaluated by `map` in `main.cpp` but its value is not used. */
  ghost function Map(p: Vec3): (d: real)
    ensures d <= SdSphereAt(p, Fill(3, 0.0), 1.0)
    ensures d <= SdSphereAt(p, [1.8, 0.0, -1.8], 1.0)
    ensures d <= SdPlane(p, -1.0)
    ensures d == SdSphereAt(p, Fill(3, 0.0), 1.0)
         || d == SdSphereAt(p, [1.8, 0.0, -1.8], 1.0)
         || d == SdPlane(p, -1.0)
    ensures d >= -1.0
  {
    var boxA := SdBox(p, Fill(3, 0.5));
    var spA := SdSphereAt(p, Fill(3, 0.0), 1.0);
    var spB := SdSphereAt(p, [1.8, 0.0, -1.8], 1.0);
    var plA := SdPlane(p, -1.0);
    Min(spA, Min(plA, spB))
  }

  /** The offset `d` along coordinate axis `k`. */
  function Axis(k: nat, d: real): (v: Vec3)
    requires k < 3
    ensures v[k] == d
    ensures forall j :: 0 <= j < 3 && j != k ==> v[j] == 0.0
  {
    if k == 0 then [d, 0.0, 0.0] else if k == 1 then [0.0, d, 0.0] else [0.0, 0.0, d]
  }

  /** Central differences of `f` along the three axes at `p`: the
      un-normalised gradient that `eNormal` normalises. Component `k` is
      the field one step ahead along axis `k` minus the field one step back. */
  function Gradient(f: Field, p: Vec3): (g: Vec3)
    ensures forall k :: 0 <= k < 3 ==>
              g[k] == f(Add(p, Axis(k, NORMAL_EPS))) - f(Sub(p, Axis(k, NORMAL_EPS)))
  {
    var e := NORMAL_EPS;
    assert Add(p, Axis(0, e)) == [p[0] + e, p[1], p[2]] && Sub(p, Axis(0, e)) == [p[0] - e, p[1], p[2]];
    assert Add(p, Axis(1, e)) == [p[0], p[1] + e, p[2]] && Sub(p, Axis(1, e)) == [p[0], p[1] - e, p[2]];
    assert Add(p, Axis(2, e)) == [p[0], p[1], p[2] + e] && Sub(p, Axis(2, e)) == [p[0], p[1], p[2] - e];
    [ f([p[0] + e, p[1], p[2]]) - f([p[0] - e, p[1], p[2]]),
      f([p[0], p[1] + e, p[2]]) - f([p[0], p[1] - e, p[2]]),
      f([p[0], p[1], p[2] + e]) - f([p[0], p[1], p[2] - e]) ]
  }

  /** `eNormal(p)`: the normalised central-difference gradient. */
  function ENormal(f: Field, normalize: Vec3 -> Vec3, p: Vec3): (n: Vec3)
    ensures n == normalize(seq(3, k requires 0 <= k < 3 =>
                   f(Add(p, Axis(k, NORMAL_EPS))) - f(Sub(p, Axis(k, NORMAL_EPS)))))
  {
    var g := Gradient(f, p);
    assert g == seq(3, k requires 0 <= k < 3 =>
                   f(Add(p, Axis(k, NORMAL_EPS))) - f(Sub(p, Axis(k, NORMAL_EPS))));
    normalize(g)
  }

  /** Shifting a field by a constant leaves its estimated normal unchanged:
      only differences of the field enter `eNormal`. */
  lemma ENormalShiftInvariant(f: Field, f': Field, normalize: Vec3 -> Vec3, p: Vec3, c: real)
    requires forall q :: f'(q) == f(q) + c
    ensures ENormal(f', normalize, p) == ENormal(f, normalize, p)
  {
  }

  /** A field that reads only the height of a point has a gradient with no
      horizontal part. */
  lemma GradientOfHeightField(f: Field, p: Vec3)
    requires forall q: Vec3, q': Vec3 :: q[1] == q'[1] ==> f(q) == f(q')
    ensures Gradient(f, p)[0] == 0.0 && Gradient(f, p)[2] == 0.0
  {
  }

  /** Above the floor by at least the difference step, the estimated normal
      of the floor field points straight up before normalisation. */
  lemma FloorGradient(p: Vec3, y: real)
    requires p[1] - y >= NORMAL_EPS
    ensures Gradient((q: Vec3) => SdPlane(q, y), p) == [0.0, 2.0 * NORMAL_EPS, 0.0]
  {
  }

  /** On the floor field, at least one difference step above the floor,
      `eNormal` is `normalize` of the straight-up vector `(0, 2e, 0)`. */
  lemma FloorNormal(normalize: Vec3 -> Vec3, p: Vec3, y: real)
    requires p[1] - y >= NORMAL_EPS
    ensures ENormal((q: Vec3) => SdPlane(q, y), normalize, p) == normalize([0.0, 2.0 * NORMAL_EPS, 0.0])
  {
  }
}
