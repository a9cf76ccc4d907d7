/** The path tracer proper: the random draw, the camera ray, direct lighting,
    the bounce loop of `renderColor` and the pixel sampler. Everything
    stochastic or built on `sqrt` (normalisation and the bounce sampler) is a
    parameter, bundled in a `World`. */
module Tracer {
  import opened Cvec
  import opened Scene
  import opened Marching

  /** The parts of the renderer this model treats as opaque: the scene field,
      `normalize`, and the bounce sampler `lambDirection`, indexed by the
      bounce at which it is drawn. */
  datatype World = World(field: Field, normalize: Vec3 -> Vec3, lambDirection: (nat, Vec3) -> Vec3)

  datatype Ray = Ray(o: Vec3, d: Vec3)

  /** The camera's look-at frame. */
  datatype Basis = Basis(forward: Vec3, right: Vec3, up: Vec3)

  const WIDTH: real := 512.0
  const HEIGHT: real := 512.0
  const AR: real := WIDTH / HEIGHT
  const SUN: Vec3 := [15.0, 10.0, -15.0]
  const WORLD_UP: Vec3 := [0.0, 1.0, 0.0]
  const WHITE: Vec3 := [255.0, 255.0, 255.0]
  /** Reflectance factor applied to the mask at every hit. */
  const ATTEN: real := 0.8
  /** Surface colour of every object. */
  const SURFACE: Vec3 := [255.0, 255.0, 255.0]
  const N_RAYS: real := 1.0
  const N_BOUNCES: nat := 4
  const CAM_ORIGIN: Vec3 := [0.0, 1.0, -3.5]
  const CAM_LOOKAT: Vec3 := [0.0, 0.0, 0.0]
  const ZOOM: real := 1.0

  predicate NonNegative(c: Vec3)
  {
    forall i :: 0 <= i < 3 ==> c[i] >= 0.0
  }

  function Pow(x: real, k: nat): (r: real)
  {
    if k == 0 then 1.0 else Pow(x, k - 1) * x
  }

  /* ----- randf ----- */

  /** `randf()`, given the raw draw `k` of `rand()`: `(k % 10000) * 1. / 10000`. */
  function Randf(k: nat): (r: real)
    ensures 0.0 <= r <= 0.9999
  {
    ((k % 10000) as real * 1.0) / 10000.0
  }

  /** A draw lies on the grid of multiples of 1/10000 below 1. */
  lemma RandfOnGrid(k: nat)
    ensures (Randf(k) * 10000.0).Floor as real == Randf(k) * 10000.0
    ensures 0 <= (Randf(k) * 10000.0).Floor < 10000
  {
    assert Randf(k) * 10000.0 == (k % 10000) as real;
  }

  /** Draws repeat with period 10000 and are strictly increasing within a period. */
  lemma RandfPeriodic(k: nat, k': nat)
    ensures Randf(k + 10000) == Randf(k)
    ensures k < k' < 10000 ==> Randf(k) < Randf(k')
  {
  }

  /* ----- camera ----- */

  /** The look-at frame of `cRay`: `forward` is the normalised view
      direction, `right = cross(up, forward)` is horizontal and
      `up = cross(forward, right)`; the three are mutually orthogonal. */
  function CameraBasis(normalize: Vec3 -> Vec3, ro: Vec3, la: Vec3): (b: Basis)
    ensures b.forward == normalize(Sub(la, ro))
    ensures b.right[1] == 0.0
    ensures Orthogonal(b)
  {
    var cf := normalize(Sub(la, ro));
    var cr := Cross(WORLD_UP, cf);
    var cu := Cross(cf, cr);
    DotOfThree(cr, WORLD_UP);
    Basis(cf, cr, cu)
  }

  /** The three frame vectors are pairwise orthogonal. */
  predicate Orthogonal(b: Basis)
  {
    Dot(b.right, b.forward) == 0.0 && Dot(b.up, b.forward) == 0.0 && Dot(b.up, b.right) == 0.0
  }

  /** The un-normalised ray direction `cf * zm + cr * pc[0] + cu * pc[1]`. */
  function ViewVector(b: Basis, pc: Vec2, zm: real): (v: Vec3)
  {
    Add(Add(Scale(b.forward, zm), Scale(b.right, pc[0])), Scale(b.up, pc[1]))
  }

  /** `cRay`: a ray from the camera origin through screen point `pc`. Its
      direction normalises a vector whose coordinates in the camera frame are
      the zoom and the two screen coordinates, each scaled by that axis's
      squared length. */
  function CRay(normalize: Vec3 -> Vec3, ro: Vec3, la: Vec3, pc: Vec2, zm: real): (r: Ray)
    ensures r.o == ro
    ensures exists v: Vec3 :: r.d == normalize(v) && FrameCoordinates(v, CameraBasis(normalize, ro, la), pc, zm)
  {
    var b := CameraBasis(normalize, ro, la);
    var v := ViewVector(b, pc, zm);
    ViewVectorCoordinates(b, pc, zm);
    assert FrameCoordinates(v, b, pc, zm);
    Ray(ro, normalize(v))
  }

  /** The coordinates of `v` along the frame `b` are `zm`, `pc[0]` and
      `pc[1]`, each scaled by that axis's squared length. */
  predicate FrameCoordinates(v: Vec3, b: Basis, pc: Vec2, zm: real)
  {
    Dot(v, b.forward) == zm * Norm2(b.forward)
    && Dot(v, b.right) == pc[0] * Norm2(b.right)
    && Dot(v, b.up) == pc[1] * Norm2(b.up)
  }

  /** `dot` with the view vector splits along the three frame vectors. */
  lemma DotViewVector(b: Basis, pc: Vec2, zm: real, c: Vec3)
    ensures Dot(ViewVector(b, pc, zm), c)
         == zm * Dot(b.forward, c) + pc[0] * Dot(b.right, c) + pc[1] * Dot(b.up, c)
  {
    var sf, sr, su := Scale(b.forward, zm), Scale(b.right, pc[0]), Scale(b.up, pc[1]);
    DotAddLeft(Add(sf, sr), su, c);
    DotAddLeft(sf, sr, c);
    DotScaleLeft(b.forward, zm, c);
    DotScaleLeft(b.right, pc[0], c);
    DotScaleLeft(b.up, pc[1], c);
  }

  /** In an orthogonal frame the view vector's coordinate along each axis is
      the zoom, or a screen coordinate, scaled by that axis's squared length. */
  lemma ViewVectorCoordinates(b: Basis, pc: Vec2, zm: real)
    requires Orthogonal(b)
    ensures Dot(ViewVector(b, pc, zm), b.forward) == zm * Norm2(b.forward)
    ensures Dot(ViewVector(b, pc, zm), b.right) == pc[0] * Norm2(b.right)
    ensures Dot(ViewVector(b, pc, zm), b.up) == pc[1] * Norm2(b.up)
  {
    DotSymmetric(b.right, b.forward);
    DotSymmetric(b.up, b.forward);
    DotSymmetric(b.up, b.right);
    DotViewVector(b, pc, zm, b.forward);
    DotViewVector(b, pc, zm, b.right);
    DotViewVector(b, pc, zm, b.up);
  }

  /* ----- lighting ----- */

  /** `applyLighting`: white light scaled by the clamped cosine `ndl` between
      the light direction and the normal, and by 1 when the sun is visible
      from `p` and 0 when it is not. */
  function ApplyLighting(w: World, p: Vec3, n: Vec3): (c: Vec3)
    ensures NonNegative(c)
    ensures c[0] == c[1] == c[2]
    ensures var lightray := w.normalize(Sub(SUN, p));
            if Shadow(w.field, p, lightray)
            then c[0] == 255.0 * Max(Dot(lightray, n), 0.0)
            else c[0] == 0.0
  {
    var scol := Fill(3, 255.0);
    var lightray := w.normalize(Sub(SUN, p));
    var ndl := Max(Dot(lightray, n), 0.0);
    var inShadow := if Shadow(w.field, p, lightray) then 1.0 else 0.0;
    Scale(Scale(scol, ndl), inShadow)
  }

  /* ----- the bounce loop of renderColor ----- */

  /** The state of the loop of `renderColor` at the top of bounce `b`: the
      current ray, the accumulated colour `tc` and the mask. */
  datatype PathState = PathState(ray: Ray, tc: Vec3, mask: Vec3, b: nat)

  /** Every completed iteration shaded a hit, so the mask is `ATTEN^b`, and
      the accumulated colour is never negative. */
  predicate Valid(s: PathState, nb: nat)
  {
    s.b <= nb && NonNegative(s.tc) && s.mask == Fill(3, Pow(ATTEN, s.b))
  }

  /** Black accumulated colour, white mask, the camera ray. */
  function Start(r: Ray): (s: PathState)
  {
    PathState(r, Fill(3, 0.0), Fill(3, 1.0), 0)
  }

  /** The loop's result: the colour returned, the mask, the number of hits
      shaded, and the number of iterations the loop body started. */
  datatype Traced = Traced(color: Vec3, mask: Vec3, hits: nat, iterations: nat)

  /** The mask update at a hit: each component times `atten * cs[i] / 255`. */
  function Attenuate(mask: Vec3): (m: Vec3)
    ensures forall i :: 0 <= i < 3 ==> m[i] == mask[i] * ATTEN
  {
    seq(3, i requires 0 <= i < 3 => mask[i] * (ATTEN * SURFACE[i] / 255.0))
  }

  /** The rest of an iteration after a hit at distance `march`: shade the
      hit point, attenuate the mask, add the masked direct light, and bounce. */
  function Bounce(w: World, s: PathState, march: real): (s': PathState)
    requires NonNegative(s.tc) && s.mask == Fill(3, Pow(ATTEN, s.b))
    ensures s'.b == s.b + 1
    ensures NonNegative(s'.tc) && s'.mask == Fill(3, Pow(ATTEN, s'.b))
  {
    var pos := PointAt(s.ray.o, s.ray.d, march);
    var nor := ENormal(w.field, w.normalize, pos);
    var cd := ApplyLighting(w, pos, nor);
    var mask' := Attenuate(s.mask);
    ShadeStep(s.tc, s.mask, cd, s.b);
    PathState(Ray(pos, w.lambDirection(s.b, nor)), Add(s.tc, Mul(mask', cd)), mask', s.b + 1)
  }

  /** The loop of `renderColor` from state `s`. A miss at bounce 0 returns
      white; a later miss returns what was accumulated; running out of
      bounces returns the accumulated colour too. */
  function Trace(w: World, s: PathState, nb: nat): (res: Traced)
    requires Valid(s, nb)
    ensures s.b <= res.hits <= res.iterations <= nb
    ensures res.iterations <= res.hits + 1
    ensures res.mask == Fill(3, Pow(ATTEN, res.hits))
    ensures NonNegative(res.color)
    decreases nb - s.b
  {
    if s.b == nb then Traced(s.tc, s.mask, s.b, s.b)
    else
      var march := Intersect(w.field, s.ray.o, s.ray.d);
      if march < 0.0 then
        if s.b == 0 then Traced(WHITE, s.mask, s.b, s.b + 1) else Traced(s.tc, s.mask, s.b, s.b + 1)
      else
        Trace(w, Bounce(w, s, march), nb)
  }

  /** One hit keeps the mask a power of `ATTEN` and the colour non-negative. */
  lemma ShadeStep(tc: Vec3, mask: Vec3, cd: Vec3, b: nat)
    requires NonNegative(tc) && NonNegative(cd)
    requires mask == Fill(3, Pow(ATTEN, b))
    ensures Attenuate(mask) == Fill(3, Pow(ATTEN, b + 1))
    ensures NonNegative(Add(tc, Mul(Attenuate(mask), cd)))
  {
    var m := Attenuate(mask);
    PowPositive(ATTEN, b + 1);
    assert forall i :: 0 <= i < 3 ==> m[i] == Pow(ATTEN, b + 1);
    var prod := Mul(m, cd);
    forall i | 0 <= i < 3
      ensures prod[i] >= 0.0
    {
      var x, y := m[i], cd[i];
      assert x > 0.0 && y >= 0.0;
      assert x * y >= 0.0;
    }
  }

  lemma {:induction false} PowPositive(x: real, k: nat)
    requires x > 0.0
    ensures Pow(x, k) > 0.0
  {
    if k > 0 {
      PowPositive(x, k - 1);
      var p := Pow(x, k - 1);
      assert p * x > 0.0;
    }
  }

  /** The mask only shrinks: `ATTEN^k` lies in (0, 1]. */
  lemma {:induction false} MaskBounds(k: nat)
    ensures 0.0 < Pow(ATTEN, k) <= 1.0
  {
    PowPositive(ATTEN, k);
    if k > 0 {
      MaskBounds(k - 1);
      var p := Pow(ATTEN, k - 1);
      assert p * ATTEN <= p;
    }
  }

  /** `renderColor(r, nb)`. */
  function RenderColor(w: World, r: Ray, nb: nat): (c: Vec3)
    ensures NonNegative(c)
    ensures nb > 0 && Intersect(w.field, r.o, r.d) == NO_HIT ==> c == WHITE
    ensures nb == 0 ==> c == Fill(3, 0.0)
  {
    Trace(w, Start(r), nb).color
  }

  /** Where the ray `r` meets the scene. */
  function HitPoint(w: World, r: Ray): (p: Vec3)
  {
    PointAt(r.o, r.d, Intersect(w.field, r.o, r.d))
  }

  /** One hit followed by a miss: the colour is the direct light at the hit
      scaled once by the attenuation. */
  lemma HitThenMiss(w: World, r: Ray, nb: nat)
    requires nb >= 2
    requires Intersect(w.field, r.o, r.d) != NO_HIT
    requires Intersect(w.field, HitPoint(w, r),
                       w.lambDirection(0, ENormal(w.field, w.normalize, HitPoint(w, r)))) == NO_HIT
    ensures RenderColor(w, r, nb)
         == Scale(ApplyLighting(w, HitPoint(w, r), ENormal(w.field, w.normalize, HitPoint(w, r))), ATTEN)
  {
    var s := Start(r);
    var s1 := Bounce(w, s, Intersect(w.field, r.o, r.d));
    assert Trace(w, s, nb) == Trace(w, s1, nb);
    assert Trace(w, s1, nb).color == s1.tc;
    FirstShade(ApplyLighting(w, HitPoint(w, r), ENormal(w.field, w.normalize, HitPoint(w, r))));
  }

  /** The first hit adds the direct light scaled by the attenuation to black. */
  lemma FirstShade(cd: Vec3)
    ensures Add(Fill(3, 0.0), Mul(Attenuate(Fill(3, 1.0)), cd)) == Scale(cd, ATTEN)
  {
    var m := Attenuate(Fill(3, 1.0));
    assert forall i :: 0 <= i < 3 ==> Mul(m, cd)[i] == cd[i] * ATTEN;
  }

  /** The loop of `renderColor`, statement for statement. */
  method RenderColorLoop(w: World, r0: Ray, nb: nat) returns (col: Vec3)
    ensures col == RenderColor(w, r0, nb)
  {
    var s := Start(r0);
    while s.b < nb
      invariant Valid(s, nb)
      invariant Trace(w, s, nb).color == RenderColor(w, r0, nb)
    {
      var march := IntersectLoop(w.field, s.ray.o, s.ray.d);
      if march < 0.0 {
        if s.b == 0 {
          return WHITE;
        }
        break;
      }
      s := BounceLoop(w, s, march);
    }
    col := s.tc;
  }

  /** The body of the loop after a hit, with the per-component mask and
      colour updates as the inner loop of `renderColor`. */
  method BounceLoop(w: World, s: PathState, march: real) returns (s': PathState)
    requires NonNegative(s.tc) && s.mask == Fill(3, Pow(ATTEN, s.b))
    ensures s' == Bounce(w, s, march)
  {
    var pos := PointAt(s.ray.o, s.ray.d, march);
    var nor := ENormal(w.field, w.normalize, pos);
    var cd := ApplyLighting(w, pos, nor);
    var tc, mask := ShadeComponents(s.tc, s.mask, cd);
    s' := PathState(Ray(pos, w.lambDirection(s.b, nor)), tc, mask, s.b + 1);
  }

  /** The per-component loop at a hit: `mask[i] *= atten * cs[i] / 255`,
      then `tc[i] += mask[i] * cd[i]`. */
  method ShadeComponents(tc0: Vec3, mask0: Vec3, cd: Vec3) returns (tc: Vec3, mask: Vec3)
    ensures mask == Attenuate(mask0)
    ensures tc == Add(tc0, Mul(mask, cd))
  {
    var cs := SURFACE;
    tc, mask := tc0, mask0;
    var i := 0;
    while i < 3
      invariant 0 <= i <= 3
      invariant forall j :: 0 <= j < i ==> mask[j] == mask0[j] * (ATTEN * cs[j] / 255.0)
      invariant forall j :: 0 <= j < i ==> tc[j] == tc0[j] + mask[j] * cd[j]
      invariant forall j :: i <= j < 3 ==> mask[j] == mask0[j] && tc[j] == tc0[j]
    {
      mask := mask[i := mask[i] * (ATTEN * cs[i] / 255.0)];
      tc := tc[i := tc[i] + mask[i] * cd[i]];
      i := i + 1;
    }
    assert forall j :: 0 <= j < 3 ==> mask[j] == Attenuate(mask0)[j];
    assert forall j :: 0 <= j < 3 ==> tc[j] == Add(tc0, Mul(mask, cd))[j];
  }

  /* ----- the pixel sampler ----- */

  /** Horizontal screen coordinate of pixel column `x` with jitter `j`. */
  function NdcX(x: int, j: real): (u: real)
  {
    (2.0 * (x as real + j) / WIDTH - 1.0) * AR
  }

  /** Vertical screen coordinate of pixel row `y` with jitter `j`; rows grow downwards. */
  function NdcY(y: int, j: real): (v: real)
  {
    -(2.0 * (y as real + j) / HEIGHT - 1.0)
  }

  /** A pixel inside the image with a jitter in [0, 1) maps into
      [-AR, AR) horizontally and (-1, 1] vertically. */
  lemma NdcRange(x: int, y: int, jx: real, jy: real)
    requires 0 <= x && x as real < WIDTH && 0 <= y && y as real < HEIGHT
    requires 0.0 <= jx < 1.0 && 0.0 <= jy < 1.0
    ensures -AR <= NdcX(x, jx) < AR
    ensures -1.0 < NdcY(y, jy) <= 1.0
  {
  }

  /** `calcPixelColor` with its one sample per pixel: the jitters `jx`, `jy`
      are that sample's two `randf` draws. */
  function CalcPixelColor(w: World, x: int, y: int, jx: real, jy: real): (col: Vec3)
    ensures NonNegative(col)
    ensures col == RenderColor(w, CRay(w.normalize, CAM_ORIGIN, CAM_LOOKAT, [NdcX(x, jx), NdcY(y, jy)], ZOOM), N_BOUNCES)
  {
    var pc := Of2(2, NdcX(x, jx), NdcY(y, jy));
    var ray := CRay(w.normalize, CAM_ORIGIN, CAM_LOOKAT, pc, ZOOM);
    var tempcol := RenderColor(w, ray, N_BOUNCES);
    var sum := Add(Zero(3), tempcol);
    ZeroIsAdditiveIdentity(tempcol);
    DivScalarUndoesScale(sum, N_RAYS);
    assert Scale(sum, N_RAYS) == sum;
    DivScalar(sum, N_RAYS)
  }
}
