/** Sphere tracing: `intersect` and `shadow` run the same bounded marching
    loop over a scene field and read its final ray parameter differently. */
module Marching {
  import opened Cvec
  import opened Scene

  const T_START: real := 0.01
  const T_MAX: real := 16.0
  const HIT_EPS: real := 0.0001
  const MAX_ITER: nat := 128
  /** The value `intersect` returns for a miss. */
  const NO_HIT: real := -1.0

  /** The loop state: the ray parameter `t` and the iteration counter `i`. */
  datatype Marcher = Marcher(t: real, i: nat)

  /** `ro + rd * t`. */
  function PointAt(ro: Vec3, rd: Vec3, t: real): (p: Vec3)
  {
    Add(ro, Scale(rd, t))
  }

  /** The exit test of the loop body: the field is below the hit epsilon,
      or the ray has gone past `T_MAX`. */
  predicate Stops(f: Field, ro: Vec3, rd: Vec3, t: real)
  {
    f(PointAt(ro, rd, t)) < HIT_EPS || t > T_MAX
  }

  /** One non-exiting iteration: advance `t` by the field value. */
  function Step(f: Field, ro: Vec3, rd: Vec3, s: Marcher): (s': Marcher)
    requires !Stops(f, ro, rd, s.t)
    ensures s'.i == s.i + 1
    ensures s'.t >= s.t + HIT_EPS
  {
    Marcher(s.t + f(PointAt(ro, rd, s.t)), s.i + 1)
  }

  /** The loop from state `s` to its end: either the exit test holds or the
      iteration budget is spent. */
  function Run(f: Field, ro: Vec3, rd: Vec3, s: Marcher): (r: Marcher)
    requires s.i <= MAX_ITER
    ensures s.i <= r.i <= MAX_ITER
    ensures r.t >= s.t + HIT_EPS * (r.i - s.i) as real
    ensures r.i < MAX_ITER ==> Stops(f, ro, rd, r.t)
    ensures r.i == s.i ==> r == s
    decreases MAX_ITER - s.i
  {
    if s.i == MAX_ITER || Stops(f, ro, rd, s.t) then s
    else Run(f, ro, rd, Step(f, ro, rd, s))
  }

  /** The state the loop of `intersect` and `shadow` ends in. */
  function Final(f: Field, ro: Vec3, rd: Vec3): (r: Marcher)
    ensures r.i <= MAX_ITER
    ensures r.t >= T_START + HIT_EPS * r.i as real
  {
    Run(f, ro, rd, Marcher(T_START, 0))
  }

  /** `intersect`: the final `t` when it is below `T_MAX`, else `NO_HIT`.
      A budget exhausted short of `T_MAX` is reported as a hit. */
  function Intersect(f: Field, ro: Vec3, rd: Vec3): (dist: real)
    ensures dist == NO_HIT || T_START <= dist < T_MAX
    ensures dist == NO_HIT <==> Final(f, ro, rd).t >= T_MAX
    ensures dist != NO_HIT ==> dist == Final(f, ro, rd).t
  {
    var t := Final(f, ro, rd).t;
    if t < T_MAX then t else NO_HIT
  }

  /** `shadow`: true (light visible) exactly when the final `t` is past
      `T_MAX`. Whenever it is true, `intersect` on the same ray misses. */
  function Shadow(f: Field, ro: Vec3, rd: Vec3): (lit: bool)
    ensures lit <==> Final(f, ro, rd).t > T_MAX
    ensures lit ==> Intersect(f, ro, rd) == NO_HIT
  {
    Final(f, ro, rd).t > T_MAX
  }

  /** The loop of `intersect`, statement for statement. */
  method IntersectLoop(f: Field, ro: Vec3, rd: Vec3) returns (dist: real)
    ensures dist == Intersect(f, ro, rd)
  {
    dist := NO_HIT;
    var t := T_START;
    var i := 0;
    while i < MAX_ITER
      invariant 0 <= i <= MAX_ITER
      invariant Run(f, ro, rd, Marcher(t, i)) == Final(f, ro, rd)
    {
      var h := f(PointAt(ro, rd, t));
      if h < HIT_EPS || t > T_MAX {
        break;
      }
      t := t + h;
      i := i + 1;
    }
    if t < T_MAX {
      dist := t;
    }
  }

  /** The loop of `shadow`, statement for statement. */
  method ShadowLoop(f: Field, ro: Vec3, rd: Vec3) returns (lit: bool)
    ensures lit == Shadow(f, ro, rd)
  {
    lit := false;
    var t := T_START;
    var i := 0;
    while i < MAX_ITER
      invariant 0 <= i <= MAX_ITER
      invariant Run(f, ro, rd, Marcher(t, i)) == Final(f, ro, rd)
    {
      var h := f(PointAt(ro, rd, t));
      if h < HIT_EPS || t > T_MAX {
        break;
      }
      t := t + h;
      i := i + 1;
    }
    if t > T_MAX {
      lit := true;
    }
  }

  /* ----- the exit cases, shown on concrete fields ----- */

  /** `t` advanced `n` times by `c`. */
  function Advance(t: real, c: real, n: nat): (r: real)
    decreases n
  {
    if n == 0 then t else Advance(t + c, c, n - 1)
  }

  /** Advancing by a non-negative step never moves backwards. */
  lemma {:induction false} AdvanceMonotone(t: real, c: real, n: nat)
    requires c >= 0.0
    ensures Advance(t, c, n) >= t
    decreases n
  {
    if n > 0 {
      AdvanceMonotone(t + c, c, n - 1);
    }
  }

  /** The closed form of `Advance`. */
  lemma {:induction false} AdvanceClosed(t: real, c: real, n: nat)
    ensures Advance(t, c, n) == t + n as real * c
    decreases n
  {
    if n > 0 {
      AdvanceClosed(t + c, c, n - 1);
      AddOneFactor((n - 1) as real, c);
    }
  }

  lemma AddOneFactor(a: real, c: real)
    ensures (a + 1.0) * c == a * c + c
  {
  }

  /** Under a constant field `c >= HIT_EPS` that does not carry `t` past
      `T_MAX` before the last of the `n` remaining iterations, the loop runs
      to its budget and `t` grows by exactly `c` per iteration. */
  lemma {:induction false} ConstantFieldRun(f: Field, ro: Vec3, rd: Vec3, c: real, t: real, n: nat)
    requires forall q :: f(q) == c
    requires c >= HIT_EPS
    requires n <= MAX_ITER
    requires n == 0 || Advance(t, c, n - 1) <= T_MAX
    ensures Run(f, ro, rd, Marcher(t, MAX_ITER - n)) == Marcher(Advance(t, c, n), MAX_ITER)
    decreases n
  {
    if n > 0 {
      AdvanceMonotone(t, c, n - 1);
      assert !Stops(f, ro, rd, t);
      assert Step(f, ro, rd, Marcher(t, MAX_ITER - n)) == Marcher(t + c, MAX_ITER - (n - 1));
      ConstantFieldRun(f, ro, rd, c, t + c, n - 1);
    }
  }

  /** Budget exhaustion short of `T_MAX`: under the constant field 0.1 no
      iteration ever converges, yet `intersect` reports a hit at 12.81 and
      `shadow` reports the point occluded. */
  lemma ExhaustedBelowTMax(ro: Vec3, rd: Vec3)
    ensures Final((q: Vec3) => 0.1, ro, rd) == Marcher(12.81, MAX_ITER)
    ensures Intersect((q: Vec3) => 0.1, ro, rd) == 12.81
    ensures !Shadow((q: Vec3) => 0.1, ro, rd)
  {
    AdvanceClosed(T_START, 0.1, MAX_ITER - 1);
    ConstantFieldRun((q: Vec3) => 0.1, ro, rd, 0.1, T_START, MAX_ITER);
    AdvanceClosed(T_START, 0.1, MAX_ITER);
  }

  /** Budget exhaustion past `T_MAX`: under the constant field 0.125 the last
      iteration carries `t` to 16.01, so `shadow` reports the light visible
      and `intersect` a miss. */
  lemma ExhaustedPastTMax(ro: Vec3, rd: Vec3)
    ensures Final((q: Vec3) => 0.125, ro, rd) == Marcher(16.01, MAX_ITER)
    ensures Intersect((q: Vec3) => 0.125, ro, rd) == NO_HIT
    ensures Shadow((q: Vec3) => 0.125, ro, rd)
  {
    AdvanceClosed(T_START, 0.125, MAX_ITER - 1);
    ConstantFieldRun((q: Vec3) => 0.125, ro, rd, 0.125, T_START, MAX_ITER);
    AdvanceClosed(T_START, 0.125, MAX_ITER);
  }

  /** A wall at x = 16 seen from the origin along +x: the first step lands
      exactly on `T_MAX`, where the field is 0. `intersect` calls this a
      miss and `shadow` calls it occluded. */
  lemma LandsOnTMax()
    ensures Final(WallAt16, [0.0, 0.0, 0.0], [1.0, 0.0, 0.0]) == Marcher(T_MAX, 1)
    ensures Intersect(WallAt16, [0.0, 0.0, 0.0], [1.0, 0.0, 0.0]) == NO_HIT
    ensures !Shadow(WallAt16, [0.0, 0.0, 0.0], [1.0, 0.0, 0.0])
  {
  }

  /** A loop step that lands on `t = 16` where the field is still large does
      not stop there: `t > T_MAX` is false at 16, so the next step carries `t`
      to 17. `intersect` calls this a miss and `shadow` reports the light
      visible. */
  lemma LandsOnTMaxAndContinues()
    ensures Final(WallThenOpen, [0.0, 0.0, 0.0], [1.0, 0.0, 0.0]) == Marcher(17.0, 2)
    ensures Intersect(WallThenOpen, [0.0, 0.0, 0.0], [1.0, 0.0, 0.0]) == NO_HIT
    ensures Shadow(WallThenOpen, [0.0, 0.0, 0.0], [1.0, 0.0, 0.0])
  {
  }

  /** The distance along x to x = 16 before it, and 1 from there on. */
  function WallThenOpen(q: Vec3): (d: real)
  {
    if q[0] < 16.0 then 16.0 - q[0] else 1.0
  }

  /** The distance along x to the plane x = 16, zero beyond it. */
  function WallAt16(q: Vec3): (d: real)
  {
    if q[0] >= 16.0 then 0.0 else 16.0 - q[0]
  }
}
