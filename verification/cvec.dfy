/** GLSL-like fixed-length vectors over the reals.

    A `Cvec<T, n>` is modelled as a sequence of `n` reals; every binary
    operation requires its operands to have the same length, as the template
    parameter `n` forces in `cvec.h`. Float rounding is not modelled.
 */
module Cvec {

  type Vec = seq<real>

  /** The renderer's `Cvec3` and `Cvec2`. */
  type Vec3 = v: Vec | |v| == 3 witness [0.0, 0.0, 0.0]
  type Vec2 = v: Vec | |v| == 2 witness [0.0, 0.0]

  /* ----- scalar helpers with the semantics of std::max, std::min, fabs ----- */

  /** std::max: the first argument unless it is smaller than the second. */
  function Max(a: real, b: real): (r: real)
    ensures r >= a && r >= b
    ensures r == a || r == b
  {
    if a < b then b else a
  }

  /** std::min: the first argument unless the second is smaller. */
  function Min(a: real, b: real): (r: real)
    ensures r <= a && r <= b
    ensures r == a || r == b
  {
    if b < a then b else a
  }

  function Fabs(x: real): (r: real)
    ensures r >= 0.0
    ensures r == x || r == -x
  {
    if x < 0.0 then -x else x
  }

  /* ----- constructors ----- */

  /** Default constructor: n zero components. */
  function Zero(n: nat): (r: Vec)
    ensures |r| == n
    ensures forall i :: 0 <= i < n ==> r[i] == 0.0
  {
    seq(n, i => 0.0)
  }

  /** Fill constructor `Cvec(t)`: every component is `t`. */
  function Fill(n: nat, t: real): (r: Vec)
    ensures |r| == n
    ensures forall i :: 0 <= i < n ==> r[i] == t
  {
    seq(n, i => t)
  }

  /** Two-argument constructor; `cvec.h` asserts `n == 2`. */
  function Of2(n: nat, t0: real, t1: real): (r: Vec)
    requires n == 2
    ensures |r| == n
    ensures r[0] == t0 && r[1] == t1
  {
    [t0, t1]
  }

  /** Three-argument constructor; `cvec.h` asserts `n == 3`. */
  function Of3(n: nat, t0: real, t1: real, t2: real): (r: Vec)
    requires n == 3
    ensures |r| == n
    ensures r[0] == t0 && r[1] == t1 && r[2] == t2
  {
    [t0, t1, t2]
  }

  /** Four-argument constructor; `cvec.h` asserts `n == 4`. */
  function Of4(n: nat, t0: real, t1: real, t2: real, t3: real): (r: Vec)
    requires n == 4
    ensures |r| == n
    ensures r[0] == t0 && r[1] == t1 && r[2] == t2 && r[3] == t3
  {
    [t0, t1, t2, t3]
  }

  /** Dimension-changing constructor `Cvec<T,n>(v, extendValue)`: the first
      `min(m, n)` components come from `v`, the rest are `ext`, 0 by default. */
  function Resize(v: Vec, n: nat, ext: real := 0.0): (r: Vec)
    ensures |r| == n
    ensures forall i :: 0 <= i < n && i < |v| ==> r[i] == v[i]
    ensures forall i :: |v| <= i < n ==> r[i] == ext
  {
    var k := if n < |v| then n else |v|;
    seq(n, i requires 0 <= i < n => if i < k then v[i] else ext)
  }

  /* ----- componentwise arithmetic ----- */

  /** Unary minus, which `cvec.h` computes as a copy scaled by -1. */
  function Neg(a: Vec): (r: Vec)
    ensures |r| == |a|
    ensures forall i :: 0 <= i < |a| ==> r[i] == -a[i]
  {
    Scale(a, -1.0)
  }

  function Add(a: Vec, b: Vec): (r: Vec)
    requires |a| == |b|
    ensures |r| == |a|
    ensures forall i :: 0 <= i < |a| ==> r[i] == a[i] + b[i]
  {
    seq(|a|, i requires 0 <= i < |a| => a[i] + b[i])
  }

  function Sub(a: Vec, b: Vec): (r: Vec)
    requires |a| == |b|
    ensures |r| == |a|
    ensures forall i :: 0 <= i < |a| ==> r[i] == a[i] - b[i]
  {
    seq(|a|, i requires 0 <= i < |a| => a[i] - b[i])
  }

  /** Scalar product `v * k`. */
  function Scale(a: Vec, k: real): (r: Vec)
    ensures |r| == |a|
    ensures forall i :: 0 <= i < |a| ==> r[i] == a[i] * k
  {
    seq(|a|, i requires 0 <= i < |a| => a[i] * k)
  }

  /** Scalar quotient `v / k`, computed as `cvec.h` does by multiplying
      with the inverse `1 / k`. */
  function DivScalar(a: Vec, k: real): (r: Vec)
    requires k != 0.0
    ensures |r| == |a|
    ensures forall i :: 0 <= i < |a| ==> r[i] * k == a[i]
  {
    Scale(a, 1.0 / k)
  }

  /** Elementwise product `a * b`. */
  function Mul(a: Vec, b: Vec): (r: Vec)
    requires |a| == |b|
    ensures |r| == |a|
    ensures forall i :: 0 <= i < |a| ==> r[i] == a[i] * b[i]
  {
    seq(|a|, i requires 0 <= i < |a| => a[i] * b[i])
  }

  predicate NoZero(b: Vec)
  {
    forall i :: 0 <= i < |b| ==> b[i] != 0.0
  }

  /** Elementwise quotient `a / b`. */
  function DivEach(a: Vec, b: Vec): (r: Vec)
    requires |a| == |b| && NoZero(b)
    ensures |r| == |a|
    ensures forall i :: 0 <= i < |a| ==> r[i] * b[i] == a[i]
  {
    seq(|a|, i requires 0 <= i < |a| => a[i] / b[i])
  }

  /** Elementwise `fabs`. */
  function AbsEach(a: Vec): (r: Vec)
    ensures |r| == |a|
    ensures forall i :: 0 <= i < |a| ==> r[i] == Fabs(a[i])
  {
    seq(|a|, i requires 0 <= i < |a| => Fabs(a[i]))
  }

  /** Elementwise `std::max`. */
  function MaxEach(a: Vec, b: Vec): (r: Vec)
    requires |a| == |b|
    ensures |r| == |a|
    ensures forall i :: 0 <= i < |a| ==> r[i] >= a[i] && r[i] >= b[i]
    ensures forall i :: 0 <= i < |a| ==> r[i] == a[i] || r[i] == b[i]
  {
    seq(|a|, i requires 0 <= i < |a| => Max(a[i], b[i]))
  }

  /** Elementwise `std::min`. */
  function MinEach(a: Vec, b: Vec): (r: Vec)
    requires |a| == |b|
    ensures |r| == |a|
    ensures forall i :: 0 <= i < |a| ==> r[i] <= a[i] && r[i] <= b[i]
    ensures forall i :: 0 <= i < |a| ==> r[i] == a[i] || r[i] == b[i]
  {
    seq(|a|, i requires 0 <= i < |a| => Min(a[i], b[i]))
  }

  /* ----- reductions ----- */

  /** The reduction `max(a)`: it reads components 0, 1 and 2 only. */
  function MaxOf3(a: Vec): (r: real)
    requires |a| >= 3
    ensures r >= a[0] && r >= a[1] && r >= a[2]
    ensures r == a[0] || r == a[1] || r == a[2]
  {
    Max(Max(a[0], a[1]), a[2])
  }

  /** The reduction `min(a)`: it reads components 0, 1 and 2 only. */
  function MinOf3(a: Vec): (r: real)
    requires |a| >= 3
    ensures r <= a[0] && r <= a[1] && r <= a[2]
    ensures r == a[0] || r == a[1] || r == a[2]
  {
    Min(Min(a[0], a[1]), a[2])
  }

  /** `dot(a, b)`: the running sum of `a[i] * b[i]`, accumulated from index 0 up. */
  function Dot(a: Vec, b: Vec): (r: real)
    requires |a| == |b|
    decreases |a|
  {
    if |a| == 0 then 0.0
    else Dot(a[..|a| - 1], b[..|b| - 1]) + a[|a| - 1] * b[|b| - 1]
  }

  /** `norm2(v) = dot(v, v)`: never negative, and zero for the zero vector. */
  function Norm2(v: Vec): (r: real)
    ensures r >= 0.0
    ensures (forall i :: 0 <= i < |v| ==> v[i] == 0.0) ==> r == 0.0
  {
    DotSelfNonNegative(v);
    if forall i :: 0 <= i < |v| ==> v[i] == 0.0 then
      DotOfZeroVector(v);
      Dot(v, v)
    else
      Dot(v, v)
  }

  /** `cross(a, b)` of two three-component vectors. */
  function Cross(a: Vec3, b: Vec3): (r: Vec3)
    ensures Dot(r, a) == 0.0 && Dot(r, b) == 0.0
  {
    var r := [a[1] * b[2] - a[2] * b[1], a[2] * b[0] - a[0] * b[2], a[0] * b[1] - a[1] * b[0]];
    DotOfThree(r, a);
    DotOfThree(r, b);
    r
  }

  /** The accumulation loop of `dot`, step for step. */
  method DotLoop(a: Vec, b: Vec) returns (r: real)
    requires |a| == |b|
    ensures r == Dot(a, b)
  {
    r := 0.0;
    var i := 0;
    while i < |a|
      invariant 0 <= i <= |a|
      invariant r == Dot(a[..i], b[..i])
    {
      assert a[..i + 1][..i] == a[..i];
      assert b[..i + 1][..i] == b[..i];
      r := r + a[i] * b[i];
      i := i + 1;
    }
    assert a[..|a|] == a && b[..|b|] == b;
  }

  /* ----- square root and norm ----- */

  ghost predicate IsRoot(x: real, r: real)
  {
    r >= 0.0 && r * r == x
  }

  /** `std::sqrt` over the reals: the non-negative root of `x` when one
      exists. The existence of roots of non-negative reals is not derived
      here, so only roots exhibited by a proof are ever used. */
  ghost function Sqrt(x: real): (r: real)
    ensures r >= 0.0
    ensures (exists y :: IsRoot(x, y)) ==> IsRoot(x, r)
  {
    if exists y :: IsRoot(x, y) then var y :| IsRoot(x, y); y else 0.0
  }

  lemma RootUnique(x: real, r1: real, r2: real)
    requires IsRoot(x, r1) && IsRoot(x, r2)
    ensures r1 == r2
  {
    if r1 < r2 {
      SquareStrictlyMonotone(r1, r2);
    } else if r2 < r1 {
      SquareStrictlyMonotone(r2, r1);
    }
  }

  lemma SquareStrictlyMonotone(a: real, b: real)
    requires 0.0 <= a < b
    ensures a * a < b * b
  {
    var lo, mid, hi := a * a, a * b, b * b;
    assert lo <= mid < hi;
  }

  /** The root of a square of a non-negative number is that number. */
  lemma SqrtOfSquare(d: real)
    requires d >= 0.0
    ensures Sqrt(d * d) == d
  {
    assert IsRoot(d * d, d);
    RootUnique(d * d, d, Sqrt(d * d));
  }

  /** `norm(v) = sqrt(dot(v, v))`. */
  ghost function Norm(v: Vec): (r: real)
    ensures r >= 0.0
    ensures (exists y :: IsRoot(Norm2(v), y)) ==> r * r == Norm2(v)
  {
    Sqrt(Norm2(v))
  }

  /** A norm is determined by any non-negative `d` whose square is `norm2`. */
  lemma NormOfKnownLength(v: Vec, d: real)
    requires d >= 0.0 && Norm2(v) == d * d
    ensures Norm(v) == d
  {
    SqrtOfSquare(d);
  }

  /* ----- lemmas: dot product ----- */

  lemma {:induction false} DotSelfNonNegative(v: Vec)
    ensures Dot(v, v) >= 0.0
    decreases |v|
  {
    if |v| > 0 {
      DotSelfNonNegative(v[..|v| - 1]);
      assert v[|v| - 1] * v[|v| - 1] >= 0.0;
    }
  }

  lemma {:induction false} DotOfZeroVector(v: Vec)
    requires forall i :: 0 <= i < |v| ==> v[i] == 0.0
    ensures Dot(v, v) == 0.0
    decreases |v|
  {
    if |v| > 0 {
      var u := v[..|v| - 1];
      assert forall i :: 0 <= i < |u| ==> u[i] == v[i];
      DotOfZeroVector(u);
    }
  }

  /** `dot` is symmetric. */
  lemma {:induction false} DotSymmetric(a: Vec, b: Vec)
    requires |a| == |b|
    ensures Dot(a, b) == Dot(b, a)
    decreases |a|
  {
    if |a| > 0 {
      DotSymmetric(a[..|a| - 1], b[..|b| - 1]);
    }
  }

  /** The same sum peeled from the front: `dot` does not depend on the order
      in which the products are accumulated. */
  lemma {:induction false} DotFromFront(a: Vec, b: Vec)
    requires |a| == |b| > 0
    ensures Dot(a, b) == a[0] * b[0] + Dot(a[1..], b[1..])
    decreases |a|
  {
    var n := |a| - 1;
    if n > 0 {
      DotFromFront(a[..n], b[..n]);
      assert a[..n][1..] == a[1..][..n - 1] && b[..n][1..] == b[1..][..n - 1];
    } else {
      assert a[1..] == [] && b[1..] == [];
    }
  }

  /** `dot` of three-component vectors, written out. */
  lemma DotOfThree(a: Vec, b: Vec)
    requires |a| == 3 && |b| == 3
    ensures Dot(a, b) == a[0] * b[0] + a[1] * b[1] + a[2] * b[2]
  {
    assert a[..2][..1] == a[..1] && b[..2][..1] == b[..1];
    assert a[..1][..0] == [] && b[..1][..0] == [];
    calc {
      Dot(a, b);
      Dot(a[..2], b[..2]) + a[2] * b[2];
      Dot(a[..1], b[..1]) + a[1] * b[1] + a[2] * b[2];
      Dot([], []) + a[0] * b[0] + a[1] * b[1] + a[2] * b[2];
    }
  }

  /** `dot` distributes over `+` in its first argument. */
  lemma {:induction false} DotAddLeft(a: Vec, b: Vec, c: Vec)
    requires |a| == |b| == |c|
    ensures Dot(Add(a, b), c) == Dot(a, c) + Dot(b, c)
    decreases |a|
  {
    if |a| > 0 {
      var n := |a| - 1;
      assert Add(a, b)[..n] == Add(a[..n], b[..n]);
      DotAddLeft(a[..n], b[..n], c[..n]);
    }
  }

  /** A scalar factor in the first argument moves out of `dot`. */
  lemma {:induction false} DotScaleLeft(a: Vec, k: real, c: Vec)
    requires |a| == |c|
    ensures Dot(Scale(a, k), c) == k * Dot(a, c)
    decreases |a|
  {
    if |a| > 0 {
      var n := |a| - 1;
      assert Scale(a, k)[..n] == Scale(a[..n], k) by {
        assert forall i :: 0 <= i < n ==> Scale(a, k)[..n][i] == a[..n][i] * k;
      }
      DotScaleLeft(a[..n], k, c[..n]);
    }
  }

  /* ----- lemmas: cross product and the arithmetic operators ----- */

  /** `cross` is anti-commutative. */
  lemma CrossAntiCommutative(a: Vec3, b: Vec3)
    ensures Cross(a, b) == Neg(Cross(b, a))
  {
  }

  lemma NegInvolutive(a: Vec)
    ensures Neg(Neg(a)) == a
  {
  }

  lemma AddCommutative(a: Vec, b: Vec)
    requires |a| == |b|
    ensures Add(a, b) == Add(b, a)
  {
  }

  /** Subtraction undoes addition, and is addition of the negation. */
  lemma SubUndoesAdd(a: Vec, b: Vec)
    requires |a| == |b|
    ensures Sub(Add(a, b), b) == a
    ensures Sub(a, b) == Add(a, Neg(b))
  {
  }

  /** The default-constructed vector is the fill vector of 0 and the
      identity of `+`. */
  lemma ZeroIsAdditiveIdentity(v: Vec)
    ensures Zero(|v|) == Fill(|v|, 0.0)
    ensures Add(Zero(|v|), v) == v
  {
  }

  /** Scalar product is elementwise product with a fill vector. */
  lemma ScaleIsMulFill(a: Vec, k: real)
    ensures Scale(a, k) == Mul(a, Fill(|a|, k))
  {
    assert forall i :: 0 <= i < |a| ==> Scale(a, k)[i] == Mul(a, Fill(|a|, k))[i];
  }

  /** Scalar division undoes scalar product. */
  lemma DivScalarUndoesScale(a: Vec, k: real)
    requires k != 0.0
    ensures DivScalar(Scale(a, k), k) == a
  {
    var r := DivScalar(Scale(a, k), k);
    forall i | 0 <= i < |a|
      ensures r[i] == a[i]
    {
      assert r[i] * k == a[i] * k;
    }
  }

  /** Elementwise division undoes elementwise product. */
  lemma DivEachUndoesMul(a: Vec, b: Vec)
    requires |a| == |b| && NoZero(b)
    ensures DivEach(Mul(a, b), b) == a
  {
    var r := DivEach(Mul(a, b), b);
    forall i | 0 <= i < |a|
      ensures r[i] == a[i]
    {
      assert r[i] * b[i] == a[i] * b[i];
    }
  }

  /** `max(a, b)` and `min(a, b)` split each pair of components between them. */
  lemma MaxMinPartition(a: Vec, b: Vec)
    requires |a| == |b|
    ensures Add(MaxEach(a, b), MinEach(a, b)) == Add(a, b)
  {
  }

  /* ----- lemmas: the dimension-changing constructor ----- */

  /** Narrowing keeps a prefix. */
  lemma ResizeTruncates(v: Vec, n: nat, ext: real)
    requires n <= |v|
    ensures Resize(v, n, ext) == v[..n]
  {
  }

  /** Widening and then narrowing back gives the starting vector, whatever
      the two fill values. */
  lemma ResizeRoundTrip(v: Vec, n: nat, ext: real, ext2: real)
    requires |v| <= n
    ensures Resize(Resize(v, n, ext), |v|, ext2) == v
  {
  }

  /** Without an extension value, widening pads with zeros. */
  lemma ResizeDefaultPadsZero(v: Vec, n: nat)
    requires |v| <= n
    ensures Resize(v, n)[..|v|] == v
    ensures forall i :: |v| <= i < n ==> Resize(v, n)[i] == 0.0
  {
  }

  /** `Cvec3(Cvec2(x, y), z)`, as the bounce sampler builds its vector, is `Cvec3(x, y, z)`. */
  lemma ExtendTwoToThree(x: real, y: real, z: real)
    ensures Resize(Of2(2, x, y), 3, z) == Of3(3, x, y, z)
  {
  }

  /** Extending a three-component vector by `w` gives the four-argument vector. */
  lemma ExtendThreeToFour(x: real, y: real, z: real, w: real)
    ensures Resize(Of3(3, x, y, z), 4, w) == Of4(4, x, y, z, w)
  {
  }
}
