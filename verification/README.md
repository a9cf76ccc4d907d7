# Sphere-tracing path tracer: a Dafny model of its core

This project models the deterministic core of a small CPU path tracer. The tracer renders a scene of
signed-distance primitives by sphere tracing.

- **Vector algebra (`Cvec`).** `Cvec<T, n>` is modelled as a `seq<real>` of length `n`: the
  constructors, the componentwise, scalar and elementwise operators, `dot`, `cross`, `norm2`,
  `norm`, and the `max`/`min` reductions. The arity `assert`s of the 2-, 3- and 4-argument
  constructors become preconditions. Compound assignments (`+=`, `*=`, ...) are modelled by the
  pure function their non-assigning operator returns.
- **Distance estimators (`SdEstimators`, `Scene`).** Box, sphere and plane estimators, the centred
  sphere of the renderer, and the scene `map`: the union of two unit spheres and the floor
  `y = -1`. `norm` uses a square root given as the non-negative root of its argument (see below).
  The finite-difference gradient behind `eNormal` is modelled too.
- **Ray marching (`Marching`).** `intersect` and `shadow` run the same loop: at most 128 steps from
  `t = 0.01`, stopping when the field drops below `0.0001` or `t` passes 16. The model has one
  recursive `Run` for the shared loop and two loop methods that follow `main.cpp` statement for
  statement. `intersect` and `shadow` read the final `t` differently.
- **Renderer (`Tracer`).** `randf`, the camera frame of `cRay`, `applyLighting`, the bounce loop
  of `renderColor`, and the mapping of pixels to screen coordinates in `calcPixelColor`.

Everything is over Dafny's unbounded `real`, so float and double rounding is not modelled. The
scene field, `normalize` and the stochastic bounce sampler `lambDirection` are parameters of the
renderer, bundled in `Tracer.World`. The renderer proper is therefore proved for every field. The
concrete scene `Scene.Map` is modelled and constrained separately.

The square root is the ghost function `Cvec.Sqrt`. It picks a non-negative `y` with `y * y == x`
when one exists and is never negative. No axiom asserts that every non-negative real has a root,
so facts about `norm` are proved where a root is exhibited, for example the origin for the
sphere and `|p[1] - y|` for the plane.

Two behaviours of the marching loop are easy to misread, and the model follows the code:

- **Budget exhaustion is a hit in `intersect`.** If all 128 steps run without either exit test
  firing and the final `t` is below 16, `intersect` returns that `t` as a hit. It does not treat
  the ray as a miss (`Marching.ExhaustedBelowTMax`).
- **`shadow` compares only the final `t` with 16.** It therefore reports the light visible
  whenever the last permitted step carries `t` past 16, even though no exit test fired
  (`Marching.ExhaustedPastTMax`). Budget exhaustion is "occluded" only when the final `t` is at
  most 16.
- **A loop that stops with `t` exactly 16**, for example because the field there is below
  `0.0001`, gives a miss from `intersect` and "occluded" from `shadow` (`Marching.LandsOnTMax`).
  A step that lands on 16 where the field is still at least `0.0001` does not stop the loop,
  because `t > 16` is false there: the next step goes past 16 and `shadow` reports the light
  visible (`Marching.LandsOnTMaxAndContinues`).

## Model

| member | source | states |
|---|---|---|
| Cvec.Zero | src/cvec.h:25-29 | the default constructor gives `n` components, all zero |
| Cvec.Fill | src/cvec.h:31-35 | the fill constructor gives `n` components, all equal to `t` |
| Cvec.Of2 | src/cvec.h:37-40 | valid only for `n == 2`; stores the two arguments in order |
| Cvec.Of3 | src/cvec.h:42-45 | valid only for `n == 3`; stores the three arguments in order |
| Cvec.Of4 | src/cvec.h:47-50 | valid only for `n == 4`; stores the four arguments in order |
| Cvec.Resize | src/cvec.h:52-60 | the dimension-changing constructor copies the components `v` has (up to `n`) and fills every component from `|v|` to `n` with the extension value |
| Cvec.ResizeDefaultPadsZero | src/cvec.h:52-60 | with the default extension value `T(0)`, widening keeps `v` as a prefix and pads with zeros |
| Cvec.ResizeTruncates | src/cvec.h:52-60 | narrowing to `n <= |v|` keeps exactly the prefix `v[..n]` |
| Cvec.ResizeRoundTrip | src/cvec.h:52-60 | widening and then narrowing back returns the starting vector, whatever the two extension values |
| Cvec.ExtendTwoToThree | src/main.cpp:32 | `Cvec3(Cvec2(x, y), z)`, as used by the bounce sampler, is `Cvec3(x, y, z)` |
| Cvec.ExtendThreeToFour | src/cvec.h:47-60 | `Cvec4(Cvec3(x, y, z), w)` is `Cvec4(x, y, z, w)` |
| Cvec.Neg | src/cvec.h:70-72 | unary minus negates every component |
| Cvec.NegInvolutive | src/cvec.h:70-72 | negating twice gives back the vector |
| Cvec.Add | src/cvec.h:74-79 | `+` adds componentwise and keeps the length |
| Cvec.AddCommutative | src/cvec.h:74-79 | `a + b == b + a` |
| Cvec.Sub | src/cvec.h:81-86 | `-` subtracts componentwise and keeps the length |
| Cvec.SubUndoesAdd | src/cvec.h:133-139 | `(a + b) - b == a`, and `a - b == a + (-b)` |
| Cvec.ZeroIsAdditiveIdentity | src/cvec.h:25-29 | the default vector equals the fill vector of 0 and is the identity of `+` |
| Cvec.Scale | src/cvec.h:88-93 | scalar `*` multiplies every component by the scalar |
| Cvec.ScaleIsMulFill | src/cvec.h:141-143 | the scalar product equals the elementwise product with the fill vector of the scalar |
| Cvec.DivScalar | src/cvec.h:95-101 | scalar `/` by a non-zero `k` (via the inverse `1/k`) yields components that multiply back by `k` to the operand's |
| Cvec.DivScalarUndoesScale | src/cvec.h:145-147 | `(a * k) / k == a` for non-zero `k` |
| Cvec.Mul | src/cvec.h:103-109 | elementwise `*` multiplies matching components |
| Cvec.DivEach | src/cvec.h:111-117 | elementwise `/` by a vector without zero components yields components that multiply back to the dividend's |
| Cvec.DivEachUndoesMul | src/cvec.h:111-117 | `(a * b) / b == a` elementwise when no component of `b` is zero |
| Cvec.AbsEach | src/cvec.h:186-193 | elementwise `abs` takes `fabs` of every component |
| Cvec.MaxOf3 | src/cvec.h:195-198 | the reduction `max` needs at least three components; it is at least each of components 0..2 and equals one of them |
| Cvec.MinOf3 | src/cvec.h:200-203 | the reduction `min` needs at least three components; it is at most each of components 0..2 and equals one of them |
| Cvec.MaxEach | src/cvec.h:205-212 | elementwise `max` is at least both operands' components and equals one of them at every index |
| Cvec.MinEach | src/cvec.h:214-221 | elementwise `min` is at most both operands' components and equals one of them at every index |
| Cvec.MaxMinPartition | src/cvec.h:205-221 | elementwise `max(a, b) + min(a, b) == a + b` |
| Cvec.Dot | src/cvec.h:159-166 | the reference sum of `a[i] * b[i]`, summed from index 0; its laws are stated by the lemmas below |
| Cvec.DotFromFront | src/cvec.h:159-166 | the sum of `a[i] * b[i]` that `Dot` accumulates from the back equals the sum peeled from the front: `a[0] * b[0] + dot(a[1..], b[1..])` |
| Cvec.DotLoop | src/cvec.h:159-166 | the accumulation loop of `dot` computes the sum of `a[i] * b[i]` defined by `Dot` |
| Cvec.DotOfThree | src/cvec.h:159-166 | for three components `dot` is `a0*b0 + a1*b1 + a2*b2` |
| Cvec.DotSymmetric | src/cvec.h:159-166 | `dot(a, b) == dot(b, a)` |
| Cvec.DotAddLeft | src/cvec.h:159-166 | `dot` distributes over `+` in its first argument |
| Cvec.DotScaleLeft | src/cvec.h:159-166 | a scalar factor moves out of `dot` |
| Cvec.DotSelfNonNegative | src/cvec.h:159-166 | `dot(v, v) >= 0` |
| Cvec.Norm2 | src/cvec.h:223-226 | `norm2(v)` is never negative and is 0 for the zero vector |
| Cvec.Cross | src/cvec.h:154-157 | `cross(a, b)` is orthogonal to both `a` and `b` |
| Cvec.CrossAntiCommutative | src/cvec.h:154-157 | `cross(a, b) == -cross(b, a)` |
| Cvec.Sqrt | src/cvec.h:230 | the square root is never negative and squares back to its argument whenever a root exists |
| Cvec.SqrtOfSquare | src/cvec.h:230 | the square root of `d * d` for `d >= 0` is `d` |
| Cvec.RootUnique | src/cvec.h:230 | a real has at most one non-negative square root |
| Cvec.Norm | src/cvec.h:228-231 | `norm(v)` is never negative, and squares back to `norm2(v)` whenever `norm2(v)` has a root |
| Cvec.NormOfKnownLength | src/cvec.h:228-231 | if `norm2(v) == d * d` with `d >= 0` then `norm(v) == d` |
| SdEstimators.SdBox | src/sdEstimators.h:14-16 | `sdBox(p, s)` is at least `|p[i]| - s[i]` on every axis and equals it on one axis, i.e. it is the maximum over axes 0..2 |
| SdEstimators.SdBoxSymmetric | src/sdEstimators.h:14-16 | `sdBox(-p, s) == sdBox(p, s)`: the box is symmetric through the origin |
| SdEstimators.SdBoxInside | src/sdEstimators.h:14-16 | `sdBox(p, s) <= 0` exactly when `|p[i]| <= s[i]` on all three axes |
| SdEstimators.SdSphere | src/sdEstimators.h:18-20 | `sdSphere(p, r) >= -r`, with equality at the origin |
| SdEstimators.SdSphereExact | src/sdEstimators.h:18-20 | at a point of known length `len`, `sdSphere(p, r) == len - r` |
| SdEstimators.SdPlane | src/sdEstimators.h:22-24 | `sdPlane(p, y) == |p[1] - y|`, so it is never negative |
| SdEstimators.SdPlaneHeightOnly | src/sdEstimators.h:22-24 | `sdPlane` depends only on the height `p[1]` |
| Scene.SdSphereAt | src/main.cpp:55-57 | the centred sphere is the origin sphere applied to `p - c`; it is at least `-r` and equals `-r` at the centre |
| Scene.Map | src/main.cpp:63-73 | `map(p)` is at most each of the two spheres and the floor, equals one of them, and is at least -1 |
| Scene.Gradient | src/main.cpp:75-82 | the estimated gradient's component along axis `k` is the field at `p` plus a 0.0001 step along `k` minus the field at `p` minus that step |
| Scene.ENormal | src/main.cpp:75-82 | `eNormal(p)` is `normalize` applied to the three central differences of the field with step 0.0001 |
| Scene.ENormalShiftInvariant | src/main.cpp:75-82 | adding a constant to the field leaves `eNormal` unchanged, since only differences of the field enter it |
| Scene.GradientOfHeightField | src/main.cpp:75-82 | the central-difference gradient of a field that reads only the height has zero x and z parts |
| Scene.FloorNormal | src/main.cpp:75-82 | at least one step above the floor, the floor field's `eNormal` is `normalize` of the straight-up vector `(0, 2e, 0)` |
| Scene.FloorGradient | src/main.cpp:75-82 | at least one difference step above the floor, the unnormalised estimated floor normal is `(0, 2e, 0)` |
| Marching.Step | src/main.cpp:92-94 | a non-exiting iteration increases `t` by at least `0.0001` and counts one step |
| Marching.Run | src/main.cpp:91-95 | the loop runs at most 128 steps and `t` grows by at least `0.0001` per step; stopping before the budget means an exit test fired |
| Marching.Final | src/main.cpp:86-95 | the final state has at most 128 steps and `t >= 0.01 + 0.0001 * steps` |
| Marching.Intersect | src/main.cpp:84-99 | `intersect` returns exactly -1 or a distance in `[0.01, 16)`; it is -1 iff the final `t >= 16`, otherwise it returns the final `t` |
| Marching.IntersectLoop | src/main.cpp:84-99 | the loop of `intersect` returns what `Intersect` defines |
| Marching.Shadow | src/main.cpp:101-116 | `shadow` is true iff the final `t > 16`, and whenever it is true `intersect` on the same ray returns -1 |
| Marching.ShadowLoop | src/main.cpp:101-116 | the loop of `shadow` returns what `Shadow` defines |
| Marching.ConstantFieldRun | src/main.cpp:91-95 | under a constant field `c >= 0.0001` that keeps `t` at most 16 before the last step, the loop spends its whole budget and `t` advances by exactly `c` per step |
| Marching.ExhaustedBelowTMax | src/main.cpp:97 | a field of constant 0.1 exhausts the budget at `t = 12.81`; `intersect` reports a hit at 12.81 and `shadow` reports occlusion |
| Marching.ExhaustedPastTMax | src/main.cpp:114 | a field of constant 0.125 exhausts the budget at `t = 16.01`; `shadow` reports the light visible and `intersect` a miss |
| Marching.LandsOnTMax | src/main.cpp:93-97 | a loop that stops with `t` exactly 16 (the field there is 0, below the hit epsilon) gives a miss from `intersect` and occlusion from `shadow` |
| Marching.LandsOnTMaxAndContinues | src/main.cpp:93-114 | a step that lands on `t = 16` where the field is 1 does not stop the loop (`t > 16` is false); the next step reaches 17, so `intersect` misses and `shadow` reports the light visible |
| Tracer.Randf | src/main.cpp:23-25 | `randf` lies in `[0, 0.9999]` |
| Tracer.RandfOnGrid | src/main.cpp:23-25 | `randf` is `k / 10000` for an integer `k` in `[0, 9999]` |
| Tracer.RandfPeriodic | src/main.cpp:23-25 | `randf` depends on the draw modulo 10000 and is strictly increasing within a period |
| Tracer.CameraBasis | src/main.cpp:43-45 | the camera frame has the normalised view direction as forward and a horizontal right vector, and its three vectors are pairwise orthogonal |
| Tracer.CRay | src/main.cpp:42-49 | the camera ray starts at the camera origin, and its direction is `normalize` of a vector whose coordinates along the camera frame's forward, right and up axes are `zm`, `pc[0]` and `pc[1]` times that axis's squared length |
| Tracer.DotViewVector | src/main.cpp:46 | `dot` with the unnormalised view vector `cf*zm + cr*pc[0] + cu*pc[1]` splits into the three frame terms |
| Tracer.ViewVectorCoordinates | src/main.cpp:43-46 | in the orthogonal camera frame, the view vector's coordinates along forward, right and up are `zm`, `pc[0]` and `pc[1]` times each axis's squared length |
| Tracer.ApplyLighting | src/main.cpp:118-125 | the light is grey and non-negative: `255 * max(dot(lightray, n), 0)` when `shadow` reports the sun visible, and 0 otherwise |
| Tracer.Attenuate | src/main.cpp:146 | the per-hit mask update multiplies every component by the attenuation 0.8 |
| Tracer.ShadeStep | src/main.cpp:145-148 | one shaded hit turns the mask `0.8^b` into `0.8^(b+1)` and keeps the accumulated colour non-negative |
| Tracer.MaskBounds | src/main.cpp:130 | the mask `0.8^k` lies in `(0, 1]` |
| Tracer.Bounce | src/main.cpp:140-151 | after a hit the bounce counter advances, the colour stays non-negative and the mask becomes the next power of 0.8 |
| Tracer.Trace | src/main.cpp:132-152 | the bounce loop runs at most `nb` iterations and at most one more than the hits it shades; after `k` hits every mask component is `0.8^k`; the colour is non-negative |
| Tracer.RenderColor | src/main.cpp:127-155 | `renderColor` is non-negative, white when the camera ray misses on bounce 0, and black when no bounce is allowed |
| Tracer.HitThenMiss | src/main.cpp:132-152 | a hit followed by a miss returns the direct light at the hit scaled once by 0.8 |
| Tracer.FirstShade | src/main.cpp:143-148 | the first hit adds the direct light scaled by 0.8 to black |
| Tracer.RenderColorLoop | src/main.cpp:127-155 | the loop of `renderColor`, with its early white return and break, computes `RenderColor` |
| Tracer.BounceLoop | src/main.cpp:140-151 | the body of the bounce loop after a hit computes `Bounce` |
| Tracer.ShadeComponents | src/main.cpp:145-148 | the inner per-component loop attenuates the mask and adds the masked light, as `Attenuate` and componentwise `+` and `*` describe |
| Tracer.NdcRange | src/main.cpp:163 | a pixel inside the 512x512 image with a jitter in `[0, 1)` maps into `[-AR, AR)` horizontally and `(-1, 1]` vertically |
| Tracer.CalcPixelColor | src/main.cpp:157-175 | the pixel colour is the non-negative `renderColor` of the camera ray through the pixel's screen coordinates, with 4 bounces and one sample |

## Left out

- The `main` function (file output, progress printing) and `printVec` are I/O and are not modelled.
- The elementwise `sin` and `mod` helpers are not modelled: the renderer does not use them, and they are floating-point library calls. The same goes for the `unsigned char` vector typedefs.
- The global generator `rand`/`srand` is not modelled. `Tracer.Randf` takes the raw draw as its argument, and `Tracer.CalcPixelColor` takes its two `randf` values as the jitters `jx`, `jy`. The order in which C++ evaluates the two draws is unspecified and is not modelled.
- `lambDirection` uses `cos`, `sin` and `sqrt` on random draws. It is a parameter of `Tracer.World`, indexed by the bounce number.
- `normalize` (the free function and the member) divides by a `sqrt`-based norm that may be zero. It is a parameter of `Tracer.World`. `Scene.ENormal` and `Tracer.CRay` apply it, and `Tracer.CameraBasis` and `Tracer.ApplyLighting` state their results through it.
- The renderer is proved for an arbitrary scene field. That `Scene.Map` is the field the program passes is part of the `World` it is given.
- Float and double rounding are not modelled.
  - The model has no NaN or infinity. The program does produce them, for example when `eNormal` normalises a zero-length gradient (src/cvec.h:234-236). Nothing here covers that degenerate geometry or division by zero.
  - `float` and `double` are not told apart (`randf`, `intersect` and `shadow` work in `float`).
- Cvec.Sqrt: that every non-negative real has a square root is not proved. "Squares back" therefore holds only where a root exists, and exact values of `norm` are proved only where a root is exhibited.
- Cvec.Norm: `norm(v) * norm(v) == norm2(v)` is stated only under the hypothesis that `norm2(v)` has a root, for the reason given for `Cvec.Sqrt`.
- Cvec.Norm2: the contract states non-negativity and the value 0 at the zero vector. The converse, that only the zero vector has `norm2` 0, is not stated.
- Cvec.DivScalar: requires a non-zero divisor. IEEE division by zero is not modelled.
- Cvec.DivEach: requires every divisor component to be non-zero, for the same reason.
- Cvec.MaxOf3: requires at least three components, because the reduction reads components 0..2 whatever `n` is.
- Scene.Map: the box estimator it evaluates is unused by the union and does not constrain the result.
- `sdBox` and `sdPlane` are duplicated in the renderer's source (src/main.cpp:51-53, 59-61) with the same bodies as `SdEstimators.SdBox` and `SdEstimators.SdPlane`. The model defines each once.
- Tracer.RenderColor: `nb` is a natural number. `renderColor` takes a `float`, and a loop over a fractional `nb` is not modelled. `Tracer.CalcPixelColor` fixes it at 4.
- Tracer.CalcPixelColor: the number of samples per pixel is fixed at 1, as `nRays` is in `calcPixelColor`. A sum of several samples divided by their count is not modelled.
