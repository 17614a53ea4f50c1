# Ray tracer core in Dafny

This project models the geometric core of a small TypeScript ray tracer (`src/rayTracer.ts`).
It follows the code as written, including its quirks, and proves what that code actually computes.

The model covers:
- the `Vector` and `Color` helper classes: component-wise arithmetic, dot and cross products,
  magnitude, normalization, distance, and the display conversion `toDrawingColor`;
- the scene state (spheres, lights, ambient light, background, field of view, eye position and
  the camera vectors `forward`, `right`, `up`) and the API functions that populate it;
- `eyeRay`, which builds a camera ray per pixel;
- `traceRay`, with its loop over the spheres (the "closest point" selection) and its loop over
  the lights (the Lambertian shading sum);
- the per-pixel pipeline `toDrawingColor(traceRay(eyeRay(x, y)))` and the row-by-row rendering
  of `draw_scene`, with the drawn colours returned instead of painted.

JavaScript numbers are modelled as exact `real`s. `Math.sqrt` is a function parameter that
returns the non-negative square root of every non-negative argument (`Vectors.IsSqrt`).
`Math.PI / 180` is an abstract positive constant, `deg2rad`.

Modules:
- `vectors.dfy` (`Vectors`): the `Vector` class and its algebra, including Lagrange's identity
  and the Cauchy–Schwarz inequality.
- `colors.dfy` (`Colors`): the `Color` class and `toDrawingColor`.
- `tracing.dfy` (`Tracing`): the per-sphere quadratic, the selection loop, the shading loop and
  `traceRay`, all as pure functions with lemmas.
- `raytracer.dfy` (`Tracer`): the `RayTracer` class. It holds the scene state, the API methods
  that change it, `eyeRay`, and an imperative `TraceRay`. `TraceRay` keeps both source loops and
  is proved equal to `Tracing.Trace`.

Quirks of the code that the model keeps:
- The quadratic's `c` is `|start − center|²`; the radius is never subtracted. By Cauchy–Schwarz
  the discriminant is therefore never positive over the reals, so roots are computed only when it
  is exactly zero.
- `closest_point` is reset to `{point: ray.start, shape: sphere}` at the start of every iteration.
- `if (found_point = false || d1 < d2)` assigns `found_point = (d1 < d2)`. The comparison is
  against `distance(ray.start, ray.start) = 0`, so it is always false and neither update fires.
- `if (found_point = false)` assigns `false`, so the shading branch always runs and the
  background colour is never returned.
- The image therefore shades the eye position on the last sphere for every pixel.
  `Tracer.RayTracer.UniformImage` proves that every pixel draws the same colour.
- `reset_scene` writes only local `U`, `V`, `W`. It leaves `forward`, `right` and `up` unchanged,
  although its own comment (src/rayTracer.ts:166) says it initializes all the data structures and
  variables. The model follows the code.
- The ambient light is stored but never added to the shading.

## Model

| member | source | states |
|---|---|---|
| Vectors.Times | src/rayTracer.ts:10 | no ensures; stated by `Vectors.TimesOne`, `Vectors.DotLinear` and `Vectors.BasisCoordinates` |
| Vectors.Minus | src/rayTracer.ts:11 | no ensures; stated by `Vectors.MinusPlus` |
| Vectors.Plus | src/rayTracer.ts:12 | no ensures; stated by `Vectors.MinusPlus` and `Vectors.DotLinear` |
| Vectors.Dot | src/rayTracer.ts:13 | no ensures; stated by `Vectors.DotLinear`, `Vectors.CauchySchwarz` and `Vectors.MagSquared` |
| Vectors.Cross | src/rayTracer.ts:20-24 | the cross product is orthogonal to both operands; more in `Vectors.CrossAntiCommutative` and `Vectors.Lagrange` |
| Vectors.Norm | src/rayTracer.ts:15-19 | for a nonzero vector, the result has squared length one |
| Vectors.Mag | src/rayTracer.ts:14 | a magnitude is never negative |
| Vectors.MagSquared | src/rayTracer.ts:14 | the squared magnitude equals the dot product of the vector with itself |
| Vectors.NormUnit | src/rayTracer.ts:15-19 | for a nonzero vector, norm has squared length one, and scaling it back by the magnitude gives the original vector |
| Vectors.NormIsUnit | src/rayTracer.ts:15-19 | for a nonzero vector, norm has magnitude exactly one |
| Vectors.TimesOne | src/rayTracer.ts:10 | scaling by one is the identity, so `times(1, forward)` in eyeRay is `forward` |
| Vectors.MinusPlus | src/rayTracer.ts:11-12 | plus undoes minus and minus undoes plus |
| Vectors.DotLinear | src/rayTracer.ts:10-13 | dot is symmetric, and linear in its first argument under plus and times |
| Vectors.CrossAntiCommutative | src/rayTracer.ts:20-24 | `cross(a, b) = −cross(b, a)` and `cross(a, a) = 0` |
| Vectors.CrossOrthogonal | src/rayTracer.ts:20-24 | the cross product is orthogonal to both of its operands |
| Vectors.Lagrange | src/rayTracer.ts:13-24 | Lagrange's identity: `(a·a)(b·b) − (a·b)² = |a × b|²` |
| Vectors.CauchySchwarz | src/rayTracer.ts:13 | `(a·b)² ≤ (a·a)(b·b)` |
| Vectors.BasisCoordinates | src/rayTracer.ts:10-13 | in an orthogonal basis, dotting `p·u + q·v + k·w` with a basis vector gives that vector's coefficient times its squared length |
| Vectors.UnitDotBounded | src/rayTracer.ts:13 | the dot product of two unit vectors lies in [−1, 1] |
| Vectors.Square | src/rayTracer.ts:27 | `Math.pow(a, 2)` is never negative |
| Vectors.Distance | src/rayTracer.ts:26-28 | a distance is never negative |
| Vectors.DistanceSquared | src/rayTracer.ts:26-28 | the squared distance equals the squared length of the difference |
| Vectors.DistanceLaws | src/rayTracer.ts:26-28 | the distance is the magnitude of the difference, and it is symmetric |
| Vectors.DistanceSelf | src/rayTracer.ts:26-28 | the distance from a point to itself is zero |
| Colors.Scale | src/rayTracer.ts:36 | no ensures; stated by `Colors.Distributive` and `Colors.NonNegativeClosed` |
| Colors.Plus | src/rayTracer.ts:37 | no ensures; stated by `Colors.PlusLaws`, `Colors.Distributive` and `Colors.NonNegativeClosed` |
| Colors.Times | src/rayTracer.ts:38 | no ensures; stated by `Colors.Distributive` and `Colors.NonNegativeClosed` |
| Colors.ToDrawingColor | src/rayTracer.ts:42-48 | no ensures; stated by `Colors.DrawingColorRange` and `Colors.NamedColors` |
| Colors.Channel | src/rayTracer.ts:42-48 | a channel is the floor of `255 · min(d, 1)`. It is at most 255. It is exactly 255 iff `d ≥ 1`. It is in [0, 255] when `d` is in [0, 1]. It is negative iff `d` is negative, since only the upper side is clamped |
| Colors.DrawingColorRange | src/rayTracer.ts:42-48 | every drawn channel is at most 255. A non-negative colour draws into [0, 255]. Every input channel ≥ 1 draws as 255 |
| Colors.NamedColors | src/rayTracer.ts:39-48 | white draws as (255, 255, 255), grey as (127, 127, 127), black as (0, 0, 0) |
| Colors.PlusLaws | src/rayTracer.ts:37 | colour addition is commutative and associative, with black as identity |
| Colors.Distributive | src/rayTracer.ts:36-38 | the Hadamard product and scaling distribute over colour addition |
| Colors.NonNegativeClosed | src/rayTracer.ts:36-38 | scaling by a non-negative factor, the Hadamard product and the sum all keep colours non-negative |
| Tracing.CoefA | src/rayTracer.ts:313 | `a` is never negative; its vector form is in `Tracing.Coefficients` |
| Tracing.CoefB | src/rayTracer.ts:314 | no ensures; stated by `Tracing.Coefficients` |
| Tracing.CoefC | src/rayTracer.ts:315 | `c` is never negative; its vector form and independence of the radius are in `Tracing.Coefficients` |
| Tracing.Discriminant | src/rayTracer.ts:317 | no ensures; stated by `Tracing.DiscriminantNonPositive` |
| Tracing.Coefficients | src/rayTracer.ts:313-315 | `a = dir·dir ≥ 0`, `b = 2 (start − center)·dir`, `c = |start − center|² ≥ 0`, and `c` does not depend on the radius |
| Tracing.DiscriminantNonPositive | src/rayTracer.ts:313-317 | the discriminant `b² − 4ac` is never positive for any ray and sphere |
| Tracing.Quotient | src/rayTracer.ts:320-321 | the root division is finite iff the divisor `2a` is nonzero, and then the quotient times the divisor is the dividend |
| Tracing.PointAt | src/rayTracer.ts:322-323 | the point is finite iff `t` is, and then it lies at `start + t·dir` |
| Tracing.NeverCloserThanStart | src/rayTracer.ts:327-332 | no candidate point is strictly closer to the ray start than the ray start itself |
| Tracing.SelectStep | src/rayTracer.ts:309-336 | no ensures; stated by `Tracing.SelectStepResult` |
| Tracing.Select | src/rayTracer.ts:309-337 | no ensures; stated by `Tracing.SelectionResult` |
| Tracing.SelectStepResult | src/rayTracer.ts:311-336 | whatever the discriminant, one iteration leaves `{point: ray.start, shape: sphere}` as the closest point, with `found_point` false |
| Tracing.SelectionResult | src/rayTracer.ts:294-337 | after the loop, the closest point is the ray start on the last sphere, or the placeholder point and sphere when there are no spheres. `found_point` is false |
| Tracing.Lightness | src/rayTracer.ts:349-351 | `max(0, n·l)` is non-negative, and at most 1 when `n` is a unit vector |
| Tracing.LightnessPositive | src/rayTracer.ts:349-351 | a light contributes (positive lightness) iff it lies strictly on the normal's side of the point |
| Tracing.Contribution | src/rayTracer.ts:349-355 | no ensures; stated by `Tracing.ContributionChannels` |
| Tracing.Shade | src/rayTracer.ts:347-356 | no ensures; stated by `Tracing.ShadeStep`, `Tracing.ShadeAppend`, `Tracing.ShadeNonNegative` and `Tracing.ShadeMergeLights` |
| Tracing.ContributionChannels | src/rayTracer.ts:353-355 | one light adds `shape.color · (light.color · lightness)` to each channel |
| Tracing.ShadeStep | src/rayTracer.ts:347-356 | one iteration of the light loop turns the sum over the first k lights into the sum over the first k + 1 |
| Tracing.ShadeAppend | src/rayTracer.ts:347-356 | shading a concatenation of two light lists is the sum of their shadings |
| Tracing.ShadeNonNegative | src/rayTracer.ts:347-356 | non-negative surface and light colours shade to a non-negative colour |
| Tracing.ShadeMergeLights | src/rayTracer.ts:347-356 | two lights at the same position shade like one light of the summed colour |
| Tracing.Normal | src/rayTracer.ts:345-346 | the normal has unit length whenever the point is not the sphere's centre |
| Tracing.Trace | src/rayTracer.ts:294-362 | no ensures; stated by `Tracing.TraceResult`, `Tracing.TraceNoLights`, `Tracing.TraceNonNegative` and `Tracer.RayTracer.TraceRay` |
| Tracing.TraceResult | src/rayTracer.ts:339-362 | traceRay shades the ray start on the last sphere with the normal and all lights. Its result does not depend on the background or on the ray direction |
| Tracing.TraceNoLights | src/rayTracer.ts:345-362 | with no lights the result is black, whatever the background |
| Tracing.TraceNonNegative | src/rayTracer.ts:345-362 | non-negative sphere and light colours give a non-negative result |
| Tracer.CameraBasis | src/rayTracer.ts:240-242 | `right`, `up` and `forward` as set_eye derives them are pairwise orthogonal |
| Tracer.RayTracer.constructor | src/rayTracer.ts:140-142 | keeps the canvas and pixel sizes. Starts with empty sphere and light lists and zero colours, field of view, eye and camera vectors |
| Tracer.RayTracer.ResetScene | src/rayTracer.ts:165-180 | empties spheres and lights and zeroes fov, ambient light, background and eye. Leaves forward, right and up unchanged |
| Tracer.RayTracer.NewLight | src/rayTracer.ts:183-194 | appends exactly `Light(Color(r,g,b), Vector(x,y,z))`. Earlier lights and all other state are unchanged |
| Tracer.RayTracer.AmbientLight | src/rayTracer.ts:197-203 | replaces the ambient colour (last write wins) and changes nothing else |
| Tracer.RayTracer.SetBackground | src/rayTracer.ts:206-208 | replaces the background colour and changes nothing else |
| Tracer.RayTracer.SetFov | src/rayTracer.ts:211-216 | stores `theta · deg2rad` as fov and changes nothing else |
| Tracer.RayTracer.SetEye | src/rayTracer.ts:225-244 | eye is the first point, `forward = lookAt − eye`, `right = forward × upHint`, `up = forward × right`, and the three are pairwise orthogonal. The scene is unchanged |
| Tracer.RayTracer.NewSphere | src/rayTracer.ts:247-266 | appends exactly one sphere with the given colour, centre, radius and coefficients, and changes nothing else |
| Tracer.RayTracer.EyeRay | src/rayTracer.ts:271-284 | starts at the eye, with `dir = ((2i − fov)/width)·right + ((2j − fov)/height − 1)·up + forward`. So `dir·forward = forward·forward`, and the components along right and up are those coefficients times the squared lengths |
| Tracer.RayTracer.TraceRay | src/rayTracer.ts:287-362 | the two loops compute exactly `Tracing.Trace`: the closest point from the sphere loop, then the in-order shading sum over the lights. The inner `let r` leaves the accumulators at zero during the sphere loop |
| Tracer.RayTracer.Pixel | src/rayTracer.ts:392-395 | no ensures; stated by `Tracer.RayTracer.UniformImage` and `Tracer.RayTracer.RenderRow` |
| Tracer.RayTracer.UniformImage | src/rayTracer.ts:271-362 | every pixel of the image draws the same colour |
| Tracer.RayTracer.RenderRow | src/rayTracer.ts:389-399 | returns row y with `screenWidth` drawn colours, each `toDrawingColor(traceRay(eyeRay(x, y)))` |
| Tracer.RayTracer.DrawScene | src/rayTracer.ts:379-411 | returns `screenHeight` rows, top to bottom, each one as renderRow produces it |

## Left out

- Canvas and DOM: the constructor's canvas set-up, `clear_screen`, `fillStyle`/`fillRect` and the `requestAnimationFrame` scheduling of rows. `DrawScene` returns the drawn colours row by row instead of painting them.
- Initial state: the module-level variables are `undefined` until `reset_scene` and `set_eye` run. The model's constructor starts from the state `reset_scene` leaves, with zero camera vectors.
- `U`, `V`, `W`: `set_eye` stores the normalized eye, look-at and up vectors in these globals, and nothing reads them. They are dead data and are not modelled. The same goes for the unused `intersection` global and the unused `depth` parameter of `traceRay`.
- The ambient light, `k_ambient`, `k_specular` and `specular_pow` are stored but never read by the shader. So they take no part in any result.
- IEEE doubles: rounding, `Infinity` and `NaN` are not modelled. Non-finite root divisions (`2a = 0`) are modelled as `None`, and every comparison with them is false, as in JavaScript.
- `Math.sqrt` and `Math.PI` are parameters of the class (`sqrt`, `deg2rad`), not computed.
- Vectors.Norm: requires a nonzero magnitude. The source scales by `Infinity` there and produces non-finite components.
- Tracing.Lightness: requires the light not to sit on the shaded point, where the source's `norm` yields NaN.
- Tracer.RayTracer.TraceRay: requires `ShadingDefined` when there are lights. The shaded point must not be its sphere's centre, and no light may sit on it. Otherwise the source produces a NaN colour, which `real` cannot represent. With no spheres the placeholder point is its own centre, so that case is covered only without lights.
- Tracer.RayTracer.EyeRay: requires `Valid()`, which includes a positive canvas width and height. A zero size divides by zero in the source.
- Tracer.RayTracer.RenderRow: requires the scene to be shadable from the eye position, for the reason given for TraceRay.
- Tracer.RayTracer.DrawScene: `draw_scene` calls `renderRow` once before it tests `y < screenHeight`, so with `screenHeight = 0` the source still traces row 0 (and paints nothing, since the pixel height is then non-finite). The model's loop traces no row in that case.
- Tracer.RayTracer.DrawScene: requires the scene to be shadable from the eye position, for the reason given for TraceRay.
